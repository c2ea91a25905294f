/**
  * The round-trip law of the path codec: `unflattenJSON(flattenJSON(v))`
  * gives back `v` for an object `v` whose field names the path syntax can
  * carry and which holds no empty container; an array at the root comes
  * back wrapped under the field name "".
  */
module RoundTrip {
  import opened Wrappers
  import opened Dicts
  import opened JsonValues
  import opened JsNumbers
  import opened KeyPaths
  import opened PathCodec

  /**
    * A field name that survives the path syntax: non-empty (an empty name
    * under an empty parent would vanish from the path), free of `.` and `[`
    * (which the segment parser splits on), not the name of a member every
    * object inherits (which `unflattenJSON` would find already present),
    * and not read as a number (which would make `unflattenJSON` rebuild its
    * parent as an array).
    */
  predicate ValidName(k: string) {
    k != "" && '.' !in k && '[' !in k && !InheritedName(k) && IsNaNNumber(k)
  }

  /** Field `i` of an object has a valid name and a well-formed value. */
  predicate FieldOk(v: Json, i: nat)
    requires v.Obj? && i < |v.fields|
    decreases v, 0
  {
    ValidName(v.fields[i].0) && WellFormed(v.fields[i].1)
  }

  /** The fields of an object carry distinct valid names and well-formed values. */
  predicate FieldsWellFormed(v: Json)
    requires v.Obj?
    decreases v, 1
  {
    NoDup(Keys(v.fields)) &&
    forall i: nat {:trigger FieldOk(v, i)} :: i < |v.fields| ==> FieldOk(v, i)
  }

  /** No empty container anywhere, valid field names, arrays within JavaScript's length limit. */
  predicate WellFormed(v: Json)
    decreases v, 2
  {
    match v
    case Arr(es) => 0 < |es| < MaxArrayLength && forall i :: 0 <= i < |es| ==> WellFormed(es[i])
    case Obj(fs) => 0 < |fs| && FieldsWellFormed(v)
    case _ => true
  }

  /** A document root: an object, possibly empty, whose fields are well formed. */
  predicate Document(v: Json) {
    v.Obj? && FieldsWellFormed(v)
  }

  // ---------------------------------------------------------------------------
  // Leaves as segment paths

  /** The leaves of a container, each with its path as a list of segments relative to `v`. */
  function Leaves(v: Json): seq<(seq<string>, Json)>
    decreases v, 1, 0
  {
    match v
    case Arr(es) => ElemLeaves(v, |es|)
    case Obj(fs) => FieldLeaves(v, |fs|)
    case _ => []
  }

  function ElemLeaves(v: Json, n: nat): seq<(seq<string>, Json)>
    requires v.Arr? && n <= |v.elems|
    decreases v, 0, n
  {
    if n == 0 then [] else ElemLeaves(v, n - 1) + ItemLeaves(v.elems[n - 1], Itos(n - 1))
  }

  function FieldLeaves(v: Json, n: nat): seq<(seq<string>, Json)>
    requires v.Obj? && n <= |v.fields|
    decreases v, 0, n
  {
    if n == 0 then [] else FieldLeaves(v, n - 1) + ItemLeaves(v.fields[n - 1].1, v.fields[n - 1].0)
  }

  function ItemLeaves(item: Json, seg: string): seq<(seq<string>, Json)>
    decreases item, 2, 0
  {
    if IsContainer(item) then PrefixAll([seg], Leaves(item)) else [([seg], item)]
  }

  function PrefixAll(pre: seq<string>, es: seq<(seq<string>, Json)>): seq<(seq<string>, Json)> {
    seq(|es|, i requires 0 <= i < |es| => (pre + es[i].0, es[i].1))
  }

  /** The container of the same kind as `v`, empty. */
  function EmptyLike(v: Json): Json {
    if v.Obj? then Obj([]) else Arr([])
  }

  predicate DistinctPaths(es: seq<(seq<string>, Json)>) {
    forall i, j :: 0 <= i < j < |es| ==> es[i].0 != es[j].0
  }

  lemma PrefixAllAppend(pre: seq<string>, a: seq<(seq<string>, Json)>, b: seq<(seq<string>, Json)>)
    ensures PrefixAll(pre, a + b) == PrefixAll(pre, a) + PrefixAll(pre, b)
  {
  }

  lemma PrefixAllNested(p: seq<string>, q: seq<string>, es: seq<(seq<string>, Json)>)
    ensures PrefixAll(p, PrefixAll(q, es)) == PrefixAll(p + q, es)
  {
    forall i | 0 <= i < |es| ensures p + (q + es[i].0) == (p + q) + es[i].0 {
    }
  }

  lemma PrefixAllEmpty(es: seq<(seq<string>, Json)>)
    ensures PrefixAll([], es) == es
  {
    forall i | 0 <= i < |es| ensures [] + es[i].0 == es[i].0 {
    }
  }

  lemma SegmentEntriesAppend(a: Dict<Json>, b: Dict<Json>)
    ensures SegmentEntries(a + b) == SegmentEntries(a) + SegmentEntries(b)
  {
  }

  // ---------------------------------------------------------------------------
  // The segments of every flattened path

  /** The segments a path under `parent` starts with: none for the fields of a root object. */
  function Base(v: Json, parent: string): seq<string> {
    if parent == "" && v.Obj? then [] else Segments(parent)
  }

  /** Parsing the paths that flattening builds gives exactly the segment paths of the leaves. */
  lemma {:induction false} EntriesSegments(v: Json, parent: string)
    requires v.Arr? || v.Obj?
    requires WellFormed(v) || Document(v)
    ensures SegmentEntries(Entries(v, parent)) == PrefixAll(Base(v, parent), Leaves(v))
    decreases v, 1, 0
  {
    match v
    case Arr(es) => ElemSegments(v, |es|, parent);
    case Obj(fs) => FieldSegments(v, |fs|, parent);
  }

  lemma {:induction false} ElemSegments(v: Json, n: nat, parent: string)
    requires v.Arr? && n <= |v.elems| && WellFormed(v)
    ensures SegmentEntries(ElemEntries(v, n, parent)) == PrefixAll(Segments(parent), ElemLeaves(v, n))
    decreases v, 0, n
  {
    if n > 0 {
      ElemSegments(v, n - 1, parent);
      var x, p := v.elems[n - 1], IndexPath(parent, n - 1);
      SegmentEntriesAppend(ElemEntries(v, n - 1, parent), ItemEntries(x, p));
      IndexPathSegments(parent, n - 1);
      ItemSegments(x, p, Segments(parent), Itos(n - 1));
      PrefixAllAppend(Segments(parent), ElemLeaves(v, n - 1), ItemLeaves(x, Itos(n - 1)));
    }
  }

  lemma {:induction false} FieldSegments(v: Json, n: nat, parent: string)
    requires v.Obj? && n <= |v.fields| && FieldsWellFormed(v)
    ensures SegmentEntries(FieldEntries(v, n, parent)) == PrefixAll(Base(v, parent), FieldLeaves(v, n))
    decreases v, 0, n
  {
    if n > 0 {
      FieldSegments(v, n - 1, parent);
      FieldStepSegments(v, n, parent);
      var k, x := v.fields[n - 1].0, v.fields[n - 1].1;
      SegmentEntriesAppend(FieldEntries(v, n - 1, parent), ItemEntries(x, FieldPath(parent, k)));
      PrefixAllAppend(Base(v, parent), FieldLeaves(v, n - 1), ItemLeaves(x, k));
    }
  }

  lemma FieldStepSegments(v: Json, n: nat, parent: string)
    requires v.Obj? && 0 < n <= |v.fields| && FieldsWellFormed(v)
    ensures SegmentEntries(ItemEntries(v.fields[n - 1].1, FieldPath(parent, v.fields[n - 1].0)))
         == PrefixAll(Base(v, parent), ItemLeaves(v.fields[n - 1].1, v.fields[n - 1].0))
    decreases v, 0, n - 1
  {
    var k, x := v.fields[n - 1].0, v.fields[n - 1].1;
    assert FieldOk(v, n - 1);
    FieldItemSegments(x, parent, k, Base(v, parent));
  }

  lemma {:induction false} FieldItemSegments(x: Json, parent: string, k: string, base: seq<string>)
    requires ValidName(k) && WellFormed(x)
    requires base == if parent == "" then [] else Segments(parent)
    ensures SegmentEntries(ItemEntries(x, FieldPath(parent, k))) == PrefixAll(base, ItemLeaves(x, k))
    decreases x, 2, 1
  {
    if parent == "" {
      NameSegments(k);
    } else {
      FieldPathSegments(parent, k);
    }
    ItemSegments(x, FieldPath(parent, k), base, k);
  }

  lemma {:induction false} ItemSegments(x: Json, path: string, base: seq<string>, seg: string)
    requires WellFormed(x) && path != "" && Segments(path) == base + [seg]
    ensures SegmentEntries(ItemEntries(x, path)) == PrefixAll(base, ItemLeaves(x, seg))
    decreases x, 2, 0
  {
    if IsContainer(x) {
      EntriesSegments(x, path);
      PrefixAllNested(base, [seg], Leaves(x));
    }
  }

  // ---------------------------------------------------------------------------
  // Distinct leaves, hence distinct flat keys

  /** Every leaf path of the first `n` fields is non-empty and starts with one of their names. */
  lemma {:induction false} FieldLeavesDistinct(v: Json, n: nat)
    requires v.Obj? && n <= |v.fields| && FieldsWellFormed(v)
    ensures DistinctPaths(FieldLeaves(v, n))
    ensures forall i :: 0 <= i < |FieldLeaves(v, n)| ==>
      |FieldLeaves(v, n)[i].0| > 0 && FieldLeaves(v, n)[i].0[0] in Keys(v.fields)[..n]
    decreases v, 0, n
  {
    if n > 0 {
      FieldLeavesDistinct(v, n - 1);
      var (k, x) := v.fields[n - 1];
      assert FieldOk(v, n - 1);
      assert k == Keys(v.fields)[n - 1];
      assert k !in Keys(v.fields)[..n - 1];
      ItemLeavesDistinct(x, k);
      var a, b := FieldLeaves(v, n - 1), ItemLeaves(x, k);
      assert Keys(v.fields)[..n - 1] <= Keys(v.fields)[..n];
      assert forall i :: 0 <= i < |a| ==> a[i].0[0] in Keys(v.fields)[..n - 1];
    }
  }

  lemma {:induction false} ElemLeavesDistinct(v: Json, n: nat)
    requires v.Arr? && n <= |v.elems| && WellFormed(v)
    ensures DistinctPaths(ElemLeaves(v, n))
    ensures forall i :: 0 <= i < |ElemLeaves(v, n)| ==>
      |ElemLeaves(v, n)[i].0| > 0 && AllDigits(ElemLeaves(v, n)[i].0[0]) && DigitsValue(ElemLeaves(v, n)[i].0[0]) < n
    decreases v, 0, n
  {
    if n > 0 {
      ElemLeavesDistinct(v, n - 1);
      var x := v.elems[n - 1];
      ItemLeavesDistinct(x, Itos(n - 1));
    }
  }

  lemma {:induction false} ItemLeavesDistinct(x: Json, seg: string)
    requires WellFormed(x)
    ensures DistinctPaths(ItemLeaves(x, seg))
    ensures forall i :: 0 <= i < |ItemLeaves(x, seg)| ==>
      |ItemLeaves(x, seg)[i].0| > 0 && ItemLeaves(x, seg)[i].0[0] == seg
    decreases x, 2, 0
  {
    if IsContainer(x) {
      LeavesDistinct(x);
      var l := Leaves(x);
      forall i, j | 0 <= i < j < |l| ensures ([seg] + l[i].0) != ([seg] + l[j].0) {
        assert ([seg] + l[i].0)[1..] == l[i].0;
        assert ([seg] + l[j].0)[1..] == l[j].0;
      }
    }
  }

  lemma {:induction false} LeavesDistinct(v: Json)
    requires (v.Arr? || v.Obj?) && (WellFormed(v) || Document(v))
    ensures DistinctPaths(Leaves(v))
    decreases v, 1, 0
  {
    match v
    case Arr(es) => ElemLeavesDistinct(v, |es|);
    case Obj(fs) => FieldLeavesDistinct(v, |fs|);
  }

  /** The paths that flattening a document or a well-formed array produces are pairwise distinct. */
  lemma FlatKeysDistinct(v: Json)
    requires Document(v) || (v.Arr? && WellFormed(v))
    ensures NoDup(Keys(Entries(v, "")))
  {
    var e := Entries(v, "");
    EntriesSegments(v, "");
    LeavesDistinct(v);
    var segs := SegmentEntries(e);
    forall i, j | 0 <= i < j < |e| ensures e[i].0 != e[j].0 {
      assert segs[i].0 == Segments(e[i].0) && segs[j].0 == Segments(e[j].0);
      var b := Base(v, "");
      assert segs[i].0 == b + Leaves(v)[i].0 && segs[j].0 == b + Leaves(v)[j].0;
      assert (b + Leaves(v)[i].0)[|b|..] == Leaves(v)[i].0;
      assert (b + Leaves(v)[j].0)[|b|..] == Leaves(v)[j].0;
    }
  }

  // ---------------------------------------------------------------------------
  // Rebuilding

  /** Placing a value never turns a container into a leaf. */
  lemma InsertKeepsContainer(node: Json, segs: seq<string>, x: Json)
    requires IsContainer(node)
    ensures Insert(node, segs, x).Some? ==> IsContainer(Insert(node, segs, x).value)
  {
  }

  lemma {:induction false} InsertAllKeepsContainer(t: Json, es: seq<(seq<string>, Json)>)
    requires IsContainer(t)
    ensures InsertAll(t, es).Some? ==> IsContainer(InsertAll(t, es).value)
    decreases |es|
  {
    if es != [] {
      InsertAllKeepsContainer(t, es[..|es| - 1]);
      var prev := InsertAll(t, es[..|es| - 1]);
      if prev.Some? {
        InsertKeepsContainer(prev.value, es[|es| - 1].0, es[|es| - 1].1);
      }
    }
  }

  /** Leaves below field `k` of an object go into the container already there. */
  lemma {:induction false} LiftObj(pre: Dict<Json>, k: string, s: Json, m: seq<(seq<string>, Json)>)
    requires k !in Keys(pre) && IsContainer(s)
    ensures InsertAll(Obj(pre + [(k, s)]), PrefixAll([k], m))
         == (match InsertAll(s, m) case None => None case Some(u) => Some(Obj(pre + [(k, u)])))
    decreases |m|
  {
    if m != [] {
      var init, e := m[..|m| - 1], m[|m| - 1];
      assert PrefixAll([k], m) == PrefixAll([k], init) + [([k] + e.0, e.1)];
      assert PrefixAll([k], m)[..|m| - 1] == PrefixAll([k], init);
      LiftObj(pre, k, s, init);
      InsertAllKeepsContainer(s, init);
      var prev := InsertAll(s, init);
      if prev.Some? {
        var u := prev.value;
        LastEntry(pre, k, u, u);
        InsertStep(Obj(pre + [(k, u)]), k, e.0, e.1);
        var sub := Insert(u, e.0, e.1);
        if sub.Some? {
          LastEntry(pre, k, u, sub.value);
        }
      }
    }
  }

  /** Leaves below the last element of an array go into the container already there. */
  lemma {:induction false} LiftArr(pre: seq<Json>, s: Json, m: seq<(seq<string>, Json)>)
    requires |pre| < MaxArrayLength && IsContainer(s)
    ensures InsertAll(Arr(pre + [s]), PrefixAll([Itos(|pre|)], m))
         == (match InsertAll(s, m) case None => None case Some(u) => Some(Arr(pre + [u])))
    decreases |m|
  {
    var k := Itos(|pre|);
    if m != [] {
      var init, e := m[..|m| - 1], m[|m| - 1];
      assert PrefixAll([k], m) == PrefixAll([k], init) + [([k] + e.0, e.1)];
      assert PrefixAll([k], m)[..|m| - 1] == PrefixAll([k], init);
      LiftArr(pre, s, init);
      InsertAllKeepsContainer(s, init);
      var prev := InsertAll(s, init);
      if prev.Some? {
        var u := prev.value;
        ItosIsArrayIndex(|pre|);
        InsertStep(Arr(pre + [u]), k, e.0, e.1);
        var sub := Insert(u, e.0, e.1);
        if sub.Some? {
          assert (pre + [u])[|pre| := sub.value] == pre + [sub.value];
        }
      }
    }
  }

  /** The first leaf of a well-formed container starts with its first field name, or with "0". */
  lemma {:induction false} FirstLeaf(v: Json)
    requires (v.Arr? || v.Obj?) && WellFormed(v)
    ensures |Leaves(v)| > 0 && |Leaves(v)[0].0| > 0
    ensures Leaves(v)[0].0[0] == if v.Obj? then v.fields[0].0 else Itos(0)
    decreases v, 1, 0
  {
    match v
    case Arr(es) => ElemFirstLeaf(v, |es|);
    case Obj(fs) => FieldFirstLeaf(v, |fs|);
  }

  lemma {:induction false} ElemFirstLeaf(v: Json, n: nat)
    requires v.Arr? && 0 < n <= |v.elems| && WellFormed(v)
    ensures |ElemLeaves(v, n)| > 0 && |ElemLeaves(v, n)[0].0| > 0 && ElemLeaves(v, n)[0].0[0] == Itos(0)
    decreases v, 0, n
  {
    if n == 1 {
      ItemLeavesNonEmpty(v.elems[0], Itos(0));
    } else {
      ElemFirstLeaf(v, n - 1);
    }
  }

  lemma {:induction false} FieldFirstLeaf(v: Json, n: nat)
    requires v.Obj? && 0 < n <= |v.fields| && FieldsWellFormed(v)
    ensures |FieldLeaves(v, n)| > 0 && |FieldLeaves(v, n)[0].0| > 0 && FieldLeaves(v, n)[0].0[0] == v.fields[0].0
    decreases v, 0, n
  {
    if n == 1 {
      assert FieldOk(v, 0);
      ItemLeavesNonEmpty(v.fields[0].1, v.fields[0].0);
    } else {
      FieldFirstLeaf(v, n - 1);
    }
  }

  lemma {:induction false} ItemLeavesNonEmpty(x: Json, seg: string)
    requires WellFormed(x)
    ensures |ItemLeaves(x, seg)| > 0 && |ItemLeaves(x, seg)[0].0| > 0 && ItemLeaves(x, seg)[0].0[0] == seg
    decreases x, 2, 0
  {
    if IsContainer(x) {
      FirstLeaf(x);
    }
  }

  /** Placing a well-formed container's leaves, in order, into an empty container of its kind rebuilds it. */
  lemma {:induction false} Build(v: Json)
    requires (v.Arr? || v.Obj?) && WellFormed(v)
    ensures InsertAll(EmptyLike(v), Leaves(v)) == Some(v)
    decreases v, 1, 0
  {
    match v
    case Arr(es) =>
      ElemsBuild(v, |es|);
      assert es[..|es|] == es;
    case Obj(fs) =>
      FieldsBuild(v, |fs|);
      assert fs[..|fs|] == fs;
  }

  lemma {:induction false} FieldsBuild(v: Json, n: nat)
    requires v.Obj? && n <= |v.fields| && FieldsWellFormed(v)
    ensures InsertAll(Obj([]), FieldLeaves(v, n)) == Some(Obj(v.fields[..n]))
    decreases v, 0, n, 1
  {
    if n == 0 {
      assert v.fields[..0] == [];
    } else {
      FieldsBuildStep(v, n);
    }
  }

  /** One step of FieldsBuild: the leaves of field `n - 1` append that field to the object the earlier fields build. */
  lemma FieldsBuildStep(v: Json, n: nat)
    requires v.Obj? && 0 < n <= |v.fields| && FieldsWellFormed(v)
    ensures InsertAll(Obj([]), FieldLeaves(v, n)) == Some(Obj(v.fields[..n]))
    decreases v, 0, n, 0
  {
    var k, x := v.fields[n - 1].0, v.fields[n - 1].1;
    var a, pre := FieldLeaves(v, n - 1), v.fields[..n - 1];
    FieldsBuild(v, n - 1);
    FieldFresh(v, n);
    AppendField(a, pre, k, x);
    assert FieldLeaves(v, n) == a + ItemLeaves(x, k);
    assert pre + [(k, x)] == v.fields[..n];
  }

  /** Building the leaves of `x` under a new name `k` after a prefix that built `pre` appends `k: x`. */
  lemma AppendField(a: seq<(seq<string>, Json)>, pre: Dict<Json>, k: string, x: Json)
    requires InsertAll(Obj([]), a) == Some(Obj(pre))
    requires k !in Keys(pre) && !InheritedName(k) && WellFormed(x)
    ensures InsertAll(Obj([]), a + ItemLeaves(x, k)) == Some(Obj(pre + [(k, x)]))
    decreases x, 3
  {
    SlotObj(pre, k, x);
    InsertAllThen(Obj([]), a, ItemLeaves(x, k), Obj(pre), Obj(pre + [(k, x)]));
  }

  lemma {:induction false} ElemsBuild(v: Json, n: nat)
    requires v.Arr? && n <= |v.elems| && WellFormed(v)
    ensures InsertAll(Arr([]), ElemLeaves(v, n)) == Some(Arr(v.elems[..n]))
    decreases v, 0, n, 1
  {
    if n == 0 {
      assert v.elems[..0] == [];
    } else {
      ElemsBuildStep(v, n);
    }
  }

  /** One step of ElemsBuild: the leaves of element `n - 1` append it to the array the earlier elements build. */
  lemma ElemsBuildStep(v: Json, n: nat)
    requires v.Arr? && 0 < n <= |v.elems| && WellFormed(v)
    ensures InsertAll(Arr([]), ElemLeaves(v, n)) == Some(Arr(v.elems[..n]))
    decreases v, 0, n, 0
  {
    var a, pre, x := ElemLeaves(v, n - 1), v.elems[..n - 1], v.elems[n - 1];
    ElemsBuild(v, n - 1);
    assert |pre| == n - 1;
    SlotArr(pre, x);
    PrefixGrows(v.elems, n);
    InsertAllThen(Arr([]), a, ItemLeaves(x, Itos(n - 1)), Arr(pre), Arr(v.elems[..n]));
    assert ElemLeaves(v, n) == a + ItemLeaves(x, Itos(n - 1));
  }

  lemma FieldFresh(v: Json, n: nat)
    requires v.Obj? && 0 < n <= |v.fields| && FieldsWellFormed(v)
    ensures WellFormed(v.fields[n - 1].1) && !InheritedName(v.fields[n - 1].0)
    ensures v.fields[n - 1].0 !in Keys(v.fields[..n - 1])
    ensures v.fields[..n - 1] + [(v.fields[n - 1].0, v.fields[n - 1].1)] == v.fields[..n]
  {
    assert FieldOk(v, n - 1);
    assert v.fields[n - 1].0 == Keys(v.fields)[n - 1];
    assert Keys(v.fields[..n - 1]) == Keys(v.fields)[..n - 1];
  }

  /** Placing the leaves of `x` under a new field `k` appends the field `k: x`. */
  lemma {:induction false} SlotObj(pre: Dict<Json>, k: string, x: Json)
    requires k !in Keys(pre) && !InheritedName(k) && WellFormed(x)
    ensures InsertAll(Obj(pre), ItemLeaves(x, k)) == Some(Obj(pre + [(k, x)]))
    decreases x, 2, 0
  {
    if IsContainer(x) {
      FirstLeaf(x);
      Build(x);
      FirstCreated(x, k, Leaves(x)[0].0, Leaves(x)[0].1);
      NewField(pre, k, EmptyLike(x), Leaves(x), x);
    } else {
      NewFieldLeaf(pre, k, x);
    }
  }

  /** A prefix one longer is the shorter prefix and the next element. */
  lemma PrefixGrows<T>(s: seq<T>, n: nat)
    requires 0 < n <= |s|
    ensures s[..n - 1] + [s[n - 1]] == s[..n]
  {
  }

  /** Placing the leaves of `x` at the index just past the end appends `x`. */
  lemma {:induction false} SlotArr(pre: seq<Json>, x: Json)
    requires |pre| < MaxArrayLength && WellFormed(x)
    ensures InsertAll(Arr(pre), ItemLeaves(x, Itos(|pre|))) == Some(Arr(pre + [x]))
    decreases x, 2, 0
  {
    if IsContainer(x) {
      FirstLeaf(x);
      Build(x);
      FirstCreated(x, Itos(|pre|), Leaves(x)[0].0, Leaves(x)[0].1);
      NewElem(pre, EmptyLike(x), Leaves(x), x);
    } else {
      NewElemLeaf(pre, x);
    }
  }

  lemma InsertAllOne(t: Json, e: (seq<string>, Json))
    ensures InsertAll(t, [e]) == Insert(t, e.0, e.1)
  {
    assert [e][..0] == [];
  }

  lemma InsertAllThen(t: Json, a: seq<(seq<string>, Json)>, b: seq<(seq<string>, Json)>, u: Json, w: Json)
    requires InsertAll(t, a) == Some(u) && InsertAll(u, b) == Some(w)
    ensures InsertAll(t, a + b) == Some(w)
  {
    InsertAllAppend(t, a, b);
  }

  /** A missing field receives the created slot, filled by the rest of the path. */
  lemma InsertNewField(pre: Dict<Json>, k: string, r: seq<string>, leaf: Json)
    requires k !in Keys(pre) && !InheritedName(k)
    ensures Insert(Obj(pre), [k] + r, leaf)
         == (match Insert(Created([k] + r, 0, leaf), r, leaf) case None => None case Some(s) => Some(Obj(pre + [(k, s)])))
  {
    InsertStep(Obj(pre), k, r, leaf);
    var sub := Insert(Created([k] + r, 0, leaf), r, leaf);
    if sub.Some? {
      PutNew(pre, k, sub.value);
    }
  }

  /** The index just past the end receives the created slot, filled by the rest of the path. */
  lemma InsertNewElem(pre: seq<Json>, r: seq<string>, leaf: Json)
    requires |pre| < MaxArrayLength
    ensures Insert(Arr(pre), [Itos(|pre|)] + r, leaf)
         == (match Insert(Created([Itos(|pre|)] + r, 0, leaf), r, leaf) case None => None case Some(s) => Some(Arr(pre + [s])))
  {
    ItosIsArrayIndex(|pre|);
    InsertStep(Arr(pre), Itos(|pre|), r, leaf);
    var sub := Insert(Created([Itos(|pre|)] + r, 0, leaf), r, leaf);
    if sub.Some? {
      AttachEnd(pre, Itos(|pre|), sub.value);
    }
  }

  lemma NewFieldLeaf(pre: Dict<Json>, k: string, x: Json)
    requires k !in Keys(pre) && !InheritedName(k) && !IsContainer(x)
    ensures InsertAll(Obj(pre), ItemLeaves(x, k)) == Some(Obj(pre + [(k, x)]))
  {
    InsertAllOne(Obj(pre), ([k], x));
    InsertNewField(pre, k, [], x);
    assert [k] + [] == [k];
  }

  lemma NewElemLeaf(pre: seq<Json>, x: Json)
    requires |pre| < MaxArrayLength && !IsContainer(x)
    ensures InsertAll(Arr(pre), ItemLeaves(x, Itos(|pre|))) == Some(Arr(pre + [x]))
  {
    InsertAllOne(Arr(pre), ([Itos(|pre|)], x));
    InsertNewElem(pre, [], x);
    assert [Itos(|pre|)] + [] == [Itos(|pre|)];
  }

  lemma InsertAllCons(t: Json, e: (seq<string>, Json), b: seq<(seq<string>, Json)>)
    ensures InsertAll(t, [e] + b) == (match Insert(t, e.0, e.1) case None => None case Some(u) => InsertAll(u, b))
  {
    InsertAllAppend(t, [e], b);
    InsertAllOne(t, e);
  }

  lemma PrefixAllCons(pre: seq<string>, m: seq<(seq<string>, Json)>)
    requires |m| > 0
    ensures PrefixAll(pre, m) == [(pre + m[0].0, m[0].1)] + PrefixAll(pre, m[1..])
  {
  }

  /**
    * Entries whose first path places an empty container `t0` under a new
    * field `k` and which then build `x` inside it append the field `k: x`.
    */
  lemma NewField(pre: Dict<Json>, k: string, t0: Json, m: seq<(seq<string>, Json)>, x: Json)
    requires k !in Keys(pre) && !InheritedName(k) && IsContainer(t0)
    requires |m| > 0 && |m[0].0| > 0 && Created([k] + m[0].0, 0, m[0].1) == t0
    requires InsertAll(t0, m) == Some(x)
    ensures InsertAll(Obj(pre), PrefixAll([k], m)) == Some(Obj(pre + [(k, x)]))
  {
    var first, rest := m[0], m[1..];
    assert m == [first] + rest;
    InsertAllCons(t0, first, rest);
    var s0 := Insert(t0, first.0, first.1).value;
    InsertKeepsContainer(t0, first.0, first.1);
    InsertNewField(pre, k, first.0, first.1);
    PrefixAllCons([k], m);
    InsertAllCons(Obj(pre), ([k] + first.0, first.1), PrefixAll([k], rest));
    LiftObj(pre, k, s0, rest);
  }

  /** The same for a new element at the index just past the end of an array. */
  lemma NewElem(pre: seq<Json>, t0: Json, m: seq<(seq<string>, Json)>, x: Json)
    requires |pre| < MaxArrayLength && IsContainer(t0)
    requires |m| > 0 && |m[0].0| > 0 && Created([Itos(|pre|)] + m[0].0, 0, m[0].1) == t0
    requires InsertAll(t0, m) == Some(x)
    ensures InsertAll(Arr(pre), PrefixAll([Itos(|pre|)], m)) == Some(Arr(pre + [x]))
  {
    var k := Itos(|pre|);
    var first, rest := m[0], m[1..];
    assert m == [first] + rest;
    InsertAllCons(t0, first, rest);
    var s0 := Insert(t0, first.0, first.1).value;
    InsertKeepsContainer(t0, first.0, first.1);
    assert Insert(Arr(pre), [k] + first.0, first.1) == Some(Arr(pre + [s0])) by {
      InsertNewElem(pre, first.0, first.1);
    }
    PrefixAllCons([k], m);
    InsertAllCons(Arr(pre), ([k] + first.0, first.1), PrefixAll([k], rest));
    LiftArr(pre, s0, rest);
  }

  /** The slot created for a container's first leaf is an empty container of the same kind. */
  lemma FirstCreated(x: Json, k: string, r: seq<string>, leaf: Json)
    requires (x.Arr? || x.Obj?) && WellFormed(x)
    requires |r| > 0 && r[0] == if x.Obj? then x.fields[0].0 else Itos(0)
    ensures Created([k] + r, 0, leaf) == EmptyLike(x)
  {
    assert ([k] + r)[1] == r[0];
    if x.Obj? {
      assert FieldOk(x, 0);
    } else {
      DigitsAreNumbers(Itos(0));
    }
  }

  // ---------------------------------------------------------------------------
  // The laws

  /** A well-formed container's flattening never overwrites a key: the result is its entry list unchanged. */
  lemma FlattenExact(v: Json)
    requires Document(v) || (v.Arr? && WellFormed(v))
    ensures Flatten(v) == Entries(v, "")
  {
    var e := Entries(v, "");
    FlatKeysDistinct(v);
    var empty: Dict<Json> := [];
    assert Keys(empty) + Keys(e) == Keys(e);
    PutAllFresh(empty, e);
  }

  /** flattenJSON followed by unflattenJSON gives back a well-formed document object. */
  lemma RoundTripObject(v: Json)
    requires Document(v)
    ensures Unflatten(Flatten(v)) == Some(v)
  {
    FlattenExact(v);
    EntriesSegments(v, "");
    PrefixAllEmpty(Leaves(v));
    FieldsBuild(v, |v.fields|);
    assert v.fields[..|v.fields|] == v.fields;
  }

  /** A well-formed array at the root comes back as the value of the field "" of an object. */
  lemma RoundTripArray(v: Json)
    requires v.Arr? && WellFormed(v)
    ensures Unflatten(Flatten(v)) == Some(Obj([("", v)]))
  {
    FlattenExact(v);
    EntriesSegments(v, "");
    assert Base(v, "") == [""];
    assert SegmentEntries(Flatten(v)) == ItemLeaves(v, "");
    var empty: Dict<Json> := [];
    EmptyNameNotInherited();
    SlotObj(empty, "", v);
    assert empty + [("", v)] == [("", v)];
    assert Unflatten(Flatten(v)) == InsertAll(Obj(empty), ItemLeaves(v, ""));
  }
}
