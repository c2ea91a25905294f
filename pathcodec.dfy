/**
  * The path codec of src/utils.ts: `flattenJSON` turns a nested JSON value
  * into a flat dictionary keyed by paths such as `a.c[0]`, and
  * `unflattenJSON` rebuilds a nested object from such a dictionary.
  */
module PathCodec {
  import opened Wrappers
  import opened Dicts
  import opened JsonValues
  import opened JsNumbers
  import opened KeyPaths

  // ---------------------------------------------------------------------------
  // flattenJSON

  /** The path of array element `i`: `${parent}[${i}]`. */
  function IndexPath(parent: string, i: nat): string {
    parent + "[" + Itos(i) + "]"
  }

  /** The path of field `key`: `${parent}.${key}`, or just `key` when the parent path is empty (falsy). */
  function FieldPath(parent: string, key: string): string {
    if Truthy(Str(parent)) then parent + "." + key else key
  }

  /**
    * The assignments `res[path] = value` that flattening `v` under `parent`
    * performs, in order. Arrays are walked with `forEach`; anything else
    * with `for...in`, which enumerates the fields of an object, the
    * character indices of a string, and nothing for a number, a boolean or
    * null.
    */
  function Entries(v: Json, parent: string): seq<(string, Json)>
    decreases v, 1, 0
  {
    match v
    case Arr(es) => ElemEntries(v, |es|, parent)
    case Obj(fs) => FieldEntries(v, |fs|, parent)
    case Str(s) => CharEntries(s, |s|, parent)
    case _ => []
  }

  /** The assignments for the first `n` elements of the array `v`. */
  function ElemEntries(v: Json, n: nat, parent: string): seq<(string, Json)>
    requires v.Arr? && n <= |v.elems|
    decreases v, 0, n
  {
    if n == 0 then []
    else ElemEntries(v, n - 1, parent) + ItemEntries(v.elems[n - 1], IndexPath(parent, n - 1))
  }

  /** The assignments for the first `n` fields of the object `v`. */
  function FieldEntries(v: Json, n: nat, parent: string): seq<(string, Json)>
    requires v.Obj? && n <= |v.fields|
    decreases v, 0, n
  {
    if n == 0 then []
    else
      var (key, value) := v.fields[n - 1];
      FieldEntries(v, n - 1, parent) + ItemEntries(value, FieldPath(parent, key))
  }

  /** The assignments for the first `n` characters of a string at the root. */
  function CharEntries(s: string, n: nat, parent: string): seq<(string, Json)>
    requires n <= |s|
  {
    if n == 0 then []
    else CharEntries(s, n - 1, parent) + [(FieldPath(parent, Itos(n - 1)), Str([s[n - 1]]))]
  }

  /** An element path parses back as the parent's segments followed by the index. */
  lemma IndexPathParses(parent: string, i: nat)
    ensures Segments(IndexPath(parent, i)) == Segments(parent) + [Itos(i)]
  {
    IndexPathSegments(parent, i);
  }

  /**
    * A field path parses back as the parent's segments followed by the name,
    * or as the name alone under the empty (falsy) parent path.
    */
  lemma FieldPathParses(parent: string, key: string)
    requires '[' !in key && '.' !in key
    ensures Segments(FieldPath(parent, key)) == if parent == "" then [key] else Segments(parent) + [key]
  {
    if parent == "" {
      NameSegments(key);
    } else {
      FieldPathSegments(parent, key);
    }
  }

  /** `for...in` over a string at the root: one entry per character, under its index, holding that character. */
  lemma {:induction false} CharEntriesExact(s: string, n: nat, parent: string)
    requires n <= |s|
    ensures |CharEntries(s, n, parent)| == n
    ensures forall i :: 0 <= i < n ==> CharEntries(s, n, parent)[i] == (FieldPath(parent, Itos(i)), Str([s[i]]))
  {
    if n > 0 {
      CharEntriesExact(s, n - 1, parent);
      var prev := CharEntries(s, n - 1, parent);
      assert CharEntries(s, n, parent) == prev + [(FieldPath(parent, Itos(n - 1)), Str([s[n - 1]]))];
    }
  }

  /** One element or field value: descend into a container, record any other value as a leaf. */
  function ItemEntries(item: Json, path: string): seq<(string, Json)>
    decreases item, 2, 0
  {
    if IsContainer(item) then Entries(item, path) else [(path, item)]
  }

  /** `flattenJSON(v)`: the flat dictionary the assignments leave in a fresh `res`. */
  function Flatten(v: Json): Dict<Json> {
    PutAll([], Entries(v, ""))
  }

  /** The accumulator `res` that the recursive calls of `flattenJSON` share. */
  class FlatMap {
    var entries: Dict<Json>

    constructor ()
      ensures entries == []
    {
      entries := [];
    }

    /** `res[k] = v`. */
    method Set(k: string, v: Json)
      modifies this
      ensures entries == Put(old(entries), k, v)
    {
      entries := Put(entries, k, v);
    }
  }

  /** Assigning one more entry. */
  lemma PutAllOne(d: Dict<Json>, k: string, v: Json)
    ensures PutAll(d, [(k, v)]) == Put(d, k, v)
  {
    assert [(k, v)][..0] == [];
  }

  /** `flattenJSON(obj, parent, res)`: adds the leaves of `obj` to `res`, never removing an entry. */
  method FlattenInto(obj: Json, parent: string, res: FlatMap)
    modifies res
    ensures res.entries == PutAll(old(res.entries), Entries(obj, parent))
    ensures |res.entries| >= |old(res.entries)|
    ensures Keys(res.entries)[..|old(res.entries)|] == Keys(old(res.entries))
    decreases obj
  {
    ghost var start := res.entries;
    match obj {
    case Arr(es) =>
      for i := 0 to |es|
        invariant res.entries == PutAll(start, ElemEntries(obj, i, parent))
      {
        var item := es[i];
        var propName := IndexPath(parent, i);
        if IsContainer(item) {
          FlattenInto(item, propName, res);
        } else {
          res.Set(propName, item);
          PutAllOne(PutAll(start, ElemEntries(obj, i, parent)), propName, item);
        }
        PutAllAppend(start, ElemEntries(obj, i, parent), ItemEntries(item, propName));
      }
      assert Entries(obj, parent) == ElemEntries(obj, |es|, parent);
    case Obj(fs) =>
      for i := 0 to |fs|
        invariant res.entries == PutAll(start, FieldEntries(obj, i, parent))
      {
        var (key, value) := fs[i];
        var propName := FieldPath(parent, key);
        if IsContainer(value) {
          FlattenInto(value, propName, res);
        } else {
          res.Set(propName, value);
          PutAllOne(PutAll(start, FieldEntries(obj, i, parent)), propName, value);
        }
        PutAllAppend(start, FieldEntries(obj, i, parent), ItemEntries(value, propName));
      }
      assert Entries(obj, parent) == FieldEntries(obj, |fs|, parent);
    case Str(s) =>
      for i := 0 to |s|
        invariant res.entries == PutAll(start, CharEntries(s, i, parent))
      {
        var propName := FieldPath(parent, Itos(i));
        res.Set(propName, Str([s[i]]));
        PutAllOne(PutAll(start, CharEntries(s, i, parent)), propName, Str([s[i]]));
        PutAllAppend(start, CharEntries(s, i, parent), [(propName, Str([s[i]]))]);
      }
      assert Entries(obj, parent) == CharEntries(s, |s|, parent);
    case _ =>
    }
    PutAllExtends(start, Entries(obj, parent));
  }

  /** `flattenJSON(obj)` with the default arguments `parent = ""` and `res = {}`. */
  method FlattenJSON(obj: Json) returns (res: FlatMap)
    ensures fresh(res)
    ensures res.entries == Flatten(obj)
  {
    res := new FlatMap();
    FlattenInto(obj, "", res);
  }

  // ---------------------------------------------------------------------------
  // unflattenJSON

  /**
    * The value a missing or falsy slot receives at segment `segs[i]`: the
    * leaf value at the last segment; otherwise an array when the next
    * segment reads as a number and an object when it does not.
    */
  function Created(segs: seq<string>, i: nat, value: Json): Json
    requires i < |segs|
  {
    if i == |segs| - 1 then value
    else if IsNaNNumber(segs[i + 1]) then Obj([])
    else Arr([])
  }

  /**
    * Whether the walk can go on below `node` at `key` and stay within plain
    * JSON: an object takes an own field or any name it does not inherit; an
    * array takes any array index, past its end too (a sparse array).
    *
    * The walks that leave plain JSON fail here: descending through a string,
    * number or boolean (a TypeError in strict mode when it assigns), naming
    * an inherited member of an object (the walk would step into a built-in
    * function), or naming an array slot by something other than an array
    * index (an expando property, or the array's `length`).
    */
  predicate Walkable(node: Json, key: string) {
    (node.Obj? && (Get(node.fields, key).Some? || !InheritedName(key)))
    || (node.Arr? && IsArrayIndex(key))
  }

  /**
    * `acc[key] || created`: the accumulator for the next segment. The
    * created value is only worked out when the slot is missing or falsy.
    */
  function ChildOf(node: Json, segs: seq<string>, i: nat, value: Json): Json
    requires i < |segs| && Walkable(node, segs[i])
  {
    match node
    case Obj(fs) =>
      var slot := Get(fs, segs[i]);
      if slot.Some? && Truthy(slot.value) then slot.value else Created(segs, i, value)
    case Arr(es) =>
      var n := DigitsValue(segs[i]);
      if n < |es| && Truthy(es[n]) then es[n] else Created(segs, i, value)
  }

  /** `node` with the slot `key` holding `sub`, the accumulator after the deeper segments. */
  function Attach(node: Json, key: string, sub: Json): Json
    requires Walkable(node, key)
  {
    match node
    case Obj(fs) => Obj(Put(fs, key, sub))
    case Arr(es) =>
      var n := DigitsValue(key);
      Arr(if n < |es| then es[n := sub] else es + Holes(n - |es|) + [sub])
  }

  /** An index just past the end of an array appends the new element, leaving no hole. */
  lemma AttachEnd(es: seq<Json>, key: string, sub: Json)
    requires IsArrayIndex(key) && DigitsValue(key) == |es|
    ensures Attach(Arr(es), key, sub) == Arr(es + [sub])
  {
    assert Holes(0) == [];
  }

  /** An index into a fresh array leaves holes before the new element, which sits at that index. */
  lemma AttachFresh(key: string, sub: Json)
    requires IsArrayIndex(key)
    ensures Attach(Arr([]), key, sub).Arr?
    ensures |Attach(Arr([]), key, sub).elems| == DigitsValue(key) + 1
    ensures Attach(Arr([]), key, sub).elems[DigitsValue(key)] == sub
  {
    assert [] + Holes(DigitsValue(key)) + [sub] == Holes(DigitsValue(key)) + [sub];
  }

  /**
    * The `n` empty slots that an assignment past the end of an array leaves
    * before the new element. They read as `undefined`, which is falsy like
    * `null`, and are modelled as `null`.
    */
  function Holes(n: nat): (r: seq<Json>)
    ensures |r| == n && forall j :: 0 <= j < n ==> r[j] == Null
  {
    seq(n, _ => Null)
  }

  /**
    * The `reduce` walk from segment `i` on, with `node` as the accumulator:
    * place `value` at the rest of the path, keeping every slot that already
    * holds a truthy value.
    */
  function PlaceFrom(node: Json, segs: seq<string>, i: nat, value: Json): Option<Json>
    requires i <= |segs|
    decreases |segs| - i
  {
    if i == |segs| then Some(node)
    else if !Walkable(node, segs[i]) then None
    else AttachTo(node, segs[i], PlaceFrom(ChildOf(node, segs, i, value), segs, i + 1, value))
  }

  /** The result of the deeper segments attached under `key`, or no result when they have none. */
  function AttachTo(node: Json, key: string, sub: Option<Json>): Option<Json>
    requires Walkable(node, key)
  {
    match sub
    case None => None
    case Some(s) => Some(Attach(node, key, s))
  }

  /** The whole walk for one flat key: `value` placed at the path `segs` below `node`. */
  function Insert(node: Json, segs: seq<string>, value: Json): Option<Json> {
    PlaceFrom(node, segs, 0, value)
  }

  /** A path `segs` one segment longer than `r` at its front. */
  predicate ShiftedBy(segs: seq<string>, r: seq<string>) {
    |segs| == |r| + 1 && forall j :: 0 <= j < |r| ==> segs[j + 1] == r[j]
  }

  lemma ChildShift(t: Json, segs: seq<string>, r: seq<string>, i: nat, value: Json)
    requires ShiftedBy(segs, r) && i < |r| && Walkable(t, r[i])
    ensures segs[i + 1] == r[i]
    ensures ChildOf(t, segs, i + 1, value) == ChildOf(t, r, i, value)
  {
    assert segs[i + 1] == r[i];
    assert Created(segs, i + 1, value) == Created(r, i, value) by {
      if i + 1 < |r| {
        assert segs[i + 2] == r[i + 1];
      }
    }
  }

  /** A walk from segment `i + 1` of `segs` is the walk from segment `i` of `r`. */
  lemma {:induction false} PlaceShift(t: Json, segs: seq<string>, r: seq<string>, i: nat, value: Json)
    requires ShiftedBy(segs, r) && i <= |r|
    ensures PlaceFrom(t, segs, i + 1, value) == PlaceFrom(t, r, i, value)
    decreases |r| - i
  {
    if i == |r| {
      assert PlaceFrom(t, segs, i + 1, value) == Some(t);
    } else if !Walkable(t, r[i]) {
      assert segs[i + 1] == r[i];
    } else {
      PlaceShift(ChildOf(t, r, i, value), segs, r, i + 1, value);
      StepShift(t, segs, r, i, value);
    }
  }

  /** One step of PlaceShift: equal walks below the child give equal walks from the node. */
  lemma StepShift(t: Json, segs: seq<string>, r: seq<string>, i: nat, value: Json)
    requires ShiftedBy(segs, r) && i < |r| && Walkable(t, r[i])
    requires PlaceFrom(ChildOf(t, r, i, value), segs, i + 2, value) == PlaceFrom(ChildOf(t, r, i, value), r, i + 1, value)
    ensures PlaceFrom(t, segs, i + 1, value) == PlaceFrom(t, r, i, value)
  {
    ChildShift(t, segs, r, i, value);
  }

  /** The first step of a walk: into the slot under `k`, then the rest of the path below it. */
  lemma InsertStep(t: Json, k: string, r: seq<string>, value: Json)
    requires Walkable(t, k)
    ensures Insert(t, [k] + r, value) == AttachTo(t, k, Insert(ChildOf(t, [k] + r, 0, value), r, value))
  {
    var segs := [k] + r;
    assert segs[0] == k && ShiftedBy(segs, r);
    PlaceStep(t, segs, r, value);
  }

  /** The walk along `segs`: the first step, then the walk along the shorter path `r` below it. */
  lemma PlaceStep(t: Json, segs: seq<string>, r: seq<string>, value: Json)
    requires ShiftedBy(segs, r) && Walkable(t, segs[0])
    ensures PlaceFrom(t, segs, 0, value) == AttachTo(t, segs[0], PlaceFrom(ChildOf(t, segs, 0, value), r, 0, value))
  {
    PlaceShift(ChildOf(t, segs, 0, value), segs, r, 0, value);
  }

  /** Placing each (segments, value) entry in turn. */
  function InsertAll(t: Json, es: seq<(seq<string>, Json)>): Option<Json>
    decreases |es|
  {
    if es == [] then Some(t)
    else
      var prev :- InsertAll(t, es[..|es| - 1]);
      Insert(prev, es[|es| - 1].0, es[|es| - 1].1)
  }

  /** Each flat key replaced by its segments. */
  function SegmentEntries(data: Dict<Json>): seq<(seq<string>, Json)> {
    seq(|data|, i requires 0 <= i < |data| => (Segments(data[i].0), data[i].1))
  }

  /** `unflattenJSON(data)`: every key placed, in order, into an initially empty object. */
  function Unflatten(data: Dict<Json>): Option<Json> {
    InsertAll(Obj([]), SegmentEntries(data))
  }

  lemma {:induction false} InsertAllAppend(t: Json, a: seq<(seq<string>, Json)>, b: seq<(seq<string>, Json)>)
    ensures InsertAll(t, a + b) == (match InsertAll(t, a) case None => None case Some(u) => InsertAll(u, b))
    decreases |b|
  {
    if b == [] {
      assert a + b == a;
    } else {
      assert (a + b)[..|a + b| - 1] == a + b[..|b| - 1];
      InsertAllAppend(t, a, b[..|b| - 1]);
    }
  }

  /** Placing one more flat key continues from the object built so far. */
  lemma UnflattenStep(data: Dict<Json>, i: nat, result: Json)
    requires i < |data| && Unflatten(data[..i]) == Some(result)
    ensures Unflatten(data[..i + 1]) == Insert(result, Segments(data[i].0), data[i].1)
  {
    assert SegmentEntries(data[..i + 1]) == SegmentEntries(data[..i]) + [(Segments(data[i].0), data[i].1)];
    InsertAllAppend(Obj([]), SegmentEntries(data[..i]), [(Segments(data[i].0), data[i].1)]);
    assert [(Segments(data[i].0), data[i].1)][..0] == [];
  }

  /** Once a key cannot be placed, the whole unflattening fails. */
  lemma UnflattenStuck(data: Dict<Json>, i: nat)
    requires i <= |data| && Unflatten(data[..i]) == None
    ensures Unflatten(data) == None
  {
    assert data[..i] + data[i..] == data;
    assert SegmentEntries(data) == SegmentEntries(data[..i]) + SegmentEntries(data[i..]);
    InsertAllAppend(Obj([]), SegmentEntries(data[..i]), SegmentEntries(data[i..]));
  }

  // ---------------------------------------------------------------------------
  // Rebuilding a single key, as the nested view does for each cell

  /**
    * The container a one-key rebuild has reached at segment `i`: the initial
    * `{}` at the root, and below it the `[]` or `{}` that the segment chose
    * when it was created.
    */
  function FreshNode(segs: seq<string>, i: nat): Json
    requires i < |segs|
  {
    if i > 0 && !IsNaNNumber(segs[i]) then Arr([]) else Obj([])
  }

  /**
    * Segment `i` keeps a one-key rebuild within plain JSON: a segment that
    * made an array must be an array index, and any other must not name an
    * inherited member.
    */
  predicate SegmentOk(segs: seq<string>, i: nat)
    requires i < |segs|
  {
    if i > 0 && !IsNaNNumber(segs[i]) then IsArrayIndex(segs[i]) else !InheritedName(segs[i])
  }

  /** Every segment of `segs` keeps a one-key rebuild within plain JSON. */
  predicate Placeable(segs: seq<string>) {
    forall i :: 0 <= i < |segs| ==> SegmentOk(segs, i)
  }

  /** The fresh container at segment `i` takes the segment exactly when it is in order. */
  lemma FreshWalkable(segs: seq<string>, i: nat)
    requires i < |segs|
    ensures Walkable(FreshNode(segs, i), segs[i]) <==> SegmentOk(segs, i)
  {
    assert Get<Json>([], segs[i]) == None;
  }

  /** Below a fresh container, the walk reaches the fresh container the next segment chooses. */
  lemma FreshChild(segs: seq<string>, i: nat, value: Json)
    requires i + 1 < |segs| && Walkable(FreshNode(segs, i), segs[i])
    ensures ChildOf(FreshNode(segs, i), segs, i, value) == FreshNode(segs, i + 1)
  {
    assert Get<Json>([], segs[i]) == None;
  }

  /** At the last segment a fresh container that takes the segment receives the value. */
  lemma PlaceFreshLast(segs: seq<string>, i: nat, value: Json)
    requires i + 1 == |segs| && Walkable(FreshNode(segs, i), segs[i])
    ensures PlaceFrom(FreshNode(segs, i), segs, i, value).Some?
  {
    var node := FreshNode(segs, i);
    var child := ChildOf(node, segs, i, value);
    assert PlaceFrom(child, segs, i + 1, value) == Some(child);
  }

  /** Below a fresh container that takes the segment, the rebuild goes on from the next fresh container. */
  lemma PlaceFreshStep(segs: seq<string>, i: nat, value: Json)
    requires i + 1 < |segs| && Walkable(FreshNode(segs, i), segs[i])
    ensures PlaceFrom(FreshNode(segs, i), segs, i, value).Some? <==> PlaceFrom(FreshNode(segs, i + 1), segs, i + 1, value).Some?
  {
    var node := FreshNode(segs, i);
    FreshChild(segs, i, value);
    assert PlaceFrom(node, segs, i, value) == AttachTo(node, segs[i], PlaceFrom(FreshNode(segs, i + 1), segs, i + 1, value));
  }

  /** Every segment of `segs` from `i` on is in order, checked one segment at a time. */
  predicate OkFrom(segs: seq<string>, i: nat)
    requires i <= |segs|
    decreases |segs| - i
  {
    i == |segs| || (SegmentOk(segs, i) && OkFrom(segs, i + 1))
  }

  lemma {:induction false} OkFromAll(segs: seq<string>, i: nat)
    requires i <= |segs|
    ensures OkFrom(segs, i) <==> forall j :: i <= j < |segs| ==> SegmentOk(segs, j)
    decreases |segs| - i
  {
    if i < |segs| {
      OkFromAll(segs, i + 1);
      if OkFrom(segs, i) {
        forall j | i <= j < |segs|
          ensures SegmentOk(segs, j)
        {
          if j > i {
            assert i + 1 <= j < |segs|;
          }
        }
      } else if SegmentOk(segs, i) {
        var j :| i + 1 <= j < |segs| && !SegmentOk(segs, j);
      }
    }
  }

  /** A one-key rebuild succeeds from segment `i` on exactly when every later segment is in order. */
  lemma {:induction false} PlaceFresh(segs: seq<string>, i: nat, value: Json)
    requires i < |segs|
    ensures PlaceFrom(FreshNode(segs, i), segs, i, value).Some? <==> OkFrom(segs, i)
    decreases |segs| - i
  {
    FreshWalkable(segs, i);
    if !SegmentOk(segs, i) {
      assert PlaceFrom(FreshNode(segs, i), segs, i, value) == None;
    } else if i + 1 == |segs| {
      PlaceFreshLast(segs, i, value);
      assert OkFrom(segs, i + 1);
    } else {
      PlaceFreshStep(segs, i, value);
      PlaceFresh(segs, i + 1, value);
    }
  }

  /**
    * `unflattenJSON({[key]: cell})` stays within plain JSON exactly when every
    * segment of the key is in order, whatever the indices: an index past the
    * end of a fresh array leaves holes before the cell.
    */
  lemma UnflattenOneKey(key: string, cell: Json)
    ensures Unflatten([(key, cell)]).Some? <==> Placeable(Segments(key))
    ensures Unflatten([(key, cell)]) == Insert(Obj([]), Segments(key), cell)
  {
    var segs := Segments(key);
    assert SegmentEntries([(key, cell)]) == [(segs, cell)];
    assert [(segs, cell)][..0] == [];
    assert InsertAll(Obj([]), [(segs, cell)]) == Insert(Obj([]), segs, cell);
    assert FreshNode(segs, 0) == Obj([]);
    PlaceFresh(segs, 0, cell);
    OkFromAll(segs, 0);
  }

  /** `unflattenJSON`: the loop over the flat keys. */
  method UnflattenJSON(data: Dict<Json>) returns (r: Option<Json>)
    ensures r == Unflatten(data)
  {
    var result := Obj([]);
    assert data[..0] == [];
    for i := 0 to |data|
      invariant Unflatten(data[..i]) == Some(result)
    {
      var (flatKey, value) := data[i];
      UnflattenStep(data, i, result);
      var placed := Insert(result, Segments(flatKey), value);
      if placed.None? {
        UnflattenStuck(data, i + 1);
        return None;
      }
      result := placed.value;
    }
    assert data[..|data|] == data;
    r := Some(result);
  }
}
