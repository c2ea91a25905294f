/**
  * Laws of the path codec of src/utils.ts beyond the round trip: what
  * flattening records, how keys split into segments, and what each step of
  * the rebuilding walk does to the slot it reaches.
  */
module CodecLaws {
  import opened Wrappers
  import opened Dicts
  import opened JsonValues
  import opened JsNumbers
  import opened KeyPaths
  import opened PathCodec

  // ---------------------------------------------------------------------------
  // Flattening records leaves only

  /** Flattening descends into every truthy object and array, so no recorded value is one. */
  lemma {:induction false} EntriesAreLeaves(v: Json, parent: string)
    ensures forall e :: e in Entries(v, parent) ==> !IsContainer(e.1)
    decreases v, 1, 0
  {
    match v
    case Arr(es) => ElemEntriesAreLeaves(v, |es|, parent);
    case Obj(fs) => FieldEntriesAreLeaves(v, |fs|, parent);
    case Str(s) => CharEntriesAreLeaves(s, |s|, parent);
    case _ =>
  }

  lemma {:induction false} ElemEntriesAreLeaves(v: Json, n: nat, parent: string)
    requires v.Arr? && n <= |v.elems|
    ensures forall e :: e in ElemEntries(v, n, parent) ==> !IsContainer(e.1)
    decreases v, 0, n
  {
    if n > 0 {
      ElemEntriesAreLeaves(v, n - 1, parent);
      ItemEntriesAreLeaves(v.elems[n - 1], IndexPath(parent, n - 1));
    }
  }

  lemma {:induction false} FieldEntriesAreLeaves(v: Json, n: nat, parent: string)
    requires v.Obj? && n <= |v.fields|
    ensures forall e :: e in FieldEntries(v, n, parent) ==> !IsContainer(e.1)
    decreases v, 0, n
  {
    if n > 0 {
      FieldEntriesAreLeaves(v, n - 1, parent);
      var (key, value) := v.fields[n - 1];
      assert value < v;
      ItemEntriesAreLeaves(value, FieldPath(parent, key));
    }
  }

  lemma {:induction false} CharEntriesAreLeaves(s: string, n: nat, parent: string)
    requires n <= |s|
    ensures forall e :: e in CharEntries(s, n, parent) ==> e.1.Str?
  {
    if n > 0 {
      CharEntriesAreLeaves(s, n - 1, parent);
    }
  }

  lemma {:induction false} ItemEntriesAreLeaves(item: Json, path: string)
    ensures forall e :: e in ItemEntries(item, path) ==> !IsContainer(e.1)
    decreases item, 2, 0
  {
    if IsContainer(item) {
      EntriesAreLeaves(item, path);
    }
  }

  /** No value in a flat map is an array or an object: each is a string, number, boolean or null. */
  lemma FlattenHoldsLeaves(v: Json)
    ensures forall e :: e in Flatten(v) ==> !IsContainer(e.1)
  {
    EntriesAreLeaves(v, "");
    PutAllEntries([], Entries(v, ""));
  }

  /** Falsy values are recorded as they are, under their own path. */
  lemma FalsyFieldRecorded(v: Json, n: nat, parent: string)
    requires v.Obj? && 0 < n <= |v.fields| && !Truthy(v.fields[n - 1].1)
    ensures FieldEntries(v, n, parent) ==
      FieldEntries(v, n - 1, parent) + [(FieldPath(parent, v.fields[n - 1].0), v.fields[n - 1].1)]
  {
  }

  /** An empty array or object, at the root or in a field or element, adds no entry at all. */
  lemma EmptyContainersVanish(v: Json, n: nat, parent: string)
    requires (v.Obj? && 0 < n <= |v.fields| && v.fields[n - 1].1 in [Arr([]), Obj([])])
      || (v.Arr? && 0 < n <= |v.elems| && v.elems[n - 1] in [Arr([]), Obj([])])
    ensures Entries(Arr([]), parent) == [] && Entries(Obj([]), parent) == []
    ensures v.Obj? ==> FieldEntries(v, n, parent) == FieldEntries(v, n - 1, parent)
    ensures v.Arr? ==> ElemEntries(v, n, parent) == ElemEntries(v, n - 1, parent)
  {
    assert Entries(Arr([]), "" + parent) == [];
  }

  /** `{"a": {"b": "x", "c": [1, 2]}}` flattens to `a.b`, `a.c[0]` and `a.c[1]`. */
  lemma FlattenExample()
    ensures Flatten(Obj([("a", Obj([("b", Str("x")), ("c", Arr([Num(1), Num(2)]))]))]))
      == [("a.b", Str("x")), ("a.c[0]", Num(1)), ("a.c[1]", Num(2))]
  {
    var es := Entries(Obj([("a", Obj([("b", Str("x")), ("c", Arr([Num(1), Num(2)]))]))]), "");
    ExampleEntries();
    assert NoDup(Keys(es)) by {
      assert Keys(es) == ["a.b", "a.c[0]", "a.c[1]"];
    }
    PutAllFresh([], es);
  }

  lemma ExampleEntries()
    ensures Entries(Obj([("a", Obj([("b", Str("x")), ("c", Arr([Num(1), Num(2)]))]))]), "")
      == [("a.b", Str("x")), ("a.c[0]", Num(1)), ("a.c[1]", Num(2))]
  {
    var c := Arr([Num(1), Num(2)]);
    var a := Obj([("b", Str("x")), ("c", c)]);
    var root := Obj([("a", a)]);
    assert IndexPath("a.c", 0) == "a.c[0]" && IndexPath("a.c", 1) == "a.c[1]" by {
      assert Itos(0) == "0" && Itos(1) == "1";
    }
    assert FieldPath("a", "b") == "a.b" && FieldPath("a", "c") == "a.c" && FieldPath("", "a") == "a";
    assert ElemEntries(c, 1, "a.c") == [("a.c[0]", Num(1))];
    assert ElemEntries(c, 2, "a.c") == [("a.c[0]", Num(1)), ("a.c[1]", Num(2))];
    assert FieldEntries(a, 1, "a") == [("a.b", Str("x"))];
    assert FieldEntries(a, 2, "a") == [("a.b", Str("x"))] + Entries(c, "a.c");
    assert FieldEntries(root, 1, "") == Entries(a, "a");
  }

  // ---------------------------------------------------------------------------
  // Segments

  /** Brackets become dots before the split: `a.c[0]` has the segments a, c, 0. */
  lemma SegmentsExample()
    ensures Segments("a.c[0]") == ["a", "c", "0"]
  {
    ExampleDots();
    assert SplitDots("0") == ["0"];
    assert ".0"[1..] == "0";
    assert SplitDots(".0") == ["", "0"];
    assert "c.0"[1..] == ".0";
    assert ['c'] + "" == "c";
    assert SplitDots("c.0") == ["c", "0"];
    assert ".c.0"[1..] == "c.0";
    assert SplitDots(".c.0") == ["", "c", "0"];
    assert "a.c.0"[1..] == ".c.0";
    assert ['a'] + "" == "a";
  }

  lemma ExampleDots()
    ensures BracketsToDots("a.c[0]") == "a.c.0"
  {
    assert WordRun("[0]", 1) == 2;
    assert BracketsToDots("[0]") == ".0";
    assert "c[0]"[1..] == "[0]";
    assert BracketsToDots("c[0]") == "c.0";
    assert ".c[0]"[1..] == "c[0]";
    assert BracketsToDots(".c[0]") == ".c.0";
    assert "a.c[0]"[1..] == ".c[0]";
  }

  // ---------------------------------------------------------------------------
  // One step of the rebuilding walk

  /** The slot a walk step reads under `key`, if any. */
  function Slot(node: Json, key: string): Option<Json>
    requires Walkable(node, key)
  {
    match node
    case Obj(fs) => Get(fs, key)
    case Arr(es) => if DigitsValue(key) < |es| then Some(es[DigitsValue(key)]) else None
  }

  /** A truthy value already in the last slot of a path is never overwritten: the first truthy writer wins. */
  lemma TruthySlotKept(node: Json, key: string, value: Json)
    requires Walkable(node, key) && Slot(node, key).Some? && Truthy(Slot(node, key).value)
    ensures Insert(node, [key], value) == Some(node)
  {
    InsertStep(node, key, [], value);
    assert [key] + [] == [key];
    match node
    case Obj(fs) => PutSame(fs, key, Slot(node, key).value);
    case Arr(es) => assert es[DigitsValue(key) := es[DigitsValue(key)]] == es;
  }

  /** A missing or falsy last slot receives the value. */
  lemma FalsySlotFilled(node: Json, key: string, value: Json)
    requires Walkable(node, key) && (Slot(node, key).None? || !Truthy(Slot(node, key).value))
    ensures Insert(node, [key], value) == Some(Attach(node, key, value))
    ensures var t := Attach(node, key, value);
      t.Obj? == node.Obj? && Walkable(t, key) && Slot(t, key) == Some(value)
  {
    InsertStep(node, key, [], value);
    assert [key] + [] == [key];
    assert Created([key], 0, value) == value;
  }

  /**
    * A missing or falsy slot in the middle of a path, in an object or an
    * array, is created as an array when the next segment reads as a number
    * (the empty segment among them) and as an object otherwise.
    */
  lemma CreatedKind(node: Json, key: string, next: string, rest: seq<string>, value: Json, t: Json)
    requires Walkable(node, key) && (Slot(node, key).None? || !Truthy(Slot(node, key).value))
    requires Insert(node, [key, next] + rest, value) == Some(t)
    ensures t.Obj? == node.Obj? && Walkable(t, key) && Slot(t, key).Some?
    ensures Slot(t, key).value.Arr? <==> !IsNaNNumber(next)
    ensures Slot(t, key).value.Obj? <==> IsNaNNumber(next)
  {
    var segs := [key, next] + rest;
    assert segs == [key] + ([next] + rest) && segs[1] == next;
    InsertStep(node, key, [next] + rest, value);
    var child := ChildOf(node, segs, 0, value);
    assert child == Created(segs, 0, value);
    assert child == if IsNaNNumber(next) then Obj([]) else Arr([]);
    InsertKeepsKind(child, [next] + rest, value);
    var sub := Insert(child, [next] + rest, value).value;
    assert t == Attach(node, key, sub);
    FalsySlotFilled(node, key, sub);
  }

  /** A walk below a container gives back a container of the same kind. */
  lemma InsertKeepsKind(node: Json, segs: seq<string>, value: Json)
    requires IsContainer(node)
    ensures Insert(node, segs, value).Some? ==>
      (Insert(node, segs, value).value.Arr? <==> node.Arr?) && (Insert(node, segs, value).value.Obj? <==> node.Obj?)
  {
  }

  /** The empty segment reads as the number 0, so the slot before it becomes an array. */
  lemma EmptySegmentMakesArray(segs: seq<string>, i: nat, value: Json)
    requires i + 1 < |segs| && segs[i + 1] == ""
    ensures Created(segs, i, value) == Arr([])
  {
    EmptyIsNumber();
  }

  /** `unflattenJSON({"a.b": "x", "a.c[0]": 1})` is `{"a": {"b": "x", "c": [1]}}`. */
  lemma UnflattenExample()
    ensures Unflatten([("a.b", Str("x")), ("a.c[0]", Num(1))])
      == Some(Obj([("a", Obj([("b", Str("x")), ("c", Arr([Num(1)]))]))]))
  {
    var data := [("a.b", Str("x")), ("a.c[0]", Num(1))];
    var es := SegmentEntries(data);
    ExampleSegmentEntries();
    assert es[..1] == [(["a", "b"], Str("x"))] && es[..1][..0] == [];
    ExampleFirstInsert();
    assert InsertAll(Obj([]), es[..1]) == Some(Obj([("a", Obj([("b", Str("x"))]))]));
    ExampleSecondInsert();
  }

  lemma FieldSegmentsExample()
    ensures Segments("a.b") == ["a", "b"]
  {
    NoBracketsUnchanged("a.b");
    assert SplitDots("b") == ["b"];
    assert ".b"[1..] == "b";
    assert SplitDots(".b") == ["", "b"];
    assert "a.b"[1..] == ".b";
    assert ['a'] + "" == "a";
  }

  lemma ExampleSegmentEntries()
    ensures SegmentEntries([("a.b", Str("x")), ("a.c[0]", Num(1))]) == [(["a", "b"], Str("x")), (["a", "c", "0"], Num(1))]
  {
    var data := [("a.b", Str("x")), ("a.c[0]", Num(1))];
    SegmentsExample();
    FieldSegmentsExample();
    var es := SegmentEntries(data);
    assert es[0] == (["a", "b"], Str("x"));
    assert es[1] == (["a", "c", "0"], Num(1));
  }

  lemma ExampleFirstInsert()
    ensures Insert(Obj([]), ["a", "b"], Str("x")) == Some(Obj([("a", Obj([("b", Str("x"))]))]))
  {
    var x := Str("x");
    LetterNameIsNaN("b");
    assert !InheritedName("a") && !InheritedName("b");
    assert ["a", "b"] == ["a"] + ["b"];
    InsertStep(Obj([]), "a", ["b"], x);
    assert ChildOf(Obj([]), ["a", "b"], 0, x) == Obj([]);
    FalsySlotFilled(Obj([]), "b", x);
    SingleEntry("b", x);
    assert Insert(Obj([]), ["b"], x) == Some(Obj([("b", x)]));
    SingleEntry("a", Obj([("b", x)]));
  }

  lemma ExampleSecondInsert()
    ensures Insert(Obj([("a", Obj([("b", Str("x"))]))]), ["a", "c", "0"], Num(1))
      == Some(Obj([("a", Obj([("b", Str("x")), ("c", Arr([Num(1)]))]))]))
  {
    var inner := Obj([("b", Str("x"))]);
    var first := Obj([("a", inner)]);
    var full := Obj([("b", Str("x")), ("c", Arr([Num(1)]))]);
    SingleEntry("a", inner);
    assert ["a", "c", "0"] == ["a"] + ["c", "0"];
    InsertStep(first, "a", ["c", "0"], Num(1));
    assert ChildOf(first, ["a", "c", "0"], 0, Num(1)) == inner;
    ExampleInnerInsert();
    LastEntry([], "a", inner, full);
    assert [] + [("a", inner)] == first.fields;
    assert [] + [("a", full)] == [("a", full)];
  }

  lemma ExampleInnerInsert()
    ensures Insert(Obj([("b", Str("x"))]), ["c", "0"], Num(1)) == Some(Obj([("b", Str("x")), ("c", Arr([Num(1)]))]))
  {
    var inner := Obj([("b", Str("x"))]);
    assert !InheritedName("c");
    assert Keys(inner.fields) == ["b"];
    assert ["c", "0"] == ["c"] + ["0"];
    InsertStep(inner, "c", ["0"], Num(1));
    DigitsAreNumbers("0");
    assert ChildOf(inner, ["c", "0"], 0, Num(1)) == Arr([]);
    ExampleLeafInArray();
    PutNew(inner.fields, "c", Arr([Num(1)]));
    assert inner.fields + [("c", Arr([Num(1)]))] == [("b", Str("x")), ("c", Arr([Num(1)]))];
    assert Attach(inner, "c", Arr([Num(1)])) == Obj([("b", Str("x")), ("c", Arr([Num(1)]))]);
  }

  lemma ExampleLeafInArray()
    ensures Insert(Arr([]), ["0"], Num(1)) == Some(Arr([Num(1)]))
  {
    ItosIsArrayIndex(0);
    assert Itos(0) == "0";
    FalsySlotFilled(Arr([]), "0", Num(1));
    assert [] + [Num(1)] == [Num(1)];
  }
}
