/**
  * Splitting a flat key path into segments, as both `unflattenJSON`
  * (src/utils.ts) and `renderTranslation` (src/App.tsx) do:
  * `key.replace(/\[(\w+)\]/g, ".$1").split(".")`.
  */
module KeyPaths {
  import opened JsNumbers

  /** The regular-expression class `\w`: ASCII letters, digits and `_`. */
  predicate IsWordChar(c: char) {
    'a' <= c <= 'z' || 'A' <= c <= 'Z' || '0' <= c <= '9' || c == '_'
  }

  /** The first index at or after `i` that does not hold a word character. */
  function WordRun(s: string, i: nat): (j: nat)
    requires i <= |s|
    ensures i <= j <= |s|
    ensures forall k :: i <= k < j ==> IsWordChar(s[k])
    ensures j < |s| ==> !IsWordChar(s[j])
    decreases |s| - i
  {
    if i < |s| && IsWordChar(s[i]) then WordRun(s, i + 1) else i
  }

  /** Whether `[w]`, with `w` one or more word characters, starts `s`; its `]` is at WordRun(s, 1). */
  predicate BracketAtStart(s: string) {
    |s| > 0 && s[0] == '[' && var q := WordRun(s, 1); 1 < q < |s| && s[q] == ']'
  }

  /**
    * `s.replace(/\[(\w+)\]/g, ".$1")`: scanning left to right, each
    * bracketed run of word characters becomes a dot followed by the run.
    */
  function BracketsToDots(s: string): string
    decreases |s|
  {
    if s == [] then []
    else if BracketAtStart(s) then
      var q := WordRun(s, 1);
      "." + s[1..q] + BracketsToDots(s[q + 1..])
    else [s[0]] + BracketsToDots(s[1..])
  }

  /** `s.split(".")`: always at least one part, and no part holds a dot. */
  function SplitDots(s: string): (parts: seq<string>)
    ensures |parts| > 0
    ensures forall i :: 0 <= i < |parts| ==> '.' !in parts[i]
    ensures JoinDots(parts) == s
  {
    if s == [] then [""]
    else if s[0] == '.' then [""] + SplitDots(s[1..])
    else
      var rest := SplitDots(s[1..]);
      [[s[0]] + rest[0]] + rest[1..]
  }

  /** `parts.join(".")`, the inverse of SplitDots. */
  function JoinDots(parts: seq<string>): string {
    if parts == [] then ""
    else if |parts| == 1 then parts[0]
    else parts[0] + "." + JoinDots(parts[1..])
  }

  /** The segments of a flat key path. */
  function Segments(key: string): seq<string> {
    SplitDots(BracketsToDots(key))
  }

  // ---------------------------------------------------------------------------
  // How segments follow the way flattening builds paths.

  lemma {:induction false} WordRunAppend(a: string, b: string, i: nat)
    requires i <= |a|
    requires b == [] || !IsWordChar(b[0])
    ensures WordRun(a + b, i) == WordRun(a, i)
    decreases |a| - i
  {
    if i < |a| && IsWordChar(a[i]) {
      WordRunAppend(a, b, i + 1);
    }
  }

  /**
    * A bracket match never reaches across the start of `b` when `b` opens
    * with a character that can neither extend a word nor close a bracket.
    */
  lemma {:induction false} BracketsToDotsAppend(a: string, b: string)
    requires b == [] || (!IsWordChar(b[0]) && b[0] != ']')
    ensures BracketsToDots(a + b) == BracketsToDots(a) + BracketsToDots(b)
    decreases |a|
  {
    if a == [] {
      assert a + b == b;
    } else {
      var h, n := FirstReplacement(a, b);
      BracketsToDotsAppend(a[n..], b);
    }
  }

  /** The first step of the scan over `a + b` stays inside `a` and emits what it emits over `a` alone. */
  lemma FirstReplacement(a: string, b: string) returns (h: string, n: nat)
    requires a != [] && (b == [] || (!IsWordChar(b[0]) && b[0] != ']'))
    ensures 0 < n <= |a|
    ensures BracketsToDots(a) == h + BracketsToDots(a[n..])
    ensures BracketsToDots(a + b) == h + BracketsToDots(a[n..] + b)
  {
    var s := a + b;
    WordRunAppend(a, b, 1);
    var q := WordRun(a, 1);
    if BracketAtStart(a) {
      h, n := "." + a[1..q], q + 1;
      assert BracketAtStart(s);
      assert s[1..q] == a[1..q];
      assert s[q + 1..] == a[q + 1..] + b;
    } else {
      h, n := [a[0]], 1;
      assert !BracketAtStart(s) by {
        if q == |a| {
          assert b == [] || s[q] == b[0];
        }
      }
      assert s[1..] == a[1..] + b;
    }
  }

  lemma {:induction false} NoBracketsUnchanged(s: string)
    requires '[' !in s
    ensures BracketsToDots(s) == s
    decreases |s|
  {
    if s != [] {
      NoBracketsUnchanged(s[1..]);
    }
  }

  lemma {:induction false} SplitDotsAppend(a: string, b: string)
    ensures SplitDots(a + "." + b) == SplitDots(a) + SplitDots(b)
    decreases |a|
  {
    if a == [] {
      assert a + "." + b == "." + b;
      assert ("." + b)[1..] == b;
    } else {
      assert (a + "." + b)[1..] == a[1..] + "." + b;
      SplitDotsAppend(a[1..], b);
    }
  }

  lemma {:induction false} NoDotsOnePart(s: string)
    requires '.' !in s
    ensures SplitDots(s) == [s]
    decreases |s|
  {
    if s != [] {
      NoDotsOnePart(s[1..]);
    }
  }

  /** A field name without `[` or `.` is a path of exactly one segment. */
  lemma NameSegments(k: string)
    requires '[' !in k && '.' !in k
    ensures Segments(k) == [k]
  {
    NoBracketsUnchanged(k);
    NoDotsOnePart(k);
  }

  /** `${parent}.${k}` adds the segment `k`. */
  lemma FieldPathSegments(parent: string, k: string)
    requires '[' !in k && '.' !in k
    ensures Segments(parent + "." + k) == Segments(parent) + [k]
  {
    assert parent + "." + k == parent + ("." + k);
    BracketsToDotsAppend(parent, "." + k);
    assert BracketsToDots("." + k) == "." + BracketsToDots(k);
    NoBracketsUnchanged(k);
    assert BracketsToDots(parent) + ("." + k) == BracketsToDots(parent) + "." + k;
    SplitDotsAppend(BracketsToDots(parent), k);
    NoDotsOnePart(k);
  }

  /** `${parent}[${i}]` adds the segment `${i}`, for any parent, the empty one included. */
  lemma IndexPathSegments(parent: string, i: nat)
    ensures Segments(parent + "[" + Itos(i) + "]") == Segments(parent) + [Itos(i)]
  {
    var d := Itos(i);
    var b := "[" + d + "]";
    assert parent + "[" + d + "]" == parent + b;
    BracketsToDotsAppend(parent, b);
    assert BracketAtStart(b) && WordRun(b, 1) == |d| + 1 by {
      WordRunDigits(b, d);
    }
    assert b[1..|d| + 1] == d && b[|d| + 2..] == [];
    assert BracketsToDots(b) == "." + d;
    assert BracketsToDots(parent) + ("." + d) == BracketsToDots(parent) + "." + d;
    SplitDotsAppend(BracketsToDots(parent), d);
    assert '.' !in d by {
      assert forall j :: 0 <= j < |d| ==> IsDigit(d[j]);
    }
    NoDotsOnePart(d);
  }

  lemma WordRunDigits(b: string, d: string)
    requires |d| > 0 && AllDigits(d) && b == "[" + d + "]"
    ensures WordRun(b, 1) == |d| + 1
  {
    WordRunAppend("[" + d, "]", 1);
    assert b == ("[" + d) + "]";
    WordRunToEnd("[" + d, 1);
  }

  lemma {:induction false} WordRunToEnd(s: string, i: nat)
    requires 1 <= i <= |s| && forall k :: 1 <= k < |s| ==> IsDigit(s[k])
    ensures WordRun(s, i) == |s|
    decreases |s| - i
  {
    if i < |s| {
      WordRunToEnd(s, i + 1);
    }
  }
}
