/**
  * Ordered string-keyed dictionaries and sets, with the semantics of a
  * JavaScript object used as a record (`obj[k] = v`) and of a `Set<string>`:
  * iteration follows insertion order, assigning to a key that is already
  * present keeps its position, and a new key goes to the end.
  *
  * JavaScript enumerates integer-like keys of a plain object before all
  * others; this model keeps plain insertion order throughout.
  */
module Dicts {
  import opened Wrappers

  type Dict<V> = seq<(string, V)>

  function Keys<V>(d: Dict<V>): seq<string> {
    seq(|d|, i requires 0 <= i < |d| => d[i].0)
  }

  predicate NoDup(s: seq<string>) {
    forall i, j :: 0 <= i < j < |s| ==> s[i] != s[j]
  }

  /** The position of the first entry under `k`. */
  function IndexOf<V>(d: Dict<V>, k: string): (i: nat)
    requires k in Keys(d)
    ensures i < |d| && d[i].0 == k
    ensures forall j :: 0 <= j < i ==> d[j].0 != k
  {
    IndexFrom(d, k, 0)
  }

  function IndexFrom<V>(d: Dict<V>, k: string, from: nat): (i: nat)
    requires k in Keys(d) && from <= |d|
    requires forall j :: 0 <= j < from ==> d[j].0 != k
    ensures from <= i < |d| && d[i].0 == k
    ensures forall j :: 0 <= j < i ==> d[j].0 != k
    decreases |d| - from
  {
    var w :| 0 <= w < |d| && Keys(d)[w] == k;
    assert from <= w;
    if d[from].0 == k then from else IndexFrom(d, k, from + 1)
  }

  /** Two dictionaries with the same key sequence find a key at the same position. */
  lemma SameIndex<V>(a: Dict<V>, b: Dict<V>, k: string)
    requires Keys(a) == Keys(b) && k in Keys(a)
    ensures IndexOf(a, k) == IndexOf(b, k)
  {
    var i, j := IndexOf(a, k), IndexOf(b, k);
    assert Keys(a)[i] == k && Keys(b)[j] == k;
  }

  /** `d[k]`: the value stored under `k`, or None for `undefined`. */
  function Get<V>(d: Dict<V>, k: string): (r: Option<V>)
    ensures r.Some? <==> k in Keys(d)
    ensures r.Some? ==> (k, r.value) in d
  {
    if k in Keys(d) then
      var i := IndexOf(d, k);
      assert d[i] == (k, d[i].1);
      Some(d[i].1)
    else None
  }

  /** `d[k] = v`: overwrite in place when `k` is present, append otherwise. */
  function Put<V>(d: Dict<V>, k: string, v: V): (r: Dict<V>)
    ensures Keys(r) == if k in Keys(d) then Keys(d) else Keys(d) + [k]
    ensures Get(r, k) == Some(v)
    ensures forall k' :: k' != k ==> Get(r, k') == Get(d, k')
  {
    if k in Keys(d) then
      var i := IndexOf(d, k);
      var r := d[i := (k, v)];
      assert Keys(r) == Keys(d);
      PutFrame(d, r, k);
      SameIndex(r, d, k);
      r
    else
      var r := d + [(k, v)];
      assert Keys(r) == Keys(d) + [k];
      PutFrame(d, r, k);
      assert Keys(r)[..|d|] == Keys(d);
      assert Keys(r)[IndexOf(r, k)] == k;
      r
  }

  /** Entries of `d` kept at their positions in `r`, and no other key added but `k`, leave every other key's value alone. */
  lemma PutFrame<V>(d: Dict<V>, r: Dict<V>, k: string)
    requires |d| <= |r| && Keys(r)[..|d|] == Keys(d)
    requires forall j :: 0 <= j < |d| && d[j].0 != k ==> r[j] == d[j]
    requires forall j :: |d| <= j < |r| ==> r[j].0 == k
    ensures forall k' :: k' != k ==> Get(r, k') == Get(d, k')
  {
    forall k' | k' != k
      ensures Get(r, k') == Get(d, k')
    {
      if k' in Keys(d) {
        var i := IndexOf(d, k');
        assert Keys(r)[i] == k';
        var j := IndexOf(r, k');
        assert Keys(r)[j] == k';
      }
    }
  }

  /** Assigning every entry of `es`, in order, into `d`. */
  function PutAll<V>(d: Dict<V>, es: Dict<V>): Dict<V>
    decreases |es|
  {
    if es == [] then d
    else
      var last := es[|es| - 1];
      Put(PutAll(d, es[..|es| - 1]), last.0, last.1)
  }

  lemma {:induction false} PutAllAppend<V>(d: Dict<V>, a: Dict<V>, b: Dict<V>)
    ensures PutAll(d, a + b) == PutAll(PutAll(d, a), b)
    decreases |b|
  {
    if b == [] {
      assert a + b == a;
    } else {
      assert (a + b)[..|a + b| - 1] == a + b[..|b| - 1];
      PutAllAppend(d, a, b[..|b| - 1]);
    }
  }

  /** Assigning never removes a key nor moves one: the old keys stay a prefix, in order. */
  lemma {:induction false} PutAllExtends<V>(d: Dict<V>, es: Dict<V>)
    ensures |PutAll(d, es)| >= |d|
    ensures Keys(PutAll(d, es))[..|d|] == Keys(d)
    decreases |es|
  {
    if es != [] {
      PutAllExtends(d, es[..|es| - 1]);
    }
  }

  /** A key that is not yet present is appended. */
  lemma PutNew<V>(d: Dict<V>, k: string, v: V)
    requires k !in Keys(d)
    ensures Put(d, k, v) == d + [(k, v)]
  {
  }

  lemma KeysAppend<V>(a: Dict<V>, b: Dict<V>)
    ensures Keys(a + b) == Keys(a) + Keys(b)
  {
  }

  /** The last entry of `pre + [(k, u)]` is the only one under a key that `pre` lacks. */
  lemma LastEntry<V>(pre: Dict<V>, k: string, u: V, w: V)
    requires k !in Keys(pre)
    ensures Get(pre + [(k, u)], k) == Some(u)
    ensures Put(pre + [(k, u)], k, w) == pre + [(k, w)]
  {
    var d := pre + [(k, u)];
    assert Keys(d)[|pre|] == k;
    assert forall j :: 0 <= j < |pre| ==> d[j].0 == Keys(pre)[j];
    assert IndexOf(d, k) == |pre|;
  }

  /** Assigning entries whose keys are all new and pairwise distinct only appends them. */
  lemma {:induction false} PutAllFresh<V>(d: Dict<V>, es: Dict<V>)
    requires NoDup(Keys(d) + Keys(es))
    ensures PutAll(d, es) == d + es
    decreases |es|
  {
    if es != [] {
      var n := |es|;
      var init, last := es[..n - 1], es[n - 1];
      assert es == init + [last];
      KeysAppend(init, [last]);
      KeysAppend(d, init);
      var all := Keys(d) + Keys(es);
      assert Keys(d) + Keys(init) == all[..|d| + n - 1];
      PutAllFresh(d, init);
      assert all[|d| + n - 1] == last.0;
      assert last.0 !in Keys(d + init) by {
        forall i | 0 <= i < |d + init| ensures Keys(d + init)[i] != last.0 {
          assert Keys(d + init)[i] == all[i];
        }
      }
      PutNew(d + init, last.0, last.1);
    }
  }

  /** Assigning a key the value it already holds changes nothing. */
  lemma PutSame<V>(d: Dict<V>, k: string, u: V)
    requires Get(d, k) == Some(u)
    ensures Put(d, k, u) == d
  {
    var i := IndexOf(d, k);
    assert d[i] == (k, u);
  }

  /** Every entry after an assignment is the assigned one or an entry that was there before. */
  lemma PutEntries<V>(d: Dict<V>, k: string, v: V)
    ensures forall e :: e in Put(d, k, v) ==> e == (k, v) || e in d
  {
    if k in Keys(d) {
      var i := IndexOf(d, k);
      assert Put(d, k, v) == d[i := (k, v)];
      forall e | e in d[i := (k, v)] ensures e == (k, v) || e in d {
        var j :| 0 <= j < |d| && d[i := (k, v)][j] == e;
        if j != i {
          assert e == d[j];
        }
      }
    }
  }

  /** Every entry after assigning `es` comes from `d` or from `es`. */
  lemma {:induction false} PutAllEntries<V>(d: Dict<V>, es: Dict<V>)
    ensures forall e :: e in PutAll(d, es) ==> e in d || e in es
    decreases |es|
  {
    if es != [] {
      var init, last := es[..|es| - 1], es[|es| - 1];
      PutAllEntries(d, init);
      PutEntries(PutAll(d, init), last.0, last.1);
      assert forall e :: e in init ==> e in es;
    }
  }

  /** A one-entry dictionary. */
  lemma SingleEntry<V>(k: string, v: V)
    ensures Put([], k, v) == [(k, v)]
    ensures Get([(k, v)], k) == Some(v)
  {
    PutNew([], k, v);
    LastEntry([], k, v, v);
    assert [] + [(k, v)] == [(k, v)];
  }

  /** Assignment never duplicates a key. */
  lemma PutKeepsNoDup<V>(d: Dict<V>, k: string, v: V)
    requires NoDup(Keys(d))
    ensures NoDup(Keys(Put(d, k, v)))
  {
    var ks := Keys(d);
    if k !in ks {
      forall i, j | 0 <= i < j < |ks + [k]| ensures (ks + [k])[i] != (ks + [k])[j] {
        if j == |ks| {
          assert ks[i] in ks;
        }
      }
    }
  }

  /** `set.add(k)`: a key already in the set leaves it unchanged. */
  function Add(s: seq<string>, k: string): seq<string> {
    if k in s then s else s + [k]
  }

  /** One `add` appends the key exactly when it is new, keeping the set free of duplicates. */
  lemma AddOne(s: seq<string>, k: string)
    ensures Add(s, k) == s + Fresh(s, [k])
    ensures NoDup(s) ==> NoDup(Add(s, k))
    ensures forall x :: x in Add(s, k) <==> x in s || x == k
  {
    assert [k][..0] == [];
  }

  /**
    * The keys of `ks` that `s` lacks, each at its first occurrence in `ks`,
    * in the order they occur there.
    */
  function Fresh(s: seq<string>, ks: seq<string>): seq<string>
    decreases |ks|
  {
    if ks == [] then []
    else
      var init := ks[..|ks| - 1];
      var k := ks[|ks| - 1];
      Fresh(s, init) + if k in s || k in init then [] else [k]
  }

  /** Adding every key of `ks`, in order: the keys new to `s` are appended in the order they are first seen. */
  function AddAll(s: seq<string>, ks: seq<string>): (r: seq<string>)
    ensures r == s + Fresh(s, ks)
    ensures NoDup(s) ==> NoDup(r)
    ensures forall x :: x in r <==> x in s || x in ks
    ensures |s| <= |r| && r[..|s|] == s
    decreases |ks|
  {
    if ks == [] then s
    else
      var init := AddAll(s, ks[..|ks| - 1]);
      assert forall x :: x in ks <==> x in ks[..|ks| - 1] || x == ks[|ks| - 1];
      assert init[..|s|] == (init + [ks[|ks| - 1]])[..|s|];
      Add(init, ks[|ks| - 1])
  }
}
