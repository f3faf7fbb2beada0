/**
  Sequence facts behind the two dictionaries of the forecast code. A plain
  JavaScript object filled from a sequence lists its keys (`Object.keys`) in
  the order each key was first inserted: that order is `Distinct`, and the
  per-key tally is `Count`.
 */
module Seqs {

  predicate NoDuplicates<T(==)>(d: seq<T>) {
    forall i, j :: 0 <= i < j < |d| ==> d[i] != d[j]
  }

  /** How many times `x` occurs in `s`. */
  function Count<T(==)>(s: seq<T>, x: T): (n: nat)
    ensures n <= |s|
    ensures n > 0 <==> x in s
  {
    if s == [] then 0
    else
      assert s == s[..|s| - 1] + [s[|s| - 1]];
      Count(s[..|s| - 1], x) + (if s[|s| - 1] == x then 1 else 0)
  }

  /** The distinct elements of `s`, each at the place where it first occurs. */
  function Distinct<T(==,!new)>(s: seq<T>): (d: seq<T>)
    ensures forall x :: x in d <==> x in s
    ensures NoDuplicates(d)
    ensures |d| <= |s|
  {
    if s == [] then []
    else
      assert s == s[..|s| - 1] + [s[|s| - 1]];
      var p := Distinct(s[..|s| - 1]);
      if s[|s| - 1] in p then p else p + [s[|s| - 1]]
  }

  /** The position of the first occurrence of `x` in `s`. */
  function FirstIndex<T(==)>(s: seq<T>, x: T): (i: nat)
    requires x in s
    ensures i < |s| && s[i] == x && x !in s[..i]
  {
    if s[0] == x then 0
    else
      assert s == [s[0]] + s[1..];
      var k := FirstIndex(s[1..], x);
      assert s[..k + 1] == [s[0]] + s[1..][..k];
      1 + k
  }

  /** `findIndex` for one element: the first position of `x`, or -1 when `x` does not occur. */
  function FindIndex<T(==)>(s: seq<T>, x: T): (r: int)
    ensures -1 <= r < |s|
    ensures r >= 0 ==> s[r] == x && forall j :: 0 <= j < r ==> s[j] != x
    ensures r == -1 <==> x !in s
  {
    if x in s then
      var k := FirstIndex(s, x);
      assert forall j :: 0 <= j < k ==> s[..k][j] == s[j];
      k
    else -1
  }

  /** A position holding `x` with no `x` before it is the first index of `x`. */
  lemma FirstIndexUnique<T>(s: seq<T>, x: T, k: nat)
    requires k < |s| && s[k] == x && x !in s[..k]
    ensures FirstIndex(s, x) == k
  {
  }

  /** Appending an element does not move the first index of an element already present. */
  lemma FirstIndexOfPrefix<T>(s: seq<T>, y: T, x: T)
    requires x in s
    ensures x in s + [y] && FirstIndex(s + [y], x) == FirstIndex(s, x)
  {
    var k := FirstIndex(s, x);
    assert (s + [y])[..k] == s[..k];
    FirstIndexUnique(s + [y], x, k);
  }

  /** `Distinct` lists the elements of `s` in increasing order of first occurrence. */
  lemma {:induction false} DistinctInFirstSeenOrder<T(!new)>(s: seq<T>)
    ensures forall i, j :: 0 <= i < j < |Distinct(s)| ==>
      FirstIndex(s, Distinct(s)[i]) < FirstIndex(s, Distinct(s)[j])
  {
    if s != [] {
      var s', y := s[..|s| - 1], s[|s| - 1];
      assert s == s' + [y];
      var p := Distinct(s');
      DistinctInFirstSeenOrder(s');
      forall e | e in s' ensures FirstIndex(s, e) == FirstIndex(s', e) {
        FirstIndexOfPrefix(s', y, e);
      }
      if y !in p {
        assert s[..|s| - 1] == s';
        FirstIndexUnique(s, y, |s| - 1);
        var d := Distinct(s);
        assert d == p + [y];
        forall i, j | 0 <= i < j < |d| ensures FirstIndex(s, d[i]) < FirstIndex(s, d[j]) {
          assert d[i] == p[i] && d[i] in s';
          if j < |p| { assert d[j] == p[j]; }
        }
      }
    }
  }

  /** Taking one more element of `s` extends `Distinct` only by an element not yet seen. */
  lemma DistinctSnoc<T(!new)>(s: seq<T>, y: T)
    ensures Distinct(s + [y]) == if y in Distinct(s) then Distinct(s) else Distinct(s) + [y]
  {
    assert (s + [y])[..|s|] == s;
  }

  /** Taking one more element of `s` adds one to its own tally and nothing to any other. */
  lemma CountSnoc<T>(s: seq<T>, y: T, x: T)
    ensures Count(s + [y], x) == Count(s, x) + (if x == y then 1 else 0)
  {
    assert (s + [y])[..|s|] == s;
  }

  /** The tallies of the keys `ks`, added up. */
  function SumOfCounts<T(==)>(ks: seq<T>, s: seq<T>): nat {
    if ks == [] then 0 else SumOfCounts(ks[..|ks| - 1], s) + Count(s, ks[|ks| - 1])
  }

  lemma {:induction false} SumOfCountsSnoc<T>(ks: seq<T>, s: seq<T>, y: T)
    requires NoDuplicates(ks)
    ensures SumOfCounts(ks, s + [y]) == SumOfCounts(ks, s) + (if y in ks then 1 else 0)
  {
    if ks != [] {
      var ks' := ks[..|ks| - 1];
      assert ks == ks' + [ks[|ks| - 1]];
      CountSnoc(s, y, ks[|ks| - 1]);
      SumOfCountsSnoc(ks', s, y);
    }
  }

  /** Every element of `s` is tallied under exactly one of its distinct keys. */
  lemma {:induction false} CountsPartition<T(!new)>(s: seq<T>)
    ensures SumOfCounts(Distinct(s), s) == |s|
  {
    if s != [] {
      var s', y := s[..|s| - 1], s[|s| - 1];
      assert s == s' + [y];
      var p := Distinct(s');
      CountsPartition(s');
      DistinctSnoc(s', y);
      SumOfCountsSnoc(p, s', y);
      CountSnoc(s', y, y);
      if y !in p {
        assert (p + [y])[..|p|] == p;
        assert Count(s', y) == 0;
      }
    }
  }
}
