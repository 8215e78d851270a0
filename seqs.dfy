/** Sequence helpers shared by the server and the dashboard: the JavaScript array built-ins they use. */
module Seqs {

  predicate Distinct<T(==)>(s: seq<T>) {
    forall i, j :: 0 <= i < j < |s| ==> s[i] != s[j]
  }

  /** `arr.map(f)`: `f` of every element, in order. */
  function MapSeq<T, U>(s: seq<T>, f: T -> U): (r: seq<U>)
    ensures |r| == |s| && forall i :: 0 <= i < |s| ==> r[i] == f(s[i])
  {
    seq(|s|, i requires 0 <= i < |s| => f(s[i]))
  }

  /** `arr.indexOf(x)`: the first position of `x`, or -1. */
  function IndexOf<T(==)>(s: seq<T>, x: T): (r: int)
    ensures -1 <= r < |s|
    ensures r == -1 <==> x !in s
    ensures r >= 0 ==> s[r] == x && x !in s[..r]
  {
    if s == [] then -1
    else if s[0] == x then 0
    else var k := IndexOf(s[1..], x); if k == -1 then -1 else k + 1
  }

  /** The elements of `s` in order of first occurrence, each once. */
  function Dedup<T(==,!new)>(s: seq<T>): (r: seq<T>)
    ensures forall x :: x in r <==> x in s
    ensures Distinct(r)
    ensures |r| == 0 <==> |s| == 0
  {
    if s == [] then []
    else
      var d := Dedup(s[..|s| - 1]);
      var x := s[|s| - 1];
      if x in d then d else d + [x]
  }

  /**
   * The filter `arr.filter((x, i, arr) => arr.indexOf(x) === i)` applied to the first
   * `n` elements of `s`: an element is kept where it first occurs.
   */
  function FirstOccurrences<T(==,!new)>(s: seq<T>, n: nat): seq<T>
    requires n <= |s|
  {
    if n == 0 then []
    else FirstOccurrences(s, n - 1) + (if IndexOf(s, s[n - 1]) == n - 1 then [s[n - 1]] else [])
  }

  /** Dedup is exactly the first-occurrence filter. */
  lemma {:induction false} DedupIsFirstOccurrences<T(!new)>(s: seq<T>, n: nat)
    requires n <= |s|
    ensures Dedup(s[..n]) == FirstOccurrences(s, n)
  {
    if n > 0 {
      DedupIsFirstOccurrences(s, n - 1);
      assert s[..n][..n - 1] == s[..n - 1];
      FirstAt(s, n);
    }
  }

  /** `s[n - 1]` occurs first at `n - 1` exactly when it is not among the earlier elements. */
  lemma FirstAt<T>(s: seq<T>, n: nat)
    requires 0 < n <= |s|
    ensures IndexOf(s, s[n - 1]) == n - 1 <==> s[n - 1] !in s[..n - 1]
  {
    var k := IndexOf(s, s[n - 1]);
    assert forall i :: 0 <= i < k ==> s[..k][i] == s[i];
    assert forall i :: 0 <= i < n - 1 ==> s[..n - 1][i] == s[i];
  }

  /** A distinct sequence has as many elements as its set. */
  lemma {:induction false} DistinctCardinality<T>(s: seq<T>)
    requires Distinct(s)
    ensures |set x | x in s| == |s|
  {
    if s != [] {
      var t := s[1..];
      assert Distinct(t);
      DistinctCardinality(t);
      assert (set x | x in s) == (set x | x in t) + {s[0]};
      assert s[0] !in t;
    }
  }

  /** `Math.max(...s)`. */
  function Max(s: seq<int>): (m: int)
    requires |s| > 0
    ensures m in s
    ensures forall i :: 0 <= i < |s| ==> s[i] <= m
  {
    if |s| == 1 then s[0]
    else var rest := Max(s[1..]); if s[0] >= rest then s[0] else rest
  }

  function Min(s: seq<int>): (m: int)
    requires |s| > 0
    ensures m in s
    ensures forall i :: 0 <= i < |s| ==> m <= s[i]
  {
    if |s| == 1 then s[0]
    else var rest := Min(s[1..]); if s[0] <= rest then s[0] else rest
  }

  function Sum(s: seq<int>): int {
    if s == [] then 0 else s[0] + Sum(s[1..])
  }

  predicate SortedByKeyDesc<T>(s: seq<T>, key: T -> int) {
    forall i, j :: 0 <= i < j < |s| ==> key(s[i]) >= key(s[j])
  }

  /** Place `x` before the first element whose key is not larger, so equal keys keep their order. */
  function InsertByKeyDesc<T>(x: T, s: seq<T>, key: T -> int): (r: seq<T>)
    requires SortedByKeyDesc(s, key)
    ensures SortedByKeyDesc(r, key)
    ensures multiset(r) == multiset(s) + multiset{x}
  {
    if s == [] || key(x) >= key(s[0]) then
      ConsSorted(x, s, key);
      [x] + s
    else
      var t := InsertByKeyDesc(x, s[1..], key);
      assert s == [s[0]] + s[1..];
      KeysBounded(t, x, s[1..], key(s[0]), key);
      ConsSorted(s[0], t, key);
      [s[0]] + t
  }

  lemma ConsSorted<T>(h: T, t: seq<T>, key: T -> int)
    requires SortedByKeyDesc(t, key)
    requires t == [] || key(h) >= key(t[0])
    ensures SortedByKeyDesc([h] + t, key)
  {
    var r := [h] + t;
    forall i, j | 0 <= i < j < |r| ensures key(r[i]) >= key(r[j]) {
      if i == 0 && j > 1 { assert key(t[0]) >= key(t[j - 1]); }
    }
  }

  lemma KeysBounded<T>(t: seq<T>, x: T, rest: seq<T>, bound: int, key: T -> int)
    requires multiset(t) == multiset(rest) + multiset{x}
    requires key(x) <= bound
    requires forall i :: 0 <= i < |rest| ==> key(rest[i]) <= bound
    ensures forall i :: 0 <= i < |t| ==> key(t[i]) <= bound
  {
    forall i | 0 <= i < |t|
      ensures key(t[i]) <= bound
    {
      assert t[i] in multiset(t);
      if t[i] != x {
        assert t[i] in multiset(rest);
        var j :| 0 <= j < |rest| && rest[j] == t[i];
      }
    }
  }

  /**
   * `array.sort((a, b) => key(b) - key(a))`: descending by key; like the JavaScript
   * sort, it is stable.
   */
  function SortByKeyDesc<T>(s: seq<T>, key: T -> int): (r: seq<T>)
    ensures SortedByKeyDesc(r, key)
    ensures multiset(r) == multiset(s)
    ensures |r| == |s|
  {
    if s == [] then []
    else
      assert s == [s[0]] + s[1..];
      InsertByKeyDesc(s[0], SortByKeyDesc(s[1..], key), key)
  }

  /** `r` is `s` with some elements left out and the rest in their order. */
  predicate IsSubsequence<T(==)>(r: seq<T>, s: seq<T>) {
    if r == [] then true
    else if s == [] then false
    else if r[0] == s[0] then IsSubsequence(r[1..], s[1..])
    else IsSubsequence(r, s[1..])
  }

  /** `s.filter(keep)`. */
  function Filter<T>(s: seq<T>, keep: T -> bool): (r: seq<T>)
    ensures forall i :: 0 <= i < |r| ==> keep(r[i])
  {
    if s == [] then []
    else
      var rest := Filter(s[1..], keep);
      if keep(s[0]) then [s[0]] + rest else rest
  }

  /** Every kept element stays as often as it occurs; every other one goes. */
  lemma {:induction false} FilterCounts<T>(s: seq<T>, keep: T -> bool, x: T)
    ensures multiset(Filter(s, keep))[x] == if keep(x) then multiset(s)[x] else 0
  {
    if s != [] {
      FilterCounts(s[1..], keep, x);
      assert s == [s[0]] + s[1..];
      assert multiset(s) == multiset{s[0]} + multiset(s[1..]);
    }
  }

  /** The filter keeps the order of what it keeps. */
  lemma {:induction false} FilterInOrder<T>(s: seq<T>, keep: T -> bool)
    ensures IsSubsequence(Filter(s, keep), s)
  {
    if s != [] {
      FilterInOrder(s[1..], keep);
      var r := Filter(s, keep);
      var rest := Filter(s[1..], keep);
      if keep(s[0]) {
        assert r[0] == s[0] && r[1..] == rest;
      } else if rest != [] {
        assert r == rest && r[0] != s[0];
      }
    }
  }

  /** Filtering distributes over concatenation. */
  lemma {:induction false} FilterAppend<T>(a: seq<T>, b: seq<T>, keep: T -> bool)
    ensures Filter(a + b, keep) == Filter(a, keep) + Filter(b, keep)
  {
    if a != [] {
      FilterAppend(a[1..], b, keep);
      assert (a + b)[0] == a[0];
      assert (a + b)[1..] == a[1..] + b;
    } else {
      assert a + b == b;
    }
  }

  /** The first `n` of a list sorted by descending key: sorted, drawn from it, and no smaller than the rest. */
  lemma SortedPrefix<T>(s: seq<T>, key: T -> int, n: nat)
    requires SortedByKeyDesc(s, key) && n <= |s|
    ensures SortedByKeyDesc(s[..n], key)
    ensures multiset(s[..n]) <= multiset(s)
    ensures forall i, j :: 0 <= i < n <= j < |s| ==> key(s[..n][i]) >= key(s[j])
  {
    assert s == s[..n] + s[n..];
    assert multiset(s) == multiset(s[..n]) + multiset(s[n..]);
  }
}
