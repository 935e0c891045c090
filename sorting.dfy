/** `sort_values(key)` as a stable insertion sort on a real-valued key.
    Nothing is promised about the relative order of equal keys. */
module Sorting {
  import opened Seqs

  /** Keys never decrease along `s`. */
  ghost predicate SortedBy<T>(s: seq<T>, key: T -> real) {
    forall i, j :: 0 <= i < j < |s| ==> key(s[i]) <= key(s[j])
  }

  /** A lower bound of the old elements and of the new one bounds the result. */
  lemma LowerBound<T>(y: T, x: T, tail: seq<T>, rest: seq<T>, key: T -> real)
    requires multiset(rest) == multiset(tail) + multiset{x}
    requires key(y) <= key(x) && forall i :: 0 <= i < |tail| ==> key(y) <= key(tail[i])
    ensures forall i :: 0 <= i < |rest| ==> key(y) <= key(rest[i])
  {
    forall i | 0 <= i < |rest| ensures key(y) <= key(rest[i]) {
      assert rest[i] in multiset(rest);
      if rest[i] != x {
        assert rest[i] in tail;
      }
    }
  }

  lemma SortedCons<T>(y: T, t: seq<T>, key: T -> real)
    requires SortedBy(t, key) && forall i :: 0 <= i < |t| ==> key(y) <= key(t[i])
    ensures SortedBy([y] + t, key)
  {
    var r := [y] + t;
    forall i, j | 0 <= i < j < |r| ensures key(r[i]) <= key(r[j]) {
      assert r[j] == t[j - 1];
      if i > 0 { assert r[i] == t[i - 1]; }
    }
  }

  function InsertBy<T>(x: T, s: seq<T>, key: T -> real): (r: seq<T>)
    requires SortedBy(s, key)
    ensures SortedBy(r, key)
    ensures multiset(r) == multiset(s) + multiset{x}
    ensures |r| == |s| + 1
  {
    if s == [] then [x]
    else if key(x) <= key(s[0]) then
      SortedCons(x, s, key);
      [x] + s
    else
      assert s == [s[0]] + s[1..];
      var rest := InsertBy(x, s[1..], key);
      LowerBound(s[0], x, s[1..], rest, key);
      SortedCons(s[0], rest, key);
      [s[0]] + rest
  }

  /** The elements of `s`, reordered so that `key` never decreases. */
  function SortBy<T>(s: seq<T>, key: T -> real): (r: seq<T>)
    ensures SortedBy(r, key)
    ensures multiset(r) == multiset(s)
    ensures |r| == |s|
  {
    if s == [] then []
    else
      assert s == [s[0]] + s[1..];
      InsertBy(s[0], SortBy(s[1..], key), key)
  }

  /** The first `n` elements of a sorted sequence carry the smallest keys:
      every element left out has a key at least as large as every one kept. */
  lemma TakeSmallest<T>(s: seq<T>, key: T -> real, n: nat)
    requires SortedBy(s, key) && n <= |s|
    ensures forall x, y :: x in multiset(s) - multiset(s[..n]) && y in s[..n] ==> key(y) <= key(x)
  {
    assert s == s[..n] + s[n..];
    assert multiset(s) - multiset(s[..n]) == multiset(s[n..]);
    forall x, y | x in multiset(s) - multiset(s[..n]) && y in s[..n] ensures key(y) <= key(x) {
      assert x in s[n..];
      var j :| 0 <= j < |s[n..]| && s[n..][j] == x;
      var i :| 0 <= i < n && s[..n][i] == y;
      assert s[i] == y && s[n + j] == x;
    }
  }

  /** Sortedness survives taking a prefix. */
  lemma SortedPrefix<T>(s: seq<T>, key: T -> real, n: nat)
    requires SortedBy(s, key) && n <= |s|
    ensures SortedBy(s[..n], key)
  {
  }

  /** Every element of a sorted insertion is the inserted one or an old one. */
  lemma InsertByMember<T>(x: T, s: seq<T>, key: T -> real, i: nat)
    requires SortedBy(s, key) && i < |InsertBy(x, s, key)|
    ensures InsertBy(x, s, key)[i] == x
         || exists k :: 0 <= k < |s| && s[k] == InsertBy(x, s, key)[i]
  {
    var r := InsertBy(x, s, key);
    assert r[i] in multiset(r);
    if r[i] != x {
      assert r[i] in multiset(s);
      assert r[i] in s;
    }
  }

  lemma {:induction false} InsertByDistinct<T, K>(x: T, s: seq<T>, key: T -> real, g: T -> K)
    requires SortedBy(s, key) && DistinctBy(s, g)
    requires forall i :: 0 <= i < |s| ==> g(s[i]) != g(x)
    ensures DistinctBy(InsertBy(x, s, key), g)
  {
    var r := InsertBy(x, s, key);
    if s == [] {
    } else if key(x) <= key(s[0]) {
      assert r == [x] + s;
      forall i, j | 0 <= i < j < |r| ensures g(r[i]) != g(r[j]) {
        assert r[j] == s[j - 1];
        if i > 0 { assert r[i] == s[i - 1]; }
      }
    } else {
      var tail := s[1..];
      assert forall i :: 0 <= i < |tail| ==> tail[i] == s[i + 1];
      InsertByDistinct(x, tail, key, g);
      var rest := InsertBy(x, tail, key);
      assert r == [s[0]] + rest;
      forall j | 0 <= j < |rest| ensures g(rest[j]) != g(s[0]) {
        InsertByMember(x, tail, key, j);
      }
      forall i, j | 0 <= i < j < |r| ensures g(r[i]) != g(r[j]) {
        assert r[j] == rest[j - 1];
        if i > 0 { assert r[i] == rest[i - 1]; }
      }
    }
  }

  /** Sorting duplicates nothing: distinct `g`-values stay distinct. */
  lemma {:induction false} SortByDistinct<T, K>(s: seq<T>, key: T -> real, g: T -> K)
    requires DistinctBy(s, g)
    ensures DistinctBy(SortBy(s, key), g)
  {
    if s != [] {
      assert forall i :: 0 <= i < |s[1..]| ==> s[1..][i] == s[i + 1];
      SortByDistinct(s[1..], key, g);
      var sorted := SortBy(s[1..], key);
      forall i | 0 <= i < |sorted| ensures g(sorted[i]) != g(s[0]) {
        assert sorted[i] in multiset(sorted);
        assert sorted[i] in s[1..];
      }
      InsertByDistinct(s[0], sorted, key, g);
    }
  }

  lemma {:induction false} InsertBySum<T>(x: T, s: seq<T>, key: T -> real, f: T -> real)
    requires SortedBy(s, key)
    ensures Sum(InsertBy(x, s, key), f) == f(x) + Sum(s, f)
  {
    if s != [] && key(x) > key(s[0]) {
      InsertBySum(x, s[1..], key, f);
      assert InsertBy(x, s, key)[1..] == InsertBy(x, s[1..], key);
    } else if s != [] {
      assert InsertBy(x, s, key)[1..] == s;
    }
  }

  /** Reordering leaves every column sum unchanged. */
  lemma {:induction false} SortBySum<T>(s: seq<T>, key: T -> real, f: T -> real)
    ensures Sum(SortBy(s, key), f) == Sum(s, f)
  {
    if s != [] {
      SortBySum(s[1..], key, f);
      InsertBySum(s[0], SortBy(s[1..], key), key, f);
    }
  }
}
