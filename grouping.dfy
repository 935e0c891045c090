/** `groupby(key)[col].sum()`: one entry per distinct key, holding the sum
    of the column over the rows with that key. As in pandas (whose groupby
    sorts by default) the entries are kept in ascending key order. */
module Grouping {
  import opened Seqs
  import opened Strings

  datatype Entry = Entry(key: string, total: real)

  function TotalOf(e: Entry): real { e.total }

  function KeyOf(e: Entry): string { e.key }

  /** The distinct keys present in `rows`. */
  function KeysOf<T>(rows: seq<T>, key: T -> string): set<string> {
    set i | 0 <= i < |rows| :: key(rows[i])
  }

  function Keys(t: seq<Entry>): set<string> {
    KeysOf(t, KeyOf)
  }

  /** Keys strictly increase along the table, so no key occurs twice. */
  ghost predicate StrictlySorted(t: seq<Entry>) {
    forall i, j :: 0 <= i < j < |t| ==> StrLess(t[i].key, t[j].key)
  }

  /** The amount recorded for `k`, 0 when `k` has no entry. */
  function Lookup(t: seq<Entry>, k: string): real {
    if t == [] then 0.0 else if t[0].key == k then t[0].total else Lookup(t[1..], k)
  }

  /** The mask selecting the rows whose key is `k`. */
  function KeyIs<T>(key: T -> string, k: string): T -> bool {
    x => key(x) == k
  }

  lemma KeysOfCons<T>(rows: seq<T>, key: T -> string)
    requires rows != []
    ensures KeysOf(rows, key) == {key(rows[0])} + KeysOf(rows[1..], key)
  {
    forall x | x in KeysOf(rows, key) ensures x in {key(rows[0])} + KeysOf(rows[1..], key) {
      var i :| 0 <= i < |rows| && key(rows[i]) == x;
      if i > 0 { assert rows[1..][i - 1] == rows[i]; }
    }
    forall x | x in KeysOf(rows[1..], key) ensures x in KeysOf(rows, key) {
      var i :| 0 <= i < |rows[1..]| && key(rows[1..][i]) == x;
      assert rows[1..][i] == rows[i + 1];
    }
  }

  lemma {:induction false} LookupAbsent(t: seq<Entry>, k: string)
    requires k !in Keys(t)
    ensures Lookup(t, k) == 0.0
  {
    if t != [] {
      KeysOfCons(t, KeyOf);
      LookupAbsent(t[1..], k);
    }
  }

  /** In a table without repeated keys each entry is what Lookup finds. */
  lemma {:induction false} LookupEntry(t: seq<Entry>, i: nat)
    requires StrictlySorted(t) && i < |t|
    ensures Lookup(t, t[i].key) == t[i].total
  {
    if i > 0 {
      assert StrLess(t[0].key, t[i].key);
      if t[0].key == t[i].key {
        StrLessIrreflexive(t[0].key);
      }
      assert t[1..][i - 1] == t[i];
      LookupEntry(t[1..], i - 1);
    }
  }

  /** Every key after the first of a sorted table is above the first. */
  lemma SortedHeadBelow(t: seq<Entry>)
    requires StrictlySorted(t) && t != []
    ensures forall x :: x in Keys(t[1..]) ==> StrLess(t[0].key, x)
  {
    forall x | x in Keys(t[1..]) ensures StrLess(t[0].key, x) {
      var i :| 0 <= i < |t[1..]| && t[1..][i].key == x;
      assert t[1..][i] == t[i + 1];
    }
  }

  /** An entry below every key of a sorted table may go in front of it. */
  lemma StrictlySortedCons(e: Entry, t: seq<Entry>)
    requires StrictlySorted(t)
    requires forall x :: x in Keys(t) ==> StrLess(e.key, x)
    ensures StrictlySorted([e] + t)
  {
    var r := [e] + t;
    forall i, j | 0 <= i < j < |r| ensures StrLess(r[i].key, r[j].key) {
      if i == 0 {
        assert r[j] == t[j - 1];
        assert t[j - 1].key in Keys(t);
      } else {
        assert r[i] == t[i - 1] && r[j] == t[j - 1];
      }
    }
  }

  /** A table whose keys are distinct has as many entries as keys. */
  lemma {:induction false} DistinctKeysCount(t: seq<Entry>)
    requires DistinctBy(t, KeyOf)
    ensures |Keys(t)| == |t|
  {
    if t != [] {
      KeysOfCons(t, KeyOf);
      assert DistinctBy(t[1..], KeyOf) by {
        forall i, j | 0 <= i < j < |t[1..]| ensures KeyOf(t[1..][i]) != KeyOf(t[1..][j]) {
          assert t[1..][i] == t[i + 1] && t[1..][j] == t[j + 1];
        }
      }
      DistinctKeysCount(t[1..]);
    }
  }

  /** Strictly sorted keys are distinct keys. */
  lemma SortedDistinct(t: seq<Entry>)
    requires StrictlySorted(t)
    ensures DistinctBy(t, KeyOf)
  {
    forall i, j | 0 <= i < j < |t| ensures KeyOf(t[i]) != KeyOf(t[j]) {
      if t[i].key == t[j].key { StrLessIrreflexive(t[i].key); }
    }
  }

  /** Adds `a` to the entry for `k`, creating it at its sorted place. */
  function Add(t: seq<Entry>, k: string, a: real): (r: seq<Entry>)
    requires StrictlySorted(t)
    ensures StrictlySorted(r)
    ensures Keys(r) == Keys(t) + {k}
  {
    if t == [] then
      assert Keys([Entry(k, a)]) == {k} by { KeysOfCons([Entry(k, a)], KeyOf); }
      [Entry(k, a)]
    else if t[0].key == k then
      var r := [Entry(k, t[0].total + a)] + t[1..];
      assert r[1..] == t[1..];
      KeysOfCons(t, KeyOf);
      KeysOfCons(r, KeyOf);
      SortedHeadBelow(t);
      StrictlySortedCons(r[0], t[1..]);
      r
    else if StrLess(k, t[0].key) then
      var r := [Entry(k, a)] + t;
      assert r[1..] == t;
      KeysOfCons(t, KeyOf);
      KeysOfCons(r, KeyOf);
      BelowHead(t, k);
      StrictlySortedCons(r[0], t);
      r
    else
      StrLessTotal(k, t[0].key);
      var rest := Add(t[1..], k, a);
      var r := [t[0]] + rest;
      assert r[1..] == rest;
      KeysOfCons(t, KeyOf);
      KeysOfCons(r, KeyOf);
      SortedHeadBelow(t);
      StrictlySortedCons(t[0], rest);
      r
  }

  /** A key below the first key of a sorted table is below all of them,
      so it has no entry. */
  lemma BelowHead(t: seq<Entry>, k: string)
    requires StrictlySorted(t) && t != [] && StrLess(k, t[0].key)
    ensures forall x :: x in Keys(t) ==> StrLess(k, x)
    ensures k !in Keys(t)
  {
    KeysOfCons(t, KeyOf);
    SortedHeadBelow(t);
    forall x | x in Keys(t) ensures StrLess(k, x) {
      if x != t[0].key { StrLessTransitive(k, t[0].key, x); }
    }
    StrLessIrreflexive(k);
  }

  /** Adding to a table adds to its total. */
  lemma {:induction false} AddTotal(t: seq<Entry>, k: string, a: real)
    requires StrictlySorted(t)
    ensures Sum(Add(t, k, a), TotalOf) == Sum(t, TotalOf) + a
  {
    if t != [] && t[0].key != k && !StrLess(k, t[0].key) {
      AddTotal(t[1..], k, a);
      assert Add(t, k, a)[1..] == Add(t[1..], k, a);
    } else if t != [] && t[0].key == k {
      assert Add(t, k, a)[1..] == t[1..];
    } else if t != [] {
      assert Add(t, k, a)[1..] == t;
    }
  }

  /** Adding `a` for `k` changes the amount of `k` by `a` and no other. */
  lemma {:induction false} AddLookup(t: seq<Entry>, k: string, a: real, j: string)
    requires StrictlySorted(t)
    ensures Lookup(Add(t, k, a), j) == Lookup(t, j) + (if j == k then a else 0.0)
  {
    if t != [] && t[0].key != k && !StrLess(k, t[0].key) {
      AddLookup(t[1..], k, a, j);
      assert Add(t, k, a)[1..] == Add(t[1..], k, a);
    } else if t != [] && t[0].key == k {
      assert Add(t, k, a)[1..] == t[1..];
    } else if t != [] {
      assert Add(t, k, a)[1..] == t;
      BelowHead(t, k);
      LookupAbsent(t, k);
    }
  }

  lemma SumGroupCons<T>(rows: seq<T>, key: T -> string, val: T -> real, k: string)
    requires rows != []
    ensures Sum(Filter(rows, KeyIs(key, k)), val)
         == (if key(rows[0]) == k then val(rows[0]) else 0.0) + Sum(Filter(rows[1..], KeyIs(key, k)), val)
  {
  }

  /** The group-by-sum table of `val` over `rows`, grouped by `key`. */
  function GroupSum<T>(rows: seq<T>, key: T -> string, val: T -> real): (r: seq<Entry>)
    ensures StrictlySorted(r)
    ensures Keys(r) == KeysOf(rows, key)
    ensures Sum(r, TotalOf) == Sum(rows, val)
    ensures forall k :: Lookup(r, k) == Sum(Filter(rows, KeyIs(key, k)), val)
  {
    if rows == [] then []
    else
      var t := GroupSum(rows[1..], key, val);
      var r := Add(t, key(rows[0]), val(rows[0]));
      KeysOfCons(rows, key);
      AddTotal(t, key(rows[0]), val(rows[0]));
      assert forall k :: Lookup(r, k) == Sum(Filter(rows, KeyIs(key, k)), val) by {
        forall k ensures Lookup(r, k) == Sum(Filter(rows, KeyIs(key, k)), val) {
          AddLookup(t, key(rows[0]), val(rows[0]), k);
          SumGroupCons(rows, key, val, k);
        }
      }
      r
  }

  /** Each entry of a group-by-sum table holds the sum over its own group. */
  lemma GroupSumEntries<T>(rows: seq<T>, key: T -> string, val: T -> real)
    ensures forall i :: 0 <= i < |GroupSum(rows, key, val)| ==>
      GroupSum(rows, key, val)[i].total == Sum(Filter(rows, KeyIs(key, GroupSum(rows, key, val)[i].key)), val)
  {
    var t := GroupSum(rows, key, val);
    forall i | 0 <= i < |t| ensures t[i].total == Sum(Filter(rows, KeyIs(key, t[i].key)), val) {
      LookupEntry(t, i);
    }
  }
}
