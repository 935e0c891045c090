/** Boolean-mask filtering, column sums and subsequences: the dataframe
    operations the dashboard is built from, over ordered sequences of rows. */
module Seqs {

  /** `df[mask]`: the elements that satisfy `p`, in their original order. */
  function Filter<T>(s: seq<T>, p: T -> bool): (r: seq<T>)
    ensures |r| <= |s|
    ensures forall i :: 0 <= i < |r| ==> p(r[i])
    ensures multiset(r) <= multiset(s)
  {
    if s == [] then []
    else
      assert s == [s[0]] + s[1..];
      if p(s[0]) then [s[0]] + Filter(s[1..], p) else Filter(s[1..], p)
  }

  /** `df[col].sum()`: the sum of `f` over the elements, 0 for none. */
  function Sum<T>(s: seq<T>, f: T -> real): real {
    if s == [] then 0.0 else f(s[0]) + Sum(s[1..], f)
  }

  /** `a` is obtained from `b` by deleting elements (order kept). */
  ghost predicate IsSubseq<T>(a: seq<T>, b: seq<T>)
    decreases |a| + |b|
  {
    if a == [] then true
    else if b == [] then false
    else (a[0] == b[0] && IsSubseq(a[1..], b[1..])) || IsSubseq(a, b[1..])
  }

  /** No two elements of `s` share a `g`-value. */
  ghost predicate DistinctBy<T, K>(s: seq<T>, g: T -> K) {
    forall i, j :: 0 <= i < j < |s| ==> g(s[i]) != g(s[j])
  }

  /** `head(n)`: the first `n` elements, or all of them when there are fewer. */
  function Take<T>(s: seq<T>, n: nat): (r: seq<T>)
    ensures |r| == if |s| <= n then |s| else n
    ensures r == s[..|r|]
  {
    if |s| <= n then s else s[..n]
  }

  /** How often a value occurs after filtering: as often as before if it
      passes the mask, never otherwise. */
  lemma {:induction false} FilterCount<T>(s: seq<T>, p: T -> bool, x: T)
    ensures multiset(Filter(s, p))[x] == if p(x) then multiset(s)[x] else 0
  {
    if s != [] {
      assert s == [s[0]] + s[1..];
      FilterCount(s[1..], p, x);
    }
  }

  /** The positions of `s` whose element passes the mask. */
  function Positions<T>(s: seq<T>, p: T -> bool): set<int> {
    set i | 0 <= i < |s| && p(s[i])
  }

  /** Appending one element adds its index exactly when it passes. */
  lemma PositionsSnoc<T>(init: seq<T>, x: T, p: T -> bool)
    ensures Positions(init + [x], p) == Positions(init, p) + (if p(x) then {|init|} else {})
  {
    var s := init + [x];
    forall i ensures i in Positions(s, p) <==> i in Positions(init, p) + (if p(x) then {|init|} else {}) {
      if 0 <= i < |init| { assert init[i] == s[i]; }
    }
  }

  /** A filter keeps as many elements as there are positions that pass. */
  lemma {:induction false} FilterLength<T>(s: seq<T>, p: T -> bool)
    ensures |Filter(s, p)| == |Positions(s, p)|
  {
    if s != [] {
      var init, x := s[..|s| - 1], s[|s| - 1];
      assert s == init + [x];
      assert [x][1..] == [];
      FilterAppend(init, [x], p);
      FilterLength(init, p);
      PositionsSnoc(init, x, p);
      assert |init| !in Positions(init, p);
    }
  }

  lemma {:induction false} FilterIsSubseq<T>(s: seq<T>, p: T -> bool)
    ensures IsSubseq(Filter(s, p), s)
  {
    if s != [] {
      FilterIsSubseq(s[1..], p);
      if p(s[0]) {
        assert Filter(s, p)[1..] == Filter(s[1..], p);
      } else {
        SubseqDropHead(Filter(s, p), s);
      }
    }
  }

  lemma SubseqDropHead<T>(a: seq<T>, b: seq<T>)
    requires b != [] && IsSubseq(a, b[1..])
    ensures IsSubseq(a, b)
  {
  }

  /** Filtering keeps everything exactly when every element passes. */
  lemma {:induction false} FilterIdentity<T>(s: seq<T>, p: T -> bool)
    ensures Filter(s, p) == s <==> forall i :: 0 <= i < |s| ==> p(s[i])
  {
    if s != [] && forall i :: 0 <= i < |s| ==> p(s[i]) {
      assert forall i :: 0 <= i < |s[1..]| ==> p(s[1..][i]) by {
        forall i | 0 <= i < |s[1..]| ensures p(s[1..][i]) {
          assert s[1..][i] == s[i + 1];
        }
      }
      FilterIdentity(s[1..], p);
    }
  }

  /** Filtering keeps nothing exactly when no element passes. */
  lemma {:induction false} FilterEmpty<T>(s: seq<T>, p: T -> bool)
    ensures Filter(s, p) == [] <==> forall i :: 0 <= i < |s| ==> !p(s[i])
  {
    if s != [] {
      if forall i :: 0 <= i < |s| ==> !p(s[i]) {
        assert forall i :: 0 <= i < |s[1..]| ==> !p(s[1..][i]) by {
          forall i | 0 <= i < |s[1..]| ensures !p(s[1..][i]) {
            assert s[1..][i] == s[i + 1];
          }
        }
        FilterEmpty(s[1..], p);
      } else {
        var j :| 0 <= j < |s| && p(s[j]);
        FilterCount(s, p, s[j]);
        assert s[j] in multiset(s);
      }
    }
  }

  lemma {:induction false} FilterAppend<T>(a: seq<T>, b: seq<T>, p: T -> bool)
    ensures Filter(a + b, p) == Filter(a, p) + Filter(b, p)
  {
    if a == [] {
      assert a + b == b;
    } else {
      assert (a + b)[0] == a[0];
      assert (a + b)[1..] == a[1..] + b;
      FilterAppend(a[1..], b, p);
    }
  }

  lemma {:induction false} SumAppend<T>(a: seq<T>, b: seq<T>, f: T -> real)
    ensures Sum(a + b, f) == Sum(a, f) + Sum(b, f)
  {
    if a == [] {
      assert a + b == b;
    } else {
      assert (a + b)[0] == a[0];
      assert (a + b)[1..] == a[1..] + b;
      SumAppend(a[1..], b, f);
    }
  }

  /** Masking out only summands that are zero leaves a sum unchanged. */
  lemma {:induction false} SumFilterZeros<T>(s: seq<T>, p: T -> bool, f: T -> real)
    requires forall i :: 0 <= i < |s| && !p(s[i]) ==> f(s[i]) == 0.0
    ensures Sum(Filter(s, p), f) == Sum(s, f)
  {
    if s != [] {
      assert forall i :: 0 <= i < |s[1..]| ==> s[1..][i] == s[i + 1];
      SumFilterZeros(s[1..], p, f);
    }
  }

  /** Bounds on every summand bound the sum. */
  lemma {:induction false} SumBounds<T>(s: seq<T>, f: T -> real, lo: real, hi: real)
    requires forall i :: 0 <= i < |s| ==> lo <= f(s[i]) <= hi
    ensures |s| as real * lo <= Sum(s, f) <= |s| as real * hi
  {
    if s != [] {
      assert forall i :: 0 <= i < |s[1..]| ==> s[1..][i] == s[i + 1];
      SumBounds(s[1..], f, lo, hi);
    }
  }

  /** A sum of non-negative summands is non-negative. */
  lemma {:induction false} SumNonNegative<T>(s: seq<T>, f: T -> real)
    requires forall i :: 0 <= i < |s| ==> f(s[i]) >= 0.0
    ensures Sum(s, f) >= 0.0
  {
    if s != [] {
      assert forall i :: 0 <= i < |s[1..]| ==> s[1..][i] == s[i + 1];
      SumNonNegative(s[1..], f);
    }
  }

  /** With non-negative summands a prefix sums to at most the whole. */
  lemma SumTakeAtMost<T>(s: seq<T>, f: T -> real, n: nat)
    requires forall i :: 0 <= i < |s| ==> f(s[i]) >= 0.0
    ensures Sum(Take(s, n), f) <= Sum(s, f)
  {
    var rest := s[|Take(s, n)|..];
    assert s == Take(s, n) + rest;
    SumAppend(Take(s, n), rest, f);
    forall i | 0 <= i < |rest| ensures f(rest[i]) >= 0.0 {
      assert rest[i] == s[|Take(s, n)| + i];
    }
    SumNonNegative(rest, f);
  }

  lemma TakeSubMultiset<T>(s: seq<T>, n: nat)
    ensures multiset(Take(s, n)) <= multiset(s)
  {
    assert s == Take(s, n) + s[|Take(s, n)|..];
  }

  /** Whatever occurs in a filtered sequence passes the mask. */
  lemma FilterMember<T>(s: seq<T>, p: T -> bool, x: T)
    requires x in multiset(Filter(s, p))
    ensures p(x)
  {
    var r := Filter(s, p);
    assert x in r;
    var i :| 0 <= i < |r| && r[i] == x;
  }
}
