/** Sums of real-valued weights over sequences, and sums per group key.
    The report's loops add weights one record at a time from the front of
    the list, so Sum folds left to right: the last element is added last. */
module Sums {

  /** The sum of w over the elements of s. */
  function Sum<T>(s: seq<T>, w: T -> real): real
    decreases |s|
  {
    if s == [] then 0.0 else Sum(s[..|s| - 1], w) + w(s[|s| - 1])
  }

  /** The part of w(x) that belongs to group g: all of it when x's key is g, nothing otherwise. */
  function InGroup<T>(key: T -> string, w: T -> real, g: string): T -> real
  {
    x => if key(x) == g then w(x) else 0.0
  }

  /** The sum of w over the elements of s whose key is g. */
  function GroupSum<T>(s: seq<T>, key: T -> string, w: T -> real, g: string): real
  {
    Sum(s, InGroup(key, w, g))
  }

  /** The keys that occur in s. */
  function Keys<T>(s: seq<T>, key: T -> string): set<string>
    decreases |s|
  {
    if s == [] then {} else Keys(s[..|s| - 1], key) + {key(s[|s| - 1])}
  }

  /** The weight of one element, seen from every group: w(x) for x's own group, 0 for all others. */
  function Indicator(k: string, v: real): string -> real
  {
    g => if g == k then v else 0.0
  }

  /** For a list of groups: the total of each group in s. */
  function GroupTotals<T>(s: seq<T>, key: T -> string, w: T -> real): string -> real
  {
    g => GroupSum(s, key, w, g)
  }

  predicate Distinct<T(==)>(s: seq<T>)
  {
    forall i, j :: 0 <= i < j < |s| ==> s[i] != s[j]
  }

  lemma {:induction false} SumAppend<T>(a: seq<T>, b: seq<T>, w: T -> real)
    ensures Sum(a + b, w) == Sum(a, w) + Sum(b, w)
    decreases |b|
  {
    if b == [] {
      assert a + b == a;
    } else {
      assert (a + b)[..|a + b| - 1] == a + b[..|b| - 1];
      SumAppend(a, b[..|b| - 1], w);
    }
  }

  /** A sum does not depend on the order of the elements. */
  lemma {:induction false} SumPermutation<T>(a: seq<T>, b: seq<T>, w: T -> real)
    requires multiset(a) == multiset(b)
    ensures Sum(a, w) == Sum(b, w)
    decreases |a|
  {
    if a == [] {
      assert |b| == |multiset(b)| == 0;
    } else {
      var n := |a| - 1;
      assert a == a[..n] + [a[n]];
      assert a[n] in multiset(b);
      var i :| 0 <= i < |b| && b[i] == a[n];
      var rest := b[..i] + b[i + 1..];
      MultisetRemove(a, b, i);
      SumPermutation(a[..n], rest, w);
      SumRemove(b, i, w);
    }
  }

  /** Removing the last element of a and an equal element of b keeps the
      multisets equal. */
  lemma MultisetRemove<T>(a: seq<T>, b: seq<T>, i: nat)
    requires multiset(a) == multiset(b) && a != [] && i < |b| && b[i] == a[|a| - 1]
    ensures multiset(a[..|a| - 1]) == multiset(b[..i] + b[i + 1..])
  {
    var n := |a| - 1;
    var x := a[n];
    assert a == a[..n] + [x];
    MultisetSplit(b, i);
    MultisetCancel(multiset(a[..n]), multiset(b[..i] + b[i + 1..]), x);
  }

  /** The multiset of b is that of b without its element i, plus that element. */
  lemma MultisetSplit<T>(b: seq<T>, i: nat)
    requires i < |b|
    ensures multiset(b) == multiset(b[..i] + b[i + 1..]) + multiset{b[i]}
  {
    var l, r := b[..i], b[i + 1..];
    assert b == l + ([b[i]] + r);
    assert multiset([b[i]] + r) == multiset(r) + multiset{b[i]};
  }

  lemma MultisetCancel<T>(m1: multiset<T>, m2: multiset<T>, x: T)
    requires m1 + multiset{x} == m2 + multiset{x}
    ensures m1 == m2
  {
    assert m1 == (m1 + multiset{x}) - multiset{x};
    assert m2 == (m2 + multiset{x}) - multiset{x};
  }

  /** Taking one element out of a sequence takes its weight out of the sum. */
  lemma SumRemove<T>(b: seq<T>, i: nat, w: T -> real)
    requires i < |b|
    ensures Sum(b, w) == Sum(b[..i] + b[i + 1..], w) + w(b[i])
  {
    var l, x, r := b[..i], b[i], b[i + 1..];
    assert b == (l + [x]) + r;
    SumAppend(l + [x], r, w);
    SumAppend(l, [x], w);
    SumAppend(l, r, w);
    assert Sum([x], w) == w(x) by {
      assert [x][..0] == [];
    }
  }

  /** Sums of functions that agree on the elements are equal. */
  lemma {:induction false} SumCongruent<T>(s: seq<T>, u: T -> real, v: T -> real)
    requires forall i :: 0 <= i < |s| ==> u(s[i]) == v(s[i])
    ensures Sum(s, u) == Sum(s, v)
    decreases |s|
  {
    if s != [] {
      SumCongruent(s[..|s| - 1], u, v);
    }
  }

  /** A sum of non-negative weights is non-negative. */
  lemma {:induction false} SumNonNegative<T>(s: seq<T>, w: T -> real)
    requires forall i :: 0 <= i < |s| ==> w(s[i]) >= 0.0
    ensures Sum(s, w) >= 0.0
    decreases |s|
  {
    if s != [] {
      SumNonNegative(s[..|s| - 1], w);
    }
  }

  /** Sums of pointwise sums split. */
  lemma {:induction false} SumAdd<T>(s: seq<T>, u: T -> real, v: T -> real, w: T -> real)
    requires forall i :: 0 <= i < |s| ==> w(s[i]) == u(s[i]) + v(s[i])
    ensures Sum(s, w) == Sum(s, u) + Sum(s, v)
    decreases |s|
  {
    if s != [] {
      SumAdd(s[..|s| - 1], u, v, w);
    }
  }

  /** Over a list of distinct groups that contains k, the one-group weight sums to its value. */
  lemma {:induction false} SumIndicator(gs: seq<string>, k: string, v: real)
    requires Distinct(gs)
    ensures Sum(gs, Indicator(k, v)) == if k in gs then v else 0.0
    decreases |gs|
  {
    if gs != [] {
      var n := |gs| - 1;
      assert gs == gs[..n] + [gs[n]];
      SumIndicator(gs[..n], k, v);
      if gs[n] == k {
        assert k !in gs[..n];
      }
    }
  }

  lemma {:induction false} KeysMembership<T>(s: seq<T>, key: T -> string, g: string)
    ensures g in Keys(s, key) <==> exists i :: 0 <= i < |s| && key(s[i]) == g
    decreases |s|
  {
    if s != [] {
      var n := |s| - 1;
      KeysMembership(s[..n], key, g);
      if g in Keys(s[..n], key) {
        var i :| 0 <= i < n && key(s[..n][i]) == g;
        assert key(s[i]) == g;
      }
      if exists i :: 0 <= i < |s| && key(s[i]) == g {
        var i :| 0 <= i < |s| && key(s[i]) == g;
        if i < n {
          assert key(s[..n][i]) == g;
        }
      }
    }
  }

  /** The keys that occur do not depend on the order of the elements. */
  lemma KeysPermutation<T>(a: seq<T>, b: seq<T>, key: T -> string)
    requires multiset(a) == multiset(b)
    ensures Keys(a, key) == Keys(b, key)
  {
    forall g | g in Keys(a, key) ensures g in Keys(b, key) {
      KeysMembership(a, key, g);
      var i :| 0 <= i < |a| && key(a[i]) == g;
      assert a[i] in multiset(b);
      var j :| 0 <= j < |b| && b[j] == a[i];
      KeysMembership(b, key, g);
    }
    forall g | g in Keys(b, key) ensures g in Keys(a, key) {
      KeysMembership(b, key, g);
      var j :| 0 <= j < |b| && key(b[j]) == g;
      assert b[j] in multiset(a);
      var i :| 0 <= i < |a| && a[i] == b[j];
      KeysMembership(a, key, g);
    }
  }

  /** Adding one element adds its weight to its own group and to no other. */
  lemma GroupSumSnoc<T>(s: seq<T>, x: T, key: T -> string, w: T -> real, g: string)
    ensures GroupSum(s + [x], key, w, g) == GroupSum(s, key, w, g) + (if key(x) == g then w(x) else 0.0)
  {
    assert (s + [x])[..|s + [x]| - 1] == s;
  }

  /** A group that does not occur in s sums to 0. */
  lemma {:induction false} GroupSumAbsent<T>(s: seq<T>, key: T -> string, w: T -> real, g: string)
    requires g !in Keys(s, key)
    ensures GroupSum(s, key, w, g) == 0.0
    decreases |s|
  {
    if s != [] {
      GroupSumAbsent(s[..|s| - 1], key, w, g);
    }
  }

  /** Summing the per-group totals over every group that occurs, each listed once,
      gives the plain total. */
  lemma {:induction false} GrandTotal<T>(s: seq<T>, key: T -> string, w: T -> real, gs: seq<string>)
    requires Distinct(gs)
    requires forall g :: g in Keys(s, key) ==> g in gs
    ensures Sum(gs, GroupTotals(s, key, w)) == Sum(s, w)
    decreases |s|
  {
    if s == [] {
      assert forall i :: 0 <= i < |gs| ==> GroupTotals(s, key, w)(gs[i]) == 0.0;
      SumCongruent(gs, GroupTotals(s, key, w), Indicator("", 0.0));
      SumIndicator(gs, "", 0.0);
    } else {
      var n := |s| - 1;
      var x := s[n];
      assert s == s[..n] + [x];
      GrandTotal(s[..n], key, w, gs);
      forall i | 0 <= i < |gs|
        ensures GroupTotals(s, key, w)(gs[i])
             == GroupTotals(s[..n], key, w)(gs[i]) + Indicator(key(x), w(x))(gs[i])
      {
        GroupSumSnoc(s[..n], x, key, w, gs[i]);
      }
      SumAdd(gs, GroupTotals(s[..n], key, w), Indicator(key(x), w(x)), GroupTotals(s, key, w));
      SumIndicator(gs, key(x), w(x));
    }
  }
}
