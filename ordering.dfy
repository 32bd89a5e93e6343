/** The order in which the comparison visits families: Python's `sorted`
    on strings, which compares code point by code point and puts a proper
    prefix first. */
module Ordering {
  import Sums

  /** a < b on strings: strict, a proper prefix comes first, and otherwise
      the first differing code point decides. */
  predicate Below(a: string, b: string): (r: bool)
    ensures r ==> a != b && b != []
    ensures a < b ==> r
    ensures r && a != [] ==> a[0] <= b[0]
    ensures a != [] && b != [] && a[0] < b[0] ==> r
    decreases |a|
  {
    if a == [] then b != []
    else if b == [] then false
    else if a[0] != b[0] then a[0] < b[0]
    else Below(a[1..], b[1..])
  }

  lemma {:induction false} BelowIrreflexive(a: string)
    ensures !Below(a, a)
    decreases |a|
  {
    if a != [] {
      BelowIrreflexive(a[1..]);
    }
  }

  lemma {:induction false} BelowTransitive(a: string, b: string, c: string)
    requires Below(a, b) && Below(b, c)
    ensures Below(a, c)
    decreases |a|
  {
    if a != [] && b != [] && c != [] && a[0] == b[0] && b[0] == c[0] {
      BelowTransitive(a[1..], b[1..], c[1..]);
    }
  }

  /** Any two different strings are ordered one way or the other. */
  lemma {:induction false} BelowTotal(a: string, b: string)
    ensures a == b || Below(a, b) || Below(b, a)
    decreases |a|
  {
    if a != [] && b != [] && a[0] == b[0] {
      BelowTotal(a[1..], b[1..]);
      if a[1..] == b[1..] {
        assert a == [a[0]] + a[1..] && b == [b[0]] + b[1..];
      }
    }
  }

  /** Strictly ascending, hence free of repetitions. */
  predicate Ascending(s: seq<string>)
  {
    forall i, j :: 0 <= i < j < |s| ==> Below(s[i], s[j])
  }

  lemma AscendingDistinct(s: seq<string>)
    requires Ascending(s)
    ensures Sums.Distinct(s)
  {
    forall i, j | 0 <= i < j < |s|
      ensures s[i] != s[j]
    {
      BelowIrreflexive(s[i]);
    }
  }

  /** k placed in front of the first element above it. */
  function Insert(s: seq<string>, k: string): seq<string>
    decreases |s|
  {
    if s == [] then [k]
    else if Below(k, s[0]) then [k] + s
    else [s[0]] + Insert(s[1..], k)
  }

  lemma {:induction false} InsertAscending(s: seq<string>, k: string)
    requires Ascending(s) && k !in s
    ensures Ascending(Insert(s, k))
    ensures forall x :: x in Insert(s, k) <==> x in s || x == k
    ensures |Insert(s, k)| == |s| + 1
    decreases |s|
  {
    if s == [] {
    } else if Below(k, s[0]) {
      forall j | 1 <= j < |s|
        ensures Below(k, s[j])
      {
        BelowTransitive(k, s[0], s[j]);
      }
    } else {
      BelowTotal(k, s[0]);
      assert s == [s[0]] + s[1..];
      InsertAscending(s[1..], k);
      var t := Insert(s[1..], k);
      forall j | 0 <= j < |t|
        ensures Below(s[0], t[j])
      {
        assert t[j] in t;
        if t[j] != k {
          var m :| 0 <= m < |s[1..]| && s[1..][m] == t[j];
          assert s[m + 1] == t[j];
        }
      }
    }
  }

  /** sorted(list(keys)): the keys, each once, in ascending order. */
  method Sorted(keys: set<string>) returns (r: seq<string>)
    ensures Ascending(r)
    ensures forall x :: x in r <==> x in keys
    ensures |r| == |keys|
  {
    r := [];
    var rest := keys;
    while rest != {}
      invariant rest <= keys
      invariant Ascending(r)
      invariant forall x :: x in r <==> x in keys && x !in rest
      invariant |r| + |rest| == |keys|
      decreases rest
    {
      var k :| k in rest;
      InsertAscending(r, k);
      r := Insert(r, k);
      rest := rest - {k};
    }
  }

  /** Ascending order leaves no choice: two ascending lists of the same
      strings are the same list. */
  lemma {:induction false} AscendingUnique(a: seq<string>, b: seq<string>)
    requires Ascending(a) && Ascending(b)
    requires forall x :: x in a <==> x in b
    ensures a == b
    decreases |a|
  {
    assert b != [] ==> b[0] in b;
    if a != [] {
      assert a[0] in b;
      assert b != [];
      assert b[0] in a;
      if a[0] != b[0] {
        var i :| 0 <= i < |a| && a[i] == b[0];
        var j :| 0 <= j < |b| && b[j] == a[0];
        BelowTransitive(a[0], b[0], a[0]);
        assert false;
      }
      forall x
        ensures x in a[1..] <==> x in b[1..]
      {
        if x in a[1..] {
          var i :| 0 <= i < |a[1..]| && a[1..][i] == x;
          BelowIrreflexive(x);
          assert x in b && x != b[0];
        }
        if x in b[1..] {
          var j :| 0 <= j < |b[1..]| && b[1..][j] == x;
          BelowIrreflexive(x);
          assert x in a && x != a[0];
        }
      }
      AscendingUnique(a[1..], b[1..]);
      assert a == [a[0]] + a[1..] && b == [b[0]] + b[1..];
    }
  }
}
