/** The instance classifier: splits an instance type such as "m5.2xlarge"
    into its family ("m5") and its size ("2xlarge"), and weighs the size
    with the normalization catalog. Splitting follows Python's str.split
    with an explicit separator: every separator cuts, empty pieces are kept,
    and the result always has at least one piece. */
module Classifier {
  import Catalog

  const Dot: char := '.'

  /** The pieces of s between occurrences of sep. */
  function Split(s: string, sep: char): (parts: seq<string>)
    ensures |parts| >= 1
    ensures forall i :: 0 <= i < |parts| ==> sep !in parts[i]
    decreases |s|
  {
    if s == [] then [[]]
    else
      var rest := Split(s[1..], sep);
      if s[0] == sep then [[]] + rest else [[s[0]] + rest[0]] + rest[1..]
  }

  /** The pieces glued back together with sep between consecutive pieces. */
  function Join(parts: seq<string>, sep: char): string
    decreases |parts|
  {
    if parts == [] then []
    else if |parts| == 1 then parts[0]
    else parts[0] + [sep] + Join(parts[1..], sep)
  }

  /** Joining the pieces restores the string. */
  lemma {:induction false} SplitJoin(s: string, sep: char)
    ensures Join(Split(s, sep), sep) == s
    decreases |s|
  {
    if s != [] {
      SplitJoin(s[1..], sep);
      var rest := Split(s[1..], sep);
      if s[0] != sep && |rest| > 1 {
        assert ([s[0]] + rest[0]) + [sep] + Join(rest[1..], sep) == [s[0]] + Join(rest, sep);
      }
    }
  }

  /** A piece free of sep, followed by the end or by sep, is the first piece. */
  lemma {:induction false} SplitHead(z: string, rest: string, sep: char)
    requires sep !in z
    requires rest == [] || rest[0] == sep
    ensures Split(z + rest, sep)[0] == z
    ensures rest == [] ==> Split(z + rest, sep) == [z]
    ensures rest != [] ==> Split(z + rest, sep)[1..] == Split(rest[1..], sep)
    decreases |z|
  {
    if z == [] {
      assert z + rest == rest;
      if rest != [] {
        assert Split(rest, sep) == [[]] + Split(rest[1..], sep);
      }
    } else {
      assert (z + rest)[1..] == z[1..] + rest;
      SplitHead(z[1..], rest, sep);
      assert [z[0]] + z[1..] == z;
    }
  }

  /** Splitting the join of sep-free pieces gives the pieces back. */
  lemma {:induction false} JoinSplit(parts: seq<string>, sep: char)
    requires |parts| >= 1
    requires forall i :: 0 <= i < |parts| ==> sep !in parts[i]
    ensures Split(Join(parts, sep), sep) == parts
    decreases |parts|
  {
    if |parts| == 1 {
      SplitHead(parts[0], [], sep);
      assert parts[0] + [] == parts[0];
    } else {
      var tail := Join(parts[1..], sep);
      assert Join(parts, sep) == parts[0] + ([sep] + tail);
      SplitHead(parts[0], [sep] + tail, sep);
      assert ([sep] + tail)[1..] == tail;
      JoinSplit(parts[1..], sep);
    }
  }

  /** get_instance_family: the first dot-separated piece. */
  function Family(instanceType: string): (family: string)
    ensures family <= instanceType
    ensures Dot !in family
    ensures |family| < |instanceType| ==> instanceType[|family|] == Dot
  {
    var parts := Split(instanceType, Dot);
    SplitJoin(instanceType, Dot);
    assert |parts| > 1 ==> Join(parts, Dot) == parts[0] + ([Dot] + Join(parts[1..], Dot));
    parts[0]
  }

  /** get_normalization_factor: the catalog weight of the second dot-separated
      piece; 0 when there is no second piece or the table lacks it. */
  function NormalizationFactor(instanceType: string): (nf: real)
    ensures nf >= 0.0
    ensures nf > 0.0 <==> |Split(instanceType, Dot)| >= 2 && Split(instanceType, Dot)[1] in Catalog.NormalizationFactors
  {
    var parts := Split(instanceType, Dot);
    if |parts| < 2 then 0.0 else Catalog.WeightOf(parts[1])
  }

  /** A type with no dot is its own family and weighs 0. */
  lemma ClassifyUndotted(instanceType: string)
    requires Dot !in instanceType
    ensures Family(instanceType) == instanceType
    ensures NormalizationFactor(instanceType) == 0.0
  {
    SplitHead(instanceType, [], Dot);
    assert instanceType + [] == instanceType;
  }

  /** "family.size" and "family.size.anything": the family is the part before
      the first dot and the weight is that of the part between the first and
      the second dot. */
  lemma ClassifyDotted(family: string, size: string, rest: string)
    requires Dot !in family && Dot !in size
    requires rest == [] || rest[0] == Dot
    ensures Family(family + [Dot] + size + rest) == family
    ensures NormalizationFactor(family + [Dot] + size + rest) == Catalog.WeightOf(size)
  {
    var s := family + [Dot] + size + rest;
    assert s == family + ([Dot] + (size + rest));
    SplitHead(family, [Dot] + (size + rest), Dot);
    assert ([Dot] + (size + rest))[1..] == size + rest;
    SplitHead(size, rest, Dot);
  }

  /** The family is f exactly when the type is f itself or begins with f and a dot. */
  lemma FamilyIs(f: string, instanceType: string)
    requires Dot !in f
    ensures Family(instanceType) == f <==>
              instanceType == f || (|instanceType| > |f| && instanceType[..|f| + 1] == f + [Dot])
  {
    var s := instanceType;
    var n := |f|;
    if Family(s) == f && s != f {
      assert s[..n] == f;
      assert s[..n + 1] == s[..n] + [s[n]];
    }
    if s == f {
      ClassifyUndotted(f);
    } else if |s| > n && s[..n + 1] == f + [Dot] {
      assert s == f + s[n..];
      assert s[n..][0] == s[..n + 1][n];
      SplitHead(f, s[n..], Dot);
    }
  }

  /** The "Unknown" fallback never fires: the family is "Unknown" only when
      the type itself is "Unknown" or begins with "Unknown.". */
  lemma FamilyUnknown(instanceType: string)
    ensures Family(instanceType) == "Unknown" <==>
              instanceType == "Unknown" || (|instanceType| >= 8 && instanceType[..8] == "Unknown.")
  {
    FamilyIs("Unknown", instanceType);
  }
}
