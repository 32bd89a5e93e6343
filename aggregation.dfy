/** The capacity aggregator: the loops of the running and reserved listings
    that total the normalization factors per instance family. The listings'
    printing is not modelled; what they return (the per-family totals) and
    what they print besides (the grand total and the expiry flag) are. */
module Aggregation {
  import opened Sums
  import opened Records
  import Expiry

  function RunningFamily(x: RunningInstance): string { x.family }

  function RunningNF(x: RunningInstance): real { x.normalizationFactor }

  /** Reference definition of the running totals: every family that has an
      instance, mapped to the sum of its instances' factors. */
  function RunningByFamily(instances: seq<RunningInstance>): map<string, real>
  {
    map f | f in Keys(instances, RunningFamily) :: GroupSum(instances, RunningFamily, RunningNF, f)
  }

  /** The reserved factors of one family, split by offering class. */
  datatype Buckets = Buckets(fixed: real, convertible: real)

  function ReservationFamily(r: Reservation): string { r.family }

  function ReservationNF(r: Reservation): real { r.totalNF }

  /** What a reservation adds to its family's fixed bucket. */
  function FixedNF(r: Reservation): real { if r.convertible then 0.0 else r.totalNF }

  /** What a reservation adds to its family's convertible bucket. */
  function ConvertibleNF(r: Reservation): real { if r.convertible then r.totalNF else 0.0 }

  /** Reference definition of the reserved totals: every family that has a
      reservation, mapped to the sums of its fixed and of its convertible
      reservations' total factors. */
  function ReservedByFamily(reservations: seq<Reservation>): map<string, Buckets>
  {
    map f | f in Keys(reservations, ReservationFamily) ::
      Buckets(GroupSum(reservations, ReservationFamily, FixedNF, f),
              GroupSum(reservations, ReservationFamily, ConvertibleNF, f))
  }

  /** The value of a running total, 0 for a family without one (`dict.get(f, 0)`). */
  function RunningOf(byFamily: map<string, real>): string -> real
  {
    f => if f in byFamily then byFamily[f] else 0.0
  }

  /** The reserved total of a family, both buckets together, 0 for a family without one. */
  function ReservedOf(byFamily: map<string, Buckets>): string -> real
  {
    f => if f in byFamily then byFamily[f].fixed + byFamily[f].convertible else 0.0
  }

  /** One more instance adds its factor to its own family's entry, creating it at 0 first. */
  lemma RunningStep(s: seq<RunningInstance>, x: RunningInstance)
    ensures var m := RunningByFamily(s);
            RunningByFamily(s + [x])
              == m[x.family := (if x.family in m then m[x.family] else 0.0) + x.normalizationFactor]
  {
    var m := RunningByFamily(s);
    var m' := m[x.family := (if x.family in m then m[x.family] else 0.0) + x.normalizationFactor];
    assert (s + [x])[..|s + [x]| - 1] == s;
    assert Keys(s + [x], RunningFamily) == Keys(s, RunningFamily) + {x.family};
    forall g | g in m'
      ensures RunningByFamily(s + [x])[g] == m'[g]
    {
      GroupSumSnoc(s, x, RunningFamily, RunningNF, g);
      if g !in m {
        GroupSumAbsent(s, RunningFamily, RunningNF, g);
      }
    }
  }

  /** The buckets of a family, (0, 0) for a family without reservations
      (the default of the source's defaultdict). */
  function BucketsOf(byFamily: map<string, Buckets>, f: string): Buckets
  {
    if f in byFamily then byFamily[f] else Buckets(0.0, 0.0)
  }

  /** The totals with one more reservation credited to one bucket of its family. */
  function Credit(byFamily: map<string, Buckets>, r: Reservation): map<string, Buckets>
  {
    byFamily[r.family := CreditBuckets(BucketsOf(byFamily, r.family), r)]
  }

  /** A family's buckets with the reservation's total factor added to the bucket of its class. */
  function CreditBuckets(b: Buckets, r: Reservation): Buckets
  {
    if r.convertible then Buckets(b.fixed, b.convertible + r.totalNF)
    else Buckets(b.fixed + r.totalNF, b.convertible)
  }

  /** One more reservation adds its total factor to exactly one bucket of its
      own family's entry, creating the entry at (0, 0) first. */
  lemma ReservedStep(s: seq<Reservation>, r: Reservation)
    ensures ReservedByFamily(s + [r]) == Credit(ReservedByFamily(s), r)
  {
    var prior := ReservedByFamily(s);
    var m' := Credit(prior, r);
    assert (s + [r])[..|s + [r]| - 1] == s;
    assert Keys(s + [r], ReservationFamily) == Keys(s, ReservationFamily) + {r.family};
    forall g | g in m'
      ensures ReservedByFamily(s + [r])[g] == m'[g]
    {
      GroupSumSnoc(s, r, ReservationFamily, FixedNF, g);
      GroupSumSnoc(s, r, ReservationFamily, ConvertibleNF, g);
      if g !in prior {
        GroupSumAbsent(s, ReservationFamily, FixedNF, g);
        GroupSumAbsent(s, ReservationFamily, ConvertibleNF, g);
      }
    }
  }

  /** The expiry flag of each reservation, in order. */
  function ExpiryFlags(reservations: seq<Reservation>, now: int): (flags: seq<bool>)
    ensures |flags| == |reservations|
    ensures forall k :: 0 <= k < |reservations| ==> (flags[k] <==> Expiry.Expiring(reservations[k].end, now))
    decreases |reservations|
  {
    if reservations == [] then []
    else
      var n := |reservations| - 1;
      ExpiryFlags(reservations[..n], now) + [Expiry.Expiring(reservations[n].end, now)]
  }

  /** One more instance of the list, seen from the loop: its family's entry
      grows by its factor and so does the grand total. */
  lemma RunningPrefixStep(s: seq<RunningInstance>, i: nat)
    requires i < |s|
    ensures var m := RunningByFamily(s[..i]);
            RunningByFamily(s[..i + 1])
              == m[s[i].family := (if s[i].family in m then m[s[i].family] else 0.0) + s[i].normalizationFactor]
    ensures Sum(s[..i + 1], RunningNF) == Sum(s[..i], RunningNF) + s[i].normalizationFactor
  {
    assert s[..i + 1] == s[..i] + [s[i]];
    RunningStep(s[..i], s[i]);
  }

  /** One more reservation of the list, seen from the loop: it is credited to
      its family, added to the grand total, and gets its expiry flag. */
  lemma ReservedPrefixStep(s: seq<Reservation>, i: nat, now: int)
    requires i < |s|
    ensures ReservedByFamily(s[..i + 1]) == Credit(ReservedByFamily(s[..i]), s[i])
    ensures Sum(s[..i + 1], ReservationNF) == Sum(s[..i], ReservationNF) + s[i].totalNF
    ensures ExpiryFlags(s[..i + 1], now) == ExpiryFlags(s[..i], now) + [Expiry.Expiring(s[i].end, now)]
  {
    assert s[..i + 1] == s[..i] + [s[i]];
    ReservedStep(s[..i], s[i]);
  }

  /** print_running_instances: totals the factors per family and overall. */
  method AggregateRunning(instances: seq<RunningInstance>) returns (byFamily: map<string, real>, total: real)
    ensures byFamily == RunningByFamily(instances)
    ensures total == Sum(instances, RunningNF)
  {
    byFamily := map[];
    total := 0.0;
    var i := 0;
    while i < |instances|
      invariant 0 <= i <= |instances|
      invariant byFamily == RunningByFamily(instances[..i])
      invariant total == Sum(instances[..i], RunningNF)
    {
      var inst := instances[i];
      total := total + inst.normalizationFactor;
      var f := inst.family;
      byFamily := byFamily[f := (if f in byFamily then byFamily[f] else 0.0) + inst.normalizationFactor];
      RunningPrefixStep(instances, i);
      i := i + 1;
    }
    assert instances[..i] == instances;
  }

  /** print_reserved_instances: totals the reserved factors per family and
      offering class and overall, and flags each reservation that expires
      within five days of `now`. */
  method AggregateReserved(reservations: seq<Reservation>, now: int)
    returns (byFamily: map<string, Buckets>, total: real, expiring: seq<bool>)
    ensures byFamily == ReservedByFamily(reservations)
    ensures total == Sum(reservations, ReservationNF)
    ensures expiring == ExpiryFlags(reservations, now)
  {
    byFamily := map[];
    total := 0.0;
    expiring := [];
    var i := 0;
    while i < |reservations|
      invariant 0 <= i <= |reservations|
      invariant byFamily == ReservedByFamily(reservations[..i])
      invariant total == Sum(reservations[..i], ReservationNF)
      invariant expiring == ExpiryFlags(reservations[..i], now)
    {
      var r := reservations[i];
      var timeLeft := r.end - now;
      var soon := timeLeft <= Expiry.ExpiryWindow;
      assert soon == Expiry.Expiring(r.end, now);
      expiring := expiring + [soon];
      total := total + r.totalNF;
      var b := if r.family in byFamily then byFamily[r.family] else Buckets(0.0, 0.0);
      ghost var before := b;
      if r.convertible {
        b := Buckets(b.fixed, b.convertible + r.totalNF);
      } else {
        b := Buckets(b.fixed + r.totalNF, b.convertible);
      }
      assert b == CreditBuckets(before, r);
      byFamily := byFamily[r.family := b];
      ReservedPrefixStep(reservations, i, now);
      i := i + 1;
    }
    assert reservations[..i] == reservations;
  }

  /** The running totals have an entry for exactly the families that have an instance. */
  lemma RunningFamilies(instances: seq<RunningInstance>, f: string)
    ensures f in RunningByFamily(instances) <==> exists k :: 0 <= k < |instances| && instances[k].family == f
  {
    KeysMembership(instances, RunningFamily, f);
  }

  /** The reserved totals have an entry for exactly the families that have a reservation. */
  lemma ReservedFamilies(reservations: seq<Reservation>, f: string)
    ensures f in ReservedByFamily(reservations) <==> exists k :: 0 <= k < |reservations| && reservations[k].family == f
  {
    KeysMembership(reservations, ReservationFamily, f);
  }

  /** The running totals do not depend on the order of the instances. */
  lemma RunningOrderIndependent(a: seq<RunningInstance>, b: seq<RunningInstance>)
    requires multiset(a) == multiset(b)
    ensures RunningByFamily(a) == RunningByFamily(b)
    ensures Sum(a, RunningNF) == Sum(b, RunningNF)
  {
    KeysPermutation(a, b, RunningFamily);
    forall f | f in Keys(a, RunningFamily)
      ensures GroupSum(a, RunningFamily, RunningNF, f) == GroupSum(b, RunningFamily, RunningNF, f)
    {
      SumPermutation(a, b, InGroup(RunningFamily, RunningNF, f));
    }
    SumPermutation(a, b, RunningNF);
  }

  /** The reserved totals do not depend on the order of the reservations. */
  lemma ReservedOrderIndependent(a: seq<Reservation>, b: seq<Reservation>)
    requires multiset(a) == multiset(b)
    ensures ReservedByFamily(a) == ReservedByFamily(b)
    ensures Sum(a, ReservationNF) == Sum(b, ReservationNF)
  {
    KeysPermutation(a, b, ReservationFamily);
    forall f | f in Keys(a, ReservationFamily)
      ensures GroupSum(a, ReservationFamily, FixedNF, f) == GroupSum(b, ReservationFamily, FixedNF, f)
      ensures GroupSum(a, ReservationFamily, ConvertibleNF, f) == GroupSum(b, ReservationFamily, ConvertibleNF, f)
    {
      SumPermutation(a, b, InGroup(ReservationFamily, FixedNF, f));
      SumPermutation(a, b, InGroup(ReservationFamily, ConvertibleNF, f));
    }
    SumPermutation(a, b, ReservationNF);
  }

  /** The printed running total equals the sum of the per-family totals, over
      any list naming each family once. */
  lemma RunningGrandTotal(instances: seq<RunningInstance>, families: seq<string>)
    requires Distinct(families)
    requires forall f :: f in RunningByFamily(instances) ==> f in families
    ensures Sum(families, RunningOf(RunningByFamily(instances))) == Sum(instances, RunningNF)
  {
    var m := RunningByFamily(instances);
    forall i | 0 <= i < |families|
      ensures RunningOf(m)(families[i]) == GroupTotals(instances, RunningFamily, RunningNF)(families[i])
    {
      if families[i] !in m {
        GroupSumAbsent(instances, RunningFamily, RunningNF, families[i]);
      }
    }
    SumCongruent(families, RunningOf(m), GroupTotals(instances, RunningFamily, RunningNF));
    GrandTotal(instances, RunningFamily, RunningNF, families);
  }

  /** Each reservation's total factor lands in exactly one bucket of its
      family: a family's two buckets together hold the sum of its
      reservations' total factors. */
  lemma BucketsPartition(reservations: seq<Reservation>, f: string)
    ensures var m := ReservedByFamily(reservations);
            f in m ==> m[f].fixed + m[f].convertible == GroupSum(reservations, ReservationFamily, ReservationNF, f)
  {
    forall i | 0 <= i < |reservations|
      ensures InGroup(ReservationFamily, ReservationNF, f)(reservations[i])
           == InGroup(ReservationFamily, FixedNF, f)(reservations[i])
            + InGroup(ReservationFamily, ConvertibleNF, f)(reservations[i])
    {
      var r := reservations[i];
      assert ReservationFamily(r) == r.family;
      assert ReservationNF(r) == FixedNF(r) + ConvertibleNF(r);
    }
    SumAdd(reservations, InGroup(ReservationFamily, FixedNF, f), InGroup(ReservationFamily, ConvertibleNF, f),
           InGroup(ReservationFamily, ReservationNF, f));
  }

  /** The printed reserved total equals the sum over families of fixed plus
      convertible, over any list naming each family once. */
  lemma ReservedGrandTotal(reservations: seq<Reservation>, families: seq<string>)
    requires Distinct(families)
    requires forall f :: f in ReservedByFamily(reservations) ==> f in families
    ensures Sum(families, ReservedOf(ReservedByFamily(reservations))) == Sum(reservations, ReservationNF)
  {
    var m := ReservedByFamily(reservations);
    forall i | 0 <= i < |families|
      ensures ReservedOf(m)(families[i]) == GroupTotals(reservations, ReservationFamily, ReservationNF)(families[i])
    {
      if families[i] in m {
        BucketsPartition(reservations, families[i]);
      } else {
        GroupSumAbsent(reservations, ReservationFamily, ReservationNF, families[i]);
      }
    }
    SumCongruent(families, ReservedOf(m), GroupTotals(reservations, ReservationFamily, ReservationNF));
    GrandTotal(reservations, ReservationFamily, ReservationNF, families);
  }

  /** Factors are never negative, so neither are the running totals. */
  lemma RunningNonNegative(instances: seq<RunningInstance>)
    requires forall k :: 0 <= k < |instances| ==> instances[k].normalizationFactor >= 0.0
    ensures forall f :: f in RunningByFamily(instances) ==> RunningByFamily(instances)[f] >= 0.0
  {
    forall f | f in RunningByFamily(instances)
      ensures RunningByFamily(instances)[f] >= 0.0
    {
      forall k | 0 <= k < |instances|
        ensures InGroup(RunningFamily, RunningNF, f)(instances[k]) >= 0.0
      {
        assert RunningNF(instances[k]) == instances[k].normalizationFactor;
      }
      SumNonNegative(instances, InGroup(RunningFamily, RunningNF, f));
    }
  }

  /** With consistent records and non-negative counts, both buckets of every family are non-negative. */
  lemma ReservedNonNegative(reservations: seq<Reservation>)
    requires forall k :: 0 <= k < |reservations| ==>
               reservations[k].Consistent() && reservations[k].normalizationFactor >= 0.0 && reservations[k].count >= 0
    ensures forall f :: f in ReservedByFamily(reservations) ==>
              ReservedByFamily(reservations)[f].fixed >= 0.0 && ReservedByFamily(reservations)[f].convertible >= 0.0
  {
    forall f | f in ReservedByFamily(reservations)
      ensures ReservedByFamily(reservations)[f].fixed >= 0.0 && ReservedByFamily(reservations)[f].convertible >= 0.0
    {
      forall k | 0 <= k < |reservations|
        ensures InGroup(ReservationFamily, FixedNF, f)(reservations[k]) >= 0.0
        ensures InGroup(ReservationFamily, ConvertibleNF, f)(reservations[k]) >= 0.0
      {
        var r := reservations[k];
        assert r.totalNF == r.normalizationFactor * r.count as real;
        assert FixedNF(r) >= 0.0 && ConvertibleNF(r) >= 0.0;
      }
      SumNonNegative(reservations, InGroup(ReservationFamily, FixedNF, f));
      SumNonNegative(reservations, InGroup(ReservationFamily, ConvertibleNF, f));
    }
  }
}
