/** The reconciliation engine: per instance family, the running capacity
    against the fixed reservations, with the family's own convertible
    reservations offsetting a shortfall. Convertible reservations of other
    families are deliberately not used: the report is a per-family estimate. */
module Reconciliation {
  import opened Sums
  import opened Aggregation
  import Ordering

  /** The verdict on one family; each constructor is one of the report's messages. */
  datatype Status =
    | UnderCovered(shortfall: real)                // running exceeds fixed and convertible together
    | CoveredByConvertible                         // the excess over fixed fits in the convertible pool
    | OverCovered(surplus: real)                   // fixed alone exceeds running
    | MatchedWithUnusedConvertible(unused: real)   // fixed matches running, convertible left idle
    | ExactMatch                                   // fixed matches running, no convertible

  /** One line of the comparison. */
  datatype FamilyReport = FamilyReport(
    family: string, running: real, fixed: real, convertible: real, diff: real, status: Status)

  function Abs(x: real): real { if x < 0.0 then -x else x }

  /** The verdict of the comparison for one family, from diff = running - fixed. */
  function Verdict(running: real, fixed: real, convertible: real): (st: Status)
    ensures st.UnderCovered? <==> running > fixed && running > fixed + convertible
    ensures st.UnderCovered? ==> st.shortfall == running - (fixed + convertible) && st.shortfall > 0.0
    ensures st.CoveredByConvertible? <==> fixed < running <= fixed + convertible
    ensures st.OverCovered? <==> running < fixed
    ensures st.OverCovered? ==> st.surplus == fixed - running && st.surplus > 0.0
    ensures st.MatchedWithUnusedConvertible? <==> running == fixed && convertible > 0.0
    ensures st.MatchedWithUnusedConvertible? ==> st.unused == convertible
    ensures st.ExactMatch? <==> running == fixed && convertible <= 0.0
  {
    var diff := running - fixed;
    if diff > 0.0 then
      var remaining := diff - convertible;
      if remaining > 0.0 then UnderCovered(remaining) else CoveredByConvertible
    else if diff < 0.0 then OverCovered(Abs(diff))
    else if convertible > 0.0 then MatchedWithUnusedConvertible(convertible)
    else ExactMatch
  }

  function Min(x: real, y: real): real { if x <= y then x else y }

  /** How a family's running capacity is met when its fixed reservations are
      applied first and its convertible reservations second. */
  datatype Allocation = Allocation(
    fixedUsed: real, convertibleUsed: real, uncovered: real, idleFixed: real, idleConvertible: real)

  /** Reference definition of the fixed-then-convertible offset policy. */
  function Allocate(running: real, fixed: real, convertible: real): Allocation
  {
    var fixedUsed := Min(running, fixed);
    var convertibleUsed := Min(running - fixedUsed, convertible);
    Allocation(fixedUsed, convertibleUsed, running - fixedUsed - convertibleUsed,
               fixed - fixedUsed, convertible - convertibleUsed)
  }

  /** With non-negative totals, the verdict is exactly what the allocation
      shows: capacity left uncovered, convertible capacity put to use, fixed
      capacity left idle, or nothing left over on either side. */
  lemma VerdictFollowsAllocation(running: real, fixed: real, convertible: real)
    requires running >= 0.0 && fixed >= 0.0 && convertible >= 0.0
    ensures var a := Allocate(running, fixed, convertible);
            var st := Verdict(running, fixed, convertible);
            && a.fixedUsed + a.convertibleUsed + a.uncovered == running
            && (st.UnderCovered? <==> a.uncovered > 0.0)
            && (st.UnderCovered? ==> st.shortfall == a.uncovered)
            && (st.CoveredByConvertible? <==> a.uncovered == 0.0 && a.convertibleUsed > 0.0)
            && (st.OverCovered? <==> a.idleFixed > 0.0)
            && (st.OverCovered? ==> st.surplus == a.idleFixed)
            && (st.MatchedWithUnusedConvertible? <==>
                  a.uncovered == 0.0 && a.idleFixed == 0.0 && a.convertibleUsed == 0.0 && a.idleConvertible > 0.0)
            && (st.MatchedWithUnusedConvertible? ==> st.unused == a.idleConvertible)
            && (st.ExactMatch? <==>
                  a.uncovered == 0.0 && a.idleFixed == 0.0 && a.idleConvertible == 0.0 && a.convertibleUsed == 0.0)
  {
  }

  /** A family's capacity is fully reserved (fixed and own convertible together)
      exactly when the verdict is not UnderCovered. */
  lemma CoveredIffReserved(running: real, fixed: real, convertible: real)
    requires convertible >= 0.0
    ensures !Verdict(running, fixed, convertible).UnderCovered? <==> running <= fixed + convertible
  {
  }

  /** One worked case per verdict. */
  lemma VerdictExamples()
    ensures Verdict(10.0, 4.0, 0.0) == UnderCovered(6.0)
    ensures Verdict(10.0, 4.0, 8.0) == CoveredByConvertible
    ensures Verdict(4.0, 8.0, 0.0) == OverCovered(4.0)
    ensures Verdict(4.0, 4.0, 3.0) == MatchedWithUnusedConvertible(3.0)
    ensures Verdict(4.0, 4.0, 0.0) == ExactMatch
  {
  }

  /** The comparison line for family f; a side without f contributes 0. */
  function ReportFor(f: string, running: map<string, real>, reserved: map<string, Buckets>): FamilyReport
  {
    Line(f, RunningOf(running)(f), BucketsOf(reserved, f))
  }

  /** One comparison line from a family's running total and reserved buckets. */
  function Line(family: string, running: real, b: Buckets): (line: FamilyReport)
    ensures line.family == family && line.running == running
    ensures line.fixed == b.fixed && line.convertible == b.convertible
    ensures line.fixed + line.diff == line.running
    ensures line.status.OverCovered? <==> line.diff < 0.0
    ensures line.status.OverCovered? ==> line.status.surplus == -line.diff
    ensures (line.status.UnderCovered? || line.status.CoveredByConvertible?) <==> line.diff > 0.0
    ensures line.status.UnderCovered? ==> line.status.shortfall == line.diff - line.convertible
    ensures (line.status.MatchedWithUnusedConvertible? || line.status.ExactMatch?) <==> line.diff == 0.0
  {
    FamilyReport(family, running, b.fixed, b.convertible, running - b.fixed, Verdict(running, b.fixed, b.convertible))
  }

  /** The families of the report lines, in order. */
  function FamiliesOf(reports: seq<FamilyReport>): (fs: seq<string>)
    ensures |fs| == |reports|
    ensures forall i :: 0 <= i < |reports| ==> fs[i] == reports[i].family
    decreases |reports|
  {
    if reports == [] then [] else FamiliesOf(reports[..|reports| - 1]) + [reports[|reports| - 1].family]
  }

  /** What compare_instances produces: one line per family of either side,
      in ascending order of family name, each computed from that family's totals. */
  ghost predicate Reconciled(reports: seq<FamilyReport>, running: map<string, real>, reserved: map<string, Buckets>)
  {
    && Ordering.Ascending(FamiliesOf(reports))
    && (forall f :: f in FamiliesOf(reports) <==> f in running || f in reserved)
    && (forall i :: 0 <= i < |reports| ==> reports[i] == ReportFor(reports[i].family, running, reserved))
  }

  /** compare_instances: visits the union of both sides' families in sorted order. */
  method CompareInstances(running: map<string, real>, reserved: map<string, Buckets>)
    returns (reports: seq<FamilyReport>)
    ensures Reconciled(reports, running, reserved)
    ensures |reports| == |running.Keys + reserved.Keys|
  {
    var families := Ordering.Sorted(running.Keys + reserved.Keys);
    reports := [];
    var i := 0;
    while i < |families|
      invariant 0 <= i <= |families|
      invariant reports == LinesFor(families[..i], running, reserved)
    {
      var family := families[i];
      var runningNF := if family in running then running[family] else 0.0;
      var b := if family in reserved then reserved[family] else Buckets(0.0, 0.0);
      var line := Line(family, runningNF, b);
      LinesForStep(families, i, running, reserved);
      reports := reports + [line];
      i := i + 1;
    }
    assert families[..i] == families;
    ReconciledFromLines(families, running, reserved);
  }

  /** The comparison lines for a list of families, one per family, in order. */
  function LinesFor(families: seq<string>, running: map<string, real>, reserved: map<string, Buckets>)
    : (reports: seq<FamilyReport>)
    ensures |reports| == |families|
    ensures forall k :: 0 <= k < |families| ==> reports[k] == ReportFor(families[k], running, reserved)
    decreases |families|
  {
    if families == [] then []
    else
      var n := |families| - 1;
      LinesFor(families[..n], running, reserved) + [ReportFor(families[n], running, reserved)]
  }

  /** Lines computed one per family of an ascending list of exactly the
      families of both sides make a reconciliation. */
  lemma ReconciledFromLines(families: seq<string>, running: map<string, real>, reserved: map<string, Buckets>)
    requires Ordering.Ascending(families)
    requires forall x :: x in families <==> x in running.Keys + reserved.Keys
    requires |families| == |running.Keys + reserved.Keys|
    ensures Reconciled(LinesFor(families, running, reserved), running, reserved)
    ensures |LinesFor(families, running, reserved)| == |running.Keys + reserved.Keys|
  {
    var lines := LinesFor(families, running, reserved);
    var fs := FamiliesOf(lines);
    assert fs == families;
    forall f
      ensures f in fs <==> f in running || f in reserved
    {
      assert f in running.Keys + reserved.Keys <==> f in running || f in reserved;
    }
    forall i | 0 <= i < |lines|
      ensures lines[i] == ReportFor(lines[i].family, running, reserved)
    {
      assert lines[i].family == families[i];
    }
  }

  /** One more family adds its own comparison line, computed with 0 for a
      side that lacks the family. */
  lemma LinesForStep(families: seq<string>, i: nat, running: map<string, real>, reserved: map<string, Buckets>)
    requires i < |families|
    ensures var f := families[i];
            var r := if f in running then running[f] else 0.0;
            var b := if f in reserved then reserved[f] else Buckets(0.0, 0.0);
            LinesFor(families[..i + 1], running, reserved)
            == LinesFor(families[..i], running, reserved) + [Line(f, r, b)]
  {
    assert families[..i + 1][..i] == families[..i];
  }

  /** The comparison has only one possible outcome: equal inputs give equal
      reports, lines and order included. */
  lemma ReconciledUnique(a: seq<FamilyReport>, b: seq<FamilyReport>,
                         running: map<string, real>, reserved: map<string, Buckets>)
    requires Reconciled(a, running, reserved) && Reconciled(b, running, reserved)
    ensures a == b
  {
    Ordering.AscendingUnique(FamiliesOf(a), FamiliesOf(b));
  }

  /** Summing the running column of the report gives the sum of the running
      totals over the report's families. */
  lemma {:induction false} RunningColumn(reports: seq<FamilyReport>, running: map<string, real>,
                                         reserved: map<string, Buckets>)
    requires forall i :: 0 <= i < |reports| ==> reports[i] == ReportFor(reports[i].family, running, reserved)
    ensures Sum(reports, ReportRunning) == Sum(FamiliesOf(reports), RunningOf(running))
    decreases |reports|
  {
    if reports != [] {
      var n := |reports| - 1;
      RunningColumn(reports[..n], running, reserved);
      assert FamiliesOf(reports)[..n] == FamiliesOf(reports[..n]);
    }
  }

  /** Summing fixed plus convertible down the report gives the reserved totals
      summed over the report's families. */
  lemma {:induction false} ReservedColumn(reports: seq<FamilyReport>, running: map<string, real>,
                                          reserved: map<string, Buckets>)
    requires forall i :: 0 <= i < |reports| ==> reports[i] == ReportFor(reports[i].family, running, reserved)
    ensures Sum(reports, ReportReserved) == Sum(FamiliesOf(reports), ReservedOf(reserved))
    decreases |reports|
  {
    if reports != [] {
      var n := |reports| - 1;
      ReservedColumn(reports[..n], running, reserved);
      assert FamiliesOf(reports)[..n] == FamiliesOf(reports[..n]);
    }
  }

  function ReportRunning(r: FamilyReport): real { r.running }

  function ReportReserved(r: FamilyReport): real { r.fixed + r.convertible }

  /** End to end: the comparison of the aggregated records accounts for every
      running instance and every reservation exactly once. */
  lemma ReportAccountsForEverything(instances: seq<Records.RunningInstance>, reservations: seq<Records.Reservation>,
                                    reports: seq<FamilyReport>)
    requires Reconciled(reports, RunningByFamily(instances), ReservedByFamily(reservations))
    ensures Sum(reports, ReportRunning) == Sum(instances, RunningNF)
    ensures Sum(reports, ReportReserved) == Sum(reservations, ReservationNF)
  {
    var running := RunningByFamily(instances);
    var reserved := ReservedByFamily(reservations);
    var fs := FamiliesOf(reports);
    Ordering.AscendingDistinct(fs);
    RunningColumn(reports, running, reserved);
    RunningGrandTotal(instances, fs);
    ReservedColumn(reports, running, reserved);
    ReservedGrandTotal(reservations, fs);
  }
}
