/** Record construction: the already-fetched EC2 records turned into
    classified records that carry their family and normalization factor. */
module Records {
  import Classifier

  /** One running instance as reported by describe_instances. */
  datatype RawInstance = RawInstance(instanceId: string, instanceType: string)

  /** One active reservation as reported by describe_reserved_instances;
      `end` is the expiry time in seconds. */
  datatype RawReservation = RawReservation(
    instanceType: string, instanceCount: int, offeringClass: string, end: int)

  datatype RunningInstance = RunningInstance(
    instanceId: string, instanceType: string, normalizationFactor: real, family: string)

  datatype Reservation = Reservation(
    instanceType: string, normalizationFactor: real, count: int, totalNF: real,
    convertible: bool, end: int, family: string)
  {
    /** A reservation's total weight is its unit weight times its count. */
    predicate Consistent()
    {
      totalNF == TotalFactor(normalizationFactor, count)
    }
  }

  /** The combined weight of `count` instances of weight `nf`. */
  function TotalFactor(nf: real, count: int): real
  {
    nf * count as real
  }

  /** An instance record: id and type copied, factor and family of its type. */
  function ClassifyInstance(raw: RawInstance): (r: RunningInstance)
    ensures r.instanceId == raw.instanceId && r.instanceType == raw.instanceType
    ensures r.normalizationFactor == Classifier.NormalizationFactor(raw.instanceType)
    ensures r.family == Classifier.Family(raw.instanceType)
  {
    var t := raw.instanceType;
    RunningInstance(raw.instanceId, t, Classifier.NormalizationFactor(t), Classifier.Family(t))
  }

  /** A reservation record: factor and family of its type, total factor = factor * count,
      convertible exactly when the offering class is "convertible". */
  function ClassifyReservation(raw: RawReservation): (r: Reservation)
    ensures r.Consistent()
    ensures r.instanceType == raw.instanceType && r.count == raw.instanceCount && r.end == raw.end
    ensures r.normalizationFactor == Classifier.NormalizationFactor(raw.instanceType)
    ensures r.family == Classifier.Family(raw.instanceType)
    ensures r.convertible <==> raw.offeringClass == "convertible"
  {
    var t := raw.instanceType;
    var nf := Classifier.NormalizationFactor(t);
    Reservation(t, nf, raw.instanceCount, TotalFactor(nf, raw.instanceCount),
                raw.offeringClass == "convertible", raw.end, Classifier.Family(t))
  }

  /** The instances of all reservation groups, group after group. */
  function Flatten(groups: seq<seq<RawInstance>>): seq<RawInstance>
    decreases |groups|
  {
    if groups == [] then [] else Flatten(groups[..|groups| - 1]) + groups[|groups| - 1]
  }

  /** get_running_instances: one classified record per instance of every group, in order. */
  method GetRunningInstances(groups: seq<seq<RawInstance>>) returns (instances: seq<RunningInstance>)
    ensures |instances| == |Flatten(groups)|
    ensures forall k :: 0 <= k < |instances| ==> instances[k] == ClassifyInstance(Flatten(groups)[k])
  {
    instances := [];
    var i := 0;
    while i < |groups|
      invariant 0 <= i <= |groups|
      invariant |instances| == |Flatten(groups[..i])|
      invariant forall k :: 0 <= k < |instances| ==> instances[k] == ClassifyInstance(Flatten(groups[..i])[k])
    {
      var group := groups[i];
      ghost var done := Flatten(groups[..i]);
      var j := 0;
      while j < |group|
        invariant 0 <= j <= |group|
        invariant |instances| == |done| + j
        invariant forall k :: 0 <= k < |instances| ==> instances[k] == ClassifyInstance((done + group[..j])[k])
      {
        instances := instances + [ClassifyInstance(group[j])];
        assert (done + group[..j + 1])[|done| + j] == group[j];
        assert forall k :: 0 <= k < |done| + j ==> (done + group[..j + 1])[k] == (done + group[..j])[k];
        j := j + 1;
      }
      assert groups[..i + 1][..i] == groups[..i];
      assert group[..j] == group;
      i := i + 1;
    }
    assert groups[..i] == groups;
  }

  /** get_reserved_instances: one classified record per reservation, in order. */
  method GetReservedInstances(reserved: seq<RawReservation>) returns (reservations: seq<Reservation>)
    ensures |reservations| == |reserved|
    ensures forall k :: 0 <= k < |reservations| ==> reservations[k] == ClassifyReservation(reserved[k])
    ensures forall k :: 0 <= k < |reservations| ==> reservations[k].Consistent()
  {
    reservations := [];
    var i := 0;
    while i < |reserved|
      invariant 0 <= i <= |reserved|
      invariant |reservations| == i
      invariant forall k :: 0 <= k < i ==> reservations[k] == ClassifyReservation(reserved[k])
    {
      reservations := reservations + [ClassifyReservation(reserved[i])];
      i := i + 1;
    }
  }
}
