// Resource requests compiled to node affinity (pkg/operator/controller/affinity.go and the
// translations in slurmjob/pod.go and wlmjob/pod.go).
module Affinity {
  import opened Options
  import opened Int64
  import opened Numerals
  import opened Duration
  import opened Batch
  import opened Jobs
  import opened Script

  const NODES_KEY := "wlm.sylabs.io/nodes"
  const WALL_TIME_KEY := "wlm.sylabs.io/wall-time"
  const MEM_KEY := "wlm.sylabs.io/mem-per-node"
  const CPU_KEY := "wlm.sylabs.io/cpu-per-node"

  /** A node selector requirement; the operator is always Gt. */
  datatype Requirement = Gt(key: string, value: string)

  /** The two sentinels have the same text but are different errors. */
  datatype Error = ControllerNotRequired | SlurmjobNotRequired | BadScript

  datatype Result<+T> = Success(value: T) | Failure(error: Error) | Panic

  function OneLess(x: int64): string {
    FormatInt(Wrap(x - 1))
  }

  function Requirements(r: Resources): seq<Requirement> {
    []
    + (if r.nodes != 0 then [Gt(NODES_KEY, OneLess(r.nodes))] else [])
    + (if r.wallTime != 0 then [Gt(WALL_TIME_KEY, OneLess(WholeSeconds(r.wallTime)))] else [])
    + (if r.memPerNode != 0 then [Gt(MEM_KEY, OneLess(r.memPerNode))] else [])
    + (if r.cpuPerNode != 0 then [Gt(CPU_KEY, OneLess(r.cpuPerNode))] else [])
  }

  function AffinityOf(r: Resources): Result<seq<Requirement>> {
    if r == NO_RESOURCES then Failure(ControllerNotRequired) else Success(Requirements(r))
  }

  /** AffinityForResources. */
  method AffinityForResources(r: Resources) returns (a: Result<seq<Requirement>>)
    ensures a == AffinityOf(r)
  {
    var nodeMatch: seq<Requirement> := [];
    if r.nodes != 0 {
      nodeMatch := nodeMatch + [Gt(NODES_KEY, OneLess(r.nodes))];
    }
    if r.wallTime != 0 {
      nodeMatch := nodeMatch + [Gt(WALL_TIME_KEY, OneLess(WholeSeconds(r.wallTime)))];
    }
    if r.memPerNode != 0 {
      nodeMatch := nodeMatch + [Gt(MEM_KEY, OneLess(r.memPerNode))];
    }
    if r.cpuPerNode != 0 {
      nodeMatch := nodeMatch + [Gt(CPU_KEY, OneLess(r.cpuPerNode))];
    }
    assert nodeMatch == Requirements(r);
    if nodeMatch == [] {
      return Failure(ControllerNotRequired);
    }
    return Success(nodeMatch);
  }

  // ----- the pods of the two kinds of job ----------------------------------------------------

  /** The parts of a pod that depend on the job; no affinity means any node will do. */
  datatype Pod = Pod(name: string, affinity: Option<seq<Requirement>>)

  /** affinityForSj */
  function AffinityForSj(batch: string): Result<seq<Requirement>> {
    match Extracted(batch)
    case Ok(res) => AffinityOf(res)
    case Err => Failure(BadScript)
    case Fault => Panic
  }

  /** newPodForSJ, which compares with the sentinel of its own package. */
  function NewPodForSJ(name: string, batch: string): Result<Pod> {
    match AffinityForSj(batch)
    case Success(a) => Success(Pod(PodName(Sj(name)), Some(a)))
    case Failure(e) => if e == SlurmjobNotRequired then Success(Pod(PodName(Sj(name)), None)) else Failure(e)
    case Panic => Panic
  }

  /** newPodForWJ, which compares with the sentinel of the controller package. */
  function NewPodForWJ(name: string, r: Request): Result<Pod> {
    match AffinityOf(ResourcesOf(r))
    case Success(a) => Success(Pod(PodName(Wj(name)), Some(a)))
    case Failure(e) => if e == ControllerNotRequired then Success(Pod(PodName(Wj(name)), None)) else Failure(e)
    case Panic => Panic
  }

  /** Only the pod of a job that asks for some resource comes out of a SlurmJob. */
  lemma EmptySlurmJobAlwaysFails(name: string, batch: string)
    ensures NewPodForSJ(name, batch).Success? <==> Extracted(batch).Ok? && Extracted(batch) != Ok(NO_RESOURCES)
    ensures Extracted(batch) == Ok(NO_RESOURCES) ==> NewPodForSJ(name, batch) == Failure(ControllerNotRequired)
  {
  }

  /** What becomes of a SlurmJob its script decides. */
  lemma SlurmJobTranslation(name: string, batch: string)
    ensures NewPodForSJ(name, batch).Panic? <==> Extracted(batch).Fault?
    ensures NewPodForSJ(name, batch).Failure? <==> Extracted(batch).Err? || Extracted(batch) == Ok(NO_RESOURCES)
    ensures NewPodForSJ(name, batch).Success? ==> NewPodForSJ(name, batch).value.name == PodName(Sj(name))
  {
  }

  /** A WlmJob always gets a pod, bound to no particular nodes if it asks for nothing. */
  lemma WlmJobTranslation(name: string, r: Request)
    ensures NewPodForWJ(name, r).Success? && NewPodForWJ(name, r).value.name == PodName(Wj(name))
    ensures NewPodForWJ(name, r).value.affinity.None? <==> ResourcesOf(r) == NO_RESOURCES
  {
  }

  /**
   * Two ways to one requirement: a SlurmJob whose batch is the generated script and a WlmJob with
   * the same resources get the same affinity, term by term, exactly when the number of nodes is
   * not negative and some resource is asked for.  Wall times that wrap are no exception.
   */
  lemma SameAffinityIff(sj: string, wj: string, r: Request, id: string, verbs: (string, string) -> string)
    ensures
      var (s, w) := (NewPodForSJ(sj, ScriptText(r, id, verbs)), NewPodForWJ(wj, r));
      && w.Success?
      && (s.Success? && s.value.affinity == w.value.affinity <==> r.nodes >= 0 && ResourcesOf(r) != NO_RESOURCES)
      && (s.Success? <==> r.nodes >= 0 && ResourcesOf(r) != NO_RESOURCES)
      && (s.Success? ==> s.value.affinity == Some(Requirements(ResourcesOf(r))))
  {
    ScriptRoundTrip(r, id, verbs);
  }

  // ----- matching against the capacity of a node ---------------------------------------------

  /** A Gt term: the label is there, both sides are integers, and the label is greater. */
  predicate Matches(labels: map<string, string>, q: Requirement) {
    && q.key in labels
    && ParseInt(labels[q.key]).Some? && ParseInt(q.value).Some?
    && ParseInt(labels[q.key]).value > ParseInt(q.value).value
  }

  predicate MatchesAll(labels: map<string, string>, qs: seq<Requirement>) {
    forall i :: 0 <= i < |qs| ==> Matches(labels, qs[i])
  }

  /** What a partition offers; the wall time is in seconds. */
  datatype Capacity = Capacity(nodes: int64, memPerNode: int64, cpuPerNode: int64, wallSeconds: int64)

  function LabelsOf(c: Capacity): map<string, string> {
    map[NODES_KEY := FormatInt(c.nodes), WALL_TIME_KEY := FormatInt(c.wallSeconds),
        MEM_KEY := FormatInt(c.memPerNode), CPU_KEY := FormatInt(c.cpuPerNode)]
  }

  /** One number asked for against one number offered; the smallest int64 wraps to the largest. */
  predicate Covers(offered: int64, asked: int64) {
    asked != MIN && asked <= offered
  }

  predicate Satisfies(c: Capacity, r: Resources) {
    && (r.nodes != 0 ==> Covers(c.nodes, r.nodes))
    && (r.wallTime != 0 ==> WholeSeconds(r.wallTime) <= c.wallSeconds)
    && (r.memPerNode != 0 ==> Covers(c.memPerNode, r.memPerNode))
    && (r.cpuPerNode != 0 ==> Covers(c.cpuPerNode, r.cpuPerNode))
  }

  lemma GreaterThanOneLess(offered: int64, asked: int64)
    ensures offered > Wrap(asked - 1) <==> Covers(offered, asked)
  {
    assert Fits(asked) && Fits(offered);
    if asked == MIN {
      assert Wrap(MIN - 1) == MAX;
    } else {
      assert Fits(asked - 1);
    }
  }

  lemma OneLessMatches(labels: map<string, string>, key: string, offered: int64, asked: int64)
    requires key in labels && labels[key] == FormatInt(offered)
    ensures Matches(labels, Gt(key, OneLess(asked))) <==> Covers(offered, asked)
  {
    ParseFormat(offered);
    ParseFormat(Wrap(asked - 1));
    GreaterThanOneLess(offered, asked);
  }

  lemma LabelValues(c: Capacity)
    ensures var l := LabelsOf(c);
      && NODES_KEY in l && l[NODES_KEY] == FormatInt(c.nodes)
      && WALL_TIME_KEY in l && l[WALL_TIME_KEY] == FormatInt(c.wallSeconds)
      && MEM_KEY in l && l[MEM_KEY] == FormatInt(c.memPerNode)
      && CPU_KEY in l && l[CPU_KEY] == FormatInt(c.cpuPerNode)
  {
    assert NODES_KEY[14] == 'n' && WALL_TIME_KEY[14] == 'w' && MEM_KEY[14] == 'm' && CPU_KEY[14] == 'c';
  }

  lemma SecondsNotMin(nanos: int64)
    ensures WholeSeconds(nanos) != MIN
  {
    assert Fits(nanos);
  }

  lemma MatchesAppend(l: map<string, string>, ps: seq<Requirement>, qs: seq<Requirement>)
    ensures MatchesAll(l, ps + qs) <==> MatchesAll(l, ps) && MatchesAll(l, qs)
  {
    if MatchesAll(l, ps + qs) {
      assert forall i :: 0 <= i < |ps| ==> ps[i] == (ps + qs)[i];
      assert forall i :: 0 <= i < |qs| ==> qs[i] == (ps + qs)[|ps| + i];
    }
  }

  lemma MatchesOptional(l: map<string, string>, qs: seq<Requirement>)
    requires |qs| <= 1
    ensures MatchesAll(l, qs) <==> qs == [] || Matches(l, qs[0])
  {
  }

  /**
   * Matching means capacity: with labels equal to what a partition offers, all Gt terms hold exactly
   * when every number asked for is at most the one offered, for every int64 request.
   */
  lemma MatchingMeansCapacity(c: Capacity, r: Resources)
    ensures MatchesAll(LabelsOf(c), Requirements(r)) <==> Satisfies(c, r)
  {
    var l := LabelsOf(c);
    LabelValues(c);
    OneLessMatches(l, NODES_KEY, c.nodes, r.nodes);
    OneLessMatches(l, WALL_TIME_KEY, c.wallSeconds, WholeSeconds(r.wallTime));
    OneLessMatches(l, MEM_KEY, c.memPerNode, r.memPerNode);
    OneLessMatches(l, CPU_KEY, c.cpuPerNode, r.cpuPerNode);
    SecondsNotMin(r.wallTime);
    var q1 := if r.nodes != 0 then [Gt(NODES_KEY, OneLess(r.nodes))] else [];
    var q2 := if r.wallTime != 0 then [Gt(WALL_TIME_KEY, OneLess(WholeSeconds(r.wallTime)))] else [];
    var q3 := if r.memPerNode != 0 then [Gt(MEM_KEY, OneLess(r.memPerNode))] else [];
    var q4 := if r.cpuPerNode != 0 then [Gt(CPU_KEY, OneLess(r.cpuPerNode))] else [];
    assert Requirements(r) == [] + q1 + q2 + q3 + q4;
    MatchesAppend(l, [], q1);
    MatchesAppend(l, [] + q1, q2);
    MatchesAppend(l, [] + q1 + q2, q3);
    MatchesAppend(l, [] + q1 + q2 + q3, q4);
    MatchesOptional(l, q1);
    MatchesOptional(l, q2);
    MatchesOptional(l, q3);
    MatchesOptional(l, q4);
  }

  predicate AtMost(c: Capacity, d: Capacity) {
    c.nodes <= d.nodes && c.memPerNode <= d.memPerNode && c.cpuPerNode <= d.cpuPerNode && c.wallSeconds <= d.wallSeconds
  }

  /** A larger partition matches whatever a smaller one does. */
  lemma MatchingIsMonotone(c: Capacity, d: Capacity, r: Resources)
    requires AtMost(c, d) && MatchesAll(LabelsOf(c), Requirements(r))
    ensures MatchesAll(LabelsOf(d), Requirements(r))
  {
    MatchingMeansCapacity(c, r);
    MatchingMeansCapacity(d, r);
  }

  // ----- the names of the terms --------------------------------------------------------------

  /** One term for each resource that is asked for, under its own label and one less than asked. */
  lemma RequirementsAre(r: Resources, q: Requirement)
    ensures q in Requirements(r) <==>
      || (r.nodes != 0 && q == Gt("wlm.sylabs.io/nodes", FormatInt(Wrap(r.nodes - 1))))
      || (r.wallTime != 0 && q == Gt("wlm.sylabs.io/wall-time", FormatInt(WholeSeconds(r.wallTime) - 1)))
      || (r.memPerNode != 0 && q == Gt("wlm.sylabs.io/mem-per-node", FormatInt(Wrap(r.memPerNode - 1))))
      || (r.cpuPerNode != 0 && q == Gt("wlm.sylabs.io/cpu-per-node", FormatInt(Wrap(r.cpuPerNode - 1))))
  {
    assert Fits(r.wallTime);
  }
}
