// The configurator (cmd/configurator/main.go): it keeps one virtual kubelet pod for every partition
// that Slurm lists.  A round compares the listed partitions with the partitions named by the labels of
// the virtual nodes, creates the missing pods and deletes the others.
//
// A pod and the node it registers have the same name, made from the lower-cased partition name.
module Configurator {
  import opened Options
  import opened Text

  // ----- names -------------------------------------------------------------------------------

  /** partitionNodeName: the name of the pod and of the node of a partition. */
  function PodName(host: string, partition: string): string {
    "slurm-" + host + "-" + ToLower(partition)
  }

  /** Partitions share a pod name if and only if their names differ in the case of letters at most. */
  lemma PodNameIff(host: string, p: string, q: string)
    ensures PodName(host, p) == PodName(host, q) <==> SameButCase(p, q)
  {
    var head := "slurm-" + host + "-";
    assert PodName(host, p)[|head|..] == ToLower(p) && PodName(host, q)[|head|..] == ToLower(q);
    ToLowerIff(p, q);
  }

  /** A name without capital letters is part of the pod's name as it is. */
  lemma PodNameIs(host: string, p: string)
    requires forall i :: 0 <= i < |p| ==> !('A' <= p[i] <= 'Z')
    ensures PodName(host, p) == "slurm-" + host + "-" + p
  {
    ToLowerKeeps(p);
  }

  /** No two names of the set differ in case only. */
  ghost predicate CaseDistinct(names: set<string>) {
    forall p, q :: p in names && q in names && SameButCase(p, q) ==> p == q
  }

  function Elements(s: seq<string>): set<string> {
    set x | x in s
  }

  // ----- list operations ---------------------------------------------------------------------

  /** A virtual node, with the value of its partition label. */
  datatype Node = Node(partition: Option<string>)

  function LabelsOf(nodes: seq<Node>): seq<string> {
    if nodes == [] then []
    else
      var (front, last) := (LabelsOf(nodes[..|nodes| - 1]), nodes[|nodes| - 1].partition);
      if last.Some? then front + [last.value] else front
  }

  /** The names of more nodes are those of the first, followed by those of the others. */
  lemma {:induction false} LabelsAppend(a: seq<Node>, b: seq<Node>)
    ensures LabelsOf(a + b) == LabelsOf(a) + LabelsOf(b)
  {
    if b == [] {
      assert a + b == a;
    } else {
      assert (a + b)[..|a + b| - 1] == a + b[..|b| - 1];
      LabelsAppend(a, b[..|b| - 1]);
    }
  }

  /** A node gives its label if it has one, and nothing otherwise. */
  lemma LabelsOfOne(n: Node)
    ensures LabelsOf([n]) == match n.partition case Some(p) => [p] case None => []
  {
    assert [n][..0] == [];
  }

  /** The nodes labelled x. */
  function LabelledAt(nodes: seq<Node>, x: string): set<int> {
    set i | 0 <= i < |nodes| && nodes[i].partition == Some(x)
  }

  lemma LabelledSnoc(front: seq<Node>, last: Node, x: string)
    ensures |LabelledAt(front + [last], x)| == |LabelledAt(front, x)| + if last.partition == Some(x) then 1 else 0
  {
    var all, before := LabelledAt(front + [last], x), LabelledAt(front, x);
    if last.partition == Some(x) {
      assert all == before + {|front|};
    } else {
      assert all == before;
    }
  }

  /** Every name comes up as often as there are nodes with that label. */
  lemma {:induction false} LabelsCount(nodes: seq<Node>, x: string)
    ensures multiset(LabelsOf(nodes))[x] == |LabelledAt(nodes, x)|
  {
    if nodes != [] {
      var front, last := nodes[..|nodes| - 1], nodes[|nodes| - 1];
      LabelsCount(front, x);
      assert nodes == front + [last];
      LabelsAppend(front, [last]);
      LabelsOfOne(last);
      LabelledSnoc(front, last, x);
    }
  }

  lemma LabelIsThere(nodes: seq<Node>, x: string)
    ensures x in LabelsOf(nodes) <==> exists i :: 0 <= i < |nodes| && nodes[i].partition == Some(x)
  {
    LabelsCount(nodes, x);
    var at := LabelledAt(nodes, x);
    if i :| 0 <= i < |nodes| && nodes[i].partition == Some(x) {
      assert i in at;
    }
    if x in LabelsOf(nodes) {
      assert multiset(LabelsOf(nodes))[x] > 0;
      assert at != {};
    }
  }

  method PartitionNames(nodes: seq<Node>) returns (names: seq<string>)
    ensures names == LabelsOf(nodes)
  {
    names := [];
    for i := 0 to |nodes|
      invariant names == LabelsOf(nodes[..i])
    {
      assert nodes[..i + 1][..i] == nodes[..i];
      if nodes[i].partition.Some? {
        names := names + [nodes[i].partition.value];
      }
    }
    assert nodes[..|nodes|] == nodes;
  }

  /** The elements of a that are not in b, in a's order. */
  function Missing(a: seq<string>, b: seq<string>): seq<string> {
    if a == [] then []
    else
      var (front, last) := (Missing(a[..|a| - 1], b), a[|a| - 1]);
      if last in b then front else front + [last]
  }

  method Contains(s: seq<string>, e: string) returns (b: bool)
    ensures b <==> e in s
  {
    for i := 0 to |s|
      invariant e !in s[..i]
    {
      if s[i] == e {
        return true;
      }
    }
    return false;
  }

  method NotIn(a: seq<string>, b: seq<string>) returns (r: seq<string>)
    ensures r == Missing(a, b)
  {
    r := [];
    for i := 0 to |a|
      invariant r == Missing(a[..i], b)
    {
      assert a[..i + 1][..i] == a[..i];
      var found := Contains(b, a[i]);
      if !found {
        r := r + [a[i]];
      }
    }
    assert a[..|a|] == a;
  }

  lemma {:induction false} MissingIs(a: seq<string>, b: seq<string>, x: string)
    ensures x in Missing(a, b) <==> x in a && x !in b
    ensures multiset(Missing(a, b))[x] == if x in b then 0 else multiset(a)[x]
  {
    if a != [] {
      MissingIs(a[..|a| - 1], b, x);
      assert a == a[..|a| - 1] + [a[|a| - 1]];
    }
  }

  /** What is missing keeps its order: cutting a keeps what is missing from the first part in front. */
  lemma {:induction false} MissingAppend(a: seq<string>, c: seq<string>, b: seq<string>)
    ensures Missing(a + c, b) == Missing(a, b) + Missing(c, b)
  {
    if c == [] {
      assert a + c == a;
    } else {
      MissingAppend(a, c[..|c| - 1], b);
      assert (a + c)[..|a + c| - 1] == a + c[..|c| - 1];
    }
  }

  // ----- the two loops -----------------------------------------------------------------------

  /** How the API server answers a call: as asked, with an error, or with an error after doing it. */
  datatype Answer = Fine | Refused | Lost

  function AnswerAt(answers: seq<Answer>, i: nat): Answer {
    if i < |answers| then answers[i] else Fine
  }

  /** done: how many calls took effect. */
  datatype Outcome = Outcome(pods: map<string, string>, done: nat, ok: bool)

  function More(o: Outcome): Outcome {
    o.(done := o.done + 1)
  }

  /** createNodeForPartitions from index i on; pods maps pod names to partitions. */
  function CreateFrom(host: string, pods: map<string, string>, ps: seq<string>, i: nat, answers: seq<Answer>): Outcome
    requires i <= |ps|
    decreases |ps| - i
  {
    if i == |ps| then Outcome(pods, 0, true)
    else
      var name := PodName(host, ps[i]);
      if name in pods then Outcome(pods, 0, false)
      else
        match AnswerAt(answers, i)
        case Refused => Outcome(pods, 0, false)
        case Lost => Outcome(pods[name := ps[i]], 1, false)
        case Fine => More(CreateFrom(host, pods[name := ps[i]], ps, i + 1, answers))
  }

  /** deleteControllingPod from index i on. */
  function DeleteFrom(host: string, pods: map<string, string>, ps: seq<string>, i: nat, answers: seq<Answer>): Outcome
    requires i <= |ps|
    decreases |ps| - i
  {
    if i == |ps| then Outcome(pods, 0, true)
    else
      var name := PodName(host, ps[i]);
      if name !in pods then Outcome(pods, 0, false)
      else
        match AnswerAt(answers, i)
        case Refused => Outcome(pods, 0, false)
        case Lost => Outcome(pods - {name}, 1, false)
        case Fine => More(DeleteFrom(host, pods - {name}, ps, i + 1, answers))
  }

  /** A creation that is refused does nothing, and one whose answer is lost is carried out; both end the loop. */
  lemma CreationAnswers(host: string, pods: map<string, string>, p: string, answer: Answer)
    requires PodName(host, p) !in pods
    ensures var o := CreateFrom(host, pods, [p], 0, [answer]);
      && o.pods == (if answer == Refused then pods else pods[PodName(host, p) := p])
      && (o.ok <==> answer == Fine)
  {
  }

  lemma DeletionAnswers(host: string, pods: map<string, string>, p: string, answer: Answer)
    requires PodName(host, p) in pods
    ensures var o := DeleteFrom(host, pods, [p], 0, [answer]);
      && o.pods == (if answer == Refused then pods else pods - {PodName(host, p)})
      && (o.ok <==> answer == Fine)
  {
  }

  /** What one round sees and how its calls are answered. */
  datatype Round = Round(parts: seq<string>, represented: seq<string>, creates: seq<Answer>, deletes: seq<Answer>)

  function Created(host: string, pods: map<string, string>, r: Round): Outcome {
    CreateFrom(host, pods, Missing(r.parts, r.represented), 0, r.creates)
  }

  function Deleted(host: string, pods: map<string, string>, r: Round): Outcome {
    DeleteFrom(host, Created(host, pods, r).pods, Missing(r.represented, r.parts), 0, r.deletes)
  }

  /** The pods after the round: a failed creation does not stop the deletions. */
  function AfterRound(host: string, pods: map<string, string>, r: Round): map<string, string> {
    Deleted(host, pods, r).pods
  }

  /** The listed nodes have the labels of the registered ones, some of them possibly none. */
  ghost predicate Reports(nodes: seq<Node>, registered: map<string, string>) {
    forall p :: p in registered.Values <==> exists i :: 0 <= i < |nodes| && nodes[i].partition == Some(p)
  }

  /** nodes: the registered virtual nodes, from node name to partition label. */
  datatype State = State(pods: map<string, string>, nodes: map<string, string>)

  datatype Event =
    | Tick(round: Round)
    | Register(name: string)
    | Unregister(name: string)
    | Evict(name: string)

  ghost predicate Enabled(s: State, e: Event) {
    match e
    case Tick(r) => Elements(r.represented) == s.nodes.Values
    case Register(name) => name in s.pods
    case Unregister(name) => name in s.nodes
    case Evict(name) => name in s.pods
  }

  function Step(host: string, s: State, e: Event): State {
    match e
    case Tick(r) => s.(pods := AfterRound(host, s.pods, r))
    case Register(name) => if name in s.pods then s.(nodes := s.nodes[name := s.pods[name]]) else s
    case Unregister(name) => s.(nodes := s.nodes - {name})
    case Evict(name) => s.(pods := s.pods - {name})
  }

  /** The machine takes the step of one round. */
  ghost predicate Ticks(host: string, s: State, t: State, r: Round) {
    Enabled(s, Tick(r)) && t == Step(host, s, Tick(r))
  }

  lemma ReportsAll(nodes: seq<Node>, registered: map<string, string>)
    requires Reports(nodes, registered)
    ensures Elements(LabelsOf(nodes)) == registered.Values
  {
    forall p ensures p in LabelsOf(nodes) <==> p in registered.Values {
      LabelIsThere(nodes, p);
    }
  }

  /** The pods of the configurator's namespace. */
  class Namespace {
    var pods: map<string, string>
    const host: string

    constructor (host: string)
      ensures this.host == host && pods == map[]
    {
      this.host := host;
      pods := map[];
    }

    method CreatePod(partition: string, answer: Answer) returns (ok: bool)
      modifies this
      ensures var name := PodName(host, partition);
        && ok == (answer == Fine && name !in old(pods))
        && pods == if answer == Refused || name in old(pods) then old(pods) else old(pods)[name := partition]
    {
      var name := PodName(host, partition);
      if answer == Refused || name in pods {
        return false;
      }
      pods := pods[name := partition];
      return answer == Fine;
    }

    method DeletePod(partition: string, answer: Answer) returns (ok: bool)
      modifies this
      ensures var name := PodName(host, partition);
        && ok == (answer == Fine && name in old(pods))
        && pods == if answer == Refused then old(pods) else old(pods) - {name}
    {
      var name := PodName(host, partition);
      if answer == Refused || name !in pods {
        assert pods - {name} == pods || answer == Refused;
        return false;
      }
      pods := pods - {name};
      return answer == Fine;
    }

    method CreateNodeForPartitions(partitions: seq<string>, answers: seq<Answer>) returns (ok: bool)
      modifies this
      ensures var o := CreateFrom(host, old(pods), partitions, 0, answers); pods == o.pods && ok == o.ok
    {
      ghost var o := CreateFrom(host, pods, partitions, 0, answers);
      var i := 0;
      while i < |partitions|
        invariant 0 <= i <= |partitions|
        invariant var rest := CreateFrom(host, pods, partitions, i, answers); o.pods == rest.pods && o.ok == rest.ok
      {
        var created := CreatePod(partitions[i], AnswerAt(answers, i));
        if !created {
          return false;
        }
        i := i + 1;
      }
      return true;
    }

    method DeleteControllingPod(nodes: seq<string>, answers: seq<Answer>) returns (ok: bool)
      modifies this
      ensures var o := DeleteFrom(host, old(pods), nodes, 0, answers); pods == o.pods && ok == o.ok
    {
      ghost var o := DeleteFrom(host, pods, nodes, 0, answers);
      var i := 0;
      while i < |nodes|
        invariant 0 <= i <= |nodes|
        invariant var rest := DeleteFrom(host, pods, nodes, i, answers); o.pods == rest.pods && o.ok == rest.ok
      {
        ghost var absent := PodName(host, nodes[i]) !in pods;
        ghost var was := pods;
        var deleted := DeletePod(nodes[i], AnswerAt(answers, i));
        if !deleted {
          assert absent ==> pods == was;
          return false;
        }
        i := i + 1;
      }
      return true;
    }

    /** One tick of watchPartitions; None for a listing that failed. */
    method WatchPartitions(
      parts: Option<seq<string>>, nodes: Option<seq<Node>>, creates: seq<Answer>, deletes: seq<Answer>,
      ghost registered: map<string, string>)
      requires nodes.Some? ==> Reports(nodes.value, registered)
      modifies this
      ensures parts.None? || nodes.None? ==> pods == old(pods)
      ensures parts.Some? && nodes.Some?
        ==> Ticks(host, State(old(pods), registered), State(pods, registered),
                  Round(parts.value, LabelsOf(nodes.value), creates, deletes))
    {
      if parts.None? || nodes.None? {
        return;
      }
      ReportsAll(nodes.value, registered);
      var names := PartitionNames(nodes.value);
      var toCreate := NotIn(parts.value, names);
      var created := CreateNodeForPartitions(toCreate, creates);
      var toDelete := NotIn(names, parts.value);
      var deleted := DeleteControllingPod(toDelete, deletes);
    }
  }

  // ----- what the loops do to the pods -------------------------------------------------------

  /** Every pod bears the name of its partition. */
  ghost predicate WellNamed(host: string, pods: map<string, string>) {
    forall name :: name in pods ==> name == PodName(host, pods[name])
  }

  /** The pod called name is there and is that of partition p. */
  predicate Has(host: string, pods: map<string, string>, p: string) {
    PodName(host, p) in pods && pods[PodName(host, p)] == p
  }

  lemma HasIff(host: string, pods: map<string, string>, p: string)
    requires WellNamed(host, pods)
    ensures p in pods.Values <==> Has(host, pods, p)
  {
  }

  /** Among names that differ in more than case, a taken pod name is taken by its own partition. */
  lemma NameIsTaken(host: string, pods: map<string, string>, p: string, names: set<string>)
    requires WellNamed(host, pods) && CaseDistinct(names) && p in names && pods.Values <= names
    ensures PodName(host, p) in pods <==> p in pods.Values
  {
    HasIff(host, pods, p);
    if PodName(host, p) in pods {
      PodNameIff(host, p, pods[PodName(host, p)]);
    }
  }

  /** Old pods stay, new ones are for partitions of the list. */
  ghost predicate Grows(host: string, pods: map<string, string>, after: map<string, string>, ps: seq<string>, i: nat)
    requires i <= |ps|
  {
    && WellNamed(host, after)
    && (forall name :: name in pods ==> name in after && after[name] == pods[name])
    && (forall name :: name in after && name !in pods ==> after[name] in ps[i..])
  }

  lemma {:induction false} CreateGrows(
    host: string, pods: map<string, string>, ps: seq<string>, i: nat, answers: seq<Answer>)
    requires i <= |ps| && WellNamed(host, pods)
    ensures var o := CreateFrom(host, pods, ps, i, answers);
      && Grows(host, pods, o.pods, ps, i)
      && (o.done == 0 ==> o.pods == pods)
      && (o.done > 0 ==> i < |ps| && PodName(host, ps[i]) !in pods && Has(host, o.pods, ps[i]))
    decreases |ps| - i
  {
    if i < |ps| && PodName(host, ps[i]) !in pods && AnswerAt(answers, i).Fine? {
      CreateGrows(host, pods[PodName(host, ps[i]) := ps[i]], ps, i + 1, answers);
    }
  }

  /** When no creation fails every partition of the list has its pod. */
  lemma {:induction false} CreateAll(
    host: string, pods: map<string, string>, ps: seq<string>, i: nat, answers: seq<Answer>)
    requires i <= |ps| && WellNamed(host, pods) && CreateFrom(host, pods, ps, i, answers).ok
    ensures forall k :: i <= k < |ps| ==> Has(host, CreateFrom(host, pods, ps, i, answers).pods, ps[k])
    decreases |ps| - i
  {
    if i < |ps| {
      var next := pods[PodName(host, ps[i]) := ps[i]];
      CreateAll(host, next, ps, i + 1, answers);
      CreateGrows(host, next, ps, i + 1, answers);
    }
  }

  /** Only pods named by the list go. */
  ghost predicate Shrinks(host: string, pods: map<string, string>, after: map<string, string>, ps: seq<string>, i: nat)
    requires i <= |ps|
  {
    && (forall name :: name in after ==> name in pods && after[name] == pods[name])
    && (forall name :: name in pods && name !in after ==> exists p :: p in ps[i..] && name == PodName(host, p))
  }

  lemma {:induction false} DeleteShrinks(
    host: string, pods: map<string, string>, ps: seq<string>, i: nat, answers: seq<Answer>)
    requires i <= |ps|
    ensures var o := DeleteFrom(host, pods, ps, i, answers);
      && Shrinks(host, pods, o.pods, ps, i)
      && (o.done == 0 ==> o.pods == pods)
      && (o.done > 0 ==> i < |ps| && PodName(host, ps[i]) in pods && PodName(host, ps[i]) !in o.pods)
    decreases |ps| - i
  {
    if i < |ps| {
      var name := PodName(host, ps[i]);
      assert ps[i] in ps[i..];
      if name in pods && AnswerAt(answers, i).Fine? {
        DeleteShrinks(host, pods - {name}, ps, i + 1, answers);
        assert forall p :: p in ps[i + 1..] ==> p in ps[i..];
      }
    }
  }

  /** When no deletion fails nothing named by the list is left. */
  lemma {:induction false} DeleteAll(
    host: string, pods: map<string, string>, ps: seq<string>, i: nat, answers: seq<Answer>)
    requires i <= |ps| && DeleteFrom(host, pods, ps, i, answers).ok
    ensures forall k :: i <= k < |ps| ==> PodName(host, ps[k]) !in DeleteFrom(host, pods, ps, i, answers).pods
    decreases |ps| - i
  {
    if i < |ps| {
      var next := pods - {PodName(host, ps[i])};
      DeleteAll(host, next, ps, i + 1, answers);
      DeleteShrinks(host, next, ps, i + 1, answers);
    }
  }

  // ----- one round brings the pods closer to the list ----------------------------------------

  /** Partitions with a pod that are not listed, and listed ones without a pod. */
  ghost function Apart(pods: map<string, string>, parts: seq<string>): set<string> {
    (pods.Values - Elements(parts)) + (Elements(parts) - pods.Values)
  }

  /** The nodes are those of the pods. */
  ghost predicate InStep(host: string, pods: map<string, string>, represented: seq<string>) {
    WellNamed(host, pods) && Elements(represented) == pods.Values
  }

  lemma RoundKeepsNames(host: string, pods: map<string, string>, r: Round)
    requires WellNamed(host, pods)
    ensures WellNamed(host, Created(host, pods, r).pods) && WellNamed(host, AfterRound(host, pods, r))
    ensures Created(host, pods, r).pods.Values <= pods.Values + Elements(r.parts)
    ensures AfterRound(host, pods, r).Values <= Created(host, pods, r).pods.Values
  {
    var toCreate, toDelete := Missing(r.parts, r.represented), Missing(r.represented, r.parts);
    var mid := Created(host, pods, r).pods;
    CreateGrows(host, pods, toCreate, 0, r.creates);
    DeleteShrinks(host, mid, toDelete, 0, r.deletes);
    forall name | name in mid && name !in pods ensures mid[name] in r.parts {
      MissingIs(r.parts, r.represented, mid[name]);
    }
  }

  /** A round never deletes the pod of a listed partition if names differ in more than case. */
  lemma ListedIsSpared(host: string, pods: map<string, string>, r: Round, x: string)
    requires WellNamed(host, pods) && CaseDistinct(Elements(r.represented) + Elements(r.parts))
    requires x in r.parts && x in Created(host, pods, r).pods.Values
    ensures x in AfterRound(host, pods, r).Values
  {
    RoundKeepsNames(host, pods, r);
    var mid, after := Created(host, pods, r).pods, AfterRound(host, pods, r);
    var toDelete := Missing(r.represented, r.parts);
    DeleteShrinks(host, mid, toDelete, 0, r.deletes);
    HasIff(host, mid, x);
    var name := PodName(host, x);
    if name !in after {
      var p :| p in toDelete[0..] && name == PodName(host, p);
      MissingIs(r.represented, r.parts, p);
      PodNameIff(host, x, p);
    }
  }

  lemma PodsStay(host: string, pods: map<string, string>, r: Round, x: string)
    requires WellNamed(host, pods) && x in pods.Values
    ensures x in Created(host, pods, r).pods.Values
  {
    CreateGrows(host, pods, Missing(r.parts, r.represented), 0, r.creates);
  }

  lemma NeverFurther(host: string, pods: map<string, string>, r: Round)
    requires InStep(host, pods, r.represented) && CaseDistinct(pods.Values + Elements(r.parts))
    ensures Apart(AfterRound(host, pods, r), r.parts) <= Apart(pods, r.parts)
  {
    RoundKeepsNames(host, pods, r);
    forall x | x in Apart(AfterRound(host, pods, r), r.parts) ensures x in Apart(pods, r.parts) {
      if x in r.parts && x in pods.Values {
        PodsStay(host, pods, r, x);
        ListedIsSpared(host, pods, r, x);
      }
    }
  }

  /** A creation that took effect closes a gap. */
  lemma CreationCloses(host: string, pods: map<string, string>, r: Round)
    requires InStep(host, pods, r.represented) && CaseDistinct(pods.Values + Elements(r.parts))
    requires Created(host, pods, r).done > 0
    ensures exists x :: x in Apart(pods, r.parts) && x !in Apart(AfterRound(host, pods, r), r.parts)
  {
    var toCreate := Missing(r.parts, r.represented);
    CreateGrows(host, pods, toCreate, 0, r.creates);
    var x := toCreate[0];
    MissingIs(r.parts, r.represented, x);
    HasIff(host, Created(host, pods, r).pods, x);
    ListedIsSpared(host, pods, r, x);
    assert x in Elements(r.parts) && x !in Elements(r.represented);
    assert x in Apart(pods, r.parts) && x !in Apart(AfterRound(host, pods, r), r.parts);
  }

  lemma DeletionCloses(host: string, pods: map<string, string>, r: Round)
    requires InStep(host, pods, r.represented)
    requires Deleted(host, pods, r).done > 0
    ensures exists x :: x in Apart(pods, r.parts) && x !in Apart(AfterRound(host, pods, r), r.parts)
  {
    var toDelete := Missing(r.represented, r.parts);
    RoundKeepsNames(host, pods, r);
    DeleteShrinks(host, Created(host, pods, r).pods, toDelete, 0, r.deletes);
    var x := toDelete[0];
    MissingIs(r.represented, r.parts, x);
    HasIff(host, AfterRound(host, pods, r), x);
    assert x in Elements(r.represented) && x !in Elements(r.parts);
    assert x in Apart(pods, r.parts) && x !in Apart(AfterRound(host, pods, r), r.parts);
  }

  lemma AllCreated(host: string, pods: map<string, string>, r: Round, x: string)
    requires InStep(host, pods, r.represented) && CaseDistinct(pods.Values + Elements(r.parts))
    requires Created(host, pods, r).ok && x in r.parts
    ensures x in AfterRound(host, pods, r).Values
  {
    var toCreate := Missing(r.parts, r.represented);
    if x in pods.Values {
      PodsStay(host, pods, r, x);
    } else {
      assert x !in Elements(r.represented);
      MissingIs(r.parts, r.represented, x);
      CreateAll(host, pods, toCreate, 0, r.creates);
      RoundKeepsNames(host, pods, r);
      HasIff(host, Created(host, pods, r).pods, x);
    }
    ListedIsSpared(host, pods, r, x);
  }

  lemma AllDeleted(host: string, pods: map<string, string>, r: Round, x: string)
    requires InStep(host, pods, r.represented)
    requires Deleted(host, pods, r).ok && x !in r.parts
    ensures x !in AfterRound(host, pods, r).Values
  {
    var toDelete := Missing(r.represented, r.parts);
    RoundKeepsNames(host, pods, r);
    HasIff(host, AfterRound(host, pods, r), x);
    if x in AfterRound(host, pods, r).Values {
      assert x in pods.Values + Elements(r.parts);
      assert x in Elements(r.represented);
      MissingIs(r.represented, r.parts, x);
      DeleteAll(host, Created(host, pods, r).pods, toDelete, 0, r.deletes);
    }
  }

  /**
   * Convergence under faults: with nodes in step with pods and names that differ in more than case, a
   * round whose loops may stop at any call never enlarges the difference between the partitions that
   * have a pod and the listed ones, makes it smaller when any call took effect, and leaves none when
   * no call failed.
   */
  lemma RoundCloses(host: string, pods: map<string, string>, r: Round)
    requires InStep(host, pods, r.represented) && CaseDistinct(pods.Values + Elements(r.parts))
    ensures var (before, after) := (Apart(pods, r.parts), Apart(AfterRound(host, pods, r), r.parts));
      && after <= before
      && (Created(host, pods, r).done + Deleted(host, pods, r).done > 0 ==> after < before)
      && (Created(host, pods, r).ok && Deleted(host, pods, r).ok ==> after == {})
    ensures WellNamed(host, AfterRound(host, pods, r))
    ensures AfterRound(host, pods, r).Values <= pods.Values + Elements(r.parts)
  {
    NeverFurther(host, pods, r);
    RoundKeepsNames(host, pods, r);
    if Created(host, pods, r).done > 0 {
      CreationCloses(host, pods, r);
    } else if Deleted(host, pods, r).done > 0 {
      DeletionCloses(host, pods, r);
    }
    if Created(host, pods, r).ok && Deleted(host, pods, r).ok {
      forall x ensures x in r.parts <==> x in AfterRound(host, pods, r).Values {
        if x in r.parts {
          AllCreated(host, pods, r, x);
        } else {
          AllDeleted(host, pods, r, x);
        }
      }
    }
  }

  // ----- rounds without faults ---------------------------------------------------------------

  ghost predicate NoDuplicates(s: seq<string>) {
    forall i, j :: 0 <= i < j < |s| ==> s[i] != s[j]
  }

  lemma {:induction false} MissingNoDuplicates(a: seq<string>, b: seq<string>)
    requires NoDuplicates(a)
    ensures NoDuplicates(Missing(a, b))
  {
    if a != [] {
      var front := a[..|a| - 1];
      MissingNoDuplicates(front, b);
      MissingIs(front, b, a[|a| - 1]);
    }
  }

  lemma {:induction false} DeleteSucceeds(host: string, pods: map<string, string>, ps: seq<string>, i: nat)
    requires i <= |ps| && NoDuplicates(ps)
    requires forall k :: i <= k < |ps| ==> Has(host, pods, ps[k])
    ensures DeleteFrom(host, pods, ps, i, []).ok
    decreases |ps| - i
  {
    if i < |ps| {
      DeleteSucceeds(host, pods - {PodName(host, ps[i])}, ps, i + 1);
    }
  }

  lemma {:induction false} CreateSucceeds(host: string, pods: map<string, string>, ps: seq<string>, i: nat)
    requires i <= |ps| && NoDuplicates(ps) && CaseDistinct(Elements(ps))
    requires forall k :: i <= k < |ps| ==> PodName(host, ps[k]) !in pods
    ensures CreateFrom(host, pods, ps, i, []).ok
    decreases |ps| - i
  {
    if i < |ps| {
      forall k | i < k < |ps| ensures PodName(host, ps[k]) != PodName(host, ps[i]) {
        PodNameIff(host, ps[k], ps[i]);
        assert ps[k] in Elements(ps) && ps[i] in Elements(ps);
      }
      CreateSucceeds(host, pods[PodName(host, ps[i]) := ps[i]], ps, i + 1);
    }
  }

  /** No call fails, every pod's node is listed once. */
  ghost predicate Quiet(host: string, pods: map<string, string>, r: Round) {
    InStep(host, pods, r.represented) && NoDuplicates(r.represented) && r.creates == [] && r.deletes == []
  }

  lemma QuietDeletes(host: string, pods: map<string, string>, r: Round)
    requires Quiet(host, pods, r)
    ensures Deleted(host, pods, r).ok
    ensures AfterRound(host, pods, r).Values <= Elements(r.parts)
  {
    var toDelete := Missing(r.represented, r.parts);
    MissingNoDuplicates(r.represented, r.parts);
    RoundKeepsNames(host, pods, r);
    var mid := Created(host, pods, r).pods;
    forall k | 0 <= k < |toDelete| ensures Has(host, mid, toDelete[k]) {
      MissingIs(r.represented, r.parts, toDelete[k]);
      assert toDelete[k] in Elements(r.represented);
      PodsStay(host, pods, r, toDelete[k]);
      HasIff(host, mid, toDelete[k]);
    }
    DeleteSucceeds(host, mid, toDelete, 0);
    forall x | x in AfterRound(host, pods, r).Values ensures x in r.parts {
      if x !in r.parts {
        AllDeleted(host, pods, r, x);
      }
    }
  }

  lemma NamesAreFree(host: string, pods: map<string, string>, r: Round)
    requires InStep(host, pods, r.represented) && CaseDistinct(Elements(r.parts)) && pods.Values <= Elements(r.parts)
    ensures forall x :: x in Missing(r.parts, r.represented) ==> x in r.parts && PodName(host, x) !in pods
  {
    forall x | x in Missing(r.parts, r.represented) ensures x in r.parts && PodName(host, x) !in pods {
      MissingIs(r.parts, r.represented, x);
      assert x !in Elements(r.represented) && x in Elements(r.parts);
      NameIsTaken(host, pods, x, Elements(r.parts));
    }
  }

  lemma NotApart(pods: map<string, string>, parts: seq<string>)
    requires Apart(pods, parts) == {}
    ensures pods.Values == Elements(parts)
  {
    forall x ensures x in pods.Values <==> x in Elements(parts) {
      assert x !in Apart(pods, parts);
    }
  }

  /** A list that holds only "" -- what output with no partition in it is read as -- costs every other pod. */
  lemma EmptyNameDeletesAll(host: string, pods: map<string, string>, r: Round)
    requires Quiet(host, pods, r) && r.parts == [""]
    ensures AfterRound(host, pods, r).Values <= {""}
  {
    QuietDeletes(host, pods, r);
    assert Elements(r.parts) == {""};
  }

  /** Nothing is left, or less than before. */
  predicate Progresses(before: set<string>, after: set<string>) {
    after < before || after == {}
  }

  /** With only listed partitions left, every round creates at least one missing pod. */
  lemma QuietCreates(host: string, pods: map<string, string>, r: Round)
    requires Quiet(host, pods, r) && CaseDistinct(Elements(r.parts)) && pods.Values <= Elements(r.parts)
    ensures Progresses(Apart(pods, r.parts), Apart(AfterRound(host, pods, r), r.parts))
  {
    var toCreate := Missing(r.parts, r.represented);
    NamesAreFree(host, pods, r);
    assert pods.Values + Elements(r.parts) == Elements(r.parts);
    RoundCloses(host, pods, r);
    if x :| x in Apart(pods, r.parts) {
      assert x in r.parts && x !in Elements(r.represented);
      MissingIs(r.parts, r.represented, x);
      assert toCreate[0] in toCreate;
      assert Created(host, pods, r).done > 0;
    }
  }

  /** All of them if no partition is listed twice. */
  lemma QuietCreatesAll(host: string, pods: map<string, string>, r: Round)
    requires Quiet(host, pods, r) && CaseDistinct(Elements(r.parts)) && pods.Values <= Elements(r.parts)
    requires NoDuplicates(r.parts)
    ensures AfterRound(host, pods, r).Values == Elements(r.parts)
  {
    NamesAreFree(host, pods, r);
    MissingNoDuplicates(r.parts, r.represented);
    forall x | x in Elements(Missing(r.parts, r.represented)) ensures x in Elements(r.parts) {
      MissingIs(r.parts, r.represented, x);
    }
    CreateSucceeds(host, pods, Missing(r.parts, r.represented), 0);
    QuietDeletes(host, pods, r);
    assert pods.Values + Elements(r.parts) == Elements(r.parts);
    RoundCloses(host, pods, r);
    NotApart(AfterRound(host, pods, r), r.parts);
  }

  ghost predicate QuietRound(
    host: string, pods: map<string, string>, r: Round, parts: seq<string>, after: map<string, string>)
  {
    Quiet(host, pods, r) && r.parts == parts && after == AfterRound(host, pods, r)
  }

  /** The pods after rounds without faults over the same list, the nodes keeping step with the pods. */
  ghost predicate QuietRounds(host: string, states: seq<map<string, string>>, rounds: seq<Round>, parts: seq<string>) {
    && |states| == |rounds| + 1
    && forall i :: 0 <= i < |rounds| ==> QuietRound(host, states[i], rounds[i], parts, states[i + 1])
  }

  lemma {:induction false} SubsetSize(a: set<string>, b: set<string>)
    requires a <= b
    ensures |a| <= |b| && (a < b ==> |a| < |b|)
  {
    if x :| x in a {
      SubsetSize(a - {x}, b - {x});
    } else if x :| x in b {
      assert a == {} && |b| > 0;
    }
  }

  /** One round without faults, with only listed partitions left. */
  lemma OneLeft(host: string, pods: map<string, string>, r: Round)
    requires Quiet(host, pods, r) && CaseDistinct(Elements(r.parts)) && pods.Values <= Elements(r.parts)
    ensures var after := AfterRound(host, pods, r);
      |Apart(after, r.parts)| < |Apart(pods, r.parts)| || after.Values == Elements(r.parts)
  {
    var before, after := Apart(pods, r.parts), Apart(AfterRound(host, pods, r), r.parts);
    QuietCreates(host, pods, r);
    if after < before {
      SubsetSize(after, before);
    } else {
      NotApart(AfterRound(host, pods, r), r.parts);
    }
  }

  lemma {:induction false} Remaining(
    host: string, states: seq<map<string, string>>, rounds: seq<Round>, parts: seq<string>, n: nat)
    requires QuietRounds(host, states, rounds, parts) && CaseDistinct(Elements(parts))
    requires 0 < n <= |rounds|
    ensures states[n].Values <= Elements(parts)
    ensures |Apart(states[n], parts)| + n <= |Elements(parts)| + 1 || states[n].Values == Elements(parts)
    ensures n > 1 && NoDuplicates(parts) ==> states[n].Values == Elements(parts)
  {
    var pods, r, after := states[n - 1], rounds[n - 1], states[n];
    assert QuietRound(host, pods, r, parts, after);
    QuietDeletes(host, pods, r);
    if n == 1 {
      assert Apart(after, parts) <= Elements(parts);
      SubsetSize(Apart(after, parts), Elements(parts));
    } else {
      Remaining(host, states, rounds, parts, n - 1);
      OneLeft(host, pods, r);
      if NoDuplicates(parts) {
        QuietCreatesAll(host, pods, r);
      }
      if pods.Values == Elements(parts) {
        assert Apart(pods, parts) == {};
      }
    }
  }

  lemma {:induction false} RunKeepsNames(
    host: string, states: seq<map<string, string>>, rounds: seq<Round>, parts: seq<string>, n: nat)
    requires QuietRounds(host, states, rounds, parts) && WellNamed(host, states[0]) && n <= |rounds|
    ensures WellNamed(host, states[n])
  {
    if n > 0 {
      RunKeepsNames(host, states, rounds, parts, n - 1);
      assert QuietRound(host, states[n - 1], rounds[n - 1], parts, states[n]);
      RoundKeepsNames(host, states[n - 1], rounds[n - 1]);
    }
  }

  /**
   * Without faults: from any pods in step with their nodes, more rounds than there are partitions (two
   * if none is listed twice) end with a pod for exactly the listed partitions, if and only if no two
   * listed names differ in case only.
   */
  lemma ConvergesIff(host: string, states: seq<map<string, string>>, rounds: seq<Round>, parts: seq<string>)
    requires QuietRounds(host, states, rounds, parts) && WellNamed(host, states[0])
    requires |rounds| > |Elements(parts)| || (|rounds| > 1 && NoDuplicates(parts))
    ensures states[|rounds|].Values == Elements(parts) <==> CaseDistinct(Elements(parts))
  {
    var last := states[|rounds|];
    if CaseDistinct(Elements(parts)) {
      Remaining(host, states, rounds, parts, |rounds|);
      if last.Values != Elements(parts) {
        NotApart(last, parts);
      }
    } else if last.Values == Elements(parts) {
      RunKeepsNames(host, states, rounds, parts, |rounds|);
      var p, q :| p in Elements(parts) && q in Elements(parts) && SameButCase(p, q) && p != q;
      HasIff(host, last, p);
      HasIff(host, last, q);
      PodNameIff(host, p, q);
    }
  }

  // ----- nodes that come and go later than their pods ----------------------------------------

  /** The state after the events, if each of them was possible when it happened. */
  ghost function Exec(host: string, s: State, es: seq<Event>): Option<State> {
    if es == [] then Some(s)
    else
      match Exec(host, s, es[..|es| - 1])
      case None => None
      case Some(t) => if Enabled(t, es[|es| - 1]) then Some(Step(host, t, es[|es| - 1])) else None
  }

  /** What the environment does: a pod vanishes, a node registers with its pod's label, a node vanishes. */
  lemma EnvironmentActs(host: string, s: State, name: string, x: string)
    ensures x in Step(host, s, Evict(name)).pods <==> x in s.pods && x != name
    ensures x in Step(host, s, Unregister(name)).nodes <==> x in s.nodes && x != name
    ensures name in s.pods ==> Step(host, s, Register(name)).nodes == s.nodes[name := s.pods[name]]
  {
  }

  ghost predicate Lists(es: seq<Event>, names: set<string>) {
    forall e :: e in es && e.Tick? ==> Elements(e.round.parts) <= names
  }

  ghost predicate Proper(host: string, s: State, names: set<string>) {
    WellNamed(host, s.pods) && s.pods.Values <= names && s.nodes.Values <= names
  }

  lemma StepProper(host: string, s: State, e: Event, names: set<string>)
    requires Proper(host, s, names) && Enabled(s, e) && (e.Tick? ==> Elements(e.round.parts) <= names)
    ensures Proper(host, Step(host, s, e), names)
  {
    if e.Tick? {
      RoundKeepsNames(host, s.pods, e.round);
    }
  }

  lemma {:induction false} RunProper(host: string, s: State, es: seq<Event>, t: State, names: set<string>)
    requires Exec(host, s, es) == Some(t) && Proper(host, s, names) && Lists(es, names)
    ensures Proper(host, t, names)
  {
    if es != [] {
      var (front, e) := (es[..|es| - 1], es[|es| - 1]);
      var u := Exec(host, s, front).value;
      RunProper(host, s, front, u, names);
      StepProper(host, u, e, names);
    }
  }

  const START := State(map[], map[])

  /** The round leaves the pods of listed partitions alone, old ones and those it has just created. */
  ghost predicate Spares(host: string, pods: map<string, string>, r: Round) {
    forall x :: x in r.parts && x in Created(host, pods, r).pods.Values ==> x in AfterRound(host, pods, r).Values
  }

  ghost predicate Safe(host: string, names: set<string>) {
    forall es, s, r :: Exec(host, START, es) == Some(s) && Enabled(s, Tick(r)) && Lists(es + [Tick(r)], names)
      ==> Spares(host, s.pods, r)
  }

  lemma OneCreated(host: string, pods: map<string, string>, p: string)
    requires PodName(host, p) !in pods
    ensures CreateFrom(host, pods, [p], 0, []).pods == pods[PodName(host, p) := p]
  {
  }

  lemma OneDeleted(host: string, pods: map<string, string>, p: string)
    requires PodName(host, p) in pods
    ensures DeleteFrom(host, pods, [p], 0, []).pods == pods - {PodName(host, p)}
  {
  }

  lemma ExecSnoc(host: string, s: State, es: seq<Event>, t: State, e: Event)
    requires Exec(host, s, es) == Some(t) && Enabled(t, e)
    ensures Exec(host, s, es + [e]) == Some(Step(host, t, e))
  {
    assert (es + [e])[..|es|] == es;
  }

  lemma UnsafeStart(host: string, q: string)
    ensures var name := PodName(host, q);
      Exec(host, START, [Tick(Round([q], [], [], [])), Register(name), Tick(Round([], [q], [], []))])
      == Some(State(map[], map[name := q]))
  {
    var name := PodName(host, q);
    var e1, e2, e3 := Tick(Round([q], [], [], [])), Register(name), Tick(Round([], [q], [], []));
    var s1, s2 := State(map[name := q], map[]), State(map[name := q], map[name := q]);
    assert Missing([q], []) == [q] && Missing([], []) == [];
    MissingIs([q], [q], q);
    OneCreated(host, map[], q);
    OneDeleted(host, map[name := q], q);
    assert Step(host, START, e1) == s1;
    ExecSnoc(host, START, [], START, e1);
    assert [] + [e1] == [e1];
    ExecSnoc(host, START, [e1], s1, e2);
    assert [e1] + [e2] == [e1, e2];
    ExecSnoc(host, START, [e1, e2], s2, e3);
    assert [e1, e2] + [e3] == [e1, e2, e3];
  }

  lemma UnsafeRound(host: string, p: string, q: string, pods: map<string, string>)
    requires PodName(host, p) == PodName(host, q) && p != q && pods == map[]
    ensures !Spares(host, pods, Round([p], [q], [], []))
  {
    var name, r := PodName(host, p), Round([p], [q], [], []);
    assert Missing([p], [q]) == [p] && Missing([q], [p]) == [q];
    OneCreated(host, pods, p);
    OneDeleted(host, pods[name := p], q);
    assert Created(host, pods, r).pods[name] == p;
    assert p in r.parts && p !in AfterRound(host, pods, r).Values;
  }

  /** q is listed and dropped; while its node lingers p is listed, and its new pod is deleted at once. */
  lemma UnsafeRun(host: string, p: string, q: string)
    requires SameButCase(p, q) && p != q
    ensures !Safe(host, {p, q})
  {
    PodNameIff(host, p, q);
    var name := PodName(host, q);
    var es := [Tick(Round([q], [], [], [])), Register(name), Tick(Round([], [q], [], []))];
    var s, r := State(map[], map[name := q]), Round([p], [q], [], []);
    UnsafeStart(host, q);
    UnsafeRound(host, p, q, s.pods);
    assert s.nodes[name] == q;
    assert Lists(es + [Tick(r)], {p, q});
  }

  /**
   * Safety with late registration: no round of any run over a set of partition names deletes the pod
   * of a partition in its list, if and only if no two names of the set differ in case only.
   */
  lemma SafeIff(host: string, names: set<string>)
    ensures Safe(host, names) <==> CaseDistinct(names)
  {
    if CaseDistinct(names) {
      forall es, s, r | Exec(host, START, es) == Some(s) && Enabled(s, Tick(r)) && Lists(es + [Tick(r)], names)
        ensures Spares(host, s.pods, r)
      {
        assert Tick(r) in es + [Tick(r)];
        RunProper(host, START, es, s, names);
        forall x | x in r.parts && x in Created(host, s.pods, r).pods.Values
          ensures x in AfterRound(host, s.pods, r).Values
        {
          ListedIsSpared(host, s.pods, r, x);
        }
      }
    } else {
      var p, q :| p in names && q in names && SameButCase(p, q) && p != q;
      UnsafeRun(host, p, q);
      assert forall es :: Lists(es, {p, q}) ==> Lists(es, names);
    }
  }

  // ----- a node that never registers ---------------------------------------------------------

  ghost predicate NewIn(pods: map<string, string>, after: map<string, string>, ps: seq<string>) {
    && (forall name :: name in pods ==> name in after && after[name] == pods[name])
    && (forall name :: name in after && name !in pods ==> after[name] in ps)
  }

  /** Creations stop at a partition whose pod is already there. */
  lemma {:induction false} CreateBlocked(
    host: string, pods: map<string, string>, ps: seq<string>, i: nat, k: nat, answers: seq<Answer>)
    requires i <= k < |ps| && PodName(host, ps[k]) in pods
    ensures NewIn(pods, CreateFrom(host, pods, ps, i, answers).pods, ps[i..k])
    decreases |ps| - i
  {
    if PodName(host, ps[i]) !in pods {
      var next := pods[PodName(host, ps[i]) := ps[i]];
      CreateBlocked(host, next, ps, i + 1, k, answers);
      assert ps[i..k] == [ps[i]] + ps[i + 1..k];
    }
  }

  lemma MissingAround(parts: seq<string>, k: nat, represented: seq<string>)
    requires k < |parts| && parts[k] !in represented
    ensures var (all, head) := (Missing(parts, represented), Missing(parts[..k], represented));
      |head| < |all| && all[..|head|] == head && all[|head|] == parts[k]
  {
    var p := parts[k];
    MissingAppend(parts[..k], parts[k..], represented);
    MissingAppend([p], parts[k + 1..], represented);
    assert parts[..k] + parts[k..] == parts && [p] + parts[k + 1..] == parts[k..];
    assert Missing([p], represented) == [p];
  }

  /** p is listed, and q nowhere before it. */
  ghost predicate Before(parts: seq<string>, p: string, q: string) {
    exists k :: 0 <= k < |parts| && parts[k] == p && q !in parts[..k]
  }

  /** The pod of p is there, its node is not, and q has no pod. */
  ghost predicate Blocked(host: string, s: State, p: string, q: string) {
    p in s.pods.Values && p !in s.nodes.Values && q !in s.pods.Values
  }

  /** The event lets things be: the pod of p stays, its node does not register, rounds list p before q. */
  ghost predicate Leaves(host: string, e: Event, p: string, q: string) {
    match e
    case Tick(r) => Before(r.parts, p, q)
    case Register(name) => name != PodName(host, p)
    case Unregister(_) => true
    case Evict(name) => name != PodName(host, p)
  }

  lemma CreationsStop(host: string, pods: map<string, string>, r: Round, p: string, q: string)
    requires WellNamed(host, pods) && Before(r.parts, p, q)
    requires p in pods.Values && p !in r.represented && q !in pods.Values
    ensures q !in Created(host, pods, r).pods.Values
  {
    var k :| 0 <= k < |r.parts| && r.parts[k] == p && q !in r.parts[..k];
    var toCreate, head := Missing(r.parts, r.represented), Missing(r.parts[..k], r.represented);
    MissingAround(r.parts, k, r.represented);
    HasIff(host, pods, p);
    CreateBlocked(host, pods, toCreate, 0, |head|, r.creates);
    MissingIs(r.parts[..k], r.represented, q);
    var mid := Created(host, pods, r).pods;
    assert NewIn(pods, mid, head);
    CreateGrows(host, pods, toCreate, 0, r.creates);
    forall name | name in mid ensures mid[name] != q {
      if name in pods {
        assert mid[name] == pods[name];
      }
    }
  }

  lemma TickBlocked(host: string, s: State, r: Round, p: string, q: string, names: set<string>)
    requires Proper(host, s, names) && CaseDistinct(names) && Elements(r.parts) <= names
    requires Blocked(host, s, p, q) && Before(r.parts, p, q) && Elements(r.represented) == s.nodes.Values
    ensures p in AfterRound(host, s.pods, r).Values && q !in AfterRound(host, s.pods, r).Values
  {
    assert p !in Elements(r.represented) && p in r.parts;
    PodsStay(host, s.pods, r, p);
    ListedIsSpared(host, s.pods, r, p);
    CreationsStop(host, s.pods, r, p, q);
    RoundKeepsNames(host, s.pods, r);
  }

  lemma StepBlocked(host: string, s: State, e: Event, p: string, q: string, names: set<string>)
    requires Proper(host, s, names) && CaseDistinct(names) && (e.Tick? ==> Elements(e.round.parts) <= names)
    requires Blocked(host, s, p, q) && Leaves(host, e, p, q) && Enabled(s, e)
    ensures Blocked(host, Step(host, s, e), p, q)
  {
    HasIff(host, s.pods, p);
    match e {
      case Tick(r) => TickBlocked(host, s, r, p, q, names);
      case Register(name) =>
        assert s.pods[name] != p;
        assert Step(host, s, e).nodes.Values <= s.nodes.Values + {s.pods[name]};
      case Unregister(name) => assert Step(host, s, e).nodes.Values <= s.nodes.Values;
      case Evict(name) => assert PodName(host, p) in s.pods - {name};
    }
  }

  /**
   * A pod whose node never registers blocks every partition after it: while rounds list p before q,
   * whatever else happens in the run, q gets no pod.
   */
  lemma {:induction false} BlockedForever(
    host: string, s: State, es: seq<Event>, t: State, p: string, q: string, names: set<string>)
    requires Exec(host, s, es) == Some(t) && Proper(host, s, names) && CaseDistinct(names) && Lists(es, names)
    requires Blocked(host, s, p, q) && forall e :: e in es ==> Leaves(host, e, p, q)
    ensures Blocked(host, t, p, q)
  {
    if es != [] {
      var (front, e) := (es[..|es| - 1], es[|es| - 1]);
      var u := Exec(host, s, front).value;
      BlockedForever(host, s, front, u, p, q, names);
      RunProper(host, s, front, u, names);
      StepBlocked(host, u, e, p, q, names);
    }
  }
}
