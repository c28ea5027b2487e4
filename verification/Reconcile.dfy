// The two job controllers (slurmjob_controller.go and wlmjob_controller.go) and the cluster they
// act on, as a state machine.
//
// A reconcile is four client calls with anything happening in between: other reconciles, pods that
// change phase or are deleted, calls that fail.  One reconcile runs at a time for one job.
module Reconcile {
  import opened Options
  import opened Jobs
  import Affinity
  import Batch
  import Script

  datatype Pod = Pod(owner: Job, phase: string)

  /** The phase the API server gives to a new pod. */
  const PENDING := "Pending"

  /** Where the reconcile of a job is, with what it has read. */
  datatype Progress =
    | Idle
    | HasJob(status: string)
    | WillCreate
    | WillWrite(phase: string, blind: bool)  // blind: reading the pod failed, but not with NotFound

  /** The jobs that cannot be translated to a pod, with an error or with a run-time panic. */
  datatype Fates = Fates(broken: set<Job>, panicking: set<Job>)

  datatype State = State(status: map<Job, string>, fates: Fates, pods: map<string, Pod>, progress: map<Job, Progress>)

  datatype Event =
    | GetJob(j: Job, fail: bool)
    | GetPod(j: Job, fail: bool)
    | Create(j: Job, fail: bool)
    | Write(j: Job, fail: bool)
    | SetPhase(pod: string, phase: string)
    | DeletePod(pod: string)
    | Restart  // the operator, with both controllers

  predicate IsState(s: State) {
    s.progress.Keys == s.status.Keys
  }

  predicate Enabled(s: State, e: Event) {
    match e
    case GetJob(j, _) => j in s.progress && s.progress[j].Idle?
    case GetPod(j, _) => j in s.progress && s.progress[j].HasJob?
    case Create(j, _) => j in s.progress && s.progress[j].WillCreate?
    case Write(j, _) => j in s.progress && s.progress[j].WillWrite?
    case SetPhase(pod, phase) => pod in s.pods && phase != ""
    case DeletePod(pod) => pod in s.pods
    case Restart => true
  }

  predicate Translates(s: State, j: Job) {
    j !in s.fates.broken && j !in s.fates.panicking
  }

  /** Whatever was under way is forgotten. */
  function Restarted(s: State): State {
    s.(progress := map j | j in s.progress :: Idle)
  }

  function At(s: State, j: Job, p: Progress): State {
    s.(progress := s.progress[j := p])
  }

  function Step(s: State, e: Event): State
    requires IsState(s) && Enabled(s, e)
  {
    match e
    case GetJob(j, fail) =>
      if fail then s
      else if j in s.fates.panicking then Restarted(s)
      else if j in s.fates.broken then s
      else At(s, j, HasJob(s.status[j]))
    case GetPod(j, fail) =>
      var name := PodName(j);
      if fail then At(s, j, WillWrite("", true))
      else if name in s.pods then At(s, j, WillWrite(s.pods[name].phase, false))
      else if s.progress[j].status != "" then At(s, j, Idle)
      else At(s, j, WillCreate)
    case Create(j, fail) =>
      var name := PodName(j);
      if fail || name in s.pods then At(s, j, Idle)
      else At(s, j, Idle).(pods := s.pods[name := Pod(j, PENDING)])
    case Write(j, fail) =>
      if fail then At(s, j, Idle)
      else At(s, j, Idle).(status := s.status[j := s.progress[j].phase])
    case SetPhase(pod, phase) => s.(pods := s.pods[pod := s.pods[pod].(phase := phase)])
    case DeletePod(pod) => s.(pods := s.pods - {pod})
    case Restart => Restarted(s)
  }

  /** The state after the events, if each of them was possible when it happened. */
  function Exec(s: State, es: seq<Event>): Option<State>
    requires IsState(s)
    ensures Exec(s, es).Some? ==> IsState(Exec(s, es).value) && Exec(s, es).value.status.Keys == s.status.Keys
  {
    if es == [] then Some(s)
    else
      match Exec(s, es[..|es| - 1])
      case None => None
      case Some(t) => if Enabled(t, es[|es| - 1]) then Some(Step(t, es[|es| - 1])) else None
  }

  lemma ExecSnoc(s: State, es: seq<Event>, e: Event)
    requires IsState(s)
    ensures Exec(s, es + [e]) ==
      match Exec(s, es) case None => None case Some(t) => if Enabled(t, e) then Some(Step(t, e)) else None
  {
    assert (es + [e])[..|es|] == es;
  }

  lemma {:induction false} ExecAppend(s: State, es: seq<Event>, fs: seq<Event>)
    requires IsState(s) && Exec(s, es).Some?
    ensures Exec(s, es + fs) == Exec(Exec(s, es).value, fs)
  {
    if fs == [] {
      assert es + fs == es;
    } else {
      var f := fs[|fs| - 1];
      ExecAppend(s, es, fs[..|fs| - 1]);
      assert es + fs == (es + fs[..|fs| - 1]) + [f];
      ExecSnoc(s, es + fs[..|fs| - 1], f);
    }
  }

  /** No pods, nothing recorded, nothing under way. */
  predicate Fresh(s: State) {
    && IsState(s) && s.pods == map[]
    && forall j :: j in s.status ==> s.status[j] == "" && s.progress[j] == Idle
  }

  /** What the environment does: a pod changes its phase, a pod vanishes, the operator starts again. */
  lemma EnvironmentActs(s: State, name: string, phase: string, j: Job)
    requires IsState(s)
    ensures name in s.pods && phase != "" ==>
      Step(s, SetPhase(name, phase)).pods == s.pods[name := Pod(s.pods[name].owner, phase)]
    ensures name in s.pods ==> name !in Step(s, DeletePod(name)).pods
    ensures j in s.progress ==> Step(s, Restart).progress[j] == Idle
    ensures Step(s, Restart).pods == s.pods && Step(s, Restart).status == s.status
  {
  }

  /** A failed call changes neither a status nor a pod; a failed creation or write ends the reconcile. */
  lemma FailuresChangeNothing(s: State, e: Event, j: Job)
    requires IsState(s) && Enabled(s, e)
    requires e == GetJob(j, true) || e == GetPod(j, true) || e == Create(j, true) || e == Write(j, true)
    ensures Step(s, e).status == s.status && Step(s, e).pods == s.pods
    ensures e.Create? || e.Write? ==> Step(s, e).progress[j].Idle?
    ensures e.GetJob? ==> Step(s, e) == s
  {
  }

  // ----- pod creations over whole runs -------------------------------------------------------

  predicate Creates(s: State, e: Event, j: Job) {
    e == Create(j, false) && PodName(j) !in s.pods
  }

  predicate DeletesUnrecorded(s: State, e: Event, j: Job)
    requires j in s.status
  {
    e == DeletePod(PodName(j)) && s.status[j] == ""
  }

  predicate WritesBlindly(s: State, e: Event, j: Job)
    requires j in s.progress
  {
    e == Write(j, false) && s.progress[j].WillWrite? && s.progress[j].blind
  }

  datatype Tally = Tally(creations: nat, deletionsUnrecorded: nat, blindWrites: nat)

  function One(b: bool): nat {
    if b then 1 else 0
  }

  /** What happened to job j during a run. */
  function TallyOf(s: State, es: seq<Event>, j: Job): Tally
    requires IsState(s) && j in s.status && Exec(s, es).Some?
  {
    if es == [] then Tally(0, 0, 0)
    else
      var (front, e) := (es[..|es| - 1], es[|es| - 1]);
      var (t, n) := (Exec(s, front).value, TallyOf(s, front, j));
      Tally(n.creations + One(Creates(t, e, j)),
            n.deletionsUnrecorded + One(DeletesUnrecorded(t, e, j)),
            n.blindWrites + One(WritesBlindly(t, e, j)))
  }

  /** Nothing recorded and no pod: the next reconcile may create one. */
  predicate Open(s: State, j: Job)
    requires j in s.status
  {
    s.status[j] == "" && PodName(j) !in s.pods
  }

  /** What the reconcile of job j has read is still so. */
  predicate CoherentAt(s: State, j: Job)
    requires j in s.status && j in s.progress
  {
    match s.progress[j]
    case Idle => true
    case HasJob(status) => status == s.status[j]
    case WillCreate => s.status[j] == ""
    case WillWrite(phase, blind) => blind || phase != ""
  }

  predicate HavePhases(s: State) {
    forall name :: name in s.pods ==> s.pods[name].phase != ""
  }

  predicate Coherent(s: State) {
    IsState(s) && HavePhases(s) && forall j :: j in s.progress ==> CoherentAt(s, j)
  }

  lemma StepCoherentAt(s: State, e: Event, j: Job)
    requires IsState(s) && Enabled(s, e) && j in s.status && CoherentAt(s, j) && HavePhases(s)
    ensures CoherentAt(Step(s, e), j)
  {
  }

  lemma StepCoherent(s: State, e: Event)
    requires Coherent(s) && Enabled(s, e)
    ensures Coherent(Step(s, e))
  {
    assert HavePhases(Step(s, e));
    forall j | j in Step(s, e).progress ensures CoherentAt(Step(s, e), j) {
      StepCoherentAt(s, e, j);
    }
  }

  lemma {:induction false} ExecCoherent(s: State, es: seq<Event>)
    requires Coherent(s) && Exec(s, es).Some?
    ensures Coherent(Exec(s, es).value)
  {
    if es != [] {
      ExecCoherent(s, es[..|es| - 1]);
      StepCoherent(Exec(s, es[..|es| - 1]).value, es[|es| - 1]);
    }
  }

  /** One event: whoever opens the way for a creation pays for it. */
  lemma StepBudget(s: State, e: Event, j: Job)
    requires Coherent(s) && Enabled(s, e) && j in s.status
    ensures One(Creates(s, e, j)) + One(Open(Step(s, e), j))
      <= One(Open(s, j)) + One(DeletesUnrecorded(s, e, j)) + One(WritesBlindly(s, e, j))
  {
  }

  lemma {:induction false} Budget(s: State, es: seq<Event>, j: Job)
    requires Coherent(s) && Exec(s, es).Some? && j in s.status
    ensures var n := TallyOf(s, es, j);
      n.creations + One(Open(Exec(s, es).value, j)) <= One(Open(s, j)) + n.deletionsUnrecorded + n.blindWrites
  {
    if es != [] {
      var front, e := es[..|es| - 1], es[|es| - 1];
      Budget(s, front, j);
      ExecCoherent(s, front);
      StepBudget(Exec(s, front).value, e, j);
    }
  }

  /**
   * Bounded creation: in every run of both controllers, with pods deleted and calls failing
   * anywhere, a job's pod is created at most once, plus once for each time the pod was deleted while
   * the recorded status was empty, plus once for each status written after reading the pod failed.
   */
  lemma BoundedCreation(s: State, es: seq<Event>, j: Job)
    requires Fresh(s) && Exec(s, es).Some? && j in s.status
    ensures var n := TallyOf(s, es, j);
      n.creations <= 1 + n.deletionsUnrecorded + n.blindWrites
  {
    Budget(s, es, j);
  }

  // ----- the bound is reached ----------------------------------------------------------------

  function Plus(m: Tally, n: Tally): Tally {
    Tally(m.creations + n.creations, m.deletionsUnrecorded + n.deletionsUnrecorded, m.blindWrites + n.blindWrites)
  }

  function TallyStep(s: State, e: Event, j: Job): Tally
    requires j in s.status && j in s.progress
  {
    Tally(One(Creates(s, e, j)), One(DeletesUnrecorded(s, e, j)), One(WritesBlindly(s, e, j)))
  }

  /** The run es takes s to t, and n is what happened to job j. */
  ghost predicate Leads(s: State, es: seq<Event>, j: Job, n: Tally, t: State) {
    IsState(s) && j in s.status && Exec(s, es) == Some(t) && TallyOf(s, es, j) == n
  }

  lemma TallyUnfold(s: State, es: seq<Event>, front: seq<Event>, e: Event, j: Job)
    requires IsState(s) && j in s.status && es != [] && Exec(s, es).Some?
    requires es[..|es| - 1] == front && es[|es| - 1] == e
    ensures Exec(s, front).Some?
    ensures TallyOf(s, es, j) == Plus(TallyOf(s, front, j), TallyStep(Exec(s, front).value, e, j))
  {
  }

  lemma LeadsSnoc(s: State, es: seq<Event>, j: Job, n: Tally, t: State, e: Event)
    requires Leads(s, es, j, n, t) && Enabled(t, e)
    ensures Leads(s, es + [e], j, Plus(n, TallyStep(t, e, j)), Step(t, e))
  {
    ExecSnoc(s, es, e);
    TallyUnfold(s, es + [e], es, e, j);
  }

  /** What concerns one job: its recorded status, the phase of its pod, its reconcile. */
  datatype Local = Local(status: string, pod: Option<string>, progress: Progress)

  function With(s: State, j: Job, l: Local): State {
    State(s.status[j := l.status], s.fates,
          match l.pod case None => s.pods - {PodName(j)} case Some(phase) => s.pods[PodName(j) := Pod(j, phase)],
          s.progress[j := l.progress])
  }

  predicate Good(s: State, j: Job) {
    IsState(s) && j in s.status && Translates(s, j)
  }

  /** The events that job j and its pod take part in. */
  datatype Action = AGet | ARead(fail: bool) | ACreate | AWrite | ADelete

  function EventOf(j: Job, a: Action): Event {
    match a
    case AGet => GetJob(j, false)
    case ARead(fail) => GetPod(j, fail)
    case ACreate => Create(j, false)
    case AWrite => Write(j, false)
    case ADelete => DeletePod(PodName(j))
  }

  predicate LocalEnabled(l: Local, a: Action) {
    match a
    case AGet => l.progress.Idle?
    case ARead(_) => l.progress.HasJob?
    case ACreate => l.progress.WillCreate?
    case AWrite => l.progress.WillWrite?
    case ADelete => l.pod.Some?
  }

  function LocalStep(l: Local, a: Action): Local
    requires LocalEnabled(l, a)
  {
    match a
    case AGet => l.(progress := HasJob(l.status))
    case ARead(fail) =>
      l.(progress := if fail then WillWrite("", true)
                     else if l.pod.Some? then WillWrite(l.pod.value, false)
                     else if l.progress.status != "" then Idle else WillCreate)
    case ACreate => l.(progress := Idle, pod := if l.pod.Some? then l.pod else Some(PENDING))
    case AWrite => l.(progress := Idle, status := l.progress.phase)
    case ADelete => l.(pod := None)
  }

  function LocalTally(l: Local, a: Action): Tally
    requires LocalEnabled(l, a)
  {
    Tally(One(a == ACreate && l.pod.None?), One(a == ADelete && l.status == ""),
          One(a == AWrite && l.progress.blind))
  }

  lemma LocalIsEnabled(s: State, j: Job, l: Local, a: Action)
    requires Good(s, j) && LocalEnabled(l, a)
    ensures IsState(With(s, j, l)) && Enabled(With(s, j, l), EventOf(j, a))
    ensures TallyStep(With(s, j, l), EventOf(j, a), j) == LocalTally(l, a)
  {
  }

  lemma LocalIsStep(s: State, j: Job, l: Local, a: Action)
    requires Good(s, j) && LocalEnabled(l, a) && IsState(With(s, j, l)) && Enabled(With(s, j, l), EventOf(j, a))
    ensures Step(With(s, j, l), EventOf(j, a)) == With(s, j, LocalStep(l, a))
  {
    var u, v := Step(With(s, j, l), EventOf(j, a)), With(s, j, LocalStep(l, a));
    match a {
      case AGet => assert u.progress == v.progress;
      case ARead(_) => assert u.progress == v.progress;
      case ACreate => assert u.progress == v.progress && u.pods == v.pods;
      case AWrite => assert u.progress == v.progress && u.status == v.status;
      case ADelete => assert u.pods == v.pods;
    }
  }

  /** One more action of job j. */
  lemma Act(s: State, u: State, es: seq<Event>, j: Job, n: Tally, l: Local, a: Action)
    requires Good(s, j) && Leads(u, es, j, n, With(s, j, l)) && LocalEnabled(l, a)
    ensures Leads(u, es + [EventOf(j, a)], j, Plus(n, LocalTally(l, a)), With(s, j, LocalStep(l, a)))
  {
    LocalIsEnabled(s, j, l, a);
    LocalIsStep(s, j, l, a);
    LeadsSnoc(u, es, j, n, With(s, j, l), EventOf(j, a));
  }

  const NOTHING := Local("", None, Idle)
  const CREATED := Local("", Some(PENDING), Idle)
  const RECORDED := Local(PENDING, Some(PENDING), Idle)
  const GONE := Local(PENDING, None, Idle)
  const ZERO := Tally(0, 0, 0)

  /** Actions of one job, one after the other. */
  datatype Play = Start | Then(before: Play, action: Action)

  /** What concerns the job after them, and what has happened by then. */
  datatype Mark = Mark(local: Local, tally: Tally)

  function Next(m: Mark, a: Action): Option<Mark> {
    if LocalEnabled(m.local, a) then Some(Mark(LocalStep(m.local, a), Plus(m.tally, LocalTally(m.local, a)))) else None
  }

  function Played(m0: Mark, p: Play): Option<Mark> {
    match p
    case Start => Some(m0)
    case Then(q, a) => match Played(m0, q) case None => None case Some(m) => Next(m, a)
  }

  function EventsOf(j: Job, p: Play): seq<Event> {
    match p
    case Start => []
    case Then(q, a) => EventsOf(j, q) + [EventOf(j, a)]
  }

  /** From m0 the play p leads to m. */
  predicate PlaysTo(m0: Mark, p: Play, m: Mark) {
    Played(m0, p) == Some(m)
  }

  /** A play is a run of the machine. */
  lemma {:induction false} PlayIsARun(s: State, j: Job, m0: Mark, p: Play, m: Mark)
    requires Good(s, j) && Leads(s, [], j, m0.tally, With(s, j, m0.local)) && PlaysTo(m0, p, m)
    ensures Leads(s, EventsOf(j, p), j, m.tally, With(s, j, m.local))
  {
    if p.Then? {
      var front := Played(m0, p.before).value;
      PlayIsARun(s, j, m0, p.before, front);
      Act(s, s, EventsOf(j, p.before), j, front.tally, front.local, p.action);
    }
  }

  function Add(n: Tally, creations: nat, deletions: nat, blindWrites: nat): Tally {
    Plus(n, Tally(creations, deletions, blindWrites))
  }

  /** A reconcile that creates the pod. */
  function Create1(p: Play): Play {
    Then(Then(Then(p, AGet), ARead(false)), ACreate)
  }

  /** A reconcile that records the phase, and then the pod goes. */
  function Record1(p: Play): Play {
    Then(Then(Then(Then(p, AGet), ARead(false)), AWrite), ADelete)
  }

  /** A failed read makes the controller forget the recorded phase. */
  function Forget1(p: Play): Play {
    Then(Then(Then(p, AGet), ARead(true)), AWrite)
  }

  lemma PlayOne(m0: Mark, p: Play, m: Mark, a: Action, m': Mark)
    requires PlaysTo(m0, p, m) && Next(m, a) == Some(m')
    ensures PlaysTo(m0, Then(p, a), m')
  {
  }

  function Doing(l: Local, progress: Progress, n: Tally): Mark {
    Mark(l.(progress := progress), n)
  }

  lemma Marks(n: Tally)
    ensures Next(Mark(NOTHING, n), AGet) == Some(Doing(NOTHING, HasJob(""), n))
    ensures Next(Doing(NOTHING, HasJob(""), n), ARead(false)) == Some(Doing(NOTHING, WillCreate, n))
    ensures Next(Doing(NOTHING, WillCreate, n), ACreate) == Some(Mark(CREATED, Add(n, 1, 0, 0)))
    ensures Next(Mark(CREATED, n), AGet) == Some(Doing(CREATED, HasJob(""), n))
    ensures Next(Doing(CREATED, HasJob(""), n), ARead(false)) == Some(Doing(CREATED, WillWrite(PENDING, false), n))
    ensures Next(Doing(CREATED, WillWrite(PENDING, false), n), AWrite) == Some(Mark(RECORDED, n))
    ensures Next(Mark(RECORDED, n), ADelete) == Some(Mark(GONE, n))
    ensures Next(Mark(GONE, n), AGet) == Some(Doing(GONE, HasJob(PENDING), n))
    ensures Next(Doing(GONE, HasJob(PENDING), n), ARead(true)) == Some(Doing(GONE, WillWrite("", true), n))
    ensures Next(Doing(GONE, WillWrite("", true), n), AWrite) == Some(Mark(NOTHING, Add(n, 0, 0, 1)))
    ensures Next(Mark(CREATED, n), ADelete) == Some(Mark(NOTHING, Add(n, 0, 1, 0)))
  {
  }

  lemma PlayCreate(m0: Mark, p: Play, n: Tally)
    requires PlaysTo(m0, p, Mark(NOTHING, n))
    ensures PlaysTo(m0, Create1(p), Mark(CREATED, Add(n, 1, 0, 0)))
  {
    Marks(n);
    var m1, m2 := Doing(NOTHING, HasJob(""), n), Doing(NOTHING, WillCreate, n);
    PlayOne(m0, p, Mark(NOTHING, n), AGet, m1);
    PlayOne(m0, Then(p, AGet), m1, ARead(false), m2);
    PlayOne(m0, Then(Then(p, AGet), ARead(false)), m2, ACreate, Mark(CREATED, Add(n, 1, 0, 0)));
  }

  lemma PlayRecord(m0: Mark, p: Play, n: Tally)
    requires PlaysTo(m0, p, Mark(CREATED, n))
    ensures PlaysTo(m0, Record1(p), Mark(GONE, n))
  {
    Marks(n);
    var m1, m2 := Doing(CREATED, HasJob(""), n), Doing(CREATED, WillWrite(PENDING, false), n);
    PlayOne(m0, p, Mark(CREATED, n), AGet, m1);
    PlayOne(m0, Then(p, AGet), m1, ARead(false), m2);
    PlayOne(m0, Then(Then(p, AGet), ARead(false)), m2, AWrite, Mark(RECORDED, n));
    PlayOne(m0, Then(Then(Then(p, AGet), ARead(false)), AWrite), Mark(RECORDED, n), ADelete, Mark(GONE, n));
  }

  lemma PlayForget(m0: Mark, p: Play, n: Tally)
    requires PlaysTo(m0, p, Mark(GONE, n))
    ensures PlaysTo(m0, Forget1(p), Mark(NOTHING, Add(n, 0, 0, 1)))
  {
    Marks(n);
    var m1, m2 := Doing(GONE, HasJob(PENDING), n), Doing(GONE, WillWrite("", true), n);
    PlayOne(m0, p, Mark(GONE, n), AGet, m1);
    PlayOne(m0, Then(p, AGet), m1, ARead(true), m2);
    PlayOne(m0, Then(Then(p, AGet), ARead(true)), m2, AWrite, Mark(NOTHING, Add(n, 0, 0, 1)));
  }

  lemma PlayDelete(m0: Mark, p: Play, n: Tally)
    requires PlaysTo(m0, p, Mark(CREATED, n))
    ensures PlaysTo(m0, Then(p, ADelete), Mark(NOTHING, Add(n, 0, 1, 0)))
  {
    Marks(n);
    PlayOne(m0, p, Mark(CREATED, n), ADelete, Mark(NOTHING, Add(n, 0, 1, 0)));
  }

  /** The pod is deleted before anything is recorded, and created again. */
  lemma PlayDeletion(m0: Mark, p: Play, n: Tally) returns (q: Play)
    requires PlaysTo(m0, p, Mark(CREATED, n))
    ensures PlaysTo(m0, q, Mark(CREATED, Add(n, 1, 1, 0)))
  {
    PlayDelete(m0, p, n);
    PlayCreate(m0, Then(p, ADelete), Add(n, 0, 1, 0));
    q := Create1(Then(p, ADelete));
  }

  /** The phase is recorded, the pod goes, the phase is forgotten, and the pod is created again. */
  lemma PlayBlindWrite(m0: Mark, p: Play, n: Tally) returns (q: Play)
    requires PlaysTo(m0, p, Mark(CREATED, n))
    ensures PlaysTo(m0, q, Mark(CREATED, Add(n, 1, 0, 1)))
  {
    PlayRecord(m0, p, n);
    PlayForget(m0, Record1(p), n);
    PlayCreate(m0, Forget1(Record1(p)), Add(n, 0, 0, 1));
    q := Create1(Forget1(Record1(p)));
  }

  /** Any number of early deletions and of blind writes, each followed by one more creation. */
  lemma {:induction false} PlayWorst(m0: Mark, n0: Tally, deletions: nat, blindWrites: nat) returns (p: Play)
    requires PlaysTo(m0, Start, Mark(NOTHING, n0))
    ensures PlaysTo(m0, p, Mark(CREATED, Add(n0, 1 + deletions + blindWrites, deletions, blindWrites)))
  {
    if deletions > 0 {
      p := PlayWorst(m0, n0, deletions - 1, blindWrites);
      p := PlayDeletion(m0, p, Add(n0, deletions + blindWrites, deletions - 1, blindWrites));
    } else if blindWrites > 0 {
      p := PlayWorst(m0, n0, 0, blindWrites - 1);
      p := PlayBlindWrite(m0, p, Add(n0, blindWrites, 0, blindWrites - 1));
    } else {
      PlayCreate(m0, Start, n0);
      p := Create1(Start);
    }
  }

  lemma StartsWithNothing(s: State, j: Job)
    requires Fresh(s) && j in s.status
    ensures With(s, j, NOTHING) == s && Leads(s, [], j, ZERO, s)
  {
    assert s.status[j := ""] == s.status;
    assert s.progress[j := Idle] == s.progress;
    assert s.pods - {PodName(j)} == s.pods;
  }

  /**
   * The bound is reached for every pair of counts.  So a job's pod is created at most once in every
   * run with these counts if and only if both are zero.
   */
  lemma BoundReached(s: State, j: Job, deletions: nat, blindWrites: nat) returns (es: seq<Event>)
    requires Fresh(s) && j in s.status && Translates(s, j)
    ensures Exec(s, es).Some?
    ensures TallyOf(s, es, j) == Tally(1 + deletions + blindWrites, deletions, blindWrites)
  {
    var m0 := Mark(NOTHING, ZERO);
    var p := PlayWorst(m0, ZERO, deletions, blindWrites);
    StartsWithNothing(s, j);
    PlayIsARun(s, j, m0, p, Mark(CREATED, Tally(1 + deletions + blindWrites, deletions, blindWrites)));
    es := EventsOf(j, p);
  }

  predicate HasCounts(s: State, es: seq<Event>, j: Job, deletions: nat, blindWrites: nat)
    requires IsState(s) && j in s.status && Exec(s, es).Some?
  {
    TallyOf(s, es, j).deletionsUnrecorded == deletions && TallyOf(s, es, j).blindWrites == blindWrites
  }

  ghost predicate AtMostOnce(s: State, j: Job, deletions: nat, blindWrites: nat)
    requires IsState(s) && j in s.status
  {
    forall es :: Exec(s, es).Some? && HasCounts(s, es, j, deletions, blindWrites) ==> TallyOf(s, es, j).creations <= 1
  }

  lemma AtMostOnceIff(s: State, j: Job, deletions: nat, blindWrites: nat)
    requires Fresh(s) && j in s.status && Translates(s, j)
    ensures AtMostOnce(s, j, deletions, blindWrites) <==> deletions == 0 && blindWrites == 0
  {
    var worst := BoundReached(s, j, deletions, blindWrites);
    forall es | Exec(s, es).Some?
      ensures TallyOf(s, es, j).creations <= 1 + TallyOf(s, es, j).deletionsUnrecorded + TallyOf(s, es, j).blindWrites
    {
      BoundedCreation(s, es, j);
    }
  }

  // ----- two controllers in one namespace ----------------------------------------------------

  /** Some SlurmJob that runs is named like a WlmJob that runs plus "-wlm". */
  predicate Clash(s: State, a: string, b: string) {
    && Sj(a) in s.status && Translates(s, Sj(a))
    && Wj(b) in s.status && Translates(s, Wj(b))
    && a == b + WLM_SUFFIX
  }

  /** The phase of the pod of job j itself. */
  function OwnPhase(s: State, j: Job): set<string> {
    if PodName(j) in s.pods && s.pods[PodName(j)].owner == j then {s.pods[PodName(j)].phase} else {}
  }

  /** All phases the pod of job j itself has had during a run. */
  function OwnPhases(s: State, es: seq<Event>, j: Job): set<string>
    requires IsState(s) && Exec(s, es).Some?
  {
    if es == [] then OwnPhase(s, j)
    else OwnPhases(s, es[..|es| - 1], j) + OwnPhase(Exec(s, es).value, j)
  }

  ghost predicate Isolated(s: State, es: seq<Event>, j: Job)
    requires IsState(s) && Exec(s, es).Some? && j in s.status
  {
    var status := Exec(s, es).value.status[j];
    status == "" || status in OwnPhases(s, es, j)
  }

  predicate OwnedByRunning(s: State, pod: Pod, name: string) {
    pod.owner in s.status && Translates(s, pod.owner) && PodName(pod.owner) == name
  }

  /** Pods belong to running jobs and bear their names; jobs that do not translate never do anything. */
  predicate Ordered(s: State) {
    && IsState(s)
    && (forall name :: name in s.pods ==> OwnedByRunning(s, s.pods[name], name))
    && (forall j :: j in s.progress && !Translates(s, j) ==> s.progress[j] == Idle)
  }

  lemma StepOwned(s: State, e: Event, name: string)
    requires Ordered(s) && Enabled(s, e) && name in Step(s, e).pods
    ensures OwnedByRunning(Step(s, e), Step(s, e).pods[name], name)
  {
  }

  lemma StepIdle(s: State, e: Event, j: Job)
    requires Ordered(s) && Enabled(s, e) && j in s.progress && !Translates(s, j)
    ensures j in Step(s, e).progress && Step(s, e).progress[j] == Idle
  {
  }

  lemma StepKeeps(s: State, e: Event)
    requires IsState(s) && Enabled(s, e)
    ensures IsState(Step(s, e)) && Step(s, e).fates == s.fates && Step(s, e).status.Keys == s.status.Keys
  {
  }

  lemma StepOrdered(s: State, e: Event)
    requires Ordered(s) && Enabled(s, e)
    ensures Ordered(Step(s, e)) && Step(s, e).fates == s.fates
  {
    var t := Step(s, e);
    StepKeeps(s, e);
    forall name | name in t.pods ensures OwnedByRunning(t, t.pods[name], name) {
      StepOwned(s, e, name);
    }
    forall j | j in t.progress && !Translates(t, j) ensures t.progress[j] == Idle {
      StepIdle(s, e, j);
    }
  }

  lemma {:induction false} ExecOrdered(s: State, es: seq<Event>)
    requires Ordered(s) && Exec(s, es).Some?
    ensures Ordered(Exec(s, es).value) && Exec(s, es).value.fates == s.fates
  {
    if es != [] {
      ExecOrdered(s, es[..|es| - 1]);
      StepOrdered(Exec(s, es[..|es| - 1]).value, es[|es| - 1]);
    }
  }

  lemma {:induction false} NeverCreates(s: State, es: seq<Event>, j: Job)
    requires Ordered(s) && Exec(s, es).Some? && j in s.status && !Translates(s, j)
    ensures TallyOf(s, es, j).creations == 0
  {
    if es != [] {
      var front, e := es[..|es| - 1], es[|es| - 1];
      NeverCreates(s, front, j);
      ExecOrdered(s, front);
      TallyUnfold(s, es, front, e, j);
      assert Exec(s, front).value.progress[j] == Idle;
    }
  }

  /** What a reconcile is about to record is a phase of the job's own pod. */
  predicate Faithful(s: State, j: Job, seen: set<string>)
    requires j in s.status && j in s.progress
  {
    && (s.status[j] == "" || s.status[j] in seen)
    && (s.progress[j].WillWrite? ==> s.progress[j].phase == "" || s.progress[j].phase in seen)
  }

  lemma StepFaithful(s: State, e: Event, j: Job, seen: set<string>)
    requires Ordered(s) && Enabled(s, e) && j in s.status && j in s.progress
    requires forall a, b :: !Clash(s, a, b)
    requires Faithful(s, j, seen) && OwnPhase(s, j) <= seen
    ensures Faithful(Step(s, e), j, seen)
  {
    if e == GetPod(j, false) && PodName(j) in s.pods {
      var owner := s.pods[PodName(j)].owner;
      CollisionIff(owner, j);
      if owner != j {
        assert Clash(s, if j.Sj? then j.name else owner.name, if j.Sj? then owner.name else j.name);
      }
    }
  }

  lemma {:induction false} RunFaithful(s: State, es: seq<Event>, j: Job)
    requires Fresh(s) && Exec(s, es).Some? && j in s.status
    requires forall a, b :: !Clash(s, a, b)
    ensures Faithful(Exec(s, es).value, j, OwnPhases(s, es, j))
    ensures OwnPhase(Exec(s, es).value, j) <= OwnPhases(s, es, j)
  {
    if es != [] {
      var front, e := es[..|es| - 1], es[|es| - 1];
      RunFaithful(s, front, j);
      ExecOrdered(s, front);
      var t := Exec(s, front).value;
      assert forall a, b :: Clash(t, a, b) ==> Clash(s, a, b);
      StepFaithful(t, e, j, OwnPhases(s, front, j));
    }
  }

  // ----- convergence without disturbance -----------------------------------------------------

  /** A whole reconcile of job j with nothing in between and no failure. */
  function Reconciled(s: State, j: Job): State
    requires IsState(s) && j in s.status
  {
    var name := PodName(j);
    if j in s.fates.panicking then Restarted(s)
    else if j in s.fates.broken then s
    else if name in s.pods then s.(status := s.status[j := s.pods[name].phase])
    else if s.status[j] == "" then s.(pods := s.pods[name := Pod(j, PENDING)])
    else s
  }

  /** The events it consists of. */
  function QuietEvents(s: State, j: Job): seq<Event>
    requires IsState(s) && j in s.status
  {
    if !Translates(s, j) then [GetJob(j, false)]
    else
      var before := [GetJob(j, false), GetPod(j, false)];
      if PodName(j) in s.pods then before + [Write(j, false)]
      else if s.status[j] == "" then before + [Create(j, false)]
      else before
  }

  /** The run es takes s to t. */
  ghost predicate Reaches(s: State, es: seq<Event>, t: State) {
    IsState(s) && IsState(t) && t.status.Keys == s.status.Keys && Exec(s, es) == Some(t)
  }

  lemma ReachesCall(s: State, es: seq<Event>, t: State, e: Event)
    requires Reaches(s, es, t) && Enabled(t, e)
    ensures Reaches(s, es + [e], Step(t, e))
  {
    ExecSnoc(s, es, e);
  }

  lemma ReachesFirst(s: State, e: Event)
    requires IsState(s) && Enabled(s, e)
    ensures Reaches(s, [e], Step(s, e))
  {
    ReachesCall(s, [], s, e);
    assert [] + [e] == [e];
  }

  lemma QuietEnd(s: State, j: Job)
    requires IsState(s) && j in s.status && s.progress[j].Idle? && Translates(s, j)
    ensures var s2 := Step(Step(s, GetJob(j, false)), GetPod(j, false));
      && IsState(s2)
      && if PodName(j) in s.pods then s2.progress[j].WillWrite? && Step(s2, Write(j, false)) == Reconciled(s, j)
         else if s.status[j] == "" then s2.progress[j].WillCreate? && Step(s2, Create(j, false)) == Reconciled(s, j)
         else s2 == Reconciled(s, j)
  {
    var s1 := Step(s, GetJob(j, false));
    var s2 := Step(s1, GetPod(j, false));
    assert s2 == At(s, j, s2.progress[j]);
    assert s2.progress[j := Idle] == s.progress;
  }

  lemma QuietRun(s: State, j: Job)
    requires IsState(s) && j in s.status && s.progress[j].Idle?
    ensures Reaches(s, QuietEvents(s, j), Reconciled(s, j))
  {
    var e1, e2 := GetJob(j, false), GetPod(j, false);
    ReachesFirst(s, e1);
    if Translates(s, j) {
      var s1 := Step(s, e1);
      ReachesCall(s, [e1], s1, e2);
      assert [e1] + [e2] == [e1, e2];
      QuietEnd(s, j);
      if PodName(j) in s.pods {
        ReachesCall(s, [e1, e2], Step(s1, e2), Write(j, false));
      } else if s.status[j] == "" {
        ReachesCall(s, [e1, e2], Step(s1, e2), Create(j, false));
      }
    }
  }

  /** Status and pod agree, or the pod is gone and its last phase is on record. */
  predicate Settled(s: State, j: Job)
    requires j in s.status
  {
    var name := PodName(j);
    if name in s.pods then s.status[j] == s.pods[name].phase else s.status[j] != ""
  }

  /**
   * Left alone, two reconciles of a job that translates settle it, whatever the state, and a reconcile
   * changes nothing exactly when the job is settled; a job that does not translate never moves.
   */
  lemma ConvergesInTwo(s: State, j: Job)
    requires IsState(s) && j in s.status
    ensures Translates(s, j) ==> Settled(Reconciled(Reconciled(s, j), j), j)
    ensures Translates(s, j) ==> (Reconciled(s, j) == s <==> Settled(s, j))
    ensures !Translates(s, j) ==> Reconciled(s, j).status == s.status && Reconciled(s, j).pods == s.pods
  {
    var name := PodName(j);
    if Translates(s, j) {
      if name in s.pods {
        assert Reconciled(s, j).status[j] == s.pods[name].phase;
        if Settled(s, j) { assert s.status[j := s.status[j]] == s.status; }
      } else if s.status[j] == "" {
        assert name in Reconciled(s, j).pods;
      }
    }
  }

  // ----- a SlurmJob and a WlmJob with one pod between them -----------------------------------

  predicate CreatesFor(e: Event, j: Job) {
    e.Create? && e.j == j
  }

  ghost predicate Owns(s: State, j: Job) {
    exists name :: name in s.pods && s.pods[name].owner == j
  }

  lemma StepOwns(s: State, e: Event, j: Job)
    requires IsState(s) && Enabled(s, e) && !Owns(s, j) && !CreatesFor(e, j)
    ensures !Owns(Step(s, e), j)
  {
    var t := Step(s, e);
    forall name | name in t.pods ensures t.pods[name].owner != j {
      if name in s.pods {
        assert s.pods[name].owner != j;
      }
    }
  }

  /** A job for which no pod is created never has one. */
  lemma {:induction false} NeverOwns(s: State, es: seq<Event>, j: Job)
    requires IsState(s) && Exec(s, es).Some? && !Owns(s, j) && forall e :: e in es ==> !CreatesFor(e, j)
    ensures OwnPhases(s, es, j) == {} && !Owns(Exec(s, es).value, j)
  {
    if es != [] {
      var front, e := es[..|es| - 1], es[|es| - 1];
      assert forall x :: x in front ==> x in es;
      NeverOwns(s, front, j);
      StepOwns(Exec(s, front).value, e, j);
    }
  }

  /** The reconcile of k creates the pod that j then takes for its own. */
  lemma TwoReconciles(s: State, j: Job, k: Job)
    requires Fresh(s) && j in s.status && k in s.status && Translates(s, j) && Translates(s, k)
    requires j != k && PodName(j) == PodName(k)
    ensures var t := Reconciled(s, k);
      && IsState(t) && j in t.status && t.progress[j].Idle?
      && QuietEvents(s, k) == [GetJob(k, false), GetPod(k, false), Create(k, false)]
      && QuietEvents(t, j) == [GetJob(j, false), GetPod(j, false), Write(j, false)]
      && j in Reconciled(t, j).status && Reconciled(t, j).status[j] == PENDING
  {
  }

  lemma ExecTwo(s: State, fs: seq<Event>, t: State, gs: seq<Event>, u: State, k: Job, j: Job)
    requires IsState(s) && k in s.status && s.progress[k].Idle? && fs == QuietEvents(s, k) && t == Reconciled(s, k)
    requires IsState(t) && j in t.status && t.progress[j].Idle? && gs == QuietEvents(t, j) && u == Reconciled(t, j)
    ensures Exec(s, fs + gs) == Some(u)
  {
    QuietRun(s, k);
    QuietRun(t, j);
    ExecAppend(s, fs, gs);
  }

  /** A SlurmJob that takes a WlmJob's pod for its own records a phase its pod never had. */
  lemma ClashBreaksIsolation(s: State, a: string, b: string) returns (es: seq<Event>)
    requires Fresh(s) && Clash(s, a, b)
    ensures Exec(s, es).Some? && !Isolated(s, es, Sj(a))
  {
    var j, k := Sj(a), Wj(b);
    CollisionIff(j, k);
    TwoReconciles(s, j, k);
    var t := Reconciled(s, k);
    var fs, gs := QuietEvents(s, k), QuietEvents(t, j);
    es := fs + gs;
    ExecTwo(s, fs, t, gs, Reconciled(t, j), k, j);
    NeverOwns(s, es, j);
  }

  /**
   * Isolation: in every run of both controllers every recorded status is empty or a phase that job's
   * own pod has had, if and only if no running SlurmJob is named like a running WlmJob plus "-wlm".
   */
  lemma IsolationIff(s: State)
    requires Fresh(s)
    ensures (forall es, j :: Exec(s, es).Some? && j in s.status ==> Isolated(s, es, j))
            <==> forall a, b :: !Clash(s, a, b)
  {
    if forall a, b :: !Clash(s, a, b) {
      forall es, j | Exec(s, es).Some? && j in s.status
        ensures Isolated(s, es, j)
      {
        RunFaithful(s, es, j);
      }
    } else {
      var a, b :| Clash(s, a, b);
      var es := ClashBreaksIsolation(s, a, b);
    }
  }

  // ----- the code, with anything happening between its calls ---------------------------------

  /** Which of the client calls fail. */
  datatype Faults = Faults(getJob: bool, getPod: bool, create: bool, write: bool)

  predicate Concerns(e: Event, j: Job) {
    match e
    case GetJob(k, _) => k == j
    case GetPod(k, _) => k == j
    case Create(k, _) => k == j
    case Write(k, _) => k == j
    case SetPhase(_, _) => false
    case DeletePod(_) => false
    case Restart => false
  }

  /** The operator does not survive the event. */
  predicate Restarts(s: State, e: Event) {
    e.Restart? || (e.GetJob? && !e.fail && e.j in s.fates.panicking)
  }

  /** The event is possible, leaves the operator running and is not part of j's reconcile. */
  predicate Bystanding(s: State, e: Event, j: Job) {
    Enabled(s, e) && !Restarts(s, e) && !Concerns(e, j)
  }

  /** Those of the wanted events that may happen, when their time comes, while job j is being reconciled. */
  function Others(s: State, wanted: seq<Event>, j: Job): seq<Event>
    requires IsState(s)
    decreases |wanted|
  {
    if wanted == [] then []
    else if Bystanding(s, wanted[0], j) then
      [wanted[0]] + Others(Step(s, wanted[0]), wanted[1..], j)
    else Others(s, wanted[1..], j)
  }

  /** What concerns the reconcile of job j is as it was. */
  predicate KeepsJob(s: State, t: State, j: Job) {
    && IsState(t) && t.status.Keys == s.status.Keys && j in t.status && t.fates == s.fates
    && IsState(s) && j in s.status && t.progress[j] == s.progress[j] && t.status[j] == s.status[j]
  }

  lemma BystandersKeep(s: State, e: Event, j: Job)
    requires IsState(s) && j in s.status && Bystanding(s, e, j)
    ensures KeepsJob(s, Step(s, e), j)
  {
  }

  lemma {:induction false} OthersRun(s: State, wanted: seq<Event>, j: Job)
    requires IsState(s) && j in s.status
    ensures var es := Others(s, wanted, j);
      Exec(s, es).Some? && KeepsJob(s, Exec(s, es).value, j)
    decreases |wanted|
  {
    if wanted != [] {
      var e := wanted[0];
      if Bystanding(s, e, j) {
        var t := Step(s, e);
        BystandersKeep(s, e, j);
        OthersRun(t, wanted[1..], j);
        ExecSnoc(s, [], e);
        assert [] + [e] == [e];
        ExecAppend(s, [e], Others(t, wanted[1..], j));
      } else {
        OthersRun(s, wanted[1..], j);
      }
    }
  }

  /** The state in which others have done what they wanted. */
  function AfterOthers(s: State, wanted: seq<Event>, j: Job): (t: State)
    requires IsState(s) && j in s.status
    ensures IsState(t) && t.status.Keys == s.status.Keys && t.fates == s.fates
    ensures t.progress[j] == s.progress[j] && t.status[j] == s.status[j]
  {
    OthersRun(s, wanted, j);
    Exec(s, Others(s, wanted, j)).value
  }

  /** One event that others want. */
  function Tried(s: State, e: Event, j: Job): (t: State)
    requires IsState(s)
    ensures IsState(t) && t.status.Keys == s.status.Keys
  {
    if Bystanding(s, e, j) then Step(s, e) else s
  }

  lemma ReachesOthers(s: State, es: seq<Event>, t: State, wanted: seq<Event>, j: Job)
    requires Reaches(s, es, t) && j in t.status
    ensures Reaches(s, es + Others(t, wanted, j), AfterOthers(t, wanted, j))
  {
    OthersRun(t, wanted, j);
    ExecAppend(s, es, Others(t, wanted, j));
  }

  lemma AfterOthersStep(s: State, wanted: seq<Event>, i: nat, j: Job)
    requires IsState(s) && j in s.status && i < |wanted|
    ensures AfterOthers(s, wanted[i..], j) == AfterOthers(Tried(s, wanted[i], j), wanted[i + 1..], j)
  {
    var e, rest := wanted[i], wanted[i + 1..];
    assert wanted[i..][1..] == rest;
    if Bystanding(s, e, j) {
      ReachesFirst(s, e);
      ReachesOthers(s, [e], Step(s, e), rest, j);
    }
  }

  /** Job j is about to be reconciled, and its first two calls will not both end it. */
  predicate Reads(s: State, j: Job, f: Faults) {
    IsState(s) && j in s.status && s.progress[j].Idle? && !f.getJob && Translates(s, j)
  }

  /** The state in which the job is read and others have acted. */
  function AfterGap(s: State, j: Job, f: Faults, gap: seq<Event>): (t: State)
    requires Reads(s, j, f)
    ensures IsState(t) && t.status.Keys == s.status.Keys && t.fates == s.fates
    ensures t.status[j] == s.status[j] && t.progress[j] == HasJob(s.status[j])
  {
    AfterOthers(Step(s, GetJob(j, f.getJob)), gap, j)
  }

  function AfterRead(s: State, j: Job, f: Faults, gap: seq<Event>): (t: State)
    requires Reads(s, j, f)
    ensures IsState(t) && t.status.Keys == s.status.Keys && t.fates == s.fates
    ensures t.progress[j].Idle? || t.progress[j].WillCreate? || t.progress[j].WillWrite?
  {
    Step(AfterGap(s, j, f, gap), GetPod(j, f.getPod))
  }

  function LastCall(p: Progress, j: Job, f: Faults): Event {
    if p.WillCreate? then Create(j, f.create) else Write(j, f.write)
  }

  function ReadEvents(s: State, j: Job, f: Faults, gap: seq<Event>): seq<Event>
    requires Reads(s, j, f)
  {
    var first := GetJob(j, f.getJob);
    [first] + Others(Step(s, first), gap, j) + [GetPod(j, f.getPod)]
  }

  /** The events of one reconcile of job j with two gaps, and of all others in the gaps. */
  function ReconcileEvents(s: State, j: Job, f: Faults, gap1: seq<Event>, gap2: seq<Event>): seq<Event>
    requires IsState(s) && j in s.status && s.progress[j].Idle?
  {
    if !Reads(s, j, f) then [GetJob(j, f.getJob)]
    else
      var t := AfterRead(s, j, f, gap1);
      var start := ReadEvents(s, j, f, gap1);
      if t.progress[j].Idle? then start
      else start + Others(t, gap2, j) + [LastCall(t.progress[j], j, f)]
  }

  /** Others act once more, and then comes the last call. */
  function AfterLast(s: State, j: Job, f: Faults, gap: seq<Event>): (t: State)
    requires IsState(s) && j in s.status && (s.progress[j].WillCreate? || s.progress[j].WillWrite?)
    ensures IsState(t) && t.status.Keys == s.status.Keys && t.fates == s.fates
    ensures t.progress[j].Idle?
  {
    Step(AfterOthers(s, gap, j), LastCall(s.progress[j], j, f))
  }

  /** Where they lead. */
  function AfterReconcile(s: State, j: Job, f: Faults, gap1: seq<Event>, gap2: seq<Event>): (t: State)
    requires IsState(s) && j in s.status && s.progress[j].Idle?
    ensures IsState(t) && t.status.Keys == s.status.Keys && t.fates == s.fates
    ensures t.progress[j].Idle?
  {
    if !Reads(s, j, f) then Step(s, GetJob(j, f.getJob))
    else
      var t := AfterRead(s, j, f, gap1);
      if t.progress[j].Idle? then t else AfterLast(t, j, f, gap2)
  }

  /** A reconcile whose creation fails creates nothing, and one whose write fails records nothing. */
  lemma FaultsKeep(s: State, j: Job, f: Faults, gap: seq<Event>)
    requires IsState(s) && j in s.status && (s.progress[j].WillCreate? || s.progress[j].WillWrite?)
    ensures s.progress[j].WillCreate? && f.create ==> AfterLast(s, j, f, gap).pods == AfterOthers(s, gap, j).pods
    ensures s.progress[j].WillWrite? && f.write ==> AfterLast(s, j, f, gap).status == AfterOthers(s, gap, j).status
    ensures s.progress[j].WillWrite? && !f.write ==> AfterLast(s, j, f, gap).status[j] == s.progress[j].phase
  {
  }

  lemma ReadIsARun(s: State, j: Job, f: Faults, gap: seq<Event>)
    requires Reads(s, j, f)
    ensures Reaches(s, ReadEvents(s, j, f, gap), AfterRead(s, j, f, gap))
  {
    var first := GetJob(j, f.getJob);
    ReachesFirst(s, first);
    ReachesOthers(s, [first], Step(s, first), gap, j);
    ReachesCall(s, [first] + Others(Step(s, first), gap, j), AfterGap(s, j, f, gap), GetPod(j, f.getPod));
  }

  /** The specification of the reconcile method is a run of the machine. */
  lemma ReconcileIsARun(s: State, j: Job, f: Faults, gap1: seq<Event>, gap2: seq<Event>)
    requires IsState(s) && j in s.status && s.progress[j].Idle?
    ensures Reaches(s, ReconcileEvents(s, j, f, gap1, gap2), AfterReconcile(s, j, f, gap1, gap2))
  {
    if Reads(s, j, f) {
      ReadIsARun(s, j, f, gap1);
      var t := AfterRead(s, j, f, gap1);
      if !t.progress[j].Idle? {
        var start := ReadEvents(s, j, f, gap1);
        ReachesOthers(s, start, t, gap2, j);
        ReachesCall(s, start + Others(t, gap2, j), AfterOthers(t, gap2, j), LastCall(t.progress[j], j, f));
      }
    } else {
      ReachesFirst(s, GetJob(j, f.getJob));
    }
  }

  /** The specs of all jobs: scripts of SlurmJobs and requests of WlmJobs, by name. */
  datatype Specs = Specs(batches: map<string, string>, requests: map<string, Script.Request>)

  function JobsIn(specs: Specs): set<Job> {
    (set n | n in specs.batches :: Sj(n)) + (set n | n in specs.requests :: Wj(n))
  }

  /** newPodForSJ and newPodForWJ. */
  function Translation(specs: Specs, j: Job): Affinity.Result<Affinity.Pod>
    requires j in JobsIn(specs)
  {
    match j
    case Sj(n) => Affinity.NewPodForSJ(n, specs.batches[n])
    case Wj(n) => Affinity.NewPodForWJ(n, specs.requests[n])
  }

  function FatesOf(specs: Specs): Fates {
    Fates(set j | j in JobsIn(specs) && Translation(specs, j).Failure?,
          set j | j in JobsIn(specs) && Translation(specs, j).Panic?)
  }

  /** The script of a SlurmJob makes the translation panic, or fail. */
  predicate ScriptPanics(specs: Specs, j: Job)
    requires j in JobsIn(specs)
  {
    j.Sj? && Batch.Extracted(specs.batches[j.name]).Fault?
  }

  predicate ScriptFails(specs: Specs, j: Job)
    requires j in JobsIn(specs)
  {
    j.Sj? && (Batch.Extracted(specs.batches[j.name]).Err?
              || Batch.Extracted(specs.batches[j.name]) == Batch.Ok(Batch.NO_RESOURCES))
  }

  /** A SlurmJob is translated as its script says, a WlmJob always. */
  lemma TranslationIs(specs: Specs, j: Job)
    requires j in JobsIn(specs)
    ensures Translation(specs, j).Panic? <==> ScriptPanics(specs, j)
    ensures Translation(specs, j).Failure? <==> ScriptFails(specs, j)
    ensures Translation(specs, j).Success? ==> Translation(specs, j).value.name == PodName(j)
  {
    match j
    case Sj(n) => Affinity.SlurmJobTranslation(n, specs.batches[n]);
    case Wj(n) => Affinity.WlmJobTranslation(n, specs.requests[n]);
  }

  lemma FateIs(specs: Specs, j: Job)
    requires j in JobsIn(specs)
    ensures j in FatesOf(specs).panicking <==> ScriptPanics(specs, j)
    ensures j in FatesOf(specs).broken <==> ScriptFails(specs, j)
  {
    TranslationIs(specs, j);
  }

  /**
   * In every run a SlurmJob whose script asks for nothing, holds a bad value or makes the walk run off
   * a line never gets a pod, whatever happens and however often the operator is started again.
   */
  lemma NeverGetsPod(specs: Specs, s: State, es: seq<Event>, j: Job)
    requires Fresh(s) && s.fates == FatesOf(specs) && s.status.Keys == JobsIn(specs) && j in s.status
    requires Exec(s, es).Some? && (ScriptFails(specs, j) || ScriptPanics(specs, j))
    ensures TallyOf(s, es, j).creations == 0
  {
    FateIs(specs, j);
    NeverCreates(s, es, j);
  }

  class Cluster {
    var status: map<Job, string>
    var pods: map<string, Pod>
    var progress: map<Job, Progress>
    const specs: Specs
    const fates: Fates

    constructor (specs: Specs)
      ensures Valid() && Fresh(View()) && this.specs == specs
    {
      this.specs := specs;
      fates := FatesOf(specs);
      status := map j | j in JobsIn(specs) :: "";
      progress := map j | j in JobsIn(specs) :: Idle;
      pods := map[];
    }

    predicate Valid()
      reads this
    {
      IsState(View()) && status.Keys == JobsIn(specs) && fates == FatesOf(specs)
    }

    function View(): State
      reads this
    {
      State(status, fates, pods, progress)
    }

    /** What became of the translation decides on the reconcile. */
    method Translate(j: Job) returns (pod: Affinity.Result<Affinity.Pod>)
      requires Valid() && j in status
      ensures pod.Panic? <==> j in fates.panicking
      ensures pod.Failure? <==> j in fates.broken
      ensures pod.Panic? <==> ScriptPanics(specs, j)
      ensures pod.Failure? <==> ScriptFails(specs, j)
      ensures pod.Success? ==> pod.value.name == PodName(j)
    {
      TranslationIs(specs, j);
      FateIs(specs, j);
      pod := Translation(specs, j);
    }

    /** Anything that happens in the cluster, one event at a time. */
    method Apply(e: Event)
      requires IsState(View()) && Enabled(View(), e)
      modifies this
      ensures View() == Step(old(View()), e)
    {
      match e
      case GetJob(j, fail) =>
        if !fail && j in fates.panicking { progress := map k | k in progress :: Idle; }
        else if !fail && j !in fates.broken { progress := progress[j := HasJob(status[j])]; }
      case GetPod(j, fail) =>
        var name := PodName(j);
        if fail { progress := progress[j := WillWrite("", true)]; }
        else if name in pods { progress := progress[j := WillWrite(pods[name].phase, false)]; }
        else if progress[j].status != "" { progress := progress[j := Idle]; }
        else { progress := progress[j := WillCreate]; }
      case Create(j, fail) =>
        if !fail && PodName(j) !in pods { pods := pods[PodName(j) := Pod(j, PENDING)]; }
        progress := progress[j := Idle];
      case Write(j, fail) =>
        if !fail { status := status[j := progress[j].phase]; }
        progress := progress[j := Idle];
      case SetPhase(pod, phase) =>
        pods := pods[pod := pods[pod].(phase := phase)];
      case DeletePod(pod) =>
        pods := pods - {pod};
      case Restart =>
        progress := map k | k in progress :: Idle;
    }

    /** Others act between two calls of the reconcile of job j. */
    method Interfere(wanted: seq<Event>, j: Job)
      requires IsState(View()) && j in status
      modifies this
      ensures IsState(View()) && status.Keys == old(status.Keys)
      ensures View() == AfterOthers(old(View()), wanted, j)
    {
      ghost var s := View();
      var i := 0;
      assert wanted[0..] == wanted;
      while i < |wanted|
        invariant 0 <= i <= |wanted|
        invariant IsState(View()) && j in status && status.Keys == s.status.Keys
        invariant AfterOthers(s, wanted, j) == AfterOthers(View(), wanted[i..], j)
      {
        AfterOthersStep(View(), wanted, i, j);
        Try(wanted[i], j);
        i := i + 1;
      }
    }

    method Try(e: Event, j: Job)
      requires IsState(View())
      modifies this
      ensures View() == Tried(old(View()), e, j)
    {
      if Bystanding(View(), e, j) {
        Apply(e);
      }
    }

    /**
     * Reconcile of either controller; the two differ in the translation only.  A panic of the
     * translation takes the operator down, and it starts again with nothing under way.
     */
    method Reconcile(j: Job, f: Faults, gap1: seq<Event>, gap2: seq<Event>)
      requires Valid() && j in status && progress[j].Idle?
      modifies this
      ensures View() == AfterReconcile(old(View()), j, f, gap1, gap2) && Valid()
    {
      ghost var s := View();
      // fetch the job and translate it to a pod
      if f.getJob {
        return;
      }
      var pod := Translate(j);
      if pod.Panic? {
        progress := map k | k in progress :: Idle;
        return;
      }
      if pod.Failure? {
        return;
      }
      var sj := FetchJob(j, f, gap1);
      CheckPod(j, sj, pod.value.name, f);
      assert View() == AfterRead(s, j, f, gap1);
      match progress[j]
      case WillCreate => CreatePod(j, f, gap2);
      case WillWrite(phase, _) => WritePhase(j, phase, f, gap2);
      case _ => // the pod was already created once
    }

    method CheckPod(j: Job, sj: string, name: string, f: Faults)
      requires IsState(View()) && j in status && progress[j] == HasJob(sj) && name == PodName(j)
      modifies this
      ensures View() == Step(old(View()), GetPod(j, f.getPod))
    {
      if !f.getPod && name !in pods {
        progress := progress[j := if sj != "" then Idle else WillCreate];
        return;
      }
      // otherwise something has changed; after a failed read the phase is empty
      var phase := if f.getPod then "" else pods[name].phase;
      progress := progress[j := WillWrite(phase, f.getPod)];
    }

    method FetchJob(j: Job, f: Faults, gap: seq<Event>) returns (sj: string)
      requires Reads(View(), j, f)
      modifies this
      ensures View() == AfterGap(old(View()), j, f, gap) && sj == old(status[j])
    {
      sj := status[j];
      progress := progress[j := HasJob(sj)];
      Interfere(gap, j);
    }

    method CreatePod(j: Job, f: Faults, gap: seq<Event>)
      requires IsState(View()) && j in status && progress[j].WillCreate?
      modifies this
      ensures View() == Step(AfterOthers(old(View()), gap, j), Create(j, f.create))
    {
      Interfere(gap, j);
      if !f.create && PodName(j) !in pods {
        pods := pods[PodName(j) := Pod(j, PENDING)];
      }
      progress := progress[j := Idle];
    }

    method WritePhase(j: Job, phase: string, f: Faults, gap: seq<Event>)
      requires IsState(View()) && j in status && progress[j].WillWrite? && progress[j].phase == phase
      modifies this
      ensures View() == Step(AfterOthers(old(View()), gap, j), Write(j, f.write))
    {
      Interfere(gap, j);
      if !f.write {
        status := status[j := phase];
      }
      progress := progress[j := Idle];
    }
  }
}
