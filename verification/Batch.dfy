// Resource directives of a batch script (pkg/operator/controller/slurmjob/parse.go).
module Batch {
  import opened Options
  import opened Int64
  import opened Text
  import opened Numerals
  import opened Duration

  datatype Resources = Resources(nodes: int64, memPerNode: int64, cpuPerNode: int64, wallTime: int64)

  const NO_RESOURCES := Resources(0, 0, 0, 0)

  /** Fault is a run-time panic: an index past the end of a slice. */
  datatype Outcome<+T> = Ok(value: T) | Err | Fault

  const SBATCH_HEADER := "#SBATCH"
  const SHEBANG := "#!"

  datatype Directive = Directive(param: string, value: string)

  // ----- what one directive means ------------------------------------------------------------

  datatype Meaning =
    | SetTime(nanos: int64)
    | SetNodes(n: int64)
    | SetMem(mb: int64)
    | Scale(factor: int64)
    | Nothing
    | Bad

  predicate IsTimeParam(p: string) { p == "--time" || p == "-t" }
  predicate IsNodesParam(p: string) { p == "--nodes" || p == "-N" }
  predicate IsMemParam(p: string) { p == "--mem" }
  predicate IsCpuParam(p: string) { p == "--cpus-per-task" || p == "-c" || p == "--ntasks-per-node" }

  /** The lower end of a node range. */
  function MinNodes(value: string): string {
    var i := IndexOf(value, '-');
    if i == -1 then value else value[..i]
  }

  function Numeric(s: string, f: int64 -> Meaning): Meaning {
    match ParseInt(s) case Some(x) => f(x) case None => Bad
  }

  function MeaningOf(d: Directive): Meaning {
    if IsTimeParam(d.param) then
      match DurationOf(d.value)
      case Parsed(ns) => SetTime(ns)
      case Unlimited => Nothing
      case Malformed => Bad
    else if IsNodesParam(d.param) then Numeric(MinNodes(d.value), (x: int64) => SetNodes(x))
    else if IsMemParam(d.param) then Numeric(d.value, (x: int64) => SetMem(x))
    else if IsCpuParam(d.param) then Numeric(d.value, (x: int64) => Scale(x))
    else Nothing
  }

  function Meanings(ds: seq<Directive>): (ms: seq<Meaning>)
    ensures |ms| == |ds|
    ensures forall i :: 0 <= i < |ds| ==> ms[i] == MeaningOf(ds[i])
  {
    seq(|ds|, i requires 0 <= i < |ds| => MeaningOf(ds[i]))
  }

  // ----- what a list of directives asks for --------------------------------------------------

  function LastTime(ms: seq<Meaning>): int64 {
    if ms == [] then 0
    else if ms[|ms| - 1].SetTime? then ms[|ms| - 1].nanos
    else LastTime(ms[..|ms| - 1])
  }

  function LastNodes(ms: seq<Meaning>): int64 {
    if ms == [] then 0
    else if ms[|ms| - 1].SetNodes? then ms[|ms| - 1].n
    else LastNodes(ms[..|ms| - 1])
  }

  function LastMem(ms: seq<Meaning>): int64 {
    if ms == [] then 0
    else if ms[|ms| - 1].SetMem? then ms[|ms| - 1].mb
    else LastMem(ms[..|ms| - 1])
  }

  /** The values of all cpu directives, in order. */
  function Factors(ms: seq<Meaning>): seq<int> {
    if ms == [] then []
    else Factors(ms[..|ms| - 1]) + (if ms[|ms| - 1].Scale? then [ms[|ms| - 1].factor] else [])
  }

  /** Repeated multiplication that takes a zero so far for "not set yet". */
  function Accumulated(fs: seq<int>): int64 {
    if fs == [] then 0
    else
      var before := Accumulated(fs[..|fs| - 1]);
      Wrap((if before == 0 then 1 else before) * fs[|fs| - 1])
  }

  function Requested(ms: seq<Meaning>): Resources {
    Resources(LastNodes(ms), LastMem(ms), Accumulated(Factors(ms)), LastTime(ms))
  }

  // ----- which directives a script holds -----------------------------------------------------

  /** Directives in order; dangling means the walk then runs off the end of a line. */
  datatype Walk = Walk(directives: seq<Directive>, dangling: bool)

  function Prepend(ds: seq<Directive>, w: Walk): Walk {
    Walk(ds + w.directives, w.dangling)
  }

  /** Pair the tokens of one header line: `param=value`, or a parameter and the token after it. */
  function Pairing(tokens: seq<string>): Walk {
    if tokens == [] then Walk([], false)
    else
      var i := IndexOf(tokens[0], '=');
      if i != -1 then
        Prepend([Directive(tokens[0][..i], tokens[0][i + 1..])], Pairing(tokens[1..]))
      else if |tokens| == 1 then Walk([], true)
      else Prepend([Directive(tokens[0], tokens[1])], Pairing(tokens[2..]))
  }

  predicate Skipped(line: string) {
    line == "" || HasPrefix(line, SHEBANG)
  }

  predicate IsHeader(line: string) {
    HasPrefix(line, SBATCH_HEADER)
  }

  function Tokens(line: string): seq<string>
    requires IsHeader(line)
  {
    Fields(line[|SBATCH_HEADER|..])
  }

  /** The directives of a script, up to its first line that is not a header, or to a dangling token. */
  function DirectivesOf(script: string): Walk
    decreases |script|
  {
    match ScanLine(script)
    case None => Walk([], false)
    case Some(line) =>
      if Skipped(line) then DirectivesOf(AfterLine(script))
      else if !IsHeader(line) then Walk([], false)
      else
        var w := Pairing(Tokens(line));
        if w.dangling then w else Prepend(w.directives, DirectivesOf(AfterLine(script)))
  }

  function Evaluated(w: Walk): Outcome<Resources> {
    var ms := Meanings(w.directives);
    if Bad in ms then Err else if w.dangling then Fault else Ok(Requested(ms))
  }

  /**
   * What a script asks for: no order of evaluation is left in this definition.
   */
  function Extracted(script: string): Outcome<Resources> {
    Evaluated(DirectivesOf(script))
  }

  // ----- the algorithm -----------------------------------------------------------------------

  function Effect(res: Resources, m: Meaning): Option<Resources> {
    match m
    case SetTime(ns) => Some(res.(wallTime := ns))
    case SetNodes(n) => Some(res.(nodes := n))
    case SetMem(mb) => Some(res.(memPerNode := mb))
    case Scale(f) => Some(res.(cpuPerNode := Wrap((if res.cpuPerNode == 0 then 1 else res.cpuPerNode) * f)))
    case Nothing => Some(res)
    case Bad => None
  }

  lemma TimeEffect(res: Resources, d: Directive)
    requires IsTimeParam(d.param)
    ensures Effect(res, MeaningOf(d)) ==
      match DurationOf(d.value)
      case Parsed(ns) => Some(res.(wallTime := ns))
      case Unlimited => Some(res)
      case Malformed => None
  {
  }

  lemma NumberEffect(res: Resources, d: Directive)
    requires !IsTimeParam(d.param) && (IsNodesParam(d.param) || IsMemParam(d.param) || IsCpuParam(d.param))
    ensures var n := ParseInt(if IsNodesParam(d.param) then MinNodes(d.value) else d.value);
      Effect(res, MeaningOf(d)) ==
        if n.None? then None
        else if IsNodesParam(d.param) then Some(res.(nodes := n.value))
        else if IsMemParam(d.param) then Some(res.(memPerNode := n.value))
        else Some(res.(cpuPerNode := Wrap((if res.cpuPerNode == 0 then 1 else res.cpuPerNode) * n.value)))
  {
  }

  /** applySbatchParam, as it changes the resources gathered so far. */
  method ApplySbatchParam(res: Resources, param: string, value: string) returns (out: Option<Resources>)
    ensures out == Effect(res, MeaningOf(Directive(param, value)))
  {
    out := Some(res);
    if IsTimeParam(param) {
      TimeEffect(res, Directive(param, value));
      var d := ParseDuration(value);
      if d.Malformed? { return None; }
      if d.Parsed? {
        out := Some(res.(wallTime := d.nanos));
      }
    } else if IsNodesParam(param) {
      NumberEffect(res, Directive(param, value));
      var v := value;
      var i := IndexOf(v, '-');
      if i != -1 {
        v := v[..i];
      }
      var n := ParseInt(v);
      if n.None? { return None; }
      out := Some(res.(nodes := n.value));
    } else if IsMemParam(param) {
      NumberEffect(res, Directive(param, value));
      var n := ParseInt(value);
      if n.None? { return None; }
      out := Some(res.(memPerNode := n.value));
    } else if IsCpuParam(param) {
      NumberEffect(res, Directive(param, value));
      var n := ParseInt(value);
      if n.None? { return None; }
      var cpus := if res.cpuPerNode == 0 then 1 else res.cpuPerNode;
      out := Some(res.(cpuPerNode := Wrap(cpus * n.value)));
    }
  }

  /** Meanings acted on one after the other; None when one of them is an error. */
  function Folded(ms: seq<Meaning>): Option<Resources> {
    if ms == [] then Some(NO_RESOURCES)
    else
      match Folded(ms[..|ms| - 1])
      case None => None
      case Some(res) => Effect(res, ms[|ms| - 1])
  }

  lemma FoldedSnoc(ms: seq<Meaning>, m: Meaning)
    ensures Folded(ms + [m]) == match Folded(ms) case None => None case Some(res) => Effect(res, m)
  {
    assert (ms + [m])[..|ms|] == ms;
  }

  lemma {:induction false} FoldedErrStays(ms: seq<Meaning>, ns: seq<Meaning>)
    requires Folded(ms).None?
    ensures Folded(ms + ns).None?
  {
    if ns == [] {
      assert ms + ns == ms;
    } else {
      FoldedErrStays(ms, ns[..|ns| - 1]);
      assert (ms + ns)[..|ms + ns| - 1] == ms + ns[..|ns| - 1];
    }
  }

  /** One more directive acts on the resources requested so far. */
  lemma RequestedSnoc(ms: seq<Meaning>, m: Meaning)
    ensures Effect(Requested(ms), m) == if m.Bad? then None else Some(Requested(ms + [m]))
  {
    assert (ms + [m])[..|ms|] == ms;
    if m.Scale? {
      var fs := Factors(ms) + [m.factor];
      assert fs[..|fs| - 1] == Factors(ms);
    } else {
      assert Factors(ms + [m]) == Factors(ms);
    }
  }

  /** One at a time or all together: the outcome is the same. */
  lemma {:induction false} FoldedIsRequested(ms: seq<Meaning>)
    ensures Folded(ms) == if Bad in ms then None else Some(Requested(ms))
  {
    if ms != [] {
      var front, m := ms[..|ms| - 1], ms[|ms| - 1];
      FoldedIsRequested(front);
      assert ms == front + [m];
      RequestedSnoc(front, m);
    }
  }

  function Applied(ds: seq<Directive>): Option<Resources> {
    Folded(Meanings(ds))
  }

  lemma MeaningsSnoc(ds: seq<Directive>, d: Directive)
    ensures Meanings(ds + [d]) == Meanings(ds) + [MeaningOf(d)]
  {
  }

  lemma AppliedSnoc(ds: seq<Directive>, d: Directive)
    ensures Applied(ds + [d]) == match Applied(ds) case None => None case Some(res) => Effect(res, MeaningOf(d))
  {
    MeaningsSnoc(ds, d);
    FoldedSnoc(Meanings(ds), MeaningOf(d));
  }

  lemma MeaningsAppend(ds: seq<Directive>, es: seq<Directive>)
    ensures Meanings(ds + es) == Meanings(ds) + Meanings(es)
  {
  }

  lemma AppliedErrStays(ds: seq<Directive>, es: seq<Directive>)
    requires Applied(ds).None?
    ensures Applied(ds + es).None?
  {
    MeaningsAppend(ds, es);
    FoldedErrStays(Meanings(ds), Meanings(es));
  }

  /** The state of the scan after some directives, or its final outcome. */
  datatype Progress = Running(res: Resources) | Stopped(out: Outcome<Resources>)

  function ProgressOf(w: Walk): Progress {
    match Applied(w.directives)
    case None => Stopped(Err)
    case Some(res) => if w.dangling then Stopped(Fault) else Running(res)
  }

  /** What the pairing does with the token at j. */
  lemma PairingAt(params: seq<string>, j: nat)
    requires j < |params|
    ensures var (i, rest) := (IndexOf(params[j], '='), Pairing(params[j..]));
      if i != -1 then rest == Prepend([Directive(params[j][..i], params[j][i + 1..])], Pairing(params[j + 1..]))
      else if j + 1 == |params| then rest == Walk([], true)
      else rest == Prepend([Directive(params[j], params[j + 1])], Pairing(params[j + 2..]))
  {
    var tokens := params[j..];
    assert tokens[0] == params[j] && tokens[1..] == params[j + 1..];
    if j + 1 < |params| {
      assert tokens[1] == params[j + 1] && tokens[2..] == params[j + 2..];
    }
  }

  /** One turn of the token walk: the directive that starts at token j, and the next index. */
  method NextDirective(params: seq<string>, j: nat) returns (d: Option<Directive>, next: nat)
    requires j < |params|
    ensures d.None? ==> Pairing(params[j..]) == Walk([], true)
    ensures d.Some? ==> j < next <= |params| && Pairing(params[j..]) == Prepend([d.value], Pairing(params[next..]))
  {
    PairingAt(params, j);
    var param := params[j];
    var value := "";
    next := j;
    var i := IndexOf(param, '=');
    if i != -1 {
      value := param[i + 1..];
      param := param[..i];
    } else if i < |params| - 1 {
      if j + 1 >= |params| {
        return None, next;  // params[j+1] is past the end
      }
      value := params[j + 1];
      next := next + 1;
    }
    next := next + 1;
    d := Some(Directive(param, value));
  }

  lemma PrependNothing(ds: seq<Directive>, dangling: bool)
    ensures Prepend(ds, Walk([], dangling)) == Walk(ds, dangling)
  {
    assert ds + [] == ds;
  }

  lemma PrependPrepend(ds: seq<Directive>, es: seq<Directive>, w: Walk)
    ensures Prepend(ds, Prepend(es, w)) == Prepend(ds + es, w)
  {
    assert ds + (es + w.directives) == ds + es + w.directives;
  }

  /** The inner loop: a token walk with an index that a value token moves on. */
  method ApplyHeader(res0: Resources, params: seq<string>, ghost done0: seq<Directive>) returns (r: Progress)
    requires Applied(done0) == Some(res0)
    ensures r == ProgressOf(Prepend(done0, Pairing(params)))
  {
    var res := res0;
    ghost var done := done0;
    var j := 0;
    ghost var w := Pairing(params);
    assert params[0..] == params;
    while j < |params|
      invariant 0 <= j <= |params|
      invariant Applied(done) == Some(res)
      invariant Prepend(done0, w) == Prepend(done, Pairing(params[j..]))
    {
      var d, next := NextDirective(params, j);
      if d.None? {
        PrependNothing(done, true);
        return Stopped(Fault);
      }
      ghost var tail := Pairing(params[next..]);
      PrependPrepend(done, [d.value], tail);
      AppliedSnoc(done, d.value);
      done := done + [d.value];
      var effect := ApplySbatchParam(res, d.value.param, d.value.value);
      if effect.None? {
        AppliedErrStays(done, tail.directives);
        return Stopped(Err);
      }
      res := effect.value;
      j := next;
    }
    PrependNothing(done, false);
    return Running(res);
  }

  /** extractBatchResources computes what the script asks for. */
  method ExtractBatchResources(script: string) returns (out: Outcome<Resources>)
    ensures out == Extracted(script)
  {
    var res := NO_RESOURCES;
    var unread := script;
    ghost var done: seq<Directive> := [];
    assert Prepend([], DirectivesOf(script)) == DirectivesOf(script);
    while true
      invariant Applied(done) == Some(res)
      invariant DirectivesOf(script) == Prepend(done, DirectivesOf(unread))
      decreases |unread|
    {
      var token := ScanLine(unread);
      if token.None? {
        break;
      }
      var line := token.value;
      if Skipped(line) {
        unread := AfterLine(unread);
        continue;
      }
      if !IsHeader(line) {
        break;
      }
      ghost var w := Pairing(Tokens(line));
      ghost var after := DirectivesOf(AfterLine(unread));
      if !w.dangling {
        PrependPrepend(done, w.directives, after);
        assert DirectivesOf(unread) == Prepend(w.directives, after);
      }
      var r := ApplyHeader(res, Tokens(line), done);
      if r.Stopped? {
        if !w.dangling {
          AppliedErrStays(done + w.directives, after.directives);
        }
        FoldedIsRequested(Meanings(DirectivesOf(script).directives));
        return r.out;
      }
      res := r.res;
      done := done + w.directives;
      unread := AfterLine(unread);
    }
    assert done + [] == done;
    FoldedIsRequested(Meanings(done));
    return Ok(res);
  }
}
