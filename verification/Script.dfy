// The batch script generated for a container job (internal/red-box/api/slurm.go).
module Script {
  import opened Options
  import opened Sequences
  import opened Int64
  import opened Text
  import opened Numerals
  import opened Duration
  import opened Batch

  datatype SingularityOptions = SingularityOptions(
    app: string, allowUnsigned: bool, hostName: string, binds: seq<string>,
    clearEnv: bool, fakeRoot: bool, ipc: bool, pid: bool, noPrivs: bool, writable: bool)

  datatype Request = Request(
    imageName: string, nodes: int64, cpuPerNode: int64, memPerNode: int64, wallTime: int64, options: SingularityOptions)

  const LOCAL_FILE_PREFIX := "local.file"

  /**
   * fmt.Sprintf with one string argument: the text before the first verb is copied.  What the verbs
   * print is a parameter, because the run command is a template that holds text of the user.
   */
  function Sprintf(template: string, arg: string, verbs: (string, string) -> string): string {
    var i := IndexOf(template, '%');
    if i == -1 then template + verbs("", arg) else template[..i] + verbs(template[i..], arg)
  }

  function Quoted(s: string): string {
    "\"" + s + "\""
  }

  function When(c: bool, flag: string): seq<string> {
    if c then [flag] else []
  }

  function ValueFlags(opt: SingularityOptions): seq<string> {
    []
    + When(opt.app != "", "--app=" + Quoted(opt.app))
    + When(opt.hostName != "", "--hostname=" + Quoted(opt.hostName))
    + When(opt.binds != [], "--bind=" + Quoted(Join(opt.binds, ',')))
  }

  function WithSwitches(flags: seq<string>, opt: SingularityOptions): seq<string> {
    flags
    + When(opt.clearEnv, "-c")
    + When(opt.fakeRoot, "-f")
    + When(opt.ipc, "-i")
    + When(opt.pid, "-p")
    + When(opt.noPrivs, "--no-privs")
    + When(opt.writable, "-w")
  }

  function RunFlags(opt: SingularityOptions): seq<string> {
    WithSwitches(ValueFlags(opt), opt)
  }

  const RUN := "srun singularity run"

  function RunCommand(opt: SingularityOptions): string {
    RUN + (if RunFlags(opt) != [] then " " + Join(RunFlags(opt), ' ') else "") + " \"%s\" || exit"
  }

  method AppendWhen(flags: seq<string>, c: bool, flag: string) returns (r: seq<string>)
    ensures r == flags + When(c, flag)
  {
    r := flags;
    if c {
      r := r + [flag];
    }
  }

  /** buildRunCommand, which appends the flags one by one. */
  method BuildRunCommand(opt: SingularityOptions) returns (run: string)
    ensures run == RunCommand(opt)
  {
    run := RUN;
    var flags: seq<string> := [];
    flags := AppendWhen(flags, opt.app != "", "--app=" + Quoted(opt.app));
    flags := AppendWhen(flags, opt.hostName != "", "--hostname=" + Quoted(opt.hostName));
    flags := AppendWhen(flags, opt.binds != [], "--bind=" + Quoted(Join(opt.binds, ',')));
    flags := AppendWhen(flags, opt.clearEnv, "-c");
    flags := AppendWhen(flags, opt.fakeRoot, "-f");
    flags := AppendWhen(flags, opt.ipc, "-i");
    flags := AppendWhen(flags, opt.pid, "-p");
    flags := AppendWhen(flags, opt.noPrivs, "--no-privs");
    flags := AppendWhen(flags, opt.writable, "-w");
    assert flags == RunFlags(opt);
    var options := if flags != [] then " " + Join(flags, ' ') else "";
    run := run + options + " \"%s\" || exit";
  }

  // ----- the script as text ------------------------------------------------------------------

  /** A limit of zero is not printed. */
  function Limit(param: string, prefix: string, x: int64): seq<Directive> {
    if x == 0 then [] else [Directive(param, prefix + FormatInt(x))]
  }

  /** The directives a request is printed as. */
  function Printed(r: Request): seq<Directive> {
    Limit("--time", "0:", r.wallTime) + Limit("--mem", "", r.memPerNode)
    + Limit("--nodes", "", r.nodes) + Limit("--cpus-per-task", "", r.cpuPerNode)
  }

  function HeaderText(d: Directive): string {
    SBATCH_HEADER + [' '] + (d.param + ['='] + d.value)
  }

  function Headers(ds: seq<Directive>): seq<string> {
    if ds == [] then [] else [HeaderText(ds[0])] + Headers(ds[1..])
  }

  const TIME_T := "#SBATCH --time=0:"
  const MEM_T := "#SBATCH --mem="
  const NODES_T := "#SBATCH --nodes="
  const CPU_T := "#SBATCH --cpus-per-task="

  function LimitLine(template: string, x: int64): seq<string> {
    When(x != 0, template + FormatInt(x))
  }

  const SHELL := "#!/bin/sh"

  /** The shebang and the printed limits. */
  function Preamble(r: Request): seq<string> {
    [SHELL] + LimitLine(TIME_T, r.wallTime) + LimitLine(MEM_T, r.memPerNode)
    + LimitLine(NODES_T, r.nodes) + LimitLine(CPU_T, r.cpuPerNode)
  }

  function VerifyCommand(image: string): string {
    "srun singularity verify " + (Quoted(image) + " || exit")
  }

  function PullCommand(unsigned: bool, id: string, image: string): string {
    "srun singularity pull "
    + ((if unsigned then "-U " else "") + ("--name " + (Quoted(id) + " " + Quoted(image) + " || exit")))
  }

  function RmCommand(id: string): string {
    "srun rm " + Quoted(id)
  }

  /** The commands: verify and run a local image, or pull, run and remove a remote one. */
  function Commands(r: Request, id: string, verbs: (string, string) -> string): (lines: seq<string>)
    ensures lines != []
  {
    if HasPrefix(r.imageName, LOCAL_FILE_PREFIX) then
      var image := r.imageName[|LOCAL_FILE_PREFIX|..];
      When(!r.options.allowUnsigned, VerifyCommand(image))
      + [Sprintf(RunCommand(r.options), image, verbs)]
    else
      [PullCommand(r.options.allowUnsigned, id, r.imageName),
       Sprintf(RunCommand(r.options), id, verbs),
       RmCommand(id)]
  }

  function ScriptText(r: Request, id: string, verbs: (string, string) -> string): string {
    Join(Preamble(r) + Commands(r, id, verbs), '\n')
  }

  /** The part of buildSLURMScript that appends the commands. */
  method AppendCommands(header: seq<string>, r: Request, id: string, verbs: (string, string) -> string, runT: string)
    returns (lines: seq<string>)
    requires runT == RunCommand(r.options)
    ensures lines == header + Commands(r, id, verbs)
  {
    lines := header;
    if HasPrefix(r.imageName, LOCAL_FILE_PREFIX) {
      var image := r.imageName[|LOCAL_FILE_PREFIX|..];
      lines := AppendWhen(lines, !r.options.allowUnsigned, VerifyCommand(image));
      lines := lines + [Sprintf(runT, image, verbs)];
    } else {
      lines := lines + [PullCommand(r.options.allowUnsigned, id, r.imageName)];
      lines := lines + [Sprintf(runT, id, verbs)];
      lines := lines + [RmCommand(id)];
    }
  }

  /** buildSLURMScript; id is the generated name of a pulled image. */
  method BuildSLURMScript(r: Request, id: string, verbs: (string, string) -> string) returns (script: string)
    ensures script == ScriptText(r, id, verbs)
  {
    var runT := BuildRunCommand(r.options);
    var lines := [SHELL];
    lines := AppendWhen(lines, r.wallTime != 0, TIME_T + FormatInt(r.wallTime));
    lines := AppendWhen(lines, r.memPerNode != 0, MEM_T + FormatInt(r.memPerNode));
    lines := AppendWhen(lines, r.nodes != 0, NODES_T + FormatInt(r.nodes));
    lines := AppendWhen(lines, r.cpuPerNode != 0, CPU_T + FormatInt(r.cpuPerNode));
    lines := AppendCommands(lines, r, id, verbs, runT);
    return Join(lines, '\n');
  }

  /** Each template is a header with one parameter. */
  predicate IsTemplate(template: string, param: string, prefix: string) {
    template == SBATCH_HEADER + [' '] + (param + ['='] + prefix)
  }

  lemma Templates()
    ensures IsTemplate(TIME_T, "--time", "0:") && IsTemplate(MEM_T, "--mem", "")
    ensures IsTemplate(NODES_T, "--nodes", "") && IsTemplate(CPU_T, "--cpus-per-task", "")
  {
  }

  lemma {:induction false} HeadersAppend(ds: seq<Directive>, es: seq<Directive>)
    ensures Headers(ds + es) == Headers(ds) + Headers(es)
  {
    if ds == [] {
      assert ds + es == es;
    } else {
      HeadersAppend(ds[1..], es);
      assert (ds + es)[1..] == ds[1..] + es;
      Associate([HeaderText(ds[0])], Headers(ds[1..]), Headers(es));
    }
  }

  lemma FourHeaders(first: seq<string>, t: seq<Directive>, m: seq<Directive>, n: seq<Directive>, c: seq<Directive>)
    ensures first + Headers(t) + Headers(m) + Headers(n) + Headers(c) == first + Headers(t + m + n + c)
  {
    HeadersAppend(t, m);
    HeadersAppend(t + m, n);
    HeadersAppend(t + m + n, c);
    Associate(first, Headers(t), Headers(m));
    Associate(first, Headers(t + m), Headers(n));
    Associate(first, Headers(t + m + n), Headers(c));
  }

  lemma LimitIsHeader(template: string, param: string, prefix: string, x: int64)
    requires IsTemplate(template, param, prefix)
    ensures LimitLine(template, x) == Headers(Limit(param, prefix, x))
  {
    var d := Directive(param, prefix + FormatInt(x));
    assert template + FormatInt(x) == HeaderText(d);
    assert Headers([d]) == [HeaderText(d)];
  }

  /** The printed limits are header lines of the printed directives. */
  lemma PreambleIsHeaders(r: Request)
    ensures Preamble(r) == [SHELL] + Headers(Printed(r))
  {
    Templates();
    LimitIsHeader(TIME_T, "--time", "0:", r.wallTime);
    LimitIsHeader(MEM_T, "--mem", "", r.memPerNode);
    LimitIsHeader(NODES_T, "--nodes", "", r.nodes);
    LimitIsHeader(CPU_T, "--cpus-per-task", "", r.cpuPerNode);
    var t, m := Limit("--time", "0:", r.wallTime), Limit("--mem", "", r.memPerNode);
    var n, c := Limit("--nodes", "", r.nodes), Limit("--cpus-per-task", "", r.cpuPerNode);
    FourHeaders([SHELL], t, m, n, c);
  }

  // ----- reading the script back -------------------------------------------------------------

  const SRUN := "srun"

  /** A text that starts with a command holds no directives, whatever the command contains. */
  lemma CommandEndsScan(text: string)
    requires HasPrefix(text, SRUN)
    ensures DirectivesOf(text) == Walk([], false)
  {
    var raw := RawLine(text);
    var i := IndexOf(text, '\n');
    IndexOfFirst(text, '\n');
    assert text[0] == 's' && text[1] == 'r' && text[2] == 'u' && text[3] == 'n';
    assert i == -1 || i >= 4;
    assert raw[0] == 's' && raw[1] == 'r' && raw[2] == 'u' && raw[3] == 'n' && |raw| >= 4;
    var line := DropCarriageReturn(raw);
    assert line[0] == 's';
  }

  /** A directive that one header token can carry. */
  predicate Plain(d: Directive) {
    && IsWord(d.param) && IsWord(d.value)
    && '=' !in d.param && |d.param| <= 20 && |d.value| <= 30
  }

  lemma PlainLine(d: Directive)
    requires Plain(d)
    ensures var line := HeaderText(d);
      && IsHeader(line) && !Skipped(line) && Tokens(line) == [d.param + ['='] + d.value]
      && '\n' !in line && |line| <= 60 && line[|line| - 1] != '\r'
  {
    var token := d.param + ['='] + d.value;
    var line := HeaderText(d);
    assert line[|SBATCH_HEADER|..] == [' '] + token;
    FieldsSkip(' ', token);
    assert IsWord(token);
    FieldsSingle(token);
    assert line[|line| - 1] == d.value[|d.value| - 1];
    assert forall i :: 0 <= i < |token| ==> token[i] != '\n';
    assert '\n' !in SBATCH_HEADER;
    assert line[1] == 'S';
  }

  lemma HeaderReadBack(d: Directive, rest: string)
    requires Plain(d)
    ensures DirectivesOf(HeaderText(d) + ['\n'] + rest) == Prepend([d], DirectivesOf(rest))
  {
    var token := d.param + ['='] + d.value;
    var line := HeaderText(d);
    PlainLine(d);
    ScanLineCons(line, rest);
    IndexOfHead(d.param, '=', d.value);
    assert token[..|d.param|] == d.param && token[|d.param| + 1..] == d.value;
    var tokens := [token];
    assert tokens[1..] == [];
    assert Pairing(tokens) == Walk([d], false);
  }

  lemma JoinCons(line: string, rest: seq<string>)
    requires rest != []
    ensures Join([line] + rest, '\n') == line + ['\n'] + Join(rest, '\n')
  {
    assert ([line] + rest)[1..] == rest;
  }

  lemma JoinPrefix(body: seq<string>)
    requires body != [] && HasPrefix(body[0], SRUN)
    ensures HasPrefix(Join(body, '\n'), SRUN)
  {
  }

  predicate AllPlain(ds: seq<Directive>) {
    forall i :: 0 <= i < |ds| ==> Plain(ds[i])
  }

  lemma {:induction false} HeadersReadBack(ds: seq<Directive>, body: seq<string>)
    requires AllPlain(ds)
    requires body != [] && HasPrefix(body[0], SRUN)
    ensures DirectivesOf(Join(Headers(ds) + body, '\n')) == Walk(ds, false)
  {
    var lines := Headers(ds) + body;
    if ds == [] {
      assert lines == body;
      JoinPrefix(body);
      CommandEndsScan(Join(body, '\n'));
    } else {
      var rest := Headers(ds[1..]) + body;
      assert lines == [HeaderText(ds[0])] + rest;
      HeadersReadBack(ds[1..], body);
      JoinCons(HeaderText(ds[0]), rest);
      HeaderReadBack(ds[0], Join(rest, '\n'));
      assert [ds[0]] + ds[1..] == ds;
    }
  }

  lemma SprintfPrefix(template: string, arg: string, verbs: (string, string) -> string)
    requires HasPrefix(template, SRUN)
    ensures HasPrefix(Sprintf(template, arg, verbs), SRUN)
  {
    assert template[0] == 's' && template[1] == 'r' && template[2] == 'u' && template[3] == 'n';
    var i := IndexOf(template, '%');
    IndexOfFirst(template, '%');
    assert i == -1 || i >= 4;
  }

  lemma FirstCommand(r: Request, id: string, verbs: (string, string) -> string)
    ensures HasPrefix(Commands(r, id, verbs)[0], SRUN)
  {
    if HasPrefix(r.imageName, LOCAL_FILE_PREFIX) && r.options.allowUnsigned {
      SprintfPrefix(RunCommand(r.options), r.imageName[|LOCAL_FILE_PREFIX|..], verbs);
    }
  }

  lemma AllPlainAppend(ds: seq<Directive>, es: seq<Directive>)
    requires AllPlain(ds) && AllPlain(es)
    ensures AllPlain(ds + es)
  {
  }

  lemma IntPlain(param: string, prefix: string, x: int64)
    requires IsWord(param) && '=' !in param && |param| <= 20
    requires prefix == "" || prefix == "0:"
    ensures AllPlain(Limit(param, prefix, x))
  {
    FormatIntChars(x);
    FormatIntLength(x);
    assert Plain(Directive(param, prefix + FormatInt(x)));
  }

  lemma LimitsPlain(t: seq<Directive>, m: seq<Directive>, n: seq<Directive>, c: seq<Directive>)
    requires AllPlain(t) && AllPlain(m) && AllPlain(n) && AllPlain(c)
    ensures AllPlain(t + m + n + c)
  {
    AllPlainAppend(t, m);
    AllPlainAppend(t + m, n);
    AllPlainAppend(t + m + n, c);
  }

  lemma TimeAndMemPlain(wallTime: int64, mem: int64)
    ensures AllPlain(Limit("--time", "0:", wallTime)) && AllPlain(Limit("--mem", "", mem))
  {
    IntPlain("--time", "0:", wallTime);
    IntPlain("--mem", "", mem);
  }

  lemma NodesAndCpuPlain(nodes: int64, cpu: int64)
    ensures AllPlain(Limit("--nodes", "", nodes)) && AllPlain(Limit("--cpus-per-task", "", cpu))
  {
    IntPlain("--nodes", "", nodes);
    IntPlain("--cpus-per-task", "", cpu);
  }

  lemma PrintedPlain(r: Request)
    ensures AllPlain(Printed(r))
  {
    TimeAndMemPlain(r.wallTime, r.memPerNode);
    NodesAndCpuPlain(r.nodes, r.cpuPerNode);
    LimitsPlain(Limit("--time", "0:", r.wallTime), Limit("--mem", "", r.memPerNode),
                Limit("--nodes", "", r.nodes), Limit("--cpus-per-task", "", r.cpuPerNode));
  }

  lemma ShebangSkipped(rest: string)
    ensures DirectivesOf(SHELL + ['\n'] + rest) == DirectivesOf(rest)
  {
    ScanLineCons(SHELL, rest);
  }

  lemma AfterShebang(rest: seq<string>)
    requires rest != []
    ensures DirectivesOf(Join([SHELL] + rest, '\n')) == DirectivesOf(Join(rest, '\n'))
  {
    JoinCons(SHELL, rest);
    ShebangSkipped(Join(rest, '\n'));
  }

  lemma ScanScript(preamble: seq<string>, ds: seq<Directive>, body: seq<string>)
    requires preamble == [SHELL] + Headers(ds)
    requires AllPlain(ds)
    requires body != [] && HasPrefix(body[0], SRUN)
    ensures DirectivesOf(Join(preamble + body, '\n')) == Walk(ds, false)
  {
    var rest := Headers(ds) + body;
    HeadersReadBack(ds, body);
    Associate([SHELL], Headers(ds), body);
    AfterShebang(rest);
  }

  /** The directives found in a generated script are the printed ones, in order. */
  lemma ScriptDirectives(r: Request, id: string, verbs: (string, string) -> string)
    ensures DirectivesOf(ScriptText(r, id, verbs)) == Walk(Printed(r), false)
  {
    PrintedPlain(r);
    FirstCommand(r, id, verbs);
    PreambleIsHeaders(r);
    ScanScript(Preamble(r), Printed(r), Commands(r, id, verbs));
  }

  /** The resources of a request, with the wall time in nanoseconds of an int64. */
  function ResourcesOf(r: Request): Resources {
    Resources(r.nodes, r.memPerNode, r.cpuPerNode, Wrap(SECOND * r.wallTime))
  }

  function NodesOrBad(n: int64): Meaning {
    if n < 0 then Bad else SetNodes(n)
  }

  function Unless(zero: bool, m: Meaning): seq<Meaning> {
    if zero then [] else [m]
  }

  /** What the printed limits mean; t is the wall time in nanoseconds. */
  function LimitMeanings(noTime: bool, t: int64, m: int64, n: int64, c: int64): seq<Meaning> {
    Unless(noTime, SetTime(t)) + Unless(m == 0, SetMem(m)) + Unless(n == 0, NodesOrBad(n)) + Unless(c == 0, Scale(c))
  }

  lemma LimitMeaning(param: string, prefix: string, x: int64, m: Meaning)
    requires MeaningOf(Directive(param, prefix + FormatInt(x))) == m
    ensures Meanings(Limit(param, prefix, x)) == Unless(x == 0, m)
  {
  }

  lemma OnlySeconds(w: int64)
    ensures Nanos(MS(0, w)) == SECOND * w
  {
  }

  lemma SecondsRead(s: string, w: int64)
    requires s == Print(MS(0, w))
    ensures DurationOf(s) == Parsed(Wrap(SECOND * w))
  {
    ReadPrinted(MS(0, w));
    OnlySeconds(w);
  }

  lemma PrintedTime(w: int64)
    ensures Print(MS(0, w)) == "0:" + FormatInt(w)
  {
    assert FormatInt(0) == "0";
    var parts := ["0", FormatInt(w)];
    assert Join(parts, ':') == parts[0] + [':'] + parts[1];
  }

  lemma TimeParam(value: string)
    requires DurationOf(value).Parsed?
    ensures MeaningOf(Directive("--time", value)) == SetTime(DurationOf(value).nanos)
  {
  }

  lemma TimeMeaning(w: int64)
    ensures MeaningOf(Directive("--time", "0:" + FormatInt(w))) == SetTime(Wrap(SECOND * w))
  {
    PrintedTime(w);
    SecondsRead(Print(MS(0, w)), w);
    TimeParam(Print(MS(0, w)));
  }

  lemma MemMeaning(m: int64)
    ensures MeaningOf(Directive("--mem", "" + FormatInt(m))) == SetMem(m)
  {
    ParseFormat(m);
    assert "" + FormatInt(m) == FormatInt(m);
  }

  lemma CpuMeaning(c: int64)
    ensures MeaningOf(Directive("--cpus-per-task", "" + FormatInt(c))) == Scale(c)
  {
    ParseFormat(c);
    assert "" + FormatInt(c) == FormatInt(c);
  }

  /** A minus sign is taken for the dash of a node range with an empty lower end. */
  lemma NodesMeaning(n: int64)
    ensures MeaningOf(Directive("--nodes", "" + FormatInt(n))) == NodesOrBad(n)
  {
    FormatIntChars(n);
    var s := FormatInt(n);
    assert "" + s == s;
    if n < 0 {
      assert s[0] == '-';
      IndexOfIs(s, '-', 0);
      assert MinNodes(s) == "";
      assert ParseInt("") == None;
    } else {
      IndexOfAbsent(s, '-');
      ParseFormat(n);
    }
  }

  lemma PrintedMeanings(r: Request)
    ensures Meanings(Printed(r)) ==
      LimitMeanings(r.wallTime == 0, Wrap(SECOND * r.wallTime), r.memPerNode, r.nodes, r.cpuPerNode)
  {
    var t, m := Limit("--time", "0:", r.wallTime), Limit("--mem", "", r.memPerNode);
    var n, c := Limit("--nodes", "", r.nodes), Limit("--cpus-per-task", "", r.cpuPerNode);
    TimeMeaning(r.wallTime);
    LimitMeaning("--time", "0:", r.wallTime, SetTime(Wrap(SECOND * r.wallTime)));
    MemMeaning(r.memPerNode);
    LimitMeaning("--mem", "", r.memPerNode, SetMem(r.memPerNode));
    NodesMeaning(r.nodes);
    LimitMeaning("--nodes", "", r.nodes, NodesOrBad(r.nodes));
    CpuMeaning(r.cpuPerNode);
    LimitMeaning("--cpus-per-task", "", r.cpuPerNode, Scale(r.cpuPerNode));
    MeaningsAppend(t, m);
    MeaningsAppend(t + m, n);
    MeaningsAppend(t + m + n, c);
  }

  lemma FoldedUnless(ms: seq<Meaning>, zero: bool, m: Meaning)
    ensures Folded(ms + Unless(zero, m)) ==
      if zero then Folded(ms) else match Folded(ms) case None => None case Some(res) => Effect(res, m)
  {
    if zero {
      assert ms + [] == ms;
    } else {
      FoldedSnoc(ms, m);
    }
  }

  lemma FoldedLimits(noTime: bool, t: int64, m: int64, n: int64, c: int64)
    requires noTime ==> t == 0
    ensures Folded(LimitMeanings(noTime, t, m, n, c)) == if n < 0 then None else Some(Resources(n, m, c, t))
  {
    var m1 := Unless(noTime, SetTime(t));
    var m2 := m1 + Unless(m == 0, SetMem(m));
    var m3 := m2 + Unless(n == 0, NodesOrBad(n));
    FoldedUnless([], noTime, SetTime(t));
    assert [] + m1 == m1;
    assert Folded(m1) == Some(Resources(0, 0, 0, t));
    FoldedUnless(m1, m == 0, SetMem(m));
    assert Folded(m2) == Some(Resources(0, m, 0, t));
    FoldedUnless(m2, n == 0, NodesOrBad(n));
    FoldedUnless(m3, c == 0, Scale(c));
  }

  lemma EvaluatedFolded(ds: seq<Directive>)
    ensures Evaluated(Walk(ds, false)) == match Folded(Meanings(ds)) case None => Err case Some(res) => Ok(res)
  {
    FoldedIsRequested(Meanings(ds));
  }

  lemma PrintedFolded(r: Request)
    ensures Folded(Meanings(Printed(r))) == if r.nodes < 0 then None else Some(ResourcesOf(r))
  {
    PrintedMeanings(r);
    FoldedLimits(r.wallTime == 0, Wrap(SECOND * r.wallTime), r.memPerNode, r.nodes, r.cpuPerNode);
  }

  /**
   * Reading a generated script back: for every request, image, options, id and rendering of verbs
   * the resources are recovered, except that a negative number of nodes is an error.
   */
  lemma ScriptRoundTrip(r: Request, id: string, verbs: (string, string) -> string)
    ensures Extracted(ScriptText(r, id, verbs)) == if r.nodes < 0 then Err else Ok(ResourcesOf(r))
  {
    ScriptDirectives(r, id, verbs);
    PrintedFolded(r);
    EvaluatedFolded(Printed(r));
  }

  /** The round trip is exact if and only if nodes is not negative and the wall time fits. */
  lemma RoundTripExactIff(r: Request, id: string, verbs: (string, string) -> string)
    ensures (exists res :: Extracted(ScriptText(r, id, verbs)) == Ok(res)
              && res.nodes == r.nodes && res.memPerNode == r.memPerNode
              && res.cpuPerNode == r.cpuPerNode && res.wallTime == SECOND * r.wallTime)
            <==> r.nodes >= 0 && Fits(SECOND * r.wallTime)
  {
    ScriptRoundTrip(r, id, verbs);
  }

  // ----- which commands, with which flags ----------------------------------------------------

  lemma QuotedIs(s: string)
    ensures |Quoted(s)| == |s| + 2 && Quoted(s)[0] == '"' && Quoted(s)[|s| + 1] == '"' && Quoted(s)[1..|s| + 1] == s
  {
  }

  predicate IsValueFlag(opt: SingularityOptions, f: string) {
    || (opt.app != "" && f == "--app=" + Quoted(opt.app))
    || (opt.hostName != "" && f == "--hostname=" + Quoted(opt.hostName))
    || (opt.binds != [] && f == "--bind=" + Quoted(Join(opt.binds, ',')))
  }

  predicate IsSwitch(opt: SingularityOptions, f: string) {
    || (opt.clearEnv && f == "-c") || (opt.fakeRoot && f == "-f") || (opt.ipc && f == "-i")
    || (opt.pid && f == "-p") || (opt.noPrivs && f == "--no-privs") || (opt.writable && f == "-w")
  }

  lemma ThreeFlags(a: bool, x: string, b: bool, y: string, c: bool, z: string, f: string)
    ensures f in [] + When(a, x) + When(b, y) + When(c, z) <==> (a && f == x) || (b && f == y) || (c && f == z)
  {
  }

  lemma ValueFlagsAre(opt: SingularityOptions, f: string)
    ensures f in ValueFlags(opt) <==> IsValueFlag(opt, f)
  {
    var app, host := "--app=" + Quoted(opt.app), "--hostname=" + Quoted(opt.hostName);
    var bind := "--bind=" + Quoted(Join(opt.binds, ','));
    ThreeFlags(opt.app != "", app, opt.hostName != "", host, opt.binds != [], bind, f);
  }

  lemma OneMoreFlag(flags: seq<string>, c: bool, x: string, f: string)
    ensures f in flags + When(c, x) <==> f in flags || (c && f == x)
  {
  }

  lemma SwitchesAre(flags: seq<string>, opt: SingularityOptions, f: string)
    ensures f in WithSwitches(flags, opt) <==> f in flags || IsSwitch(opt, f)
  {
    var s1 := flags + When(opt.clearEnv, "-c");
    var s2 := s1 + When(opt.fakeRoot, "-f");
    var s3 := s2 + When(opt.ipc, "-i");
    var s4 := s3 + When(opt.pid, "-p");
    var s5 := s4 + When(opt.noPrivs, "--no-privs");
    OneMoreFlag(flags, opt.clearEnv, "-c", f);
    OneMoreFlag(s1, opt.fakeRoot, "-f", f);
    OneMoreFlag(s2, opt.ipc, "-i", f);
    OneMoreFlag(s3, opt.pid, "-p", f);
    OneMoreFlag(s4, opt.noPrivs, "--no-privs", f);
    OneMoreFlag(s5, opt.writable, "-w", f);
  }

  /** Every option gives its flag, and there are no other flags. */
  lemma FlagsAre(opt: SingularityOptions, f: string)
    ensures f in RunFlags(opt) <==> IsValueFlag(opt, f) || IsSwitch(opt, f)
  {
    ValueFlagsAre(opt, f);
    SwitchesAre(ValueFlags(opt), opt, f);
  }

  /** fmt prints a string for %s as it is, and the text after it. */
  ghost predicate PrintsStrings(verbs: (string, string) -> string) {
    forall rest, arg :: '%' !in rest ==> verbs("%s" + rest, arg) == arg + rest
  }

  predicate NoVerbs(opt: SingularityOptions) {
    forall f :: f in RunFlags(opt) ==> '%' !in f
  }

  /** The program and its flags. */
  function RunWords(opt: SingularityOptions): string {
    "srun singularity run" + (if RunFlags(opt) != [] then " " + Join(RunFlags(opt), ' ') else "")
  }

  /** And the image. */
  function RunLine(opt: SingularityOptions, image: string): string {
    RunWords(opt) + " \"" + image + "\" || exit"
  }

  lemma VerbIsReplaced(head: string, image: string, verbs: (string, string) -> string)
    requires '%' !in head && PrintsStrings(verbs)
    ensures Sprintf(head + " \"%s\" || exit", image, verbs) == head + " \"" + image + "\" || exit"
  {
    var tail := "\" || exit";
    var front := head + " \"";
    var template := head + " \"%s\" || exit";
    assert template == front + ['%'] + ("s" + tail);
    IndexOfHead(front, '%', "s" + tail);
    assert template[..|front|] == front && template[|front|..] == "%s" + tail;
    assert verbs("%s" + tail, image) == image + tail;
    Associate(front, image, tail);
  }

  lemma FlagsFree(opt: SingularityOptions)
    requires NoVerbs(opt)
    ensures '%' !in Join(RunFlags(opt), ' ')
  {
    forall i | 0 <= i < |RunFlags(opt)| ensures '%' !in RunFlags(opt)[i] {
      assert RunFlags(opt)[i] in RunFlags(opt);
    }
    JoinFree(RunFlags(opt), ' ', '%');
  }

  lemma RunIsFree()
    ensures '%' !in "srun singularity run"
  {
  }

  lemma WordsAreFree(words: string, flags: string)
    requires '%' !in words && '%' !in flags
    ensures '%' !in words + (" " + flags) && '%' !in words + ""
  {
  }

  /** Options without a percent sign: the image stands where the verb was. */
  lemma RunIsPrinted(opt: SingularityOptions, image: string, verbs: (string, string) -> string)
    requires PrintsStrings(verbs) && NoVerbs(opt)
    ensures Sprintf(RunCommand(opt), image, verbs) == RunLine(opt, image)
  {
    FlagsFree(opt);
    RunIsFree();
    WordsAreFree("srun singularity run", Join(RunFlags(opt), ' '));
    VerbIsReplaced(RunWords(opt), image, verbs);
  }

  lemma {:induction false} HeadersFree(ds: seq<Directive>)
    requires AllPlain(ds)
    ensures Free(Headers(ds), '\n')
  {
    if ds != [] {
      PlainLine(ds[0]);
      HeadersFree(ds[1..]);
    }
  }

  lemma PreambleFree(r: Request)
    ensures Free(Preamble(r), '\n')
  {
    PreambleIsHeaders(r);
    PrintedPlain(r);
    HeadersFree(Printed(r));
    assert '\n' !in SHELL;
  }

  /** The lines of a script are its preamble and its commands, if no command holds a line feed. */
  lemma LinesAre(r: Request, id: string, verbs: (string, string) -> string)
    requires Free(Commands(r, id, verbs), '\n')
    ensures Split(ScriptText(r, id, verbs), '\n') == Preamble(r) + Commands(r, id, verbs)
  {
    PreambleFree(r);
    var preamble, commands := Preamble(r), Commands(r, id, verbs);
    assert Free(preamble + commands, '\n');
    SplitJoin(preamble + commands, '\n');
  }

  /** The first line names the shell. */
  lemma ShebangIs(r: Request)
    ensures Preamble(r)[0] == "#!/bin/sh"
  {
    PreambleIsHeaders(r);
  }

  /** A local image is run, after it has been verified unless unsigned images are allowed. */
  lemma LocalCommands(r: Request, id: string, verbs: (string, string) -> string, image: string)
    requires HasPrefix(r.imageName, "local.file") && image == r.imageName[|"local.file"|..]
    requires PrintsStrings(verbs) && NoVerbs(r.options)
    ensures var (cs, run) := (Commands(r, id, verbs), RunLine(r.options, image));
      if r.options.allowUnsigned then cs == [run]
      else cs == ["srun singularity verify " + (Quoted(image) + " || exit"), run]
  {
    RunIsPrinted(r.options, image, verbs);
  }

  lemma Regroup(a: string, b: string)
    ensures a + " " + b + " || exit" == a + (" " + b + " || exit")
    ensures a + " " + b + " || exit" == a + " " + (b + " || exit")
  {
  }

  /** Any other image is pulled under the id, unsigned only if that is allowed, and the id is run and removed. */
  lemma RemoteCommands(r: Request, id: string, verbs: (string, string) -> string)
    requires !HasPrefix(r.imageName, "local.file") && PrintsStrings(verbs) && NoVerbs(r.options)
    ensures var (cs, what) := (Commands(r, id, verbs), Quoted(id) + " " + Quoted(r.imageName) + " || exit");
      && |cs| == 3
      && cs[0] == "srun singularity pull " + ((if r.options.allowUnsigned then "-U " else "") + ("--name " + what))
      && cs[1] == RunLine(r.options, id)
      && cs[2] == "srun rm " + Quoted(id)
  {
    RunIsPrinted(r.options, id, verbs);
    Regroup(Quoted(id), Quoted(r.imageName));
  }
}
