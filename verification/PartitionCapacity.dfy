// What a partition reports (parseResources in pkg/slurm/parse.go and Resources in
// internal/red-box/api/slurm.go).
module PartitionCapacity {
  import opened Options
  import opened Int64
  import opened Text
  import opened Numerals
  import opened Duration
  import opened Batch
  import opened Affinity
  import opened Seconds

  const MAX_TIME := "MaxTime"
  const MAX_NODES := "MaxNodes"
  const TOTAL_NODES := "TotalNodes"
  const MAX_CPUS := "MaxCPUsPerNode"
  const TOTAL_CPUS := "TotalCPUs"
  const MAX_MEM := "MaxMemPerNode"

  /** The value of a `key=value` field; anything else is skipped. */
  function FieldValue(field: string, key: string): Option<string> {
    var s := Split(field, '=');
    if |s| == 2 && s[0] == key then Some(s[1]) else None
  }

  /** A field has a value under a key if and only if it is written so, with no other equals sign. */
  lemma FieldLanguage(field: string, key: string, value: string)
    ensures FieldValue(field, key) == Some(value) <==>
      '=' !in key && '=' !in value && field == key + "=" + value
  {
    if '=' !in key && '=' !in value && field == key + "=" + value {
      assert Free([key, value], '=');
      SplitJoin([key, value], '=');
      assert [key, value][1..] == [value];
      assert Join([key, value], '=') == field;
    }
    if FieldValue(field, key) == Some(value) {
      JoinSplit(field, '=');
      assert Split(field, '=') == [key, value];
      assert [key, value][1..] == [value];
    }
  }

  /** The first comma-separated piece of the first field with this key. */
  function First(fields: seq<string>, key: string): Option<string> {
    if fields == [] then None
    else
      match FieldValue(fields[0], key)
      case Some(v) => Some(Split(v, ',')[0])
      case None => First(fields[1..], key)
  }

  // ----- meaning of the six keys -------------------------------------------------------------

  /** A limit, or the total when there is no limit, or -1 when that is not known either. */
  function Limited(limit: Option<string>, total: Option<string>): Option<int64> {
    match limit
    case None => Some(0)
    case Some(v) =>
      if v != UNLIMITED then ParseInt(v)
      else match total case None => Some(-1) case Some(t) => ParseInt(t)
  }

  function TimeLimit(limit: Option<string>): Option<int64> {
    match limit
    case None => Some(0)
    case Some(v) =>
      match DurationOf(v)
      case Parsed(ns) => Some(ns)
      case Unlimited => Some(-1)
      case Malformed => None
  }

  /** None when any of the four components is malformed. */
  function Assembled(
    nodes: Option<int64>, mem: Option<int64>, cpus: Option<int64>, time: Option<int64>): Option<Resources>
  {
    if nodes.Some? && mem.Some? && cpus.Some? && time.Some?
    then Some(Resources(nodes.value, mem.value, cpus.value, time.value))
    else None
  }

  function FieldsMeaning(fields: seq<string>): Option<Resources> {
    Assembled(
      Limited(First(fields, MAX_NODES), First(fields, TOTAL_NODES)),
      Limited(First(fields, MAX_MEM), None),
      Limited(First(fields, MAX_CPUS), First(fields, TOTAL_CPUS)),
      TimeLimit(First(fields, MAX_TIME)))
  }

  function PartitionMeaning(partitionInfo: string): Option<Resources> {
    FieldsMeaning(Fields(partitionInfo))
  }

  // ----- the algorithm -----------------------------------------------------------------------

  /** The map holds, for every key, the pieces of its fields, in order. */
  ghost predicate Collects(fMap: map<string, seq<string>>, fields: seq<string>) {
    && (forall key :: key in fMap <==> First(fields, key).Some?)
    && (forall key :: key in fMap ==> fMap[key] != [] && Some(fMap[key][0]) == First(fields, key))
  }

  lemma {:induction false} FirstSnoc(fields: seq<string>, f: string, key: string)
    ensures First(fields + [f], key) ==
      if First(fields, key).Some? then First(fields, key)
      else match FieldValue(f, key) case Some(v) => Some(Split(v, ',')[0]) case None => None
  {
    if fields == [] {
      assert fields + [f] == [f];
    } else {
      assert (fields + [f])[1..] == fields[1..] + [f];
      FirstSnoc(fields[1..], f, key);
    }
  }

  /** One more field is appended to what the map holds for its key. */
  method CollectField(fMap0: map<string, seq<string>>, f: string, ghost fields: seq<string>)
    returns (fMap: map<string, seq<string>>)
    requires Collects(fMap0, fields)
    ensures Collects(fMap, fields + [f])
  {
    fMap := fMap0;
    var s := Split(f, '=');
    if |s| == 2 {
      var before := if s[0] in fMap then fMap[s[0]] else [];
      fMap := fMap[s[0] := before + Split(s[1], ',')];
    }
    forall key
      ensures key in fMap <==> First(fields + [f], key).Some?
      ensures key in fMap ==> fMap[key] != [] && Some(fMap[key][0]) == First(fields + [f], key)
    {
      FirstSnoc(fields, f, key);
    }
  }

  function Lookup(fMap: map<string, seq<string>>, key: string): Option<string>
    requires key in fMap ==> fMap[key] != []
  {
    if key in fMap then Some(fMap[key][0]) else None
  }

  /** The same code for cpus and for nodes: a limit that may refer to a total. */
  method ReadLimit(fMap: map<string, seq<string>>, limitKey: string, totalKey: string, ghost fields: seq<string>)
    returns (n: Option<int64>)
    requires Collects(fMap, fields)
    ensures n == Limited(First(fields, limitKey), First(fields, totalKey))
  {
    n := Some(0);
    if limitKey in fMap {
      if fMap[limitKey][0] == UNLIMITED {
        n := Some(-1);
        if totalKey in fMap {
          n := ParseInt(fMap[totalKey][0]);
        }
      } else {
        n := ParseInt(fMap[limitKey][0]);
      }
    }
  }

  /** The part of parseResources that reads the map. */
  method ReadLimits(fMap: map<string, seq<string>>, ghost fields: seq<string>) returns (r: Option<Resources>)
    requires Collects(fMap, fields)
    ensures r == FieldsMeaning(fields)
  {
    var res := NO_RESOURCES;
    if MAX_TIME in fMap {
      var d := ParseDuration(fMap[MAX_TIME][0]);
      if d.Malformed? { return None; }
      res := res.(wallTime := if d.Unlimited? then -1 else d.nanos);
    }
    assert TimeLimit(First(fields, MAX_TIME)) == Some(res.wallTime);
    var cpus := ReadLimit(fMap, MAX_CPUS, TOTAL_CPUS, fields);
    if cpus.None? { return None; }
    res := res.(cpuPerNode := cpus.value);
    if MAX_MEM in fMap {
      if fMap[MAX_MEM][0] == UNLIMITED {
        res := res.(memPerNode := -1);
      } else {
        var mem := ParseInt(fMap[MAX_MEM][0]);
        if mem.None? { return None; }
        res := res.(memPerNode := mem.value);
      }
    }
    assert Limited(First(fields, MAX_MEM), None) == Some(res.memPerNode);
    var nodes := ReadLimit(fMap, MAX_NODES, TOTAL_NODES, fields);
    if nodes.None? { return None; }
    res := res.(nodes := nodes.value);
    return Some(res);
  }

  /** parseResources. */
  method ParseResources(partitionInfo: string) returns (r: Option<Resources>)
    ensures r == PartitionMeaning(partitionInfo)
  {
    var fields := Fields(TrimSpace(partitionInfo));
    FieldsTrim(partitionInfo);
    var fMap: map<string, seq<string>> := map[];
    var i := 0;
    while i < |fields|
      invariant 0 <= i <= |fields|
      invariant Collects(fMap, fields[..i])
    {
      assert fields[..i + 1] == fields[..i] + [fields[i]];
      fMap := CollectField(fMap, fields[i], fields[..i]);
      i := i + 1;
    }
    assert fields[..i] == fields;
    r := ReadLimits(fMap, fields);
  }

  // ----- which fields matter -----------------------------------------------------------------

  const KEYS := [MAX_TIME, MAX_NODES, TOTAL_NODES, MAX_CPUS, TOTAL_CPUS, MAX_MEM]

  predicate SameFirsts(fs: seq<string>, gs: seq<string>) {
    forall i :: 0 <= i < |KEYS| ==> First(fs, KEYS[i]) == First(gs, KEYS[i])
  }

  /** Only the first field of each of the six keys matters. */
  lemma OnlyFirstsMatter(info: string, info': string)
    requires SameFirsts(Fields(info), Fields(info'))
    ensures PartitionMeaning(info) == PartitionMeaning(info')
  {
    var fs, gs := Fields(info), Fields(info');
    assert First(fs, KEYS[0]) == First(gs, KEYS[0]) && First(fs, KEYS[1]) == First(gs, KEYS[1]);
    assert First(fs, KEYS[2]) == First(gs, KEYS[2]) && First(fs, KEYS[3]) == First(gs, KEYS[3]);
    assert First(fs, KEYS[4]) == First(gs, KEYS[4]) && First(fs, KEYS[5]) == First(gs, KEYS[5]);
  }

  lemma {:induction false} FirstAppend(fs: seq<string>, gs: seq<string>, key: string)
    ensures First(fs + gs, key) == if First(fs, key).Some? then First(fs, key) else First(gs, key)
  {
    if fs == [] {
      assert fs + gs == gs;
    } else {
      assert (fs + gs)[1..] == fs[1..] + gs;
      FirstAppend(fs[1..], gs, key);
    }
  }

  /**
   * A field may be inserted anywhere without effect if it has none of the six keys, or if each of
   * its keys already has a field before it.
   */
  lemma InsertedFieldIgnored(fs: seq<string>, f: string, gs: seq<string>)
    requires forall i :: 0 <= i < |KEYS| ==> FieldValue(f, KEYS[i]).None? || First(fs, KEYS[i]).Some?
    ensures SameFirsts(fs + [f] + gs, fs + gs)
    ensures FieldsMeaning(fs + [f] + gs) == FieldsMeaning(fs + gs)
  {
    forall i | 0 <= i < |KEYS|
      ensures First(fs + [f] + gs, KEYS[i]) == First(fs + gs, KEYS[i])
    {
      FirstAppend(fs, gs, KEYS[i]);
      FirstAppend(fs + [f], gs, KEYS[i]);
      FirstSnoc(fs, f, KEYS[i]);
    }
    var s, t := fs + [f] + gs, fs + gs;
    assert First(s, KEYS[0]) == First(t, KEYS[0]) && First(s, KEYS[1]) == First(t, KEYS[1]);
    assert First(s, KEYS[2]) == First(t, KEYS[2]) && First(s, KEYS[3]) == First(t, KEYS[3]);
    assert First(s, KEYS[4]) == First(t, KEYS[4]) && First(s, KEYS[5]) == First(t, KEYS[5]);
  }

  // ----- configured and discovered capacity --------------------------------------------------

  /** Configuration of a partition; the wall time is in nanoseconds. */
  datatype PartitionConfig = PartitionConfig(
    autoNodes: bool, autoCpuPerNode: bool, autoMemPerNode: bool, autoWallTime: bool, manual: Resources)

  function Chosen(auto: bool, configured: int64, discovered: int64): int64 {
    if !auto && configured != 0 then configured else discovered
  }

  /** round: how sums of float64 values are rounded. */
  function Reported(cfg: PartitionConfig, found: Resources, round: real -> real): Capacity {
    Capacity(
      Chosen(cfg.autoNodes, cfg.manual.nodes, found.nodes),
      Chosen(cfg.autoMemPerNode, cfg.manual.memPerNode, found.memPerNode),
      Chosen(cfg.autoCpuPerNode, cfg.manual.cpuPerNode, found.cpuPerNode),
      Chosen(cfg.autoWallTime, FloatSeconds(cfg.manual.wallTime, round), FloatSeconds(found.wallTime, round)))
  }

  /** Resources: a response filled from the configuration and then overwritten. */
  method Report(cfg: PartitionConfig, found: Resources, round: real -> real) returns (response: Capacity)
    ensures response == Reported(cfg, found, round)
  {
    var manual := cfg.manual;
    response := Capacity(manual.nodes, manual.memPerNode, manual.cpuPerNode, FloatSeconds(manual.wallTime, round));
    if cfg.autoNodes || response.nodes == 0 {
      response := response.(nodes := found.nodes);
    }
    if cfg.autoCpuPerNode || response.cpuPerNode == 0 {
      response := response.(cpuPerNode := found.cpuPerNode);
    }
    if cfg.autoMemPerNode || response.memPerNode == 0 {
      response := response.(memPerNode := found.memPerNode);
    }
    if cfg.autoWallTime || response.wallSeconds == 0 {
      response := response.(wallSeconds := FloatSeconds(found.wallTime, round));
    }
  }

  /** A configured number is offered unless it is zero or automatic, and the one found otherwise. */
  lemma ConfiguredWins(cfg: PartitionConfig, found: Resources, round: real -> real)
    ensures var (c, manual) := (Reported(cfg, found, round), cfg.manual);
      && (if cfg.autoNodes || manual.nodes == 0 then c.nodes == found.nodes else c.nodes == manual.nodes)
      && (if cfg.autoCpuPerNode || manual.cpuPerNode == 0 then c.cpuPerNode == found.cpuPerNode
          else c.cpuPerNode == manual.cpuPerNode)
      && (if cfg.autoMemPerNode || manual.memPerNode == 0 then c.memPerNode == found.memPerNode
          else c.memPerNode == manual.memPerNode)
      && (if cfg.autoWallTime || FloatSeconds(manual.wallTime, round) == 0
          then c.wallSeconds == FloatSeconds(found.wallTime, round)
          else c.wallSeconds == FloatSeconds(manual.wallTime, round))
  {
  }

  /** The configuration leaves a component to what Slurm says. */
  predicate Unset(auto: bool, configured: int64) {
    auto || configured == 0
  }

  /** A limit that is not one, without a total in its place. */
  predicate NoLimit(fields: seq<string>, limit: string, total: string) {
    First(fields, limit) == Some(UNLIMITED) && First(fields, total) == None
  }

  predicate NodesOpen(cfg: PartitionConfig, fields: seq<string>) {
    Unset(cfg.autoNodes, cfg.manual.nodes) && NoLimit(fields, MAX_NODES, TOTAL_NODES)
  }

  predicate CpusOpen(cfg: PartitionConfig, fields: seq<string>) {
    Unset(cfg.autoCpuPerNode, cfg.manual.cpuPerNode) && NoLimit(fields, MAX_CPUS, TOTAL_CPUS)
  }

  predicate MemOpen(cfg: PartitionConfig, fields: seq<string>) {
    Unset(cfg.autoMemPerNode, cfg.manual.memPerNode) && First(fields, MAX_MEM) == Some(UNLIMITED)
  }

  predicate TimeOpen(cfg: PartitionConfig, fields: seq<string>, round: real -> real) {
    && Unset(cfg.autoWallTime, FloatSeconds(cfg.manual.wallTime, round))
    && First(fields, MAX_TIME) == Some(UNLIMITED)
  }

  lemma UnlimitedIsFound(fields: seq<string>)
    requires FieldsMeaning(fields).Some?
    ensures var found := FieldsMeaning(fields).value;
      && (NoLimit(fields, MAX_NODES, TOTAL_NODES) ==> found.nodes == -1)
      && (NoLimit(fields, MAX_CPUS, TOTAL_CPUS) ==> found.cpuPerNode == -1)
      && (First(fields, MAX_MEM) == Some(UNLIMITED) ==> found.memPerNode == -1)
      && (First(fields, MAX_TIME) == Some(UNLIMITED) ==> found.wallTime == -1)
  {
    assert DurationOf(UNLIMITED) == Unlimited;
  }

  /** For every configuration: a component left to Slurm and not limited there is offered as -1, or as 0 seconds. */
  lemma UnlimitedIsReported(cfg: PartitionConfig, info: string, round: real -> real)
    requires PartitionMeaning(info).Some? && IsRounding(round)
    ensures var (fields, c) := (Fields(info), Reported(cfg, PartitionMeaning(info).value, round));
      && (NodesOpen(cfg, fields) ==> c.nodes == -1)
      && (CpusOpen(cfg, fields) ==> c.cpuPerNode == -1)
      && (MemOpen(cfg, fields) ==> c.memPerNode == -1)
      && (TimeOpen(cfg, fields, round) ==> c.wallSeconds == 0)
  {
    UnlimitedIsFound(Fields(info));
    FloatSecondsAre(-1, round);
  }

  /**
   * For every configuration: what it leaves to Slurm and Slurm does not limit matches no request for a
   * positive number, or for at least a second.
   */
  lemma UnlimitedMatchesNothing(cfg: PartitionConfig, info: string, r: Resources, round: real -> real)
    requires PartitionMeaning(info).Some? && IsRounding(round)
    requires
      || (r.nodes > 0 && NodesOpen(cfg, Fields(info)))
      || (r.cpuPerNode > 0 && CpusOpen(cfg, Fields(info)))
      || (r.memPerNode > 0 && MemOpen(cfg, Fields(info)))
      || (r.wallTime >= SECOND && TimeOpen(cfg, Fields(info), round))
    ensures !MatchesAll(LabelsOf(Reported(cfg, PartitionMeaning(info).value, round)), Requirements(r))
  {
    UnlimitedIsReported(cfg, info, round);
    MatchingMeansCapacity(Reported(cfg, PartitionMeaning(info).value, round), r);
  }

  /**
   * From configuration and scontrol output to scheduling: a request matches the labels of a
   * partition exactly when each number it asks for is at most the chosen one.
   */
  lemma ReportMatching(cfg: PartitionConfig, found: Resources, r: Resources, round: real -> real)
    requires r.nodes >= 0 && r.memPerNode >= 0 && r.cpuPerNode >= 0 && r.wallTime >= 0
    ensures var c := Reported(cfg, found, round);
      MatchesAll(LabelsOf(c), Requirements(r)) <==>
        && (r.nodes > 0 ==> r.nodes <= Chosen(cfg.autoNodes, cfg.manual.nodes, found.nodes))
        && (r.memPerNode > 0 ==> r.memPerNode <= Chosen(cfg.autoMemPerNode, cfg.manual.memPerNode, found.memPerNode))
        && (r.cpuPerNode > 0 ==> r.cpuPerNode <= Chosen(cfg.autoCpuPerNode, cfg.manual.cpuPerNode, found.cpuPerNode))
        && (r.wallTime > 0 ==> WholeSeconds(r.wallTime) <= c.wallSeconds)
  {
    MatchingMeansCapacity(Reported(cfg, found, round), r);
  }

  /** Wall times in whole seconds are offered as they are. */
  lemma WholeSecondsAreReported(cfg: PartitionConfig, found: Resources, round: real -> real)
    requires IsRounding(round) && IsWhole(cfg.manual.wallTime) && IsWhole(found.wallTime)
    ensures Reported(cfg, found, round).wallSeconds ==
      Chosen(cfg.autoWallTime, WholeSeconds(cfg.manual.wallTime), WholeSeconds(found.wallTime))
  {
    WholeIsExact(cfg.manual.wallTime, round);
    WholeIsExact(found.wallTime, round);
  }
}
