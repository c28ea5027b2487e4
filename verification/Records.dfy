// The readers of scontrol and sacct output (pkg/slurm/parse.go and pkg/slurm/slurm.go): blocks of
// `key=value` fields separated by blank lines, and lines of sections separated by bars.
module Records {
  import opened Options
  import opened Sequences
  import opened Int64
  import opened Text
  import opened Numerals
  import opened Duration
  import opened PartitionCapacity

  // ----- blocks ------------------------------------------------------------------------------

  /** There is an empty line at k. */
  predicate BlankAt(s: string, k: nat) {
    k + 1 < |s| && s[k] == '\n' && s[k + 1] == '\n'
  }

  predicate NoBlank(s: string) {
    forall k :: 0 <= k < |s| ==> !BlankAt(s, k)
  }

  function BlankFrom(s: string, i: nat): (r: int)
    requires i <= |s|
    ensures r == -1 || (i <= r && BlankAt(s, r))
    decreases |s| - i
  {
    if i == |s| then -1 else if BlankAt(s, i) then i else BlankFrom(s, i + 1)
  }

  /** strings.Split by two line feeds. */
  function SplitBlank(s: string): (blocks: seq<string>)
    ensures blocks != []
    decreases |s|
  {
    var i := BlankFrom(s, 0);
    if i == -1 then [s] else [s[..i]] + SplitBlank(s[i + 2..])
  }

  function JoinBlank(blocks: seq<string>): string {
    if blocks == [] then "" else if |blocks| == 1 then blocks[0] else blocks[0] + "\n\n" + JoinBlank(blocks[1..])
  }

  function BlocksOf(raw: string): (blocks: seq<string>)
    ensures blocks != []
  {
    SplitBlank(TrimSpace(raw))
  }

  /** Neither end is white space and no line is empty. */
  predicate IsBlock(b: string) {
    b != "" && !IsSpace(b[0]) && !IsSpace(b[|b| - 1]) && NoBlank(b)
  }

  predicate AllBlocks(blocks: seq<string>) {
    forall i :: 0 <= i < |blocks| ==> IsBlock(blocks[i])
  }

  lemma {:induction false} BlankFromIs(s: string, i: nat, r: int)
    requires i <= |s| && (r == -1 || i <= r < |s|)
    requires forall k :: i <= k < (if r == -1 then |s| else r) ==> !BlankAt(s, k)
    requires r >= 0 ==> BlankAt(s, r)
    ensures BlankFrom(s, i) == r
    decreases |s| - i
  {
    if i < |s| && i != r {
      BlankFromIs(s, i + 1, r);
    }
  }

  lemma SplitBlankCons(b: string, rest: string)
    requires IsBlock(b)
    ensures SplitBlank(b + "\n\n" + rest) == [b] + SplitBlank(rest)
  {
    var s := b + "\n\n" + rest;
    assert s[|b|] == '\n' && s[|b| + 1] == '\n';
    forall k | 0 <= k < |b| ensures !BlankAt(s, k) {
      assert !BlankAt(b, k) && s[k] == b[k];
      if k + 1 < |b| {
        assert s[k + 1] == b[k + 1];
      }
    }
    BlankFromIs(s, 0, |b|);
    assert s[..|b|] == b && s[|b| + 2..] == rest;
  }

  lemma {:induction false} SplitBlankJoin(blocks: seq<string>)
    requires AllBlocks(blocks) && blocks != []
    ensures SplitBlank(JoinBlank(blocks)) == blocks
  {
    if |blocks| == 1 {
      BlankFromIs(blocks[0], 0, -1);
    } else {
      SplitBlankCons(blocks[0], JoinBlank(blocks[1..]));
      SplitBlankJoin(blocks[1..]);
    }
  }

  lemma {:induction false} JoinBlankEnds(blocks: seq<string>)
    requires AllBlocks(blocks) && blocks != []
    ensures var s := JoinBlank(blocks); s != "" && !IsSpace(s[0]) && !IsSpace(s[|s| - 1])
  {
    if |blocks| > 1 {
      JoinBlankEnds(blocks[1..]);
    }
  }

  predicate White(s: string) {
    forall i :: 0 <= i < |s| ==> IsSpace(s[i])
  }

  lemma {:induction false} TrimLeftAround(before: string, s: string)
    requires White(before) && (s == "" || !IsSpace(s[0]))
    ensures TrimLeft(before + s) == s
  {
    if before == "" {
      assert before + s == s;
    } else {
      assert (before + s)[1..] == before[1..] + s;
      TrimLeftAround(before[1..], s);
    }
  }

  lemma {:induction false} TrimRightAround(s: string, after: string)
    requires White(after) && (s == "" || !IsSpace(s[|s| - 1]))
    ensures TrimRight(s + after) == s
    decreases |after|
  {
    if after == "" {
      assert s + after == s;
    } else {
      assert (s + after)[..|s + after| - 1] == s + after[..|after| - 1];
      TrimRightAround(s, after[..|after| - 1]);
    }
  }

  /** Output with nothing in it is one empty block. */
  lemma NothingIsOneBlock(raw: string)
    requires White(raw)
    ensures BlocksOf(raw) == [""]
  {
    TrimLeftAround(raw, "");
    assert raw + "" == raw;
    BlankFromIs("", 0, -1);
  }

  lemma BlocksFound(before: string, blocks: seq<string>, after: string)
    requires White(before) && White(after) && AllBlocks(blocks) && blocks != []
    ensures BlocksOf(before + JoinBlank(blocks) + after) == blocks
  {
    var s := JoinBlank(blocks);
    JoinBlankEnds(blocks);
    assert before + s + after == before + (s + after);
    assert (s + after)[0] == s[0];
    TrimLeftAround(before, s + after);
    TrimRightAround(s, after);
    SplitBlankJoin(blocks);
  }

  /**
   * Blocks printed one after the other, with any white space around them, are found again in their
   * order if and only if there is one: of none an empty one is found.
   */
  lemma BlocksRoundTrip(before: string, blocks: seq<string>, after: string)
    requires White(before) && White(after) && AllBlocks(blocks)
    ensures var found := BlocksOf(before + JoinBlank(blocks) + after);
      (found == blocks <==> blocks != []) && (blocks == [] ==> found == [""])
  {
    if blocks == [] {
      NothingIsOneBlock(before + JoinBlank(blocks) + after);
    } else {
      BlocksFound(before, blocks, after);
    }
  }

  // ----- fields of a block -------------------------------------------------------------------

  /** The value of the last field with this key. */
  function LastValue(fields: seq<string>, key: string): Option<string> {
    if fields == [] then None
    else
      match FieldValue(fields[|fields| - 1], key)
      case Some(v) => Some(v)
      case None => LastValue(fields[..|fields| - 1], key)
  }

  const PARTITION_NAME := "PartitionName"

  function NameIn(block: string): string {
    match LastValue(Fields(block), PARTITION_NAME)
    case Some(name) => name
    case None => ""
  }

  method LastName(fields: seq<string>) returns (name: string)
    ensures name == match LastValue(fields, PARTITION_NAME) case Some(v) => v case None => ""
  {
    name := "";
    for k := 0 to |fields|
      invariant name == match LastValue(fields[..k], PARTITION_NAME) case Some(v) => v case None => ""
    {
      assert fields[..k + 1][..k] == fields[..k];
      var s := Split(fields[k], '=');
      if |s| == 2 && s[0] == PARTITION_NAME {
        name := s[1];
      }
    }
    assert fields[..|fields|] == fields;
  }

  ghost predicate NamesIn(names: seq<string>, blocks: seq<string>) {
    |names| == |blocks| && forall i :: 0 <= i < |names| ==> names[i] == NameIn(blocks[i])
  }

  method ParsePartitionsNames(raw: string) returns (names: seq<string>)
    ensures NamesIn(names, BlocksOf(raw))
  {
    var partitions := BlocksOf(raw);
    names := [];
    for i := 0 to |partitions|
      invariant |names| == i
      invariant forall k :: 0 <= k < i ==> names[k] == NameIn(partitions[k])
    {
      var name := LastName(Fields(partitions[i]));
      names := names + [name];
    }
  }

  /** No partition is taken for one called "". */
  lemma NoPartitionIsOne(raw: string)
    requires White(raw)
    ensures |BlocksOf(raw)| == 1 && NameIn(BlocksOf(raw)[0]) == ""
  {
    NothingIsOneBlock(raw);
    assert Fields("") == [];
  }

  // ----- job records -------------------------------------------------------------------------

  /** The tagged fields of JobInfo. */
  datatype Tag =
    | JobId | UserId | ArrayJobId | JobName | ExitCode | JobState | SubmitTime | StartTime | RunTime
    | TimeLimit | WorkDir | StdOut | StdErr | Partition | NodeList | BatchHost | NumNodes

  /** In the order in which they are filled. */
  const TAGS: seq<Tag> := [
    JobId, UserId, ArrayJobId, JobName, ExitCode, JobState, SubmitTime, StartTime, RunTime,
    TimeLimit, WorkDir, StdOut, StdErr, Partition, NodeList, BatchHost, NumNodes]

  function Key(tag: Tag): string {
    match tag
    case JobId => "JobId"
    case UserId => "UserId"
    case ArrayJobId => "ArrayJobId"
    case JobName => "JobName"
    case ExitCode => "ExitCode"
    case JobState => "JobState"
    case SubmitTime => "SubmitTime"
    case StartTime => "StartTime"
    case RunTime => "RunTime"
    case TimeLimit => "TimeLimit"
    case WorkDir => "WorkDir"
    case StdOut => "StdOut"
    case StdErr => "StdErr"
    case Partition => "Partition"
    case NodeList => "NodeList"
    case BatchHost => "BatchHost"
    case NumNodes => "NumNodes"
  }

  /** The names the fields of JobInfo are tagged with, in the order of the struct. */
  const FIELD_NAMES: seq<string> := [
    "JobId", "UserId", "ArrayJobId", "JobName", "ExitCode", "JobState", "SubmitTime", "StartTime", "RunTime",
    "TimeLimit", "WorkDir", "StdOut", "StdErr", "Partition", "NodeList", "BatchHost", "NumNodes"]

  lemma KeysAreFieldNames(i: nat)
    requires i < |TAGS|
    ensures |FIELD_NAMES| == |TAGS| && Key(TAGS[i]) == FIELD_NAMES[i]
  {
  }

  /** What a field of JobInfo is set to. */
  datatype Item<T> = Text(text: string) | Time(time: Option<T>) | Span(nanos: int64)

  /** The fields of JobInfo that are set, by tag. */
  type JobInfo<T> = map<Tag, Item<T>>

  /** parseTime; parse stands for time.Parse with Slurm's layout. */
  function TimeOf<T>(text: string, parse: string -> Option<T>): Option<Option<T>> {
    if text == "" || ToLower(text) == "unknown" then Some(None)
    else match parse(text) case None => None case Some(t) => Some(Some(t))
  }

  /** The texts that stand for no time: none, and "unknown" in any case. */
  predicate SaysNoTime(text: string) {
    text == "" || SameButCase(text, "unknown")
  }

  /** Such a text is read as no time whatever parse does, and every other as parse says. */
  lemma TimeIsRead<T>(text: string, parse: string -> Option<T>)
    ensures TimeOf(text, parse) ==
      if SaysNoTime(text) then Some(None)
      else if parse(text).Some? then Some(Some(parse(text).value)) else None
  {
    ToLowerIff(text, "unknown");
    ToLowerKeeps("unknown");
  }

  /** How a field is read: not at all if malformed, to nothing if unlimited. */
  function ItemOf<T>(tag: Tag, text: string, parse: string -> Option<T>): Option<Option<Item<T>>> {
    if tag.SubmitTime? || tag.StartTime? then
      match TimeOf(text, parse) case None => None case Some(t) => Some(Some(Time(t)))
    else if tag.RunTime? || tag.TimeLimit? then
      match DurationOf(text)
      case Parsed(ns) => Some(Some(Span(ns)))
      case Unlimited => Some(None)
      case Malformed => None
    else Some(Some(Text(text)))
  }

  ghost predicate Readable<T(!new)>(fields: seq<string>, tag: Tag, parse: string -> Option<T>) {
    LastValue(fields, Key(tag)).Some? ==> ItemOf(tag, LastValue(fields, Key(tag)).value, parse).Some?
  }

  /** A record is unreadable for a time or a duration that is malformed, and for nothing else. */
  lemma ReadableIff<T(!new)>(fields: seq<string>, tag: Tag, parse: string -> Option<T>)
    ensures !Readable(fields, tag, parse) <==>
      && LastValue(fields, Key(tag)).Some?
      && var text := LastValue(fields, Key(tag)).value;
         || ((tag == SubmitTime || tag == StartTime) && !SaysNoTime(text) && parse(text).None?)
         || ((tag == RunTime || tag == TimeLimit) && DurationOf(text) == Malformed)
  {
    if LastValue(fields, Key(tag)).Some? {
      TimeIsRead(LastValue(fields, Key(tag)).value, parse);
    }
  }

  /** What the fields set under one tag. */
  function ItemIn<T>(fields: seq<string>, tag: Tag, parse: string -> Option<T>): Option<Item<T>> {
    match LastValue(fields, Key(tag))
    case None => None
    case Some(v) => match ItemOf(tag, v, parse) case None => None case Some(item) => item
  }

  ghost predicate AllReadable<T(!new)>(fields: seq<string>, tags: seq<Tag>, parse: string -> Option<T>) {
    forall tag :: tag in tags ==> Readable(fields, tag, parse)
  }

  /** For every tag, the job info has what the last field with that key says, and nothing else is set. */
  ghost predicate Describes<T(!new)>(ji: JobInfo<T>, fields: seq<string>, tags: seq<Tag>, parse: string -> Option<T>) {
    forall tag :: if tag in ji then tag in tags && Some(ji[tag]) == ItemIn(fields, tag, parse)
                  else tag in tags ==> ItemIn(fields, tag, parse).None?
  }

  /** One more tag. */
  lemma DescribesSnoc<T(!new)>(
    ji: JobInfo<T>, fields: seq<string>, tags: seq<Tag>, tag: Tag, parse: string -> Option<T>)
    requires Describes(ji, fields, tags, parse)
    ensures var item := ItemIn(fields, tag, parse);
      Describes(if item.Some? then ji[tag := item.value] else ji, fields, tags + [tag], parse)
  {
  }

  /** The map has the last value for every key. */
  ghost predicate MapsLast(slurmFields: map<string, string>, fields: seq<string>) {
    && (forall key :: key in slurmFields <==> LastValue(fields, key).Some?)
    && (forall key :: key in slurmFields ==> Some(slurmFields[key]) == LastValue(fields, key))
  }

  method FieldMap(fields: seq<string>) returns (slurmFields: map<string, string>)
    ensures MapsLast(slurmFields, fields)
  {
    slurmFields := map[];
    for k := 0 to |fields|
      invariant MapsLast(slurmFields, fields[..k])
    {
      assert fields[..k + 1][..k] == fields[..k];
      var s := Split(fields[k], '=');
      if |s| == 2 {
        slurmFields := slurmFields[s[0] := s[1]];
      }
    }
    assert fields[..|fields|] == fields;
  }

  /** fillFromSlurmFields: over the tagged fields of the struct, in their order. */
  method FillFromSlurmFields<T(!new)>(
    slurmFields: map<string, string>, tags: seq<Tag>, parse: string -> Option<T>, ghost fields: seq<string>)
    returns (ji: Option<JobInfo<T>>)
    requires MapsLast(slurmFields, fields)
    ensures ji.Some? <==> AllReadable(fields, tags, parse)
    ensures ji.Some? ==> Describes(ji.value, fields, tags, parse)
  {
    var done: JobInfo<T> := map[];
    for i := 0 to |tags|
      invariant AllReadable(fields, tags[..i], parse)
      invariant Describes(done, fields, tags[..i], parse)
    {
      var tag := tags[i];
      assert tags[..i + 1] == tags[..i] + [tag];
      DescribesSnoc(done, fields, tags[..i], tag, parse);
      if Key(tag) in slurmFields {
        var item := ItemOf(tag, slurmFields[Key(tag)], parse);
        if item.None? {
          assert !Readable(fields, tag, parse);
          return None;
        }
        if item.value.Some? {
          done := done[tag := item.value.value];
        }
      }
    }
    assert tags[..|tags|] == tags;
    return Some(done);
  }

  /** A block is read: its readable fields are set. */
  ghost predicate Read<T(!new)>(ji: Option<JobInfo<T>>, block: string, tags: seq<Tag>, parse: string -> Option<T>) {
    && (ji.Some? <==> AllReadable(Fields(block), tags, parse))
    && (ji.Some? ==> Describes(ji.value, Fields(block), tags, parse))
  }

  /** All blocks are read in their order, or one of them is not readable. */
  ghost predicate ReadAll<T(!new)>(
    infos: Option<seq<JobInfo<T>>>, blocks: seq<string>, tags: seq<Tag>, parse: string -> Option<T>)
  {
    match infos
    case Some(jobs) => |jobs| == |blocks| && forall k :: 0 <= k < |jobs| ==> Read(Some(jobs[k]), blocks[k], tags, parse)
    case None => exists k :: 0 <= k < |blocks| && Read(None, blocks[k], tags, parse)
  }

  ghost predicate ReadUpTo<T(!new)>(jobs: seq<JobInfo<T>>, blocks: seq<string>, tags: seq<Tag>,
                                    parse: string -> Option<T>, k: nat)
  {
    |jobs| == k <= |blocks| && forall i :: 0 <= i < k ==> Read(Some(jobs[i]), blocks[i], tags, parse)
  }

  lemma ReadOneMore<T(!new)>(jobs: seq<JobInfo<T>>, blocks: seq<string>, tags: seq<Tag>,
                             parse: string -> Option<T>, k: nat, ji: JobInfo<T>)
    requires ReadUpTo(jobs, blocks, tags, parse, k) && k < |blocks| && Read(Some(ji), blocks[k], tags, parse)
    ensures ReadUpTo(jobs + [ji], blocks, tags, parse, k + 1)
  {
  }

  method JobInfoIn<T(!new)>(block: string, tags: seq<Tag>, parse: string -> Option<T>) returns (ji: Option<JobInfo<T>>)
    ensures Read(ji, block, tags, parse)
  {
    var fields := Fields(block);
    var slurmFields := FieldMap(fields);
    ji := FillFromSlurmFields(slurmFields, tags, parse, fields);
  }

  method JobInfos<T(!new)>(rawInfos: seq<string>, tags: seq<Tag>, parse: string -> Option<T>)
    returns (infos: Option<seq<JobInfo<T>>>)
    ensures ReadAll(infos, rawInfos, tags, parse)
  {
    var done: seq<JobInfo<T>> := [];
    for k := 0 to |rawInfos|
      invariant ReadUpTo(done, rawInfos, tags, parse, k)
    {
      var ji := JobInfoIn(rawInfos[k], tags, parse);
      if ji.None? {
        return None;
      }
      ReadOneMore(done, rawInfos, tags, parse, k, ji.value);
      done := done + [ji.value];
    }
    return Some(done);
  }

  method JobInfoFromScontrolResponse<T(!new)>(raw: string, parse: string -> Option<T>)
    returns (infos: Option<seq<JobInfo<T>>>)
    ensures ReadAll(infos, BlocksOf(raw), TAGS, parse)
  {
    infos := JobInfos(BlocksOf(raw), TAGS, parse);
  }

  // ----- printed records are read back -------------------------------------------------------

  /** A field as it is printed. */
  function Field(key: string, value: string): string {
    key + "=" + value
  }

  predicate Plain(s: string) {
    forall i :: 0 <= i < |s| ==> !IsSpace(s[i]) && s[i] != '='
  }

  lemma FieldIsRead(key: string, value: string, other: string)
    requires Plain(key) && Plain(value)
    ensures FieldValue(Field(key, value), other) == if other == key then Some(value) else None
    ensures IsWord(Field(key, value))
  {
    assert Free([key, value], '=');
    SplitJoin([key, value], '=');
    assert Join([value], '=') == value;
    assert Join([key, value], '=') == Field(key, value);
  }

  /** A record: rows of keys and values. */
  type Row = seq<(string, string)>

  predicate PlainRow(row: Row) {
    row != [] && forall i :: 0 <= i < |row| ==> Plain(row[i].0) && Plain(row[i].1)
  }

  predicate PlainRecord(rows: seq<Row>) {
    rows != [] && forall i :: 0 <= i < |rows| ==> PlainRow(rows[i])
  }

  function Words(row: Row): seq<string> {
    seq(|row|, i requires 0 <= i < |row| => Field(row[i].0, row[i].1))
  }

  /** scontrol's layout: a line per row, all but the first indented. */
  function PrintRecord(rows: seq<Row>): string {
    if rows == [] then ""
    else
      var line := Join(Words(rows[0]), ' ');
      if |rows| == 1 then line else line + "\n   " + PrintRecord(rows[1..])
  }

  function AllWordsOf(rows: seq<Row>): seq<string> {
    if rows == [] then [] else Words(rows[0]) + AllWordsOf(rows[1..])
  }

  lemma {:induction false} WordsEnds(words: seq<string>)
    requires AllWords(words) && words != []
    ensures var s := Join(words, ' '); s != "" && !IsSpace(s[0]) && !IsSpace(s[|s| - 1])
  {
    if |words| > 1 {
      WordsEnds(words[1..]);
    }
  }

  lemma RowIsLine(row: Row)
    requires PlainRow(row)
    ensures AllWords(Words(row)) && Fields(Join(Words(row), ' ')) == Words(row)
    ensures var line := Join(Words(row), ' ');
      line != "" && !IsSpace(line[0]) && !IsSpace(line[|line| - 1]) && '\n' !in line
  {
    var words := Words(row);
    forall i | 0 <= i < |words| ensures IsWord(words[i]) && '\n' !in words[i] {
      FieldIsRead(row[i].0, row[i].1, "");
      assert IsSpace('\n');
    }
    FieldsJoin(words);
    JoinFree(words, ' ', '\n');
    WordsEnds(words);
  }

  /** The first field of a text that starts with one. */
  lemma FieldsWord(a: string, rest: string)
    requires a != "" && !IsSpace(a[0]) && rest != "" && IsSpace(rest[0])
    ensures var n := WordEnd(a, 1);
      Fields(a + rest) == [a[..n]] + Fields(a[n..] + rest) && Fields(a) == [a[..n]] + Fields(a[n..])
  {
    var n, s := WordEnd(a, 1), a + rest;
    WordEndStops(a, 1);
    assert forall k :: 1 <= k < n ==> s[k] == a[k];
    WordEndIs(s, 1, n);
    assert s[..n] == a[..n] && s[n..] == a[n..] + rest;
  }

  /** White space separates fields wherever it stands. */
  lemma {:induction false} FieldsApart(a: string, sp: char, b: string)
    requires IsSpace(sp)
    ensures Fields(a + ([sp] + b)) == Fields(a) + Fields(b)
    decreases |a|
  {
    var rest := [sp] + b;
    if a == "" {
      assert a + rest == rest;
      FieldsSkip(sp, b);
    } else if IsSpace(a[0]) {
      FieldsApart(a[1..], sp, b);
      assert (a + rest)[1..] == a[1..] + rest;
    } else {
      FieldsWord(a, rest);
      FieldsApart(a[WordEnd(a, 1)..], sp, b);
    }
  }

  lemma FieldsIndented(s: string)
    ensures Fields("   " + s) == Fields(s)
  {
    FieldsSkip(' ', s);
    FieldsSkip(' ', [' '] + s);
    FieldsSkip(' ', [' '] + ([' '] + s));
    assert "   " + s == [' '] + ([' '] + ([' '] + s));
  }

  lemma FieldsNextLine(line: string, rest: string)
    ensures Fields(line + "\n   " + rest) == Fields(line) + Fields(rest)
  {
    var indented := "   " + rest;
    FieldsApart(line, '\n', indented);
    FieldsIndented(rest);
    assert "\n   " + rest == ['\n'] + indented;
    Associate(line, "\n   ", rest);
  }

  lemma LineAndBlock(line: string, rest: string)
    requires line != "" && !IsSpace(line[0]) && '\n' !in line && IsBlock(rest)
    ensures IsBlock(line + "\n   " + rest)
  {
    var s := line + "\n   " + rest;
    var n := |line| + 4;
    forall k | 0 <= k < |s| ensures !BlankAt(s, k) {
      if k < |line| {
        assert s[k] == line[k];
      } else if k >= n {
        assert !BlankAt(rest, k - n);
        assert s[k] == rest[k - n];
        if k + 1 < |s| {
          assert s[k + 1] == rest[k + 1 - n];
        }
      }
    }
  }

  lemma {:induction false} RecordIsBlock(rows: seq<Row>)
    requires PlainRecord(rows)
    ensures IsBlock(PrintRecord(rows)) && Fields(PrintRecord(rows)) == AllWordsOf(rows)
  {
    var line := Join(Words(rows[0]), ' ');
    RowIsLine(rows[0]);
    if |rows| > 1 {
      var rest := PrintRecord(rows[1..]);
      RecordIsBlock(rows[1..]);
      LineAndBlock(line, rest);
      FieldsNextLine(line, rest);
    } else {
      assert AllWordsOf(rows[1..]) == [];
    }
  }

  function LastInRow(row: Row, key: string): Option<string> {
    if row == [] then None
    else if row[|row| - 1].0 == key then Some(row[|row| - 1].1)
    else LastInRow(row[..|row| - 1], key)
  }

  /** The last value given for a key anywhere in a record. */
  function LastIn(rows: seq<Row>, key: string): Option<string> {
    if rows == [] then None
    else
      match LastIn(rows[1..], key)
      case Some(v) => Some(v)
      case None => LastInRow(rows[0], key)
  }

  lemma {:induction false} LastAppend(a: seq<string>, b: seq<string>, key: string)
    ensures LastValue(a + b, key) == if LastValue(b, key).Some? then LastValue(b, key) else LastValue(a, key)
  {
    if b == [] {
      assert a + b == a;
    } else {
      assert (a + b)[..|a + b| - 1] == a + b[..|b| - 1];
      LastAppend(a, b[..|b| - 1], key);
    }
  }

  lemma {:induction false} LastOfRow(row: Row, key: string)
    requires forall i :: 0 <= i < |row| ==> Plain(row[i].0) && Plain(row[i].1)
    ensures LastValue(Words(row), key) == LastInRow(row, key)
  {
    if row != [] {
      var front, last := row[..|row| - 1], row[|row| - 1];
      FieldIsRead(last.0, last.1, key);
      LastOfRow(front, key);
      assert Words(row)[..|row| - 1] == Words(front);
    }
  }

  lemma {:induction false} LastOfRecord(rows: seq<Row>, key: string)
    requires forall i :: 0 <= i < |rows| ==> PlainRow(rows[i])
    ensures LastValue(AllWordsOf(rows), key) == LastIn(rows, key)
  {
    if rows != [] {
      LastOfRow(rows[0], key);
      LastOfRecord(rows[1..], key);
      LastAppend(Words(rows[0]), AllWordsOf(rows[1..]), key);
    }
  }

  function PrintRecords(records: seq<seq<Row>>): seq<string> {
    seq(|records|, i requires 0 <= i < |records| => PrintRecord(records[i]))
  }

  /** Under every key the block has the value last given for it in the record. */
  ghost predicate SameValues(block: string, rows: seq<Row>) {
    forall key :: LastValue(Fields(block), key) == LastIn(rows, key)
  }

  /** As many blocks as records, in the same order and with the same values. */
  ghost predicate SameRecords(blocks: seq<string>, records: seq<seq<Row>>) {
    |blocks| == |records| && forall i :: 0 <= i < |records| ==> SameValues(blocks[i], records[i])
  }

  /**
   * Printed records are read back: of any list of records, laid out like scontrol does, with any white
   * space around them, the readers find as many blocks in the same order, and in each of them under
   * every key the value last given for it -- if and only if there is a record.
   */
  lemma RecordsRoundTrip(before: string, records: seq<seq<Row>>, after: string)
    requires White(before) && White(after) && forall i :: 0 <= i < |records| ==> PlainRecord(records[i])
    ensures var blocks := BlocksOf(before + JoinBlank(PrintRecords(records)) + after);
      (SameRecords(blocks, records) <==> records != []) && (records == [] ==> blocks == [""])
  {
    var printed := PrintRecords(records);
    forall i | 0 <= i < |printed|
      ensures IsBlock(printed[i]) && SameValues(printed[i], records[i])
    {
      RecordIsBlock(records[i]);
      forall key ensures LastValue(Fields(printed[i]), key) == LastIn(records[i], key) {
        LastOfRecord(records[i], key);
      }
    }
    BlocksRoundTrip(before, printed, after);
  }

  /** The last name given in a record, if there is one. */
  function NameGiven(rows: seq<Row>): string {
    match LastIn(rows, "PartitionName") case Some(name) => name case None => ""
  }

  /**
   * Printed partitions are read back by their names, each of them and in their order, if and only if
   * there is one; of none one called "" is read.
   */
  lemma NamesRoundTrip(before: string, records: seq<seq<Row>>, after: string, names: seq<string>)
    requires White(before) && White(after) && forall i :: 0 <= i < |records| ==> PlainRecord(records[i])
    requires NamesIn(names, BlocksOf(before + JoinBlank(PrintRecords(records)) + after))
    ensures records != [] ==>
      |names| == |records| && forall i :: 0 <= i < |records| ==> names[i] == NameGiven(records[i])
    ensures records == [] ==> names == [""]
  {
    RecordsRoundTrip(before, records, after);
    if records == [] {
      NoPartitionIsOne(before + JoinBlank(PrintRecords(records)) + after);
    } else {
      forall i | 0 <= i < |records| ensures names[i] == NameGiven(records[i]) {
        assert SameValues(BlocksOf(before + JoinBlank(PrintRecords(records)) + after)[i], records[i]);
      }
    }
  }

  // ----- printed jobs are read back ----------------------------------------------------------

  predicate IsTime(tag: Tag) {
    tag.SubmitTime? || tag.StartTime?
  }

  predicate IsSpan(tag: Tag) {
    tag.RunTime? || tag.TimeLimit?
  }

  /** days-hours:minutes:seconds, without leading zeros: one of the ways to write whole seconds. */
  function PrintSpan(nanos: int): string {
    var s := nanos / SECOND;
    Print(DHMS(s / 86400, s / 3600 % 24, s / 60 % 60, s % 60))
  }

  /** How an item is printed; show writes times. */
  function ItemText<T>(item: Item<T>, show: Option<T> -> string): string {
    match item
    case Text(text) => text
    case Time(t) => show(t)
    case Span(ns) => PrintSpan(ns)
  }

  /** The item is of the tag's kind and can be printed: spans are whole seconds, and no text holds a delimiter. */
  predicate PrintableItem<T>(tag: Tag, item: Item<T>, show: Option<T> -> string) {
    match item
    case Text(text) => !IsTime(tag) && !IsSpan(tag) && Plain(text)
    case Time(t) => IsTime(tag) && Plain(show(t))
    case Span(ns) => IsSpan(tag) && ns >= 0 && ns % SECOND == 0
  }

  ghost predicate PrintableJob<T(!new)>(ji: JobInfo<T>, show: Option<T> -> string) {
    forall tag :: tag in ji ==> PrintableItem(tag, ji[tag], show)
  }

  /** No time is written as one of the texts for it, a time as another text, which parse reads as that time. */
  ghost predicate WritesTimes<T(!new)>(show: Option<T> -> string, parse: string -> Option<T>) {
    && SaysNoTime(show(None))
    && forall t :: !SaysNoTime(show(Some(t))) && parse(show(Some(t))) == Some(t)
  }

  /** Times written so are read back. */
  lemma WrittenTimeIsRead<T(!new)>(show: Option<T> -> string, parse: string -> Option<T>, t: Option<T>)
    requires WritesTimes(show, parse)
    ensures TimeOf(show(t), parse) == Some(t)
  {
    TimeIsRead(show(t), parse);
    if t.Some? {
      assert !SaysNoTime(show(Some(t.value))) && parse(show(Some(t.value))) == Some(t.value);
    }
  }

  lemma SpanParts(s: nat)
    ensures 86400 * (s / 86400) + 3600 * (s / 3600 % 24) + 60 * (s / 60 % 60) + s % 60 == s
    ensures s / 3600 / 24 == s / 86400 && s / 60 / 60 == s / 3600
  {
    var m := s / 60;
    assert s == 60 * m + s % 60;
    var h := m / 60;
    assert m == 60 * h + m % 60;
    var d := h / 24;
    assert h == 24 * d + h % 24;
    assert h == s / 3600;
    assert d == s / 86400;
  }

  lemma NanosOfParts(d: int, h: int, m: int, r: int)
    ensures Nanos(DHMS(d, h, m, r)) == SECOND * (86400 * d + 3600 * h + 60 * m + r)
  {
  }

  lemma SpanIsRead(sh: Shape<int>, ns: int64)
    requires sh.DHMS? && sh.d >= 0 && Fits(sh.d) && 0 <= sh.h < 24 && 0 <= sh.m < 60 && 0 <= sh.s < 60
    requires Nanos(sh) == ns
    ensures DurationOf(Print(sh)) == Parsed(ns)
  {
    ReadPrinted(sh);
  }

  lemma SpanRoundTrip(ns: int64)
    requires ns >= 0 && ns % SECOND == 0
    ensures DurationOf(PrintSpan(ns)) == Parsed(ns)
  {
    var s: nat := ns / SECOND;
    var d, h, m, r := s / 86400, s / 3600 % 24, s / 60 % 60, s % 60;
    SpanParts(s);
    NanosOfParts(d, h, m, r);
    assert Fits(ns) && SECOND * s == ns;
    SpanIsRead(DHMS(d, h, m, r), ns);
  }

  lemma FormatIntIsPlain(x: int)
    ensures Plain(FormatInt(x))
  {
    FormatIntChars(x);
  }

  lemma {:induction false} JoinIsPlain(parts: seq<string>, c: char)
    requires !IsSpace(c) && c != '=' && forall i :: 0 <= i < |parts| ==> Plain(parts[i])
    ensures Plain(Join(parts, c))
  {
    if |parts| > 1 {
      JoinIsPlain(parts[1..], c);
    }
  }

  lemma SpanIsPlain(nanos: nat)
    requires Fits(nanos)
    ensures Plain(PrintSpan(nanos))
  {
    var s := nanos / SECOND;
    var d, h, m, r := s / 86400, s / 3600 % 24, s / 60 % 60, s % 60;
    forall x | x in [d, h, m, r] ensures Plain(FormatInt(x)) {
      FormatIntIsPlain(x);
    }
    var parts := [FormatInt(d) + ['-'] + FormatInt(h), FormatInt(m), FormatInt(r)];
    assert Plain(parts[0]) && Plain(parts[1]) && Plain(parts[2]);
    JoinIsPlain(parts, ':');
  }

  lemma ItemRoundTrip<T(!new)>(tag: Tag, item: Item<T>, show: Option<T> -> string, parse: string -> Option<T>)
    requires PrintableItem(tag, item, show) && WritesTimes(show, parse)
    ensures ItemOf(tag, ItemText(item, show), parse) == Some(Some(item)) && Plain(ItemText(item, show))
  {
    if item.Span? {
      SpanRoundTrip(item.nanos);
      SpanIsPlain(item.nanos);
    } else if item.Time? {
      WrittenTimeIsRead(show, parse, item.time);
    }
  }

  /** The item is of the tag's kind. */
  predicate OfKind<T>(tag: Tag, item: Item<T>) {
    match item
    case Text(_) => !IsTime(tag) && !IsSpan(tag)
    case Time(_) => IsTime(tag)
    case Span(_) => IsSpan(tag)
  }

  ghost predicate WellTyped<T(!new)>(ji: JobInfo<T>) {
    forall tag :: tag in ji ==> OfKind(tag, ji[tag])
  }

  /** The text stands for the item; a duration may be written in any of its shapes, with leading zeros or without. */
  predicate Shows<T>(text: string, item: Item<T>, show: Option<T> -> string) {
    match item
    case Text(t) => text == t
    case Time(t) => text == show(t)
    case Span(ns) => DurationOf(text) == Parsed(ns)
  }

  predicate GivesItem<T>(given: Option<string>, tag: Tag, ji: JobInfo<T>, show: Option<T> -> string) {
    if tag in ji then given.Some? && Shows(given.value, ji[tag], show)
    else given.None? || (IsSpan(tag) && given == Some(UNLIMITED))
  }

  /**
   * The record gives every item of the job under its key, and nothing under the other keys; a duration
   * that is not set may be given as unlimited.  Fields with other keys may stand anywhere.
   */
  ghost predicate Gives<T(!new)>(rows: seq<Row>, ji: JobInfo<T>, show: Option<T> -> string) {
    && PlainRecord(rows)
    && forall tag :: GivesItem(LastIn(rows, Key(tag)), tag, ji, show)
  }

  lemma ShownIsRead<T(!new)>(
    tag: Tag, text: string, item: Item<T>, show: Option<T> -> string, parse: string -> Option<T>)
    requires OfKind(tag, item) && Shows(text, item, show) && WritesTimes(show, parse)
    ensures ItemOf(tag, text, parse) == Some(Some(item))
  {
    if item.Time? {
      WrittenTimeIsRead(show, parse, item.time);
    }
  }

  lemma GivenIsRead<T(!new)>(fields: seq<string>, rows: seq<Row>, tag: Tag, ji: JobInfo<T>,
                             show: Option<T> -> string, parse: string -> Option<T>)
    requires WellTyped(ji) && WritesTimes(show, parse)
    requires LastValue(fields, Key(tag)) == LastIn(rows, Key(tag)) && GivesItem(LastIn(rows, Key(tag)), tag, ji, show)
    ensures Readable(fields, tag, parse)
    ensures ItemIn(fields, tag, parse) == if tag in ji then Some(ji[tag]) else None
  {
    if tag in ji {
      ShownIsRead(tag, LastIn(rows, Key(tag)).value, ji[tag], show, parse);
    }
  }

  lemma AllTags(tag: Tag)
    ensures tag in TAGS
  {
    var i := match tag
      case JobId => 0 case UserId => 1 case ArrayJobId => 2 case JobName => 3 case ExitCode => 4
      case JobState => 5 case SubmitTime => 6 case StartTime => 7 case RunTime => 8 case TimeLimit => 9
      case WorkDir => 10 case StdOut => 11 case StdErr => 12 case Partition => 13 case NodeList => 14
      case BatchHost => 15 case NumNodes => 16;
    assert TAGS[i] == tag;
  }

  lemma BlockIsRead<T(!new)>(block: string, rows: seq<Row>, ji: JobInfo<T>, tags: seq<Tag>,
                             show: Option<T> -> string, parse: string -> Option<T>)
    requires WellTyped(ji) && WritesTimes(show, parse) && Gives(rows, ji, show)
    requires SameValues(block, rows)
    requires forall tag :: tag in tags
    ensures Read(Some(ji), block, tags, parse)
  {
    var fields := Fields(block);
    forall tag
      ensures Readable(fields, tag, parse)
      ensures ItemIn(fields, tag, parse) == if tag in ji then Some(ji[tag]) else None
    {
      GivenIsRead(fields, rows, tag, ji, show, parse);
    }
  }

  lemma ReadOnce<T(!new)>(
    a: JobInfo<T>, b: Option<JobInfo<T>>, block: string, tags: seq<Tag>, parse: string -> Option<T>)
    requires Read(Some(a), block, tags, parse) && Read(b, block, tags, parse)
    ensures b == Some(a)
  {
    forall tag ensures (tag in a <==> tag in b.value) && (tag in a ==> a[tag] == b.value[tag]) {
      assert tag in a ==> Some(a[tag]) == ItemIn(Fields(block), tag, parse);
    }
    assert a == b.value;
  }

  lemma ReadAllOnce<T(!new)>(jobs: seq<JobInfo<T>>, infos: Option<seq<JobInfo<T>>>, blocks: seq<string>, tags: seq<Tag>,
                             parse: string -> Option<T>)
    requires |jobs| == |blocks| && forall k :: 0 <= k < |jobs| ==> Read(Some(jobs[k]), blocks[k], tags, parse)
    requires ReadAll(infos, blocks, tags, parse)
    ensures infos == Some(jobs)
  {
    if infos.Some? {
      forall k | 0 <= k < |jobs| ensures infos.value[k] == jobs[k] {
        ReadOnce(jobs[k], Some(infos.value[k]), blocks[k], tags, parse);
      }
      assert infos.value == jobs;
    }
  }

  /** Output with nothing in it is read as one job with nothing set. */
  lemma NoJobIsOne<T(!new)>(raw: string, parse: string -> Option<T>, infos: Option<seq<JobInfo<T>>>)
    requires White(raw) && ReadAll(infos, BlocksOf(raw), TAGS, parse)
    ensures infos == Some([map[]])
  {
    var nothing: JobInfo<T> := map[];
    var tags := TAGS;
    NothingIsOneBlock(raw);
    assert Fields("") == [];
    assert Read(Some(nothing), "", tags, parse);
    ReadAllOnce([nothing], infos, [""], tags, parse);
  }

  lemma JobsFound<T(!new)>(records: seq<seq<Row>>, jobs: seq<JobInfo<T>>, blocks: seq<string>,
                           show: Option<T> -> string, parse: string -> Option<T>, infos: Option<seq<JobInfo<T>>>)
    requires |records| == |jobs| && WritesTimes(show, parse) && SameRecords(blocks, records)
    requires forall i :: 0 <= i < |jobs| ==> WellTyped(jobs[i]) && Gives(records[i], jobs[i], show)
    requires ReadAll(infos, blocks, TAGS, parse)
    ensures infos == Some(jobs)
  {
    forall tag ensures tag in TAGS {
      AllTags(tag);
    }
    var tags := TAGS;
    forall i | 0 <= i < |jobs| ensures Read(Some(jobs[i]), blocks[i], tags, parse) {
      BlockIsRead(blocks[i], records[i], jobs[i], tags, show, parse);
    }
    ReadAllOnce(jobs, infos, blocks, tags, parse);
  }

  /**
   * Printed jobs are read back: whatever the layout of their records and the white space around them,
   * reading the output gives exactly the jobs, texts, times and durations, in their order, if and only
   * if there is a job.  Of none one is read with nothing set.
   */
  lemma JobsRoundTrip<T(!new)>(before: string, records: seq<seq<Row>>, jobs: seq<JobInfo<T>>, after: string,
                               show: Option<T> -> string, parse: string -> Option<T>, infos: Option<seq<JobInfo<T>>>)
    requires White(before) && White(after) && |records| == |jobs| && WritesTimes(show, parse)
    requires forall i :: 0 <= i < |jobs| ==> WellTyped(jobs[i]) && Gives(records[i], jobs[i], show)
    requires ReadAll(infos, BlocksOf(before + JoinBlank(PrintRecords(records)) + after), TAGS, parse)
    ensures infos == Some(jobs) <==> jobs != []
    ensures jobs == [] ==> infos == Some([map[]])
  {
    RecordsRoundTrip(before, records, after);
    if jobs == [] {
      NoJobIsOne(before + JoinBlank(PrintRecords(records)) + after, parse, infos);
    } else {
      JobsFound(records, jobs, BlocksOf(before + JoinBlank(PrintRecords(records)) + after), show, parse, infos);
    }
  }

  /** Length, first and last letter tell the keys apart. */
  function Features(tag: Tag): (nat, char, char) {
    match tag
    case JobId => (5, 'J', 'd')
    case UserId => (6, 'U', 'd')
    case ArrayJobId => (10, 'A', 'd')
    case JobName => (7, 'J', 'e')
    case ExitCode => (8, 'E', 'e')
    case JobState => (8, 'J', 'e')
    case SubmitTime => (10, 'S', 'e')
    case StartTime => (9, 'S', 'e')
    case RunTime => (7, 'R', 'e')
    case TimeLimit => (9, 'T', 't')
    case WorkDir => (7, 'W', 'r')
    case StdOut => (6, 'S', 't')
    case StdErr => (6, 'S', 'r')
    case Partition => (9, 'P', 'n')
    case NodeList => (8, 'N', 't')
    case BatchHost => (9, 'B', 't')
    case NumNodes => (8, 'N', 's')
  }

  lemma KeyFeatures(tag: Tag)
    ensures var key := Key(tag);
      Features(tag).0 == |key| > 0 && Features(tag).1 == key[0] && Features(tag).2 == key[|key| - 1]
  {
  }

  lemma FeaturesDiffer(a: Tag, b: Tag)
    requires Features(a) == Features(b)
    ensures a == b
  {
  }

  lemma KeysDiffer(a: Tag, b: Tag)
    ensures Key(a) == Key(b) <==> a == b
  {
    KeyFeatures(a);
    KeyFeatures(b);
    if Key(a) == Key(b) {
      FeaturesDiffer(a, b);
    }
  }

  lemma JobKeyIsPlain(tag: Tag)
    requires tag.JobId? || tag.UserId? || tag.ArrayJobId? || tag.JobName? || tag.ExitCode? || tag.JobState?
    ensures Plain(Key(tag))
  {
  }

  lemma TimeKeyIsPlain(tag: Tag)
    requires tag.SubmitTime? || tag.StartTime? || tag.RunTime? || tag.TimeLimit? || tag.WorkDir? || tag.StdOut?
    ensures Plain(Key(tag))
  {
  }

  lemma HostKeyIsPlain(tag: Tag)
    requires tag.StdErr? || tag.Partition? || tag.NodeList? || tag.BatchHost? || tag.NumNodes?
    ensures Plain(Key(tag))
  {
  }

  lemma KeyIsPlain(tag: Tag)
    ensures Plain(Key(tag))
  {
    match tag
    case JobId | UserId | ArrayJobId | JobName | ExitCode | JobState => JobKeyIsPlain(tag);
    case SubmitTime | StartTime | RunTime | TimeLimit | WorkDir | StdOut => TimeKeyIsPlain(tag);
    case _ => HostKeyIsPlain(tag);
  }

  /** One row for each item that is set, in the order of the tags. */
  function RecordOf<T>(ji: JobInfo<T>, tags: seq<Tag>, show: Option<T> -> string): seq<Row> {
    if tags == [] then []
    else
      var rest := RecordOf(ji, tags[1..], show);
      if tags[0] in ji then [[(Key(tags[0]), ItemText(ji[tags[0]], show))]] + rest else rest
  }

  lemma LastInOneMore(key: string, value: string, rows: seq<Row>, other: string)
    ensures LastIn([[(key, value)]] + rows, other) ==
      if LastIn(rows, other).Some? then LastIn(rows, other) else if key == other then Some(value) else None
  {
    var row: Row := [(key, value)];
    var all: seq<Row> := [row] + rows;
    assert row[..0] == [] && LastInRow([], other) == None;
    assert LastInRow(row, other) == if key == other then Some(value) else None;
    assert all[0] == row && all[1..] == rows;
  }

  lemma {:induction false} RecordOfHas<T>(ji: JobInfo<T>, tags: seq<Tag>, tag: Tag, show: Option<T> -> string)
    ensures LastIn(RecordOf(ji, tags, show), Key(tag)) ==
      if tag in tags && tag in ji then Some(ItemText(ji[tag], show)) else None
  {
    if tags != [] {
      var first := tags[0];
      RecordOfHas(ji, tags[1..], tag, show);
      KeysDiffer(first, tag);
      if first in ji {
        LastInOneMore(Key(first), ItemText(ji[first], show), RecordOf(ji, tags[1..], show), Key(tag));
      }
    }
  }

  lemma {:induction false} RecordOfIsPlain<T(!new)>(
    ji: JobInfo<T>, tags: seq<Tag>, show: Option<T> -> string, parse: string -> Option<T>)
    requires PrintableJob(ji, show) && WritesTimes(show, parse)
    ensures forall i :: 0 <= i < |RecordOf(ji, tags, show)| ==> PlainRow(RecordOf(ji, tags, show)[i])
  {
    if tags != [] {
      RecordOfIsPlain(ji, tags[1..], show, parse);
      if tags[0] in ji {
        KeyIsPlain(tags[0]);
        ItemRoundTrip(tags[0], ji[tags[0]], show, parse);
      }
    }
  }

  lemma TextShows<T(!new)>(tag: Tag, item: Item<T>, show: Option<T> -> string)
    requires PrintableItem(tag, item, show)
    ensures OfKind(tag, item) && Shows(ItemText(item, show), item, show)
  {
    if item.Span? {
      SpanRoundTrip(item.nanos);
    }
  }

  /** Every printable job of which anything is set has such a record. */
  lemma RecordOfGives<T(!new)>(ji: JobInfo<T>, tag: Tag, show: Option<T> -> string, parse: string -> Option<T>)
    requires PrintableJob(ji, show) && WritesTimes(show, parse) && tag in ji
    ensures WellTyped(ji) && Gives(RecordOf(ji, TAGS, show), ji, show)
  {
    var tags := TAGS;
    RecordOfIsPlain(ji, tags, show, parse);
    forall t ensures GivesItem(LastIn(RecordOf(ji, tags, show), Key(t)), t, ji, show) {
      AllTags(t);
      RecordOfHas(ji, tags, t, show);
      if t in ji {
        TextShows(t, ji[t], show);
      }
    }
    forall t | t in ji ensures OfKind(t, ji[t]) {
      TextShows(t, ji[t], show);
    }
    AllTags(tag);
    RecordOfHas(ji, tags, tag, show);
  }

  // ----- sacct -------------------------------------------------------------------------------

  datatype JobStep<T> = JobStep(
    started: Option<T>, finished: Option<T>, exitCode: int64, state: string, id: string, name: string)

  function StepOfParts<T>(parts: seq<string>, parse: string -> Option<T>): Option<JobStep<T>> {
    if |parts| != 7 then None
    else
      var code := Split(parts[2], ':');
      match (TimeOf(parts[0], parse), TimeOf(parts[1], parse))
      case (Some(started), Some(finished)) =>
        if |code| != 2 || ParseInt(code[0]).None? then None
        else Some(JobStep(started, finished, ParseInt(code[0]).value, parts[3], parts[4], parts[5]))
      case _ => None
  }

  /** One line: five sections, the exit code among them in two parts, the name, and a section nobody looks at. */
  function StepOf<T>(line: string, parse: string -> Option<T>): Option<JobStep<T>> {
    StepOfParts(Split(line, '|'), parse)
  }

  function TrimFeedsLeft(s: string): string {
    if s != "" && s[0] == '\n' then TrimFeedsLeft(s[1..]) else s
  }

  function TrimFeedsRight(s: string): string {
    if s != "" && s[|s| - 1] == '\n' then TrimFeedsRight(s[..|s| - 1]) else s
  }

  /** The lines of sacct's output, without line feeds at its ends. */
  function LinesOf(raw: string): (lines: seq<string>)
    ensures lines != []
  {
    Split(TrimFeedsRight(TrimFeedsLeft(raw)), '\n')
  }

  method ParseStep<T(!new)>(line: string, parse: string -> Option<T>) returns (step: Option<JobStep<T>>)
    ensures step == StepOf(line, parse)
  {
    var parts := Split(line, '|');
    if |parts| != 7 {
      return None;
    }
    var started := TimeOf(parts[0], parse);
    if started.None? {
      return None;
    }
    var finished := TimeOf(parts[1], parse);
    if finished.None? {
      return None;
    }
    var code := Split(parts[2], ':');
    if |code| != 2 {
      return None;
    }
    var exitCode := ParseInt(code[0]);
    if exitCode.None? {
      return None;
    }
    return Some(JobStep(started.value, finished.value, exitCode.value, parts[3], parts[4], parts[5]));
  }

  /** All lines are read in their order, or one of them is malformed. */
  ghost predicate ReadSteps<T(!new)>(steps: Option<seq<JobStep<T>>>, lines: seq<string>, parse: string -> Option<T>) {
    match steps
    case Some(all) => |all| == |lines| && forall i :: 0 <= i < |all| ==> StepOf(lines[i], parse) == Some(all[i])
    case None => exists i :: 0 <= i < |lines| && StepOf(lines[i], parse).None?
  }

  method ParseSacctResponse<T(!new)>(raw: string, parse: string -> Option<T>) returns (steps: Option<seq<JobStep<T>>>)
    ensures ReadSteps(steps, LinesOf(raw), parse)
  {
    var lines := LinesOf(raw);
    var infos: seq<JobStep<T>> := [];
    for i := 0 to |lines|
      invariant |infos| == i
      invariant forall k :: 0 <= k < i ==> StepOf(lines[k], parse) == Some(infos[k])
    {
      var step := ParseStep(lines[i], parse);
      if step.None? {
        return None;
      }
      infos := infos + [step.value];
    }
    return Some(infos);
  }

  /** No character that has a meaning in sacct's output. */
  predicate Inert(s: string) {
    '|' !in s && '\n' !in s && ':' !in s
  }

  predicate Section(s: string) {
    '|' !in s && '\n' !in s
  }

  function Sections<T>(step: JobStep<T>, show: Option<T> -> string, signal: string): seq<string> {
    [show(step.started), show(step.finished), Join([FormatInt(step.exitCode), signal], ':'),
     step.state, step.id, step.name, ""]
  }

  /** A step as sacct prints it; show writes times, signal follows the exit code. */
  function PrintStep<T>(step: JobStep<T>, show: Option<T> -> string, signal: string): string {
    Join(Sections(step, show, signal), '|')
  }

  /** Times are written without delimiters, and so that they can be read. */
  ghost predicate ShowsTimes<T(!new)>(show: Option<T> -> string, parse: string -> Option<T>) {
    WritesTimes(show, parse) && forall t :: Section(show(t))
  }

  predicate Printable<T>(step: JobStep<T>) {
    Section(step.state) && Section(step.id) && Section(step.name)
  }

  lemma TwoParts(a: string, b: string)
    requires Inert(a) && Inert(b)
    ensures Section(Join([a, b], ':')) && Split(Join([a, b], ':'), ':') == [a, b]
  {
    var parts := [a, b];
    SplitJoin(parts, ':');
    JoinFree(parts, ':', '|');
    JoinFree(parts, ':', '\n');
  }

  lemma CodeRoundTrip(exitCode: int64, signal: string)
    requires Inert(signal)
    ensures var code := Join([FormatInt(exitCode), signal], ':');
      Section(code) && Split(code, ':') == [FormatInt(exitCode), signal]
    ensures ParseInt(FormatInt(exitCode)) == Some(exitCode)
  {
    FormatIntChars(exitCode);
    ParseFormat(exitCode);
    TwoParts(FormatInt(exitCode), signal);
  }

  lemma StepIsLine<T(!new)>(step: JobStep<T>, show: Option<T> -> string, signal: string)
    requires Printable(step) && (forall t :: Section(show(t))) && Inert(signal)
    ensures '\n' !in PrintStep(step, show, signal) && PrintStep(step, show, signal) != ""
  {
    var sections := Sections(step, show, signal);
    CodeRoundTrip(step.exitCode, signal);
    JoinFree(sections, '|', '\n');
    JoinMore(sections, '|');
  }

  lemma StepRoundTrip<T(!new)>(step: JobStep<T>, show: Option<T> -> string, signal: string, parse: string -> Option<T>)
    requires Printable(step) && ShowsTimes(show, parse) && Inert(signal)
    ensures StepOf(PrintStep(step, show, signal), parse) == Some(step)
  {
    var sections := Sections(step, show, signal);
    CodeRoundTrip(step.exitCode, signal);
    assert Section(show(step.started)) && Section(show(step.finished));
    WrittenTimeIsRead(show, parse, step.started);
    WrittenTimeIsRead(show, parse, step.finished);
    SplitJoin(sections, '|');
  }

  /** The line has seven sections, an exit code of two parts, and readable times and numbers. */
  ghost predicate Line<T(!new)>(
    line: string, step: JobStep<T>, parse: string -> Option<T>,
    start: string, end: string, code: seq<string>, rest: string)
  {
    var sections := [start, end, Join(code, ':'), step.state, step.id, step.name, rest];
    && Free(sections, '|') && line == Join(sections, '|')
    && |code| == 2 && Free(code, ':') && ParseInt(code[0]) == Some(step.exitCode)
    && TimeOf(start, parse) == Some(step.started) && TimeOf(end, parse) == Some(step.finished)
  }

  lemma LineIsRead<T(!new)>(
    line: string, step: JobStep<T>, parse: string -> Option<T>,
    start: string, end: string, code: seq<string>, rest: string)
    requires Line(line, step, parse, start, end, code, rest)
    ensures StepOf(line, parse) == Some(step)
  {
    var sections := [start, end, Join(code, ':'), step.state, step.id, step.name, rest];
    SplitJoin(sections, '|');
    SplitJoin(code, ':');
  }

  lemma SectionsOfStep<T(!new)>(parts: seq<string>, step: JobStep<T>, parse: string -> Option<T>)
    requires StepOfParts(parts, parse) == Some(step)
    ensures |parts| == 7 && |Split(parts[2], ':')| == 2
    ensures parts == [parts[0], parts[1], parts[2], step.state, step.id, step.name, parts[6]]
    ensures ParseInt(Split(parts[2], ':')[0]) == Some(step.exitCode)
    ensures TimeOf(parts[0], parse) == Some(step.started) && TimeOf(parts[1], parse) == Some(step.finished)
  {
  }

  lemma ReadLineIsWritten<T(!new)>(line: string, step: JobStep<T>, parse: string -> Option<T>)
    requires StepOf(line, parse) == Some(step)
    ensures exists start, end, code, rest :: Line(line, step, parse, start, end, code, rest)
  {
    var parts := Split(line, '|');
    SectionsOfStep(parts, step, parse);
    var code := Split(parts[2], ':');
    JoinSplit(line, '|');
    JoinSplit(parts[2], ':');
    assert Line(line, step, parse, parts[0], parts[1], code, parts[6]);
  }

  /** A line is read as a step if and only if it is written like that. */
  lemma StepLanguage<T(!new)>(line: string, step: JobStep<T>, parse: string -> Option<T>)
    ensures StepOf(line, parse) == Some(step) <==>
      exists start, end, code, rest :: Line(line, step, parse, start, end, code, rest)
  {
    if StepOf(line, parse) == Some(step) {
      ReadLineIsWritten(line, step, parse);
    }
    forall start, end, code, rest | Line(line, step, parse, start, end, code, rest)
      ensures StepOf(line, parse) == Some(step)
    {
      LineIsRead(line, step, parse, start, end, code, rest);
    }
  }

  predicate Feeds(s: string) {
    forall i :: 0 <= i < |s| ==> s[i] == '\n'
  }

  lemma {:induction false} TrimFeedsLeftAround(before: string, s: string)
    requires Feeds(before) && (s == "" || s[0] != '\n')
    ensures TrimFeedsLeft(before + s) == s
  {
    if before == "" {
      assert before + s == s;
    } else {
      assert (before + s)[1..] == before[1..] + s;
      TrimFeedsLeftAround(before[1..], s);
    }
  }

  lemma {:induction false} TrimFeedsRightAround(s: string, after: string)
    requires Feeds(after) && (s == "" || s[|s| - 1] != '\n')
    ensures TrimFeedsRight(s + after) == s
    decreases |after|
  {
    if after == "" {
      assert s + after == s;
    } else {
      assert (s + after)[..|s + after| - 1] == s + after[..|after| - 1];
      TrimFeedsRightAround(s, after[..|after| - 1]);
    }
  }

  lemma {:induction false} LinesEnds(lines: seq<string>)
    requires lines != [] && forall i :: 0 <= i < |lines| ==> lines[i] != "" && '\n' !in lines[i]
    ensures var s := Join(lines, '\n'); s != "" && s[0] != '\n' && s[|s| - 1] != '\n'
  {
    assert lines[0][0] in lines[0] && lines[0][|lines[0]| - 1] in lines[0];
    if |lines| > 1 {
      LinesEnds(lines[1..]);
    }
  }

  lemma LinesFound(before: string, lines: seq<string>, after: string)
    requires Feeds(before) && Feeds(after) && lines != []
    requires forall i :: 0 <= i < |lines| ==> lines[i] != "" && '\n' !in lines[i]
    ensures LinesOf(before + Join(lines, '\n') + after) == lines
  {
    var s := Join(lines, '\n');
    LinesEnds(lines);
    assert before + s + after == before + (s + after);
    assert (s + after)[0] == s[0];
    TrimFeedsLeftAround(before, s + after);
    TrimFeedsRightAround(s, after);
    SplitJoin(lines, '\n');
  }

  lemma EmptyLine<T>(parse: string -> Option<T>)
    ensures StepOf("", parse).None?
  {
    assert Split("", '|') == [""];
  }

  lemma NoLineIsOne(raw: string)
    requires Feeds(raw)
    ensures LinesOf(raw) == [""]
  {
    TrimFeedsLeftAround(raw, "");
    assert raw + "" == raw;
    assert TrimFeedsRight("") == "";
    assert Split("", '\n') == [""];
  }

  lemma BadFirstLine<T(!new)>(steps: Option<seq<JobStep<T>>>, lines: seq<string>, parse: string -> Option<T>)
    requires lines != [] && StepOf(lines[0], parse).None? && ReadSteps(steps, lines, parse)
    ensures steps.None?
  {
  }

  /** Output with nothing in it is an error. */
  lemma NoStepIsAnError<T(!new)>(raw: string, parse: string -> Option<T>, steps: Option<seq<JobStep<T>>>)
    requires Feeds(raw) && ReadSteps(steps, LinesOf(raw), parse)
    ensures steps.None?
  {
    EmptyLine(parse);
    NoLineIsOne(raw);
    BadFirstLine(steps, LinesOf(raw), parse);
  }

  lemma StepsFound<T(!new)>(steps: seq<JobStep<T>>, lines: seq<string>, parse: string -> Option<T>,
                            result: Option<seq<JobStep<T>>>)
    requires |lines| == |steps| && forall i :: 0 <= i < |steps| ==> StepOf(lines[i], parse) == Some(steps[i])
    requires ReadSteps(result, lines, parse)
    ensures result == Some(steps)
  {
    if result.Some? {
      forall i | 0 <= i < |steps| ensures result.value[i] == steps[i] {
        assert Some(result.value[i]) == StepOf(lines[i], parse) == Some(steps[i]);
      }
      assert result.value == steps;
    }
  }

  function PrintSteps<T>(steps: seq<JobStep<T>>, show: Option<T> -> string, signals: seq<string>): seq<string>
    requires |signals| == |steps|
  {
    seq(|steps|, i requires 0 <= i < |steps| => PrintStep(steps[i], show, signals[i]))
  }

  /**
   * Printed job steps are read back, each of them and in their order, if and only if there is one: none
   * is an error.
   */
  lemma SacctRoundTrip<T(!new)>(before: string, steps: seq<JobStep<T>>, after: string, show: Option<T> -> string,
                                signals: seq<string>, parse: string -> Option<T>, result: Option<seq<JobStep<T>>>)
    requires Feeds(before) && Feeds(after) && |signals| == |steps| && ShowsTimes(show, parse)
    requires forall i :: 0 <= i < |steps| ==> Printable(steps[i]) && Inert(signals[i])
    requires ReadSteps(result, LinesOf(before + Join(PrintSteps(steps, show, signals), '\n') + after), parse)
    ensures result == Some(steps) <==> steps != []
    ensures steps == [] ==> result.None?
  {
    var printed := PrintSteps(steps, show, signals);
    if steps == [] {
      NoStepIsAnError(before + Join(printed, '\n') + after, parse, result);
    } else {
      forall i | 0 <= i < |steps|
        ensures StepOf(printed[i], parse) == Some(steps[i]) && printed[i] != "" && '\n' !in printed[i]
      {
        StepIsLine(steps[i], show, signals[i]);
        StepRoundTrip(steps[i], show, signals[i], parse);
      }
      LinesFound(before, printed, after);
      StepsFound(steps, printed, parse, result);
    }
  }
}
