// From the text scontrol prints for a partition to the numbers jobs are matched with.
module Partitions {
  import opened Options
  import opened Int64
  import opened Text
  import opened Numerals
  import opened Duration
  import opened Batch
  import opened Affinity
  import opened Seconds
  import opened PartitionCapacity
  import opened Records

  // ----- the first value under a key ---------------------------------------------------------

  /** Of a list, separated by commas, the first element. */
  function BeforeComma(value: string): string {
    var i := IndexOf(value, ',');
    if i == -1 then value else value[..i]
  }

  function FirstInRow(row: Row, key: string): Option<string> {
    if row == [] then None else if row[0].0 == key then Some(BeforeComma(row[0].1)) else FirstInRow(row[1..], key)
  }

  /** The first value given for a key anywhere in a record. */
  function FirstIn(rows: seq<Row>, key: string): Option<string> {
    if rows == [] then None
    else match FirstInRow(rows[0], key) case Some(v) => Some(v) case None => FirstIn(rows[1..], key)
  }

  lemma {:induction false} FirstOfRow(row: Row, key: string)
    requires forall k :: 0 <= k < |row| ==> Plain(row[k].0) && Plain(row[k].1)
    ensures First(Words(row), key) == FirstInRow(row, key)
  {
    if row != [] {
      FieldIsRead(row[0].0, row[0].1, key);
      SplitParts(row[0].1, ',');
      FirstOfRow(row[1..], key);
      assert Words(row)[1..] == Words(row[1..]);
    }
  }

  lemma {:induction false} FirstOfRecord(rows: seq<Row>, key: string)
    requires forall i :: 0 <= i < |rows| ==> PlainRow(rows[i])
    ensures First(AllWordsOf(rows), key) == FirstIn(rows, key)
  {
    if rows != [] {
      FirstOfRow(rows[0], key);
      FirstOfRecord(rows[1..], key);
      FirstAppend(Words(rows[0]), AllWordsOf(rows[1..]), key);
    }
  }

  lemma FieldsOfPrinted(before: string, rows: seq<Row>, after: string)
    requires White(before) && White(after) && PlainRecord(rows)
    ensures Fields(before + PrintRecord(rows) + after) == AllWordsOf(rows)
  {
    var s := PrintRecord(rows);
    RecordIsBlock(rows);
    assert before + s + after == before + (s + after);
    assert (s + after)[0] == s[0];
    TrimLeftAround(before, s + after);
    TrimRightAround(s, after);
    FieldsTrim(before + s + after);
  }

  // ----- what the record says ----------------------------------------------------------------

  /** n is the printed limit, or the printed total if there is none, or -1 if there is neither; 0 if nothing is said. */
  predicate SaysLimit(rows: seq<Row>, limit: string, total: string, n: int64) {
    match FirstIn(rows, limit)
    case None => n == 0
    case Some("UNLIMITED") => (match FirstIn(rows, total) case None => n == -1 case Some(t) => t == FormatInt(n))
    case Some(v) => v == FormatInt(n)
  }

  predicate SaysMem(rows: seq<Row>, n: int64) {
    match FirstIn(rows, "MaxMemPerNode")
    case None => n == 0
    case Some(v) => if v == "UNLIMITED" then n == -1 else v == FormatInt(n)
  }

  /** A duration in any shape, -1 for no limit, 0 if nothing is said. */
  predicate SaysTime(rows: seq<Row>, ns: int64) {
    match FirstIn(rows, "MaxTime")
    case None => ns == 0
    case Some(v) => if v == "UNLIMITED" then ns == -1 else DurationOf(v) == Parsed(ns)
  }

  predicate Says(rows: seq<Row>, r: Resources) {
    && SaysLimit(rows, "MaxNodes", "TotalNodes", r.nodes)
    && SaysLimit(rows, "MaxCPUsPerNode", "TotalCPUs", r.cpuPerNode)
    && SaysMem(rows, r.memPerNode) && SaysTime(rows, r.wallTime)
  }

  lemma NumeralIsNoWord(n: int64)
    ensures FormatInt(n) != UNLIMITED && ParseInt(FormatInt(n)) == Some(n)
  {
    ParseFormat(n);
    FormatIntChars(n);
    assert FormatInt(n)[0] in FormatInt(n);
  }

  lemma LimitIsRead(rows: seq<Row>, limit: string, total: string, n: int64)
    requires SaysLimit(rows, limit, total, n)
    ensures Limited(FirstIn(rows, limit), FirstIn(rows, total)) == Some(n)
  {
    NumeralIsNoWord(n);
  }

  lemma MemIsRead(rows: seq<Row>, n: int64)
    requires SaysMem(rows, n)
    ensures Limited(FirstIn(rows, "MaxMemPerNode"), None) == Some(n)
  {
    NumeralIsNoWord(n);
  }

  lemma TimeIsTold(rows: seq<Row>, ns: int64)
    requires SaysTime(rows, ns)
    ensures PartitionCapacity.TimeLimit(FirstIn(rows, "MaxTime")) == Some(ns)
  {
  }

  lemma FirstsOfRecord(rows: seq<Row>)
    requires PlainRecord(rows)
    ensures forall key :: First(AllWordsOf(rows), key) == FirstIn(rows, key)
  {
    forall key ensures First(AllWordsOf(rows), key) == FirstIn(rows, key) {
      FirstOfRecord(rows, key);
    }
  }

  /**
   * A printed partition is read as what it says: its limits, its totals where there are none, its
   * time, and zero where it says nothing.
   */
  lemma PartitionIsRead(before: string, rows: seq<Row>, after: string, r: Resources)
    requires White(before) && White(after) && PlainRecord(rows) && Says(rows, r)
    ensures PartitionMeaning(before + PrintRecord(rows) + after) == Some(r)
  {
    FieldsOfPrinted(before, rows, after);
    FirstsOfRecord(rows);
    LimitIsRead(rows, "MaxNodes", "TotalNodes", r.nodes);
    LimitIsRead(rows, "MaxCPUsPerNode", "TotalCPUs", r.cpuPerNode);
    MemIsRead(rows, r.memPerNode);
    TimeIsTold(rows, r.wallTime);
  }

  /** A limit that is neither a numeral nor UNLIMITED makes the whole partition unreadable. */
  lemma MalformedIsAnError(before: string, rows: seq<Row>, after: string, limit: string)
    requires White(before) && White(after) && PlainRecord(rows)
    requires limit == "MaxNodes" || limit == "MaxCPUsPerNode" || limit == "MaxMemPerNode"
    requires FirstIn(rows, limit).Some? && ParseInt(FirstIn(rows, limit).value).None?
    requires FirstIn(rows, limit) != Some("UNLIMITED")
    ensures PartitionMeaning(before + PrintRecord(rows) + after) == None
  {
    FieldsOfPrinted(before, rows, after);
    FirstsOfRecord(rows);
  }

  /** So does a time in none of the shapes. */
  lemma MalformedTimeIsAnError(before: string, rows: seq<Row>, after: string)
    requires White(before) && White(after) && PlainRecord(rows)
    requires FirstIn(rows, "MaxTime").Some? && DurationOf(FirstIn(rows, "MaxTime").value) == Malformed
    ensures PartitionMeaning(before + PrintRecord(rows) + after) == None
  {
    FieldsOfPrinted(before, rows, after);
    FirstsOfRecord(rows);
  }

  /**
   * From the printed text to scheduling: with a configuration that leaves everything to Slurm a request
   * matches the labels of the partition exactly when each number it asks for is at most the one the
   * record says.
   */
  lemma PrintedMatching(
    before: string, rows: seq<Row>, after: string, said: Resources, r: Resources, round: real -> real)
    requires White(before) && White(after) && PlainRecord(rows) && Says(rows, said)
    requires r.nodes >= 0 && r.memPerNode >= 0 && r.cpuPerNode >= 0 && r.wallTime >= 0
    ensures var found := PartitionMeaning(before + PrintRecord(rows) + after);
      && found.Some?
      && var auto := PartitionConfig(true, true, true, true, NO_RESOURCES);
         MatchesAll(LabelsOf(Reported(auto, found.value, round)), Requirements(r)) <==>
           && (r.nodes > 0 ==> r.nodes <= said.nodes)
           && (r.memPerNode > 0 ==> r.memPerNode <= said.memPerNode)
           && (r.cpuPerNode > 0 ==> r.cpuPerNode <= said.cpuPerNode)
           && (r.wallTime > 0 ==> WholeSeconds(r.wallTime) <= FloatSeconds(said.wallTime, round))
  {
    PartitionIsRead(before, rows, after, said);
    ReportMatching(PartitionConfig(true, true, true, true, NO_RESOURCES), said, r, round);
  }
}
