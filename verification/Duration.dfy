// Slurm durations (pkg/slurm/parse.go).
module Duration {
  import opened Options
  import opened Int64
  import opened Text
  import opened Numerals

  const SECOND: int := 1_000_000_000
  const MINUTE: int := 60 * SECOND
  const HOUR: int := 60 * MINUTE
  const DAY: int := 24 * HOUR

  /** Whole seconds of a duration; Go's division truncates toward zero. */
  function WholeSeconds(nanos: int64): (q: int64)
    ensures nanos >= 0 ==> SECOND * q <= nanos < SECOND * (q + 1)
    ensures nanos <= 0 ==> SECOND * (q - 1) < nanos <= SECOND * q
  {
    assert Fits(nanos);
    var n: int := nanos;
    if n >= 0 then n / SECOND else -((-n) / SECOND)
  }

  const UNLIMITED := "UNLIMITED"

  datatype Reading = Parsed(nanos: int64) | Unlimited | Malformed

  /** The six documented shapes, over numerals (strings) or over numbers. */
  datatype Shape<T> =
    | M(m: T)
    | MS(m: T, s: T)
    | HMS(h: T, m: T, s: T)
    | DH(d: T, h: T)
    | DHM(d: T, h: T, m: T)
    | DHMS(d: T, h: T, m: T, s: T)
  {
    /** The component written first. */
    function Lead(): T {
      if DH? || DHM? || DHMS? then d else if HMS? then h else m
    }

    predicate All(p: T -> bool) {
      match this
      case M(m) => p(m)
      case MS(m, s) => p(m) && p(s)
      case HMS(h, m, s) => p(h) && p(m) && p(s)
      case DH(d, h) => p(d) && p(h)
      case DHM(d, h, m) => p(d) && p(h) && p(m)
      case DHMS(d, h, m, s) => p(d) && p(h) && p(m) && p(s)
    }

    function Map<U>(f: T -> U): Shape<U> {
      match this
      case M(m) => M(f(m))
      case MS(m, s) => MS(f(m), f(s))
      case HMS(h, m, s) => HMS(f(h), f(m), f(s))
      case DH(d, h) => DH(f(d), f(h))
      case DHM(d, h, m) => DHM(f(d), f(h), f(m))
      case DHMS(d, h, m, s) => DHMS(f(d), f(h), f(m), f(s))
    }
  }

  /** The colon-separated parts of a written duration. */
  function Parts(sh: Shape<string>): (parts: seq<string>)
    ensures 1 <= |parts| <= 3
  {
    match sh
    case M(m) => [m]
    case MS(m, s) => [m, s]
    case HMS(h, m, s) => [h, m, s]
    case DH(d, h) => [d + ['-'] + h]
    case DHM(d, h, m) => [d + ['-'] + h, m]
    case DHMS(d, h, m, s) => [d + ['-'] + h, m, s]
  }

  function Written(sh: Shape<string>): string {
    Join(Parts(sh), ':')
  }

  function DaysOf(sh: Shape<int>): int {
    if sh.DH? || sh.DHM? || sh.DHMS? then sh.d else 0
  }

  function HoursOf(sh: Shape<int>): int {
    if sh.M? || sh.MS? then 0 else sh.h
  }

  function MinutesOf(sh: Shape<int>): int {
    if sh.DH? then 0 else sh.m
  }

  function SecondsOf(sh: Shape<int>): int {
    if sh.M? || sh.DH? || sh.DHM? then 0 else sh.s
  }

  function Total(days: int, hours: int, minutes: int, seconds: int): int {
    DAY * days + HOUR * hours + MINUTE * minutes + SECOND * seconds
  }

  /** The exact length in nanoseconds, as an unbounded integer. */
  function Nanos(sh: Shape<int>): int {
    Total(DaysOf(sh), HoursOf(sh), MinutesOf(sh), SecondsOf(sh))
  }

  predicate IsNumeral(s: string) {
    ParseInt(s).Some?
  }

  function Number(s: string): int {
    match ParseInt(s) case Some(x) => x case None => 0
  }

  function Undashed(parts: seq<string>): Shape<string>
    requires 1 <= |parts| <= 3
  {
    if |parts| == 1 then M(parts[0])
    else if |parts| == 2 then MS(parts[0], parts[1])
    else HMS(parts[0], parts[1], parts[2])
  }

  function Dashed(d: string, h: string, tail: seq<string>): Shape<string>
    requires |tail| <= 2
  {
    if |tail| == 0 then DH(d, h)
    else if |tail| == 1 then DHM(d, h, tail[0])
    else DHMS(d, h, tail[0], tail[1])
  }

  function ShapeOfParts(parts: seq<string>): Option<Shape<string>>
    requires parts != []
  {
    var i := IndexOf(parts[0], '-');
    if |parts| > 3 then None
    else if i == -1 then Some(Undashed(parts))
    else Some(Dashed(parts[0][..i], parts[0][i + 1..], parts[1..]))
  }

  /** The shape a string is read as, before its numerals are looked at. */
  function ShapeOf(s: string): Option<Shape<string>> {
    ShapeOfParts(Split(s, ':'))
  }

  function Evaluate(sh: Shape<string>): Reading {
    if sh.All(IsNumeral) then Parsed(Wrap(Nanos(sh.Map(Number)))) else Malformed
  }

  function DurationOf(s: string): Reading {
    if s == UNLIMITED || s == "" then Unlimited
    else
      match ShapeOf(s)
      case None => Malformed
      case Some(sh) => Evaluate(sh)
  }

  /** The four accumulated numbers are those of the shape. */
  ghost predicate Totals(sh: Shape<string>, days: int, hours: int, minutes: int, seconds: int) {
    && sh.All(IsNumeral)
    && var ns := sh.Map(Number);
       DaysOf(ns) == days && HoursOf(ns) == hours && MinutesOf(ns) == minutes && SecondsOf(ns) == seconds
  }

  /** d += x, where the product x wraps first; d already is the wrapped value of `exact`. */
  method AddWrapped(d: int64, x: int, ghost exact: int) returns (sum: int64)
    requires d == Wrap(exact)
    ensures sum == Wrap(exact + x)
  {
    sum := Wrap(d + Wrap(x));
    WrapSum(exact, x);
  }

  /** The tail of ParseDuration: four additions, each of which may wrap. */
  method Sum(days: int64, hours: int64, minutes: int64, seconds: int64) returns (d: int64)
    ensures d == Wrap(Total(days, hours, minutes, seconds))
  {
    var sum := 0;
    sum := AddWrapped(sum, DAY * days, 0);
    sum := AddWrapped(sum, HOUR * hours, DAY * days);
    sum := AddWrapped(sum, MINUTE * minutes, DAY * days + HOUR * hours);
    sum := AddWrapped(sum, SECOND * seconds, DAY * days + HOUR * hours + MINUTE * minutes);
    return sum;
  }

  /** The branch of ParseDuration for days-hours, with optional minutes and seconds. */
  method ParseDashed(d: string, h: string, tail: seq<string>) returns (r: Reading)
    requires |tail| <= 2
    ensures r == Evaluate(Dashed(d, h, tail))
  {
    var minutes: int64, seconds: int64 := 0, 0;
    var n := ParseInt(d);
    if n.None? { return Malformed; }
    var days := n.value;
    n := ParseInt(h);
    if n.None? { return Malformed; }
    var hours := n.value;
    if |tail| > 0 {
      n := ParseInt(tail[0]);
      if n.None? { return Malformed; }
      minutes := n.value;
    }
    if |tail| > 1 {
      n := ParseInt(tail[1]);
      if n.None? { return Malformed; }
      seconds := n.value;
    }
    assert Totals(Dashed(d, h, tail), days, hours, minutes, seconds);
    var sum := Sum(days, hours, minutes, seconds);
    return Parsed(sum);
  }

  /** The branch of ParseDuration for one, two or three numbers. */
  method ParseUndashed(parts: seq<string>) returns (r: Reading)
    requires 1 <= |parts| <= 3
    ensures r == Evaluate(Undashed(parts))
  {
    var hours: int64, minutes: int64, seconds: int64 := 0, 0, 0;
    var n := ParseInt(parts[0]);
    if n.None? { return Malformed; }
    if |parts| == 1 {
      minutes := n.value;
    } else if |parts| == 2 {
      minutes := n.value;
      n := ParseInt(parts[1]);
      if n.None? { return Malformed; }
      seconds := n.value;
    } else {
      hours := n.value;
      n := ParseInt(parts[1]);
      if n.None? { return Malformed; }
      minutes := n.value;
      n := ParseInt(parts[2]);
      if n.None? { return Malformed; }
      seconds := n.value;
    }
    assert Totals(Undashed(parts), 0, hours, minutes, seconds);
    var sum := Sum(0, hours, minutes, seconds);
    return Parsed(sum);
  }

  /** ParseDuration: the days, hours, minutes and seconds are accumulated with int64 arithmetic. */
  method ParseDuration(duration: string) returns (r: Reading)
    ensures r == DurationOf(duration)
  {
    if duration == UNLIMITED || duration == "" {
      return Unlimited;
    }
    var parts := Split(duration, ':');
    if |parts| > 3 {
      return Malformed;
    }
    var i := IndexOf(parts[0], '-');
    if i != -1 {
      r := ParseDashed(parts[0][..i], parts[0][i + 1..], parts[1..]);
    } else {
      r := ParseUndashed(parts);
    }
  }

  // ----- the language of durations -----------------------------------------------------------

  /** A written shape whose components are numerals, the first one without a minus sign. */
  predicate WellWritten(sh: Shape<string>) {
    sh.All(IsNumeral) && '-' !in sh.Lead()
  }

  predicate PlainText(s: string) {
    s != "" && ':' !in s && 'U' !in s
  }

  lemma NumeralPlain(s: string)
    requires IsNumeral(s)
    ensures PlainText(s)
  {
    ParseIntChars(s);
  }

  lemma NumeralsPlain(sh: Shape<string>)
    requires sh.All(IsNumeral)
    ensures sh.All(PlainText)
  {
    forall s | IsNumeral(s)
      ensures PlainText(s)
    {
      NumeralPlain(s);
    }
  }

  lemma JoinStarts(parts: seq<string>, c: char)
    requires parts != [] && parts[0] != ""
    ensures Join(parts, c) != "" && Join(parts, c)[0] == parts[0][0]
  {
  }

  lemma PartsFree(sh: Shape<string>)
    requires sh.All(PlainText)
    ensures Free(Parts(sh), ':')
  {
  }

  lemma PartsStart(sh: Shape<string>)
    requires sh.All(PlainText)
    ensures Parts(sh)[0] != "" && Parts(sh)[0][0] == sh.Lead()[0] && sh.Lead()[0] in sh.Lead()
  {
  }

  /** The parts of a written shape are found again. */
  lemma SplitWritten(sh: Shape<string>)
    requires sh.All(PlainText)
    ensures Split(Written(sh), ':') == Parts(sh)
    ensures Written(sh) != "" && Written(sh)[0] == sh.Lead()[0] && Written(sh)[0] != 'U'
  {
    PartsFree(sh);
    SplitJoin(Parts(sh), ':');
    PartsStart(sh);
    JoinStarts(Parts(sh), ':');
  }

  lemma ShapeOfItsParts(sh: Shape<string>)
    requires '-' !in sh.Lead()
    ensures ShapeOfParts(Parts(sh)) == Some(sh)
  {
    var part := Parts(sh)[0];
    if sh.DH? || sh.DHM? || sh.DHMS? {
      IndexOfHead(sh.d, '-', sh.h);
      assert part[..|sh.d|] == sh.d;
      assert part[|sh.d| + 1..] == sh.h;
    } else {
      IndexOfAbsent(part, '-');
    }
  }

  /** A well-written shape is read back as itself. */
  lemma ShapeOfWritten(sh: Shape<string>)
    requires WellWritten(sh)
    ensures ShapeOf(Written(sh)) == Some(sh)
    ensures Written(sh) != "" && Written(sh) != UNLIMITED
  {
    NumeralsPlain(sh);
    SplitWritten(sh);
    ShapeOfItsParts(sh);
  }

  lemma PartsOfItsShape(parts: seq<string>)
    requires 1 <= |parts| <= 3
    ensures Parts(ShapeOfParts(parts).value) == parts
    ensures '-' !in ShapeOfParts(parts).value.Lead()
  {
    var i := IndexOf(parts[0], '-');
    IndexOfFirst(parts[0], '-');
    if i != -1 {
      assert parts[0] == parts[0][..i] + ['-'] + parts[0][i + 1..];
    }
  }

  /** What a string is read as can be written back. */
  lemma WrittenShapeOf(s: string)
    requires ShapeOf(s).Some?
    ensures Written(ShapeOf(s).value) == s
    ensures '-' !in ShapeOf(s).value.Lead()
  {
    JoinSplit(s, ':');
    PartsOfItsShape(Split(s, ':'));
  }

  /**
   * ParseDuration accepts exactly the six documented shapes over int64 numerals, the first of
   * them without a minus sign, and the value is congruent to the exact total.  Every other
   * string that does not mean "unlimited" is an error.
   */
  lemma DurationLanguage(s: string, ns: int64)
    ensures DurationOf(s) == Parsed(ns) <==>
      exists sh :: WellWritten(sh) && Written(sh) == s && ns == Wrap(Nanos(sh.Map(Number)))
    ensures DurationOf(s) == Unlimited <==> s == "" || s == UNLIMITED
  {
    forall sh | WellWritten(sh) && Written(sh) == s
      ensures DurationOf(s) == Parsed(Wrap(Nanos(sh.Map(Number))))
    {
      ShapeOfWritten(sh);
    }
    if DurationOf(s) == Parsed(ns) {
      WrittenShapeOf(s);
      assert WellWritten(ShapeOf(s).value);
    }
  }

  function Print(sh: Shape<int>): string {
    Written(sh.Map(FormatInt))
  }

  lemma PrintedNumerals(sh: Shape<int>)
    requires sh.All(Fits)
    ensures sh.Map(FormatInt).All(IsNumeral)
    ensures sh.Map(FormatInt).Map(Number) == sh
    ensures sh.Map(FormatInt).Lead() == FormatInt(sh.Lead())
  {
    forall x | Fits(x)
      ensures IsNumeral(FormatInt(x)) && Number(FormatInt(x)) == x
    {
      ParseFormat(x);
    }
  }

  lemma EmptyDays(parts: seq<string>)
    requires 1 <= |parts| <= 3 && parts[0] != "" && parts[0][0] == '-'
    ensures Evaluate(ShapeOfParts(parts).value) == Malformed
  {
    assert IndexOf(parts[0], '-') == 0;
    assert parts[0][..0] == "";
    assert !IsNumeral("");
  }

  /** A leading minus sign is taken for the separator after an empty number of days. */
  lemma NegativeLead(sh: Shape<string>)
    requires sh.All(IsNumeral) && sh.Lead() != "" && sh.Lead()[0] == '-'
    ensures DurationOf(Written(sh)) == Malformed
  {
    NumeralsPlain(sh);
    SplitWritten(sh);
    EmptyDays(Parts(sh));
  }

  /**
   * Reading a printed shape gives the exact total modulo 2^64, whatever wrapped on the way, and a
   * negative first component is always an error.
   */
  lemma ReadPrinted(sh: Shape<int>)
    requires sh.All(Fits)
    ensures DurationOf(Print(sh)) == if sh.Lead() < 0 then Malformed else Parsed(Wrap(Nanos(sh)))
  {
    var text := sh.Map(FormatInt);
    PrintedNumerals(sh);
    FormatIntChars(sh.Lead());
    if sh.Lead() >= 0 {
      ShapeOfWritten(text);
    } else {
      NegativeLead(text);
    }
  }

  /** When the exact total fits int64 the value read is exact. */
  lemma ReadPrintedExact(sh: Shape<int>)
    requires sh.All(Fits) && sh.Lead() >= 0
    ensures (exists ns: int64 :: DurationOf(Print(sh)) == Parsed(ns) && ns == Nanos(sh)) <==> Fits(Nanos(sh))
  {
    ReadPrinted(sh);
  }

  // ----- the value, in numbers ---------------------------------------------------------------

  predicate NoColon(s: string) {
    ':' !in s
  }

  /** Every text that is put together like a shape is taken for that shape. */
  lemma ShapeOfFree(sh: Shape<string>)
    requires sh.All(NoColon) && '-' !in sh.Lead()
    ensures ShapeOf(Written(sh)) == Some(sh)
  {
    assert Free(Parts(sh), ':');
    SplitJoin(Parts(sh), ':');
    ShapeOfItsParts(sh);
  }

  lemma ZeroIsNumeral()
    ensures ParseInt("0") == Some(0)
  {
    ParseFormat(0);
    assert FormatInt(0) == "0";
  }

  lemma JoinTwo(a: string, b: string)
    ensures Join([a, b], ':') == a + ":" + b
  {
    assert [a, b][1..] == [b];
  }

  lemma JoinThree(a: string, b: string, c: string)
    ensures Join([a, b, c], ':') == a + ":" + b + ":" + c
  {
    assert [a, b, c][1..] == [b, c];
    JoinTwo(b, c);
    assert a + ":" + (b + ":" + c) == a + ":" + b + ":" + c;
  }

  lemma WrittenParts(d: string, h: string, m: string, s: string)
    ensures Written(M(m)) == m && Written(MS(m, s)) == m + ":" + s && Written(HMS(h, m, s)) == h + ":" + m + ":" + s
    ensures Written(DH(d, h)) == d + "-" + h && Written(DHM(d, h, m)) == d + "-" + h + ":" + m
    ensures Written(DHMS(d, h, m, s)) == d + "-" + h + ":" + m + ":" + s
  {
    JoinTwo(m, s);
    JoinThree(h, m, s);
    JoinTwo(d + ['-'] + h, m);
    JoinThree(d + ['-'] + h, m, s);
  }

  /** A text put together like a shape is read as that shape says. */
  lemma ReadAs(text: string, sh: Shape<string>)
    requires sh.All(NoColon) && '-' !in sh.Lead() && text == Written(sh) && text != "" && text != UNLIMITED
    ensures DurationOf(text) == Evaluate(sh)
  {
    ShapeOfFree(sh);
  }

  lemma NotUnlimited(text: string, c: char)
    requires c in text && c in ":-"
    ensures text != "" && text != UNLIMITED
  {
  }

  lemma SameUndashed(h: string, m: string, s: string)
    ensures Evaluate(M(m)) == Evaluate(MS(m, "0"))
    ensures Evaluate(MS(m, s)) == Evaluate(HMS("0", m, s))
    ensures Evaluate(HMS(h, m, s)) == Evaluate(DHMS("0", h, m, s))
  {
    ZeroIsNumeral();
  }

  lemma SameDashed(d: string, h: string, m: string)
    ensures Evaluate(DH(d, h)) == Evaluate(DHM(d, h, "0"))
    ensures Evaluate(DHM(d, h, m)) == Evaluate(DHMS(d, h, m, "0"))
  {
    ZeroIsNumeral();
  }

  /** One number is minutes: "m" is read like "m:0". */
  lemma MinutesForm(m: string)
    requires NoColon(m) && '-' !in m && m != "" && m != UNLIMITED
    ensures DurationOf(m) == DurationOf(m + ":" + "0")
  {
    WrittenParts("", "", m, "0");
    NotUnlimited(m + ":" + "0", ':');
    ReadAs(m, M(m));
    ReadAs(m + ":" + "0", MS(m, "0"));
    SameUndashed("", m, "0");
  }

  /** Two are minutes and seconds: "m:s" is read like "0:m:s". */
  lemma MinutesSecondsForm(m: string, s: string)
    requires NoColon(m) && NoColon(s) && '-' !in m
    ensures DurationOf(m + ":" + s) == DurationOf("0" + ":" + m + ":" + s)
  {
    WrittenParts("", "0", m, s);
    NotUnlimited(m + ":" + s, ':');
    NotUnlimited("0" + ":" + m + ":" + s, ':');
    ReadAs(m + ":" + s, MS(m, s));
    ReadAs("0" + ":" + m + ":" + s, HMS("0", m, s));
    SameUndashed("", m, s);
  }

  /** Three are hours, minutes and seconds: "h:m:s" is read like "0-h:m:s". */
  lemma HoursForm(h: string, m: string, s: string)
    requires NoColon(h) && NoColon(m) && NoColon(s) && '-' !in h
    ensures DurationOf(h + ":" + m + ":" + s) == DurationOf("0" + "-" + h + ":" + m + ":" + s)
  {
    WrittenParts("0", h, m, s);
    NotUnlimited(h + ":" + m + ":" + s, ':');
    NotUnlimited("0" + "-" + h + ":" + m + ":" + s, ':');
    ReadAs(h + ":" + m + ":" + s, HMS(h, m, s));
    ReadAs("0" + "-" + h + ":" + m + ":" + s, DHMS("0", h, m, s));
    SameUndashed(h, m, s);
  }

  /** Days and hours: "d-h" is read like "d-h:0". */
  lemma DaysHoursForm(d: string, h: string)
    requires NoColon(d) && NoColon(h) && '-' !in d
    ensures DurationOf(d + "-" + h) == DurationOf(d + "-" + h + ":" + "0")
  {
    WrittenParts(d, h, "0", "");
    NotUnlimited(d + "-" + h, '-');
    NotUnlimited(d + "-" + h + ":" + "0", ':');
    ReadAs(d + "-" + h, DH(d, h));
    ReadAs(d + "-" + h + ":" + "0", DHM(d, h, "0"));
    SameDashed(d, h, "");
  }

  /** Days, hours and minutes: "d-h:m" is read like "d-h:m:0". */
  lemma DaysMinutesForm(d: string, h: string, m: string)
    requires NoColon(d) && NoColon(h) && NoColon(m) && '-' !in d
    ensures DurationOf(d + "-" + h + ":" + m) == DurationOf(d + "-" + h + ":" + m + ":" + "0")
  {
    WrittenParts(d, h, m, "0");
    NotUnlimited(d + "-" + h + ":" + m, ':');
    NotUnlimited(d + "-" + h + ":" + m + ":" + "0", ':');
    ReadAs(d + "-" + h + ":" + m, DHM(d, h, m));
    ReadAs(d + "-" + h + ":" + m + ":" + "0", DHMS(d, h, m, "0"));
    SameDashed(d, h, m);
  }

  lemma FullValue(days: int, hours: int, minutes: int, seconds: int)
    ensures Nanos(DHMS(days, hours, minutes, seconds))
      == 1_000_000_000 * (((24 * days + hours) * 60 + minutes) * 60 + seconds)
  {
  }

  /**
   * The full form in numbers: 24 hours a day, 60 minutes an hour, 60 seconds a minute and 10^9
   * nanoseconds a second, modulo 2^64.
   */
  lemma FullForm(
    d: string, h: string, m: string, s: string, days: int64, hours: int64, minutes: int64, seconds: int64)
    requires '-' !in d && ParseInt(d) == Some(days) && ParseInt(h) == Some(hours)
    requires ParseInt(m) == Some(minutes) && ParseInt(s) == Some(seconds)
    ensures DurationOf(d + "-" + h + ":" + m + ":" + s)
      == Parsed(Wrap(1_000_000_000 * (((24 * days + hours) * 60 + minutes) * 60 + seconds)))
  {
    var sh := DHMS(d, h, m, s);
    NumeralsPlain(sh);
    WrittenParts(d, h, m, s);
    NotUnlimited(d + "-" + h + ":" + m + ":" + s, ':');
    ReadAs(d + "-" + h + ":" + m + ":" + s, sh);
    FullValue(days, hours, minutes, seconds);
  }
}
