// What the token walk and the accumulation of directives guarantee, for every script.
module BatchLaws {
  import opened Options
  import opened Int64
  import opened Text
  import opened Numerals
  import opened Duration
  import opened Batch

  // ----- when the token walk runs off the end of a line --------------------------------------

  /** The walk reads tokens[j] as a parameter. */
  predicate Visits(tokens: seq<string>, j: nat)
    requires j <= |tokens|
  {
    || j == 0
    || (Visits(tokens, j - 1) && '=' in tokens[j - 1])
    || (j >= 2 && Visits(tokens, j - 2) && '=' !in tokens[j - 2])
  }

  /** The walk reads the last token as a parameter that still needs a value. */
  predicate LandsOnLast(tokens: seq<string>) {
    tokens != [] && Visits(tokens, |tokens| - 1) && '=' !in tokens[|tokens| - 1]
  }

  /** Two neighbouring tokens are both parameters only when the first one holds its own value. */
  lemma {:induction false} VisitedNeighbours(tokens: seq<string>, j: nat)
    requires 0 < j <= |tokens| && Visits(tokens, j) && Visits(tokens, j - 1)
    ensures '=' in tokens[j - 1]
  {
    if j >= 2 && Visits(tokens, j - 2) {
      VisitedNeighbours(tokens, j - 1);
    }
  }

  lemma {:induction false} WalkFrom(tokens: seq<string>, j: nat)
    requires j <= |tokens| && Visits(tokens, j)
    requires j == |tokens| ==> !LandsOnLast(tokens)
    ensures Pairing(tokens[j..]).dangling <==> LandsOnLast(tokens)
    decreases |tokens| - j
  {
    if j < |tokens| {
      var rest := tokens[j..];
      IndexOfFirst(tokens[j], '=');
      if '=' in tokens[j] {
        assert rest[1..] == tokens[j + 1..];
        WalkFrom(tokens, j + 1);
      } else if j + 1 < |tokens| {
        assert rest[2..] == tokens[j + 2..];
        if Visits(tokens, j + 1) {
          VisitedNeighbours(tokens, j + 1);
        }
        WalkFrom(tokens, j + 2);
      }
    }
  }

  /** The indexed walk faults on a line exactly when it lands on a last token without '='. */
  lemma DanglingIffLandsOnLast(tokens: seq<string>)
    ensures Pairing(tokens).dangling <==> LandsOnLast(tokens)
  {
    if tokens != [] {
      assert tokens[0..] == tokens;
      WalkFrom(tokens, 0);
    }
  }

  lemma DanglingStep(tokens: seq<string>)
    requires |tokens| >= 2 && '=' !in tokens[0]
    ensures Pairing(tokens).dangling == Pairing(tokens[2..]).dangling
  {
    IndexOfAbsent(tokens[0], '=');
  }

  lemma DanglingShort(tokens: seq<string>)
    requires |tokens| <= 1 && Free(tokens, '=')
    ensures Pairing(tokens).dangling == (|tokens| == 1)
  {
    if |tokens| == 1 {
      IndexOfAbsent(tokens[0], '=');
    }
  }

  lemma {:induction false} DanglingByPairs(tokens: seq<string>, pairs: nat)
    requires Free(tokens, '=') && 2 * pairs <= |tokens| <= 2 * pairs + 1
    ensures Pairing(tokens).dangling == (|tokens| == 2 * pairs + 1)
  {
    if pairs == 0 {
      DanglingShort(tokens);
    } else {
      DanglingStep(tokens);
      DanglingByPairs(tokens[2..], pairs - 1);
    }
  }

  /** Without any '=' on the line that is a matter of parity. */
  lemma DanglingIffOdd(tokens: seq<string>)
    requires Free(tokens, '=')
    ensures Pairing(tokens).dangling <==> |tokens| % 2 == 1
  {
    DanglingByPairs(tokens, |tokens| / 2);
  }

  // ----- outcome of a whole script -----------------------------------------------------------

  predicate AllHeaders(hs: seq<string>) {
    forall i :: 0 <= i < |hs| ==> IsHeader(hs[i])
  }

  /** The header lines a scan reaches. */
  function HeaderLines(script: string): (hs: seq<string>)
    ensures AllHeaders(hs)
    decreases |script|
  {
    match ScanLine(script)
    case None => []
    case Some(line) =>
      if Skipped(line) then HeaderLines(AfterLine(script))
      else if !IsHeader(line) then []
      else [line] + HeaderLines(AfterLine(script))
  }

  predicate HasError(line: string)
    requires IsHeader(line)
  {
    Bad in Meanings(Pairing(Tokens(line)).directives)
  }

  predicate Clean(line: string)
    requires IsHeader(line)
  {
    !HasError(line) && !LandsOnLast(Tokens(line))
  }

  predicate CleanUpTo(hs: seq<string>, k: nat)
    requires k <= |hs| && AllHeaders(hs)
  {
    forall i :: 0 <= i < k ==> Clean(hs[i])
  }

  /** Line k is the first that is not clean, and `bad` says which way. */
  ghost predicate FirstBadLine(hs: seq<string>, k: nat, bad: Outcome<Resources>)
    requires AllHeaders(hs)
  {
    && k < |hs| && CleanUpTo(hs, k) && !Clean(hs[k])
    && bad == if HasError(hs[k]) then Err else Fault
  }

  /** Position of the first line that is not clean, or the number of lines. */
  function FirstUnclean(hs: seq<string>): (k: nat)
    requires AllHeaders(hs)
    ensures k <= |hs|
  {
    if hs == [] || !Clean(hs[0]) then 0 else 1 + FirstUnclean(hs[1..])
  }

  lemma {:induction false} FirstUncleanIsFirst(hs: seq<string>)
    requires AllHeaders(hs)
    ensures var k := FirstUnclean(hs);
      CleanUpTo(hs, k) && (k < |hs| ==> !Clean(hs[k]))
  {
    if hs != [] && Clean(hs[0]) {
      FirstUncleanIsFirst(hs[1..]);
      assert forall i :: 0 < i < |hs| ==> hs[i] == hs[1..][i - 1];
    }
  }

  lemma BadInEither(ms: seq<Meaning>, ns: seq<Meaning>)
    ensures Bad in ms + ns <==> Bad in ms || Bad in ns
  {
  }

  /** A line decides if it is not clean, and leaves the outcome to the rest if it is. */
  ghost predicate Before(line: string, o: Outcome<Resources>, later: Outcome<Resources>)
    requires IsHeader(line)
  {
    if HasError(line) then o.Err?
    else if LandsOnLast(Tokens(line)) then o.Fault?
    else o.Err? == later.Err? && o.Fault? == later.Fault?
  }

  lemma HeaderStep(script: string, line: string)
    requires ScanLine(script) == Some(line) && !Skipped(line) && IsHeader(line)
    ensures Before(line, Extracted(script), Extracted(AfterLine(script)))
  {
    var w := Pairing(Tokens(line));
    DanglingIffLandsOnLast(Tokens(line));
    var later := DirectivesOf(AfterLine(script)).directives;
    MeaningsAppend(w.directives, later);
    BadInEither(Meanings(w.directives), Meanings(later));
  }

  /** The first header line that is not clean decides the outcome. */
  ghost predicate Decided(hs: seq<string>, o: Outcome<Resources>)
    requires AllHeaders(hs)
  {
    var k := FirstUnclean(hs);
    if k == |hs| then o.Ok? else if HasError(hs[k]) then o.Err? else o.Fault?
  }

  lemma HeaderLinesCons(script: string, line: string)
    requires ScanLine(script) == Some(line) && !Skipped(line) && IsHeader(line)
    ensures HeaderLines(script) == [line] + HeaderLines(AfterLine(script))
  {
  }

  lemma FirstUncleanCons(line: string, rest: seq<string>)
    requires IsHeader(line) && AllHeaders(rest)
    ensures AllHeaders([line] + rest)
    ensures FirstUnclean([line] + rest) == if Clean(line) then 1 + FirstUnclean(rest) else 0
  {
    var all := [line] + rest;
    assert forall i :: 0 <= i < |all| ==> all[i] == if i == 0 then line else rest[i - 1];
    assert all[1..] == rest;
  }

  lemma DecidedCons(line: string, rest: seq<string>, o: Outcome<Resources>, later: Outcome<Resources>)
    requires IsHeader(line) && AllHeaders(rest) && Decided(rest, later) && Before(line, o, later)
    ensures AllHeaders([line] + rest) && Decided([line] + rest, o)
  {
    FirstUncleanCons(line, rest);
    var k := FirstUnclean(rest);
    if Clean(line) && k < |rest| {
      assert ([line] + rest)[1 + k] == rest[k];
    }
  }

  lemma {:induction false} OutcomeAtFirst(script: string)
    ensures Decided(HeaderLines(script), Extracted(script))
    decreases |script|
  {
    var token := ScanLine(script);
    if token.Some? {
      OutcomeAtFirst(AfterLine(script));
      if !Skipped(token.value) && IsHeader(token.value) {
        HeaderStep(script, token.value);
        HeaderLinesCons(script, token.value);
        DecidedCons(token.value, HeaderLines(AfterLine(script)), Extracted(script), Extracted(AfterLine(script)));
      }
    }
  }

  /** There is one line at most that is the first. */
  lemma FirstBadIff(hs: seq<string>, bad: Outcome<Resources>)
    requires AllHeaders(hs)
    ensures var k := FirstUnclean(hs);
      (exists j: nat :: FirstBadLine(hs, j, bad)) <==> k < |hs| && bad == if HasError(hs[k]) then Err else Fault
  {
    var k := FirstUnclean(hs);
    FirstUncleanIsFirst(hs);
    if k < |hs| && bad == (if HasError(hs[k]) then Err else Fault) {
      assert FirstBadLine(hs, k, bad);
    }
    forall j: nat | FirstBadLine(hs, j, bad) ensures j == k {
      assert !Clean(hs[j]);
    }
  }

  /** The outcome is what the first line that is not clean says, if there is one. */
  ghost predicate OutcomeOf(hs: seq<string>, o: Outcome<Resources>)
    requires AllHeaders(hs)
  {
    && (o.Fault? <==> exists k: nat :: FirstBadLine(hs, k, Fault))
    && (o.Err? <==> exists k: nat :: FirstBadLine(hs, k, Err))
    && (o.Ok? <==> CleanUpTo(hs, |hs|))
  }

  lemma ByLine(hs: seq<string>, o: Outcome<Resources>)
    requires AllHeaders(hs) && Decided(hs, o)
    ensures OutcomeOf(hs, o)
  {
    FirstUncleanIsFirst(hs);
    FirstBadIff(hs, Fault);
    FirstBadIff(hs, Err);
  }

  /**
   * Extraction panics exactly when, before any parse error and before the first line that is not a
   * header, the walk over some header line lands on a last token without '='.  It reports an error
   * exactly when some reached line holds a bad value with only clean lines before it.
   */
  lemma OutcomeByLine(script: string)
    ensures OutcomeOf(HeaderLines(script), Extracted(script))
  {
    OutcomeAtFirst(script);
    ByLine(HeaderLines(script), Extracted(script));
  }

  // ----- lines that are too long -------------------------------------------------------------

  /** What a scanner without a limit would find. */
  function WholeLine(s: string): Option<string> {
    if s == "" then None else Some(DropCarriageReturn(RawLine(s)))
  }

  predicate TooLong(line: string) {
    ByteLength(line) >= MAX_SCAN_TOKEN_SIZE
  }

  /** The directives a script holds, whatever the length of its lines. */
  function WholeDirectives(script: string): Walk
    decreases |script|
  {
    match WholeLine(script)
    case None => Walk([], false)
    case Some(line) =>
      if Skipped(line) then WholeDirectives(AfterLine(script))
      else if !IsHeader(line) then Walk([], false)
      else
        var w := Pairing(Tokens(line));
        if w.dangling then w else Prepend(w.directives, WholeDirectives(AfterLine(script)))
  }

  /** The script from the first too long line the scan reaches; empty if there is none. */
  function Unread(script: string): string
    decreases |script|
  {
    if script == "" || TooLong(RawLine(script)) then script
    else
      var line := WholeLine(script).value;
      if Skipped(line) then Unread(AfterLine(script))
      else if !IsHeader(line) || Pairing(Tokens(line)).dangling then ""
      else Unread(AfterLine(script))
  }

  lemma NothingRead(script: string)
    requires TooLong(RawLine(script))
    ensures Extracted(script) == Ok(NO_RESOURCES)
  {
  }

  /** A line of 65536 bytes or more ends the scan without an error: nothing that follows it is read. */
  lemma LongLineIsSilent(line: string, rest: string)
    requires '\n' !in line && ByteLength(line) >= 65536
    ensures Extracted(line + ['\n'] + rest) == Ok(NO_RESOURCES) && Extracted(line) == Ok(NO_RESOURCES)
  {
    IndexOfHead(line, '\n', rest);
    IndexOfAbsent(line, '\n');
    assert (line + ['\n'] + rest)[..|line|] == line;
    NothingRead(line + ['\n'] + rest);
    NothingRead(line);
  }

  lemma PrependCancels(ds: seq<Directive>, v: Walk, w: Walk)
    ensures Prepend(ds, v) == Prepend(ds, w) <==> v == w
  {
    if Prepend(ds, v) == Prepend(ds, w) {
      assert (ds + v.directives)[|ds|..] == v.directives;
      assert (ds + w.directives)[|ds|..] == w.directives;
    }
  }

  /**
   * The limit does no harm if and only if a scan of what is left at the first too long line would
   * find no directive there either.
   */
  lemma {:induction false} LimitIsHarmlessIff(script: string)
    ensures DirectivesOf(script) == WholeDirectives(script) <==> WholeDirectives(Unread(script)) == Walk([], false)
    decreases |script|
  {
    if script != "" && !TooLong(RawLine(script)) {
      var line := WholeLine(script).value;
      LimitIsHarmlessIff(AfterLine(script));
      if !Skipped(line) && IsHeader(line) {
        var w := Pairing(Tokens(line));
        PrependCancels(w.directives, DirectivesOf(AfterLine(script)), WholeDirectives(AfterLine(script)));
      }
    }
  }

  // ----- cpu factors multiply, in any order --------------------------------------------------

  function Product(fs: seq<int>): int {
    if fs == [] then 1 else Product(fs[..|fs| - 1]) * fs[|fs| - 1]
  }

  /**
   * The accumulated value is the int64 product of all factors, even when partial products wrap,
   * as long as that product is not zero modulo 2^64.
   */
  lemma {:induction false} AccumulatedIsProduct(fs: seq<int>)
    requires fs != [] && Wrap(Product(fs)) != 0
    ensures Accumulated(fs) == Wrap(Product(fs))
  {
    var front, x := fs[..|fs| - 1], fs[|fs| - 1];
    var p := Product(front);
    WrapProduct(p, x);
    if front != [] {
      assert Wrap(p) == 0 ==> Wrap(p) * x == 0;
      AccumulatedIsProduct(front);
    }
  }

  /** The factors after the last one with which the product so far vanishes modulo 2^64. */
  function SinceReset(fs: seq<int>): seq<int> {
    if fs == [] then []
    else
      var tail := SinceReset(fs[..|fs| - 1]) + [fs[|fs| - 1]];
      if Wrap(Product(tail)) == 0 then [] else tail
  }

  function ProductOrZero(fs: seq<int>): int64 {
    if fs == [] then 0 else Wrap(Product(fs))
  }

  lemma ProductSnoc(fs: seq<int>, x: int)
    ensures Product(fs + [x]) == Product(fs) * x
  {
    assert (fs + [x])[..|fs|] == fs;
  }

  /** For every list of factors: the accumulated value is the int64 product of those since the last reset. */
  lemma {:induction false} AccumulatedSinceReset(fs: seq<int>)
    ensures SinceReset(fs) == [] || Wrap(Product(SinceReset(fs))) != 0
    ensures Accumulated(fs) == ProductOrZero(SinceReset(fs))
  {
    if fs != [] {
      var front, x := fs[..|fs| - 1], fs[|fs| - 1];
      AccumulatedSinceReset(front);
      ProductSnoc(SinceReset(front), x);
      WrapProduct(Product(SinceReset(front)), x);
      assert Product([]) == 1;
    }
  }

  lemma Commute(a: int, b: int, c: int)
    ensures a * b * c == a * c * b
  {
  }

  lemma {:induction false} ProductRemove(fs: seq<int>, i: nat)
    requires i < |fs|
    ensures Product(fs) == Product(fs[..i] + fs[i + 1..]) * fs[i]
  {
    var front, last := fs[..|fs| - 1], fs[|fs| - 1];
    if i < |fs| - 1 {
      ProductRemove(front, i);
      var fewer := front[..i] + front[i + 1..];
      assert fs[..i] + fs[i + 1..] == fewer + [last];
      ProductSnoc(fewer, last);
      Commute(Product(fewer), fs[i], last);
    } else {
      assert fs[..i] + fs[i + 1..] == front;
    }
  }

  lemma RemoveOne(fs: seq<int>, i: nat)
    requires i < |fs|
    ensures multiset(fs[..i] + fs[i + 1..]) == multiset(fs) - multiset{fs[i]}
  {
    assert fs == fs[..i] + [fs[i]] + fs[i + 1..];
  }

  lemma {:induction false} ProductPermutation(fs: seq<int>, gs: seq<int>)
    requires multiset(fs) == multiset(gs)
    ensures Product(fs) == Product(gs)
    decreases |fs|
  {
    if fs != [] {
      var front, x := fs[..|fs| - 1], fs[|fs| - 1];
      assert fs == front + [x];
      assert x in multiset(gs);
      var i :| 0 <= i < |gs| && gs[i] == x;
      var others := gs[..i] + gs[i + 1..];
      RemoveOne(gs, i);
      assert multiset(front) == multiset(fs) - multiset{x};
      ProductPermutation(front, others);
      ProductRemove(gs, i);
    } else {
      assert |multiset(gs)| == 0;
    }
  }

  predicate Permuted(fs: seq<int>, gs: seq<int>) {
    multiset(fs) == multiset(gs)
  }

  lemma PermutedLength(fs: seq<int>, gs: seq<int>)
    requires Permuted(fs, gs)
    ensures |fs| == |gs|
  {
    assert |multiset(fs)| == |multiset(gs)|;
  }

  function Only(fs: seq<int>, zero: bool): seq<int> {
    if fs == [] then []
    else Only(fs[..|fs| - 1], zero) + (if (fs[|fs| - 1] == 0) == zero then [fs[|fs| - 1]] else [])
  }

  /** The zeros, and the other factors in order. */
  function Zeros(fs: seq<int>): seq<int> { Only(fs, true) }
  function NonZero(fs: seq<int>): seq<int> { Only(fs, false) }

  predicate AllZero(fs: seq<int>) {
    forall i :: 0 <= i < |fs| ==> fs[i] == 0
  }

  lemma CountSnoc(s: seq<int>, x: int, v: int)
    ensures multiset(s + [x])[v] == multiset(s)[v] + if v == x then 1 else 0
  {
  }

  lemma OnlySnoc(fs: seq<int>, x: int)
    ensures Only(fs + [x], x == 0) == Only(fs, x == 0) + [x] && Only(fs + [x], x != 0) == Only(fs, x != 0)
  {
    assert (fs + [x])[..|fs|] == fs;
    assert Only(fs, x != 0) + [] == Only(fs, x != 0);
  }

  lemma {:induction false} CountApart(fs: seq<int>, v: int)
    ensures multiset(Zeros(fs))[v] + multiset(NonZero(fs))[v] == multiset(fs)[v]
  {
    if fs != [] {
      var front, x := fs[..|fs| - 1], fs[|fs| - 1];
      CountApart(front, v);
      assert fs == front + [x];
      CountSnoc(front, x, v);
      CountSnoc(Only(front, x == 0), x, v);
      OnlySnoc(front, x);
    }
  }

  lemma {:induction false} OnlyZeros(fs: seq<int>)
    ensures AllZero(Zeros(fs)) && 0 !in NonZero(fs)
  {
    if fs != [] {
      OnlyZeros(fs[..|fs| - 1]);
    }
  }

  lemma ZerosApart(fs: seq<int>)
    ensures multiset(Zeros(fs)) + multiset(NonZero(fs)) == multiset(fs)
    ensures AllZero(Zeros(fs)) && 0 !in NonZero(fs)
  {
    forall v
      ensures multiset(Zeros(fs))[v] + multiset(NonZero(fs))[v] == multiset(fs)[v]
    {
      CountApart(fs, v);
    }
    OnlyZeros(fs);
  }

  lemma {:induction false} ZerosFirst(zs: seq<int>, fs: seq<int>)
    requires AllZero(zs)
    ensures Accumulated(zs + fs) == Accumulated(fs)
    decreases |fs|, |zs|
  {
    if fs != [] {
      var s := zs + fs;
      assert s[..|s| - 1] == zs + fs[..|fs| - 1];
      ZerosFirst(zs, fs[..|fs| - 1]);
    } else if zs != [] {
      ZerosFirst(zs[..|zs| - 1], []);
      assert zs[..|zs| - 1] + [] == zs[..|zs| - 1];
      assert zs + [] == zs;
    }
  }

  lemma AllZeroAccumulated(zs: seq<int>)
    requires AllZero(zs)
    ensures Accumulated(zs) == 0
  {
    ZerosFirst(zs, []);
    assert zs + [] == zs;
  }

  /** The factors are int64 values, as the parser leaves them. */
  predicate AllFit(fs: seq<int>) {
    forall i :: 0 <= i < |fs| ==> Fits(fs[i])
  }

  lemma PermutedConcat(fs: seq<int>, gs: seq<int>, hs: seq<int>)
    requires multiset(gs) + multiset(hs) == multiset(fs)
    ensures Permuted(fs, gs + hs) && Permuted(fs, hs + gs)
  {
  }

  lemma EndsInZero(fs: seq<int>)
    requires fs != [] && fs[|fs| - 1] == 0
    ensures Accumulated(fs) == 0
  {
  }

  lemma AfterZero(fs: seq<int>, x: int)
    requires fs != [] && fs[|fs| - 1] == 0
    ensures Accumulated(fs + [x]) == Wrap(x)
  {
    EndsInZero(fs);
    assert (fs + [x])[..|fs|] == fs;
  }

  /** The zeros last, or all of them just before the last of the others. */
  function EarlyZeros(fs: seq<int>): seq<int>
    requires NonZero(fs) != []
  {
    var others := NonZero(fs);
    others[..|others| - 1] + Zeros(fs) + [others[|others| - 1]]
  }

  lemma EarlyZerosPermuted(fs: seq<int>)
    requires NonZero(fs) != []
    ensures Permuted(fs, EarlyZeros(fs)) && Permuted(fs, NonZero(fs) + Zeros(fs))
  {
    var others := NonZero(fs);
    var front, x := others[..|others| - 1], others[|others| - 1];
    ZerosApart(fs);
    PermutedConcat(fs, Zeros(fs), others);
    assert others == front + [x];
  }

  /** Any zero among other factors wins when it comes last and is forgotten when another comes after it. */
  lemma TwoOrders(fs: seq<int>)
    requires AllFit(fs) && 0 in fs && NonZero(fs) != []
    ensures exists gs, hs :: Permuted(fs, gs) && Permuted(fs, hs) && Accumulated(gs) != Accumulated(hs)
  {
    var others, zeros := NonZero(fs), Zeros(fs);
    var front, x := others[..|others| - 1], others[|others| - 1];
    EarlyZerosPermuted(fs);
    ZerosApart(fs);
    assert 0 in multiset(fs) && x in multiset(others) && x in multiset(fs);
    assert zeros != [] && Fits(x) && x != 0;
    EndsInZero(others + zeros);
    AfterZero(front + zeros, x);
    assert Accumulated(EarlyZeros(fs)) != Accumulated(others + zeros);
  }

  lemma PermutedAllZero(fs: seq<int>, gs: seq<int>)
    requires Permuted(fs, gs) && AllZero(fs)
    ensures AllZero(gs)
  {
    forall i | 0 <= i < |gs|
      ensures gs[i] == 0
    {
      assert gs[i] in multiset(gs);
      assert gs[i] in multiset(fs);
    }
  }

  lemma SameInAnyOrder(fs: seq<int>, gs: seq<int>)
    requires Permuted(fs, gs) && (AllZero(fs) || (fs != [] && Wrap(Product(fs)) != 0))
    ensures Accumulated(gs) == Accumulated(fs)
  {
    PermutedLength(fs, gs);
    if AllZero(fs) {
      PermutedAllZero(fs, gs);
      AllZeroAccumulated(fs);
      AllZeroAccumulated(gs);
    } else {
      ProductPermutation(fs, gs);
      AccumulatedIsProduct(fs);
      AccumulatedIsProduct(gs);
    }
  }

  /**
   * With a zero among the factors, or a product that does not vanish modulo 2^64, every order gives the
   * same result if and only if no factor is zero or all of them are.
   */
  lemma OrderIrrelevantByZeros(fs: seq<int>)
    requires AllFit(fs) && (0 in fs || Wrap(Product(fs)) != 0)
    ensures (forall gs :: Permuted(fs, gs) ==> Accumulated(gs) == Accumulated(fs)) <==> 0 !in fs || NonZero(fs) == []
  {
    if 0 in fs && NonZero(fs) != [] {
      TwoOrders(fs);
    } else {
      if NonZero(fs) == [] {
        ZerosApart(fs);
        PermutedAllZero(Zeros(fs), fs);
      }
      forall gs | Permuted(fs, gs)
        ensures Accumulated(gs) == Accumulated(fs)
      {
        SameInAnyOrder(fs, gs);
      }
    }
  }

  lemma TwoFactors(a: int, b: int)
    ensures Accumulated([a, b]) == Wrap((if Wrap(a) == 0 then 1 else Wrap(a)) * b)
    ensures Product([a, b]) == a * b
  {
    assert [a, b][..1] == [a] && [a][..0] == [];
    assert Accumulated([a]) == Wrap(1 * a) && Product([a]) == 1 * a;
  }

  lemma ThreeFactors(a: int, b: int, c: int)
    ensures Accumulated([a, b, c]) == Wrap((if Accumulated([a, b]) == 0 then 1 else Accumulated([a, b])) * c)
    ensures Product([a, b, c]) == a * b * c
  {
    assert [a, b, c][..2] == [a, b];
    TwoFactors(a, b);
  }

  lemma OnlyOneOrder(m: int)
    ensures forall gs :: Permuted([m, m], gs) ==> gs == [m, m]
  {
    forall gs | Permuted([m, m], gs) ensures gs == [m, m] {
      PermutedLength([m, m], gs);
      forall i | 0 <= i < |gs| ensures gs[i] == m {
        assert gs[i] in multiset(gs);
        assert gs[i] in multiset([m, m]);
      }
    }
  }

  /** Vanishing products go both ways: of 2^32, 2^32 and 3 the order matters, of 2^32 and 2^32 it does not. */
  lemma VanishingProducts(m: int)
    requires m == 0x1_0000_0000
    ensures Wrap(Product([m, m, 3])) == 0 && Wrap(Product([m, m])) == 0
    ensures Accumulated([m, m, 3]) == 3 && Accumulated([3, m, m]) == 0
    ensures Permuted([m, m, 3], [3, m, m])
    ensures forall gs :: Permuted([m, m], gs) ==> Accumulated(gs) == Accumulated([m, m])
  {
    WrapCongruent(m * m, 0, 1);
    WrapCongruent(m * m * 3, 0, 3);
    WrapCongruent(3 * m * m, 0, 3);
    TwoFactors(m, m);
    TwoFactors(3, m);
    ThreeFactors(m, m, 3);
    ThreeFactors(3, m, m);
    OnlyOneOrder(m);
  }

  // ----- all results of all orders -----------------------------------------------------------

  function Concat(groups: seq<seq<int>>): seq<int> {
    if groups == [] then [] else Concat(groups[..|groups| - 1]) + groups[|groups| - 1]
  }

  predicate Vanishes(fs: seq<int>) {
    Wrap(Product(fs)) == 0
  }

  /** The factors but the i-th. */
  function Without(fs: seq<int>, i: nat): seq<int>
    requires i < |fs|
  {
    fs[..i] + fs[i + 1..]
  }

  /** The product vanishes, but not without the i-th factor. */
  predicate ClosedBy(g: seq<int>, i: nat) {
    i < |g| && Vanishes(g) && !Vanishes(Without(g, i))
  }

  /** The product vanishes, but not without a certain factor. */
  ghost predicate Closable(g: seq<int>) {
    exists i: nat :: ClosedBy(g, i)
  }

  ghost predicate AllClosable(groups: seq<seq<int>>) {
    forall k :: 0 <= k < |groups| ==> Closable(groups[k])
  }

  /**
   * The factors can be split into groups, each of which vanishes but for one of its factors, and a rest
   * that does not vanish.  The order of groups and within groups does not matter.
   */
  ghost predicate Splits(fs: seq<int>, groups: seq<seq<int>>, rest: seq<int>) {
    && AllClosable(groups)
    && (rest == [] || !Vanishes(rest))
    && Permuted(fs, Concat(groups) + rest)
  }

  /** The groups between the resets of an order. */
  function Groups(fs: seq<int>): seq<seq<int>> {
    if fs == [] then []
    else
      var tail := SinceReset(fs[..|fs| - 1]) + [fs[|fs| - 1]];
      var before := Groups(fs[..|fs| - 1]);
      if Vanishes(tail) then before + [tail] else before
  }

  lemma ConcatSnoc(groups: seq<seq<int>>, g: seq<int>)
    ensures Concat(groups + [g]) == Concat(groups) + g
  {
    assert (groups + [g])[..|groups|] == groups;
  }

  lemma LastCloses(front: seq<int>, x: int)
    requires (front == [] || !Vanishes(front)) && Vanishes(front + [x])
    ensures Closable(front + [x])
  {
    var g := front + [x];
    assert Without(g, |front|) == front;
    assert Product([]) == 1;
    assert ClosedBy(g, |front|);
  }

  lemma ClosableSnoc(groups: seq<seq<int>>, g: seq<int>)
    requires AllClosable(groups) && Closable(g)
    ensures AllClosable(groups + [g])
  {
  }

  /** One more factor closes a group or adds to the rest. */
  lemma GroupsSnoc(front: seq<int>, x: int)
    ensures var tail := SinceReset(front) + [x];
      if Vanishes(tail) then Groups(front + [x]) == Groups(front) + [tail] && SinceReset(front + [x]) == []
      else Groups(front + [x]) == Groups(front) && SinceReset(front + [x]) == tail
  {
    assert (front + [x])[..|front|] == front;
  }

  lemma Regroup(c: seq<int>, rest: seq<int>, x: int)
    ensures c + (rest + [x]) == c + rest + [x] && c + (rest + [x]) + [] == c + rest + [x]
  {
  }

  lemma GroupsStep(front: seq<int>, x: int)
    requires AllClosable(Groups(front)) && Concat(Groups(front)) + SinceReset(front) == front
    ensures AllClosable(Groups(front + [x]))
    ensures Concat(Groups(front + [x])) + SinceReset(front + [x]) == front + [x]
  {
    var rest, before := SinceReset(front), Groups(front);
    GroupsSnoc(front, x);
    Regroup(Concat(before), rest, x);
    if Vanishes(rest + [x]) {
      AccumulatedSinceReset(front);
      LastCloses(rest, x);
      ClosableSnoc(before, rest + [x]);
      ConcatSnoc(before, rest + [x]);
    }
  }

  lemma {:induction false} GroupsSplit(fs: seq<int>)
    ensures AllClosable(Groups(fs)) && Concat(Groups(fs)) + SinceReset(fs) == fs
  {
    if fs != [] {
      var front, x := fs[..|fs| - 1], fs[|fs| - 1];
      assert fs == front + [x];
      GroupsSplit(front);
      GroupsStep(front, x);
    }
  }

  /** Every order splits the factors, and its result is the product of the rest. */
  lemma OrderSplits(fs: seq<int>, gs: seq<int>)
    requires Permuted(fs, gs)
    ensures Splits(fs, Groups(gs), SinceReset(gs)) && Accumulated(gs) == ProductOrZero(SinceReset(gs))
  {
    GroupsSplit(gs);
    AccumulatedSinceReset(gs);
  }

  lemma {:induction false} AfterReset(fs: seq<int>, gs: seq<int>)
    requires Accumulated(fs) == 0
    ensures Accumulated(fs + gs) == Accumulated(gs)
  {
    if gs == [] {
      assert fs + gs == fs;
    } else {
      AfterReset(fs, gs[..|gs| - 1]);
      assert (fs + gs)[..|fs + gs| - 1] == fs + gs[..|gs| - 1];
    }
  }

  lemma AppendPermuted(a: seq<int>, b: seq<int>, c: seq<int>, d: seq<int>)
    requires Permuted(a, b) && Permuted(c, d)
    ensures Permuted(a + c, b + d)
  {
  }

  lemma ClosingLast(g: seq<int>, i: nat)
    requires ClosedBy(g, i)
    ensures Permuted(g, Without(g, i) + [g[i]])
  {
    assert g == g[..i] + [g[i]] + g[i + 1..];
  }

  /** A group with its closing factor last leaves nothing. */
  lemma GroupResets(g: seq<int>) returns (h: seq<int>)
    requires Closable(g)
    ensures Permuted(g, h) && Accumulated(h) == 0
  {
    var i: nat :| ClosedBy(g, i);
    var front, x := Without(g, i), g[i];
    h := front + [x];
    ClosingLast(g, i);
    ProductPermutation(g, h);
    ProductSnoc(front, x);
    assert h[..|front|] == front;
    if front != [] {
      AccumulatedIsProduct(front);
      WrapProduct(Product(front), x);
    }
  }

  lemma {:induction false} GroupsReset(groups: seq<seq<int>>) returns (hs: seq<int>)
    requires AllClosable(groups)
    ensures Permuted(Concat(groups), hs) && Accumulated(hs) == 0
  {
    if groups == [] {
      hs := [];
    } else {
      var front, last := groups[..|groups| - 1], groups[|groups| - 1];
      var before := GroupsReset(front);
      var h := GroupResets(last);
      hs := before + h;
      AfterReset(before, h);
      AppendPermuted(Concat(front), before, last, h);
    }
  }

  lemma CpuOfFactors(fs: seq<int>)
    requires fs == [] || Wrap(Product(fs)) != 0
    ensures Accumulated(fs) == ProductOrZero(fs)
  {
    if fs != [] {
      AccumulatedIsProduct(fs);
    }
  }

  /** Every split is that of some order. */
  lemma SplitHasOrder(fs: seq<int>, groups: seq<seq<int>>, rest: seq<int>) returns (gs: seq<int>)
    requires Splits(fs, groups, rest)
    ensures Permuted(fs, gs) && Accumulated(gs) == ProductOrZero(rest)
  {
    var hs := GroupsReset(groups);
    gs := hs + rest;
    AppendPermuted(Concat(groups), hs, rest, rest);
    AfterReset(hs, rest);
    CpuOfFactors(rest);
  }

  /** For every list of factors: the results its orders give are the products of the rests it can leave. */
  lemma ResultsAre(fs: seq<int>, v: int64)
    ensures (exists gs :: Permuted(fs, gs) && Accumulated(gs) == v)
      <==> exists groups, rest :: Splits(fs, groups, rest) && ProductOrZero(rest) == v
  {
    if gs :| Permuted(fs, gs) && Accumulated(gs) == v {
      OrderSplits(fs, gs);
    }
    if groups, rest :| Splits(fs, groups, rest) && ProductOrZero(rest) == v {
      var gs := SplitHasOrder(fs, groups, rest);
    }
  }

  ghost predicate OneResult(fs: seq<int>) {
    forall gs :: Permuted(fs, gs) ==> Accumulated(gs) == Accumulated(fs)
  }

  /** However the factors are split, the rest has the same product. */
  ghost predicate OneRest(fs: seq<int>) {
    forall groups, rest, groups', rest' :: Splits(fs, groups, rest) && Splits(fs, groups', rest')
      ==> ProductOrZero(rest) == ProductOrZero(rest')
  }

  /**
   * For every list of factors: all orders give the same result if and only if the rest has the same
   * product however the factors are split into groups that vanish.
   */
  lemma OrderIrrelevantIff(fs: seq<int>)
    ensures OneResult(fs) <==> OneRest(fs)
  {
    if OneResult(fs) {
      forall groups, rest | Splits(fs, groups, rest) ensures ProductOrZero(rest) == Accumulated(fs) {
        var gs := SplitHasOrder(fs, groups, rest);
      }
    }
    if OneRest(fs) {
      OrderSplits(fs, fs);
      forall gs | Permuted(fs, gs) ensures Accumulated(gs) == Accumulated(fs) {
        OrderSplits(fs, gs);
      }
    }
  }

  // ----- reordering directives ---------------------------------------------------------------

  /** The meanings of one kind, in order. */
  function Select(ms: seq<Meaning>, kind: Meaning -> bool): seq<Meaning> {
    if ms == [] then []
    else Select(ms[..|ms| - 1], kind) + (if kind(ms[|ms| - 1]) then [ms[|ms| - 1]] else [])
  }

  function Times(ms: seq<Meaning>): seq<Meaning> { Select(ms, (m: Meaning) => m.SetTime?) }
  function Nodes(ms: seq<Meaning>): seq<Meaning> { Select(ms, (m: Meaning) => m.SetNodes?) }
  function Mems(ms: seq<Meaning>): seq<Meaning> { Select(ms, (m: Meaning) => m.SetMem?) }

  /** The last setting of a kind depends on the settings of that kind alone. */
  lemma {:induction false} LastOfKind(ms: seq<Meaning>)
    ensures LastTime(Times(ms)) == LastTime(ms)
    ensures LastNodes(Nodes(ms)) == LastNodes(ms)
    ensures LastMem(Mems(ms)) == LastMem(ms)
  {
    if ms != [] {
      var front, m := ms[..|ms| - 1], ms[|ms| - 1];
      LastOfKind(front);
      assert (Times(front) + [m])[..|Times(front)|] == Times(front);
      assert (Nodes(front) + [m])[..|Nodes(front)|] == Nodes(front);
      assert (Mems(front) + [m])[..|Mems(front)|] == Mems(front);
      assert Times(ms) == if m.SetTime? then Times(front) + [m] else Times(front);
      assert Nodes(ms) == if m.SetNodes? then Nodes(front) + [m] else Nodes(front);
      assert Mems(ms) == if m.SetMem? then Mems(front) + [m] else Mems(front);
    }
  }

  /** The same directives up to order, each of time, nodes and memory in the same order. */
  predicate Reordered(ms: seq<Meaning>, ns: seq<Meaning>) {
    && Times(ms) == Times(ns) && Nodes(ms) == Nodes(ns) && Mems(ms) == Mems(ns)
    && Permuted(Factors(ms), Factors(ns))
  }

  lemma ReorderedMeanings(ms: seq<Meaning>, ns: seq<Meaning>)
    requires Reordered(ms, ns)
    ensures Requested(ms) == Requested(ns) <==> Accumulated(Factors(ms)) == Accumulated(Factors(ns))
  {
    LastOfKind(ms);
    LastOfKind(ns);
  }

  lemma ReorderedFactors(fs: seq<int>, gs: seq<int>)
    requires Permuted(fs, gs) && (fs == [] || Wrap(Product(fs)) != 0)
    ensures Accumulated(fs) == Accumulated(gs) == ProductOrZero(fs)
  {
    PermutedLength(fs, gs);
    ProductPermutation(fs, gs);
    CpuOfFactors(fs);
    CpuOfFactors(gs);
  }

  function FactorsOf(script: string): seq<int> {
    Factors(Meanings(DirectivesOf(script).directives))
  }

  /**
   * Directives may be reordered as long as those for time, nodes and memory keep their order among
   * themselves: unlimited times and unknown directives do not matter at all.  The two scripts ask for
   * the same if and only if the cpu factors since the last reset have the same product in both; and
   * that is so in any order, and the value is the product of all of them, unless it vanishes.
   */
  lemma ReorderedScripts(s: string, t: string)
    requires Extracted(s).Ok? && Extracted(t).Ok?
    requires Reordered(Meanings(DirectivesOf(s).directives), Meanings(DirectivesOf(t).directives))
    ensures Extracted(s) == Extracted(t) <==>
      ProductOrZero(SinceReset(FactorsOf(s))) == ProductOrZero(SinceReset(FactorsOf(t)))
    ensures FactorsOf(s) == [] || Wrap(Product(FactorsOf(s))) != 0 ==>
      Extracted(s) == Extracted(t) && Extracted(s).value.cpuPerNode == ProductOrZero(FactorsOf(s))
  {
    ReorderedMeanings(Meanings(DirectivesOf(s).directives), Meanings(DirectivesOf(t).directives));
    AccumulatedSinceReset(FactorsOf(s));
    AccumulatedSinceReset(FactorsOf(t));
    if FactorsOf(s) == [] || Wrap(Product(FactorsOf(s))) != 0 {
      ReorderedFactors(FactorsOf(s), FactorsOf(t));
    }
  }

  // ----- a script that panics ----------------------------------------------------------------

  /** A header line with the given tokens. */
  function HeaderLine(words: seq<string>): string {
    SBATCH_HEADER + [' '] + Join(words, ' ')
  }

  lemma TokensOfHeaderLine(words: seq<string>)
    requires AllWords(words)
    ensures IsHeader(HeaderLine(words)) && !Skipped(HeaderLine(words)) && Tokens(HeaderLine(words)) == words
  {
    assert HeaderLine(words)[1] == 'S';
    assert HeaderLine(words)[|SBATCH_HEADER|..] == [' '] + Join(words, ' ');
    FieldsSkip(' ', Join(words, ' '));
    FieldsJoin(words);
  }

  /** Tokens for a header line of a scannable length, without '=' and without a bad value. */
  predicate QuietTokens(words: seq<string>) {
    && words != [] && AllWords(words) && Free(words, '=') && Free(words, '\n')
    && 4 * |HeaderLine(words)| < MAX_SCAN_TOKEN_SIZE
    && Bad !in Meanings(Pairing(words).directives)
  }

  lemma {:induction false} LastOfJoin(words: seq<string>)
    requires words != [] && AllWords(words)
    ensures var s := Join(words, ' '); s != "" && !IsSpace(s[|s| - 1])
  {
    if |words| > 1 {
      LastOfJoin(words[1..]);
      var tail := Join(words[1..], ' ');
      var s := Join(words, ' ');
      assert s == words[0] + [' '] + tail;
      assert s[|s| - 1] == tail[|tail| - 1];
    }
  }

  lemma HeaderLineScanned(words: seq<string>, rest: string)
    requires QuietTokens(words)
    ensures var s := HeaderLine(words) + ['\n'] + rest;
      ScanLine(s) == Some(HeaderLine(words)) && AfterLine(s) == rest
  {
    JoinFree(words, ' ', '\n');
    assert '\n' !in SBATCH_HEADER;
    LastOfJoin(words);
    ScanLineCons(HeaderLine(words), rest);
  }

  /**
   * A first header line without any '=' and without a bad value makes the scan panic exactly when it
   * has an odd number of tokens, or when what comes after it does.
   */
  lemma FirstHeaderFaults(words: seq<string>, rest: string)
    requires QuietTokens(words)
    ensures Extracted(HeaderLine(words) + ['\n'] + rest).Fault? <==> |words| % 2 == 1 || Extracted(rest).Fault?
  {
    HeaderLineScanned(words, rest);
    TokensOfHeaderLine(words);
    DanglingIffOdd(words);
    DanglingIffLandsOnLast(words);
    HeaderStep(HeaderLine(words) + ['\n'] + rest, HeaderLine(words));
  }

  lemma OddHeaderFaults(words: seq<string>, rest: string)
    requires QuietTokens(words) && |words| % 2 == 1
    ensures Extracted(HeaderLine(words) + ['\n'] + rest) == Fault
  {
    FirstHeaderFaults(words, rest);
  }

  lemma {:induction false} JoinLength(words: seq<string>, n: nat)
    requires forall i :: 0 <= i < |words| ==> |words[i]| <= n
    ensures |Join(words, ' ')| <= |words| * (n + 1)
  {
    if |words| > 1 {
      JoinLength(words[1..], n);
    }
  }

  lemma FoxWords(words: seq<string>)
    requires words == ["-N", "2", "#", "total", "number", "of", "nodes"]
    ensures AllWords(words) && Free(words, '=') && Free(words, '\n')
    ensures forall i :: 0 <= i < |words| ==> |words[i]| <= 6
  {
    forall i | 0 <= i < |words|
      ensures IsWord(words[i]) && '=' !in words[i] && '\n' !in words[i] && |words[i]| <= 6
    {
    }
  }

  predicate IsUnknownParam(p: string) {
    !IsTimeParam(p) && !IsNodesParam(p) && !IsMemParam(p) && !IsCpuParam(p)
  }

  lemma FoxParams(p: string, q: string, r: string)
    requires p == "-N" && q == "#" && r == "number"
    ensures IsNodesParam(p) && !IsTimeParam(p) && IsUnknownParam(q) && IsUnknownParam(r)
  {
  }

  lemma NodesMeaning(param: string, value: string)
    requires IsNodesParam(param) && !IsTimeParam(param) && ParseInt(MinNodes(value)).Some?
    ensures MeaningOf(Directive(param, value)) == SetNodes(ParseInt(MinNodes(value)).value)
  {
  }

  lemma UnknownMeaning(param: string, value: string)
    requires IsUnknownParam(param)
    ensures MeaningOf(Directive(param, value)) == Nothing
  {
  }

  lemma ThreePairs(words: seq<string>)
    requires |words| == 7 && Free(words, '=')
    ensures Pairing(words).directives ==
      [Directive(words[0], words[1]), Directive(words[2], words[3]), Directive(words[4], words[5])]
  {
    var w5 := words[2..];
    var w3 := w5[2..];
    var w1 := w3[2..];
    IndexOfAbsent(words[0], '=');
    IndexOfAbsent(words[2], '=');
    IndexOfAbsent(words[4], '=');
    IndexOfAbsent(words[6], '=');
    assert w1[0] == words[6] && w3[0] == words[4] && w3[1] == words[5] && w5[0] == words[2] && w5[1] == words[3];
    assert Pairing(w1) == Walk([], true);
    assert Pairing(w3).directives == [Directive(words[4], words[5])];
    assert Pairing(w5).directives == [Directive(words[2], words[3]), Directive(words[4], words[5])];
  }

  lemma PairsWithoutError(words: seq<string>)
    requires |words| == 7 && Free(words, '=')
    requires IsNodesParam(words[0]) && !IsTimeParam(words[0]) && ParseInt(MinNodes(words[1])).Some?
    requires IsUnknownParam(words[2]) && IsUnknownParam(words[4])
    ensures Bad !in Meanings(Pairing(words).directives)
  {
    ThreePairs(words);
    NodesMeaning(words[0], words[1]);
    UnknownMeaning(words[2], words[3]);
    UnknownMeaning(words[4], words[5]);
  }

  lemma TwoIsNumeral()
    ensures MinNodes("2") == "2" && ParseInt("2") == Some(2)
  {
    ParseFormat(2);
    assert FormatInt(2) == "2";
    assert IndexOf("2", '-') == -1;
  }

  lemma FoxDirectives(words: seq<string>)
    requires words == ["-N", "2", "#", "total", "number", "of", "nodes"] && Free(words, '=')
    ensures Bad !in Meanings(Pairing(words).directives)
  {
    TwoIsNumeral();
    FoxParams(words[0], words[2], words[4]);
    PairsWithoutError(words);
  }

  lemma FoxQuiet(words: seq<string>)
    requires words == ["-N", "2", "#", "total", "number", "of", "nodes"]
    ensures QuietTokens(words) && |words| % 2 == 1
  {
    FoxWords(words);
    FoxDirectives(words);
    JoinLength(words, 6);
  }

  lemma ShebangSkipped(line: string, rest: string)
    requires HasPrefix(line, SHEBANG) && '\n' !in line && 4 * |line| < MAX_SCAN_TOKEN_SIZE
    requires line[|line| - 1] != '\r'
    ensures Extracted(line + ['\n'] + rest) == Extracted(rest)
  {
    ScanLineCons(line, rest);
  }

  /** The words of the two header lines of examples/fox.yaml the scan gets to. */
  predicate FoxHeaders(name: seq<string>, nodes: seq<string>) {
    name == ["-J", "singularity-mpi"] && nodes == ["-N", "2", "#", "total", "number", "of", "nodes"]
  }

  lemma FoxNameWords(param: string, value: string)
    requires param == "-J" && value == "singularity-mpi"
    ensures IsUnknownParam(param) && |param| <= 15 && |value| <= 15
    ensures IsWord(param) && '=' !in param && '\n' !in param
    ensures IsWord(value) && '=' !in value && '\n' !in value
  {
  }

  lemma OnePair(words: seq<string>)
    requires |words| == 2 && Free(words, '=')
    ensures Pairing(words).directives == [Directive(words[0], words[1])]
  {
    IndexOfAbsent(words[0], '=');
    assert words[2..] == [] && Pairing([]) == Walk([], false);
  }

  lemma FoxNameQuiet(name: seq<string>)
    requires name == ["-J", "singularity-mpi"]
    ensures QuietTokens(name)
  {
    FoxNameWords(name[0], name[1]);
    JoinLength(name, 15);
    OnePair(name);
    UnknownMeaning(name[0], name[1]);
  }

  /**
   * The script of examples/fox.yaml: its shebang, the line with the job's name, and line 9, where a
   * trailing comment makes the number of tokens odd.  Extraction panics there, whatever follows.
   */
  lemma FoxFaults(shebang: string, name: seq<string>, nodes: seq<string>, rest: string)
    requires shebang == "#!/bin/bash" && FoxHeaders(name, nodes)
    ensures Extracted(shebang + ['\n'] + (HeaderLine(name) + ['\n'] + (HeaderLine(nodes) + ['\n'] + rest))) == Fault
  {
    var last := HeaderLine(nodes) + ['\n'] + rest;
    FoxQuiet(nodes);
    FoxNameQuiet(name);
    OddHeaderFaults(nodes, rest);
    FirstHeaderFaults(name, last);
    ShebangSkipped(shebang, HeaderLine(name) + ['\n'] + last);
  }

  // ----- lines, forms and names --------------------------------------------------------------

  /** A line that can be scanned, ended by a line feed. */
  predicate Scannable(line: string) {
    '\n' !in line && 4 * |line| < MAX_SCAN_TOKEN_SIZE && (line == "" || line[|line| - 1] != '\r')
  }

  /** Empty lines and lines that start with "#!" are skipped. */
  lemma SkippedLine(line: string, rest: string)
    requires Scannable(line) && (line == "" || HasPrefix(line, "#!"))
    ensures DirectivesOf(line + ['\n'] + rest) == DirectivesOf(rest)
  {
    ScanLineCons(line, rest);
  }

  /** The first other line that does not start with "#SBATCH" ends the scan. */
  lemma OtherLineEnds(line: string, rest: string)
    requires Scannable(line) && line != "" && !HasPrefix(line, "#!") && !HasPrefix(line, "#SBATCH")
    ensures DirectivesOf(line + ['\n'] + rest) == Walk([], false)
  {
    ScanLineCons(line, rest);
  }

  /** A line that does is read token by token. */
  lemma HeaderIsRead(words: seq<string>, rest: string)
    requires words != [] && AllWords(words) && Free(words, '\n') && 4 * |HeaderLine(words)| < MAX_SCAN_TOKEN_SIZE
    ensures DirectivesOf(HeaderLine(words) + ['\n'] + rest) ==
      if Pairing(words).dangling then Pairing(words) else Prepend(Pairing(words).directives, DirectivesOf(rest))
  {
    JoinFree(words, ' ', '\n');
    assert '\n' !in SBATCH_HEADER;
    LastOfJoin(words);
    ScanLineCons(HeaderLine(words), rest);
    TokensOfHeaderLine(words);
  }

  /** A directive is written as one token or as two. */
  function Written(d: Directive, joined: bool): seq<string> {
    if joined then [d.param + "=" + d.value] else [d.param, d.value]
  }

  /** Either form is read, whatever characters the value holds. */
  lemma WrittenIsRead(d: Directive, joined: bool, rest: seq<string>)
    requires '=' !in d.param
    ensures Pairing(Written(d, joined) + rest) == Prepend([d], Pairing(rest))
  {
    var tokens := Written(d, joined) + rest;
    if joined {
      var token := d.param + "=" + d.value;
      IndexOfHead(d.param, '=', d.value);
      assert token == d.param + ['='] + d.value;
      assert token[..|d.param|] == d.param && token[|d.param| + 1..] == d.value;
      assert tokens[1..] == rest;
    } else {
      IndexOfAbsent(d.param, '=');
      assert tokens[2..] == rest;
    }
  }

  function WrittenAll(ds: seq<(Directive, bool)>): seq<string> {
    if ds == [] then [] else Written(ds[0].0, ds[0].1) + WrittenAll(ds[1..])
  }

  function DirectivesIn(ds: seq<(Directive, bool)>): seq<Directive> {
    if ds == [] then [] else [ds[0].0] + DirectivesIn(ds[1..])
  }

  /** A line of directives in any mixture of forms is read as these directives. */
  lemma {:induction false} AllWrittenAreRead(ds: seq<(Directive, bool)>)
    requires forall i :: 0 <= i < |ds| ==> '=' !in ds[i].0.param
    ensures Pairing(WrittenAll(ds)) == Walk(DirectivesIn(ds), false)
  {
    if ds != [] {
      AllWrittenAreRead(ds[1..]);
      WrittenIsRead(ds[0].0, ds[0].1, WrittenAll(ds[1..]));
    }
  }

  /** Times have two names. */
  lemma TimeNames(param: string, value: string)
    requires param == "--time" || param == "-t"
    ensures MeaningOf(Directive(param, value)) ==
      match DurationOf(value) case Parsed(ns) => SetTime(ns) case Unlimited => Nothing case Malformed => Bad
  {
  }

  lemma NodesMeaningOf(param: string, value: string)
    requires param == "--nodes" || param == "-N"
    ensures MeaningOf(Directive(param, value)) ==
      match ParseInt(MinNodes(value)) case Some(n) => SetNodes(n) case None => Bad
  {
  }

  /** So have nodes, and of a range the lower end counts. */
  lemma NodesNames(param: string, value: string, n: int64)
    requires param == "--nodes" || param == "-N"
    requires '-' !in value && ParseInt(value) == Some(n)
    ensures MeaningOf(Directive(param, value)) == SetNodes(n)
    ensures forall upper :: MeaningOf(Directive(param, value + "-" + upper)) == SetNodes(n)
  {
    NodesMeaningOf(param, value);
    IndexOfAbsent(value, '-');
    forall upper ensures MeaningOf(Directive(param, value + "-" + upper)) == SetNodes(n) {
      NodesMeaningOf(param, value + "-" + upper);
      IndexOfHead(value, '-', upper);
      assert value + "-" + upper == value + ['-'] + upper;
      assert (value + "-" + upper)[..|value|] == value;
    }
  }

  lemma MemName(param: string, value: string)
    requires param == "--mem"
    ensures MeaningOf(Directive(param, value)) == match ParseInt(value) case Some(n) => SetMem(n) case None => Bad
  {
  }

  /** Three names multiply the cpus. */
  lemma CpuNames(param: string, value: string)
    requires param == "--cpus-per-task" || param == "-c" || param == "--ntasks-per-node"
    ensures MeaningOf(Directive(param, value)) == match ParseInt(value) case Some(n) => Scale(n) case None => Bad
  {
  }

  const NAMES: seq<string> := [
    "--time", "-t", "--nodes", "-N", "--mem", "--cpus-per-task", "-c", "--ntasks-per-node"]

  /** All other parameters mean nothing. */
  lemma OtherNames(param: string, value: string)
    requires param !in NAMES
    ensures MeaningOf(Directive(param, value)) == Nothing
  {
    assert NAMES[0] != param && NAMES[1] != param && NAMES[2] != param && NAMES[3] != param;
    assert NAMES[4] != param && NAMES[5] != param && NAMES[6] != param && NAMES[7] != param;
  }
}
