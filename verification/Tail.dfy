// Streaming the growing end of a file: the buffered reader (pkg/tail/reader.go) and the server loop
// that polls it (TailFile in internal/red-box/api/slurm.go).
//
// The reader is shared by two goroutines.  Each section under its mutex is one atomic step, and so
// is the unlocked look at isClosed that comes after the lock is released.
module Tail {
  import opened Options
  import opened Sequences

  newtype byte = x: int | 0 <= x < 256

  const LINE_FEED: byte := 10

  /** Size of the buffer TailFile reads into. */
  const CHUNK: nat := 128

  datatype IoError = NoError | Eof | UnexpectedEof

  // ----- the protocol as a state machine -----------------------------------------------------

  datatype Reason = ReadError | ContextDone | SendError

  /** Where the TailFile goroutine is; hand is what it has taken out of the buffer and not yet sent. */
  datatype Server =
    | Ready
    | Checking(hand: seq<byte>, err: IoError)   // has released the lock, has not looked at isClosed
    | Sending(hand: seq<byte>)
    | Stopped(reason: Reason, hand: seq<byte>)

  datatype State = State(buff: seq<byte>, isClosed: bool, server: Server, sent: seq<seq<byte>>)

  const INIT := State([], false, Ready, [])

  datatype Event =
    | Append(line: seq<byte>)   // readTail: a line under the lock
    | Finish                    // readTail: deferred isClosed = true
    | CloseRequest              // TailFile: the client asks to read to the end
    | Cancel                    // TailFile: the context is done
    | Tick                      // TailFile: Read, the locked part
    | Check                     // TailFile: Read, the unlocked part, and what the loop does with it
    | Send(ok: bool)            // TailFile: the chunk goes out, or does not

  /** io.ReadFull on a bytes.Buffer. */
  function ReadCount(available: nat, size: nat): nat {
    if available < size then available else size
  }

  function ReadFullError(available: nat, size: nat): IoError {
    if available >= size then NoError else if available > 0 then UnexpectedEof else Eof
  }

  /** What Read makes of that error. */
  function Visible(err: IoError, isClosed: bool): IoError {
    if (err == Eof || err == UnexpectedEof) && !isClosed then NoError else err
  }

  predicate Enabled(s: State, e: Event) {
    match e
    case Append(_) => !s.isClosed
    case Finish => !s.isClosed
    case CloseRequest => s.server.Ready?
    case Cancel => s.server.Ready?
    case Tick => s.server.Ready?
    case Check => s.server.Checking?
    case Send(_) => s.server.Sending?
  }

  function Step(s: State, e: Event): State
    requires Enabled(s, e)
  {
    match e
    case Append(line) => s.(buff := s.buff + line + [LINE_FEED])
    case Finish => s.(isClosed := true)
    case CloseRequest => s
    case Cancel => s.(server := Stopped(ContextDone, []))
    case Tick =>
      var n := ReadCount(|s.buff|, CHUNK);
      s.(buff := s.buff[n..], server := Checking(s.buff[..n], ReadFullError(|s.buff|, CHUNK)))
    case Check =>
      var hand := s.server.hand;
      if Visible(s.server.err, s.isClosed) != NoError && hand == [] then s.(server := Stopped(ReadError, []))
      else if hand == [] then s.(server := Ready)
      else s.(server := Sending(hand))
    case Send(ok) =>
      if ok then s.(server := Ready, sent := s.sent + [s.server.hand])
      else s.(server := Stopped(SendError, s.server.hand))
  }

  /** The state after the events, if each of them was possible when it happened. */
  function Exec(s: State, es: seq<Event>): Option<State> {
    if es == [] then Some(s)
    else
      match Exec(s, es[..|es| - 1])
      case None => None
      case Some(t) => if Enabled(t, es[|es| - 1]) then Some(Step(t, es[|es| - 1])) else None
  }

  lemma ExecSnoc(s: State, es: seq<Event>, e: Event)
    ensures Exec(s, es + [e]) ==
      match Exec(s, es) case None => None case Some(t) => if Enabled(t, e) then Some(Step(t, e)) else None
  {
    assert (es + [e])[..|es|] == es;
  }

  // ----- conservation ------------------------------------------------------------------------

  function Flatten(chunks: seq<seq<byte>>): seq<byte> {
    if chunks == [] then [] else Flatten(chunks[..|chunks| - 1]) + chunks[|chunks| - 1]
  }

  /** The text of the lines appended during some events. */
  function Appended(es: seq<Event>): seq<byte> {
    if es == [] then []
    else
      var e := es[|es| - 1];
      Appended(es[..|es| - 1]) + if e.Append? then e.line + [LINE_FEED] else []
  }

  function InHand(s: State): seq<byte> {
    if s.server.Ready? then [] else s.server.hand
  }

  function Sent(s: State): seq<byte> {
    Flatten(s.sent)
  }

  function Pending(s: State): seq<byte> {
    InHand(s) + s.buff
  }

  /** Every byte in its place. */
  function Total(s: State): seq<byte> {
    Sent(s) + Pending(s)
  }

  lemma FlattenSnoc(chunks: seq<seq<byte>>, c: seq<byte>)
    ensures Flatten(chunks + [c]) == Flatten(chunks) + c
  {
    assert (chunks + [c])[..|chunks|] == chunks;
  }

  lemma AppendConserves(s: State, line: seq<byte>)
    ensures Total(s.(buff := s.buff + line + [LINE_FEED])) == Total(s) + (line + [LINE_FEED])
  {
    var text := line + [LINE_FEED];
    assert s.buff + line + [LINE_FEED] == s.buff + text;
    assert InHand(s) + (s.buff + text) == Pending(s) + text;
    assert Sent(s) + (Pending(s) + text) == Total(s) + text;
  }

  lemma SendConserves(s: State, ok: bool)
    requires s.server.Sending?
    ensures Total(Step(s, Send(ok))) == Total(s)
  {
    FlattenSnoc(s.sent, s.server.hand);
    assert Sent(s) + s.server.hand + s.buff == Sent(s) + (s.server.hand + s.buff);
    assert [] + s.buff == s.buff;
  }

  lemma StepConserves(s: State, e: Event)
    requires Enabled(s, e)
    ensures Total(Step(s, e)) == Total(s) + if e.Append? then e.line + [LINE_FEED] else []
  {
    assert Total(s) + [] == Total(s);
    match e
    case Append(line) => AppendConserves(s, line);
    case Tick => assert Pending(Step(s, e)) == Pending(s);
    case Send(ok) => SendConserves(s, ok);
    case _ => assert Pending(Step(s, e)) == Pending(s);
  }

  lemma StartsEmpty(s: State, text: seq<byte>)
    requires s == INIT
    ensures Total(s) + text == text
  {
  }

  /**
   * Conservation: in every interleaving, what was sent, then what the server holds, then what is in
   * the buffer is the text of the lines appended so far.
   */
  lemma {:induction false} Conservation(s: State, es: seq<Event>)
    requires Exec(s, es).Some?
    ensures Total(Exec(s, es).value) == Total(s) + Appended(es)
  {
    if es != [] {
      var front := es[..|es| - 1];
      Conservation(s, front);
      StepConserves(Exec(s, front).value, es[|es| - 1]);
    }
  }

  predicate GoodChunks(chunks: seq<seq<byte>>) {
    forall i :: 0 <= i < |chunks| ==> 1 <= |chunks[i]| <= CHUNK
  }

  predicate GoodHand(server: Server) {
    match server
    case Ready => true
    case Checking(hand, err) => |hand| <= CHUNK && (err == NoError ==> |hand| == CHUNK) && (err == Eof <==> hand == [])
    case Sending(hand) => 1 <= |hand| <= CHUNK
    case Stopped(reason, hand) => |hand| <= CHUNK && (reason != SendError ==> hand == [])
  }

  lemma {:induction false} ChunkSizes(es: seq<Event>)
    requires Exec(INIT, es).Some?
    ensures GoodChunks(Exec(INIT, es).value.sent) && GoodHand(Exec(INIT, es).value.server)
  {
    if es != [] {
      ChunkSizes(es[..|es| - 1]);
    }
  }

  /** At any time the client has a prefix of the text so far, in chunks of 1 to 128 bytes. */
  lemma ClientHasPrefix(es: seq<Event>)
    requires Exec(INIT, es).Some?
    ensures Sent(Exec(INIT, es).value) <= Appended(es)
    ensures GoodChunks(Exec(INIT, es).value.sent)
  {
    Conservation(INIT, es);
    ChunkSizes(es);
    StartsEmpty(INIT, Appended(es));
  }

  // ----- completeness ------------------------------------------------------------------------

  predicate ReaderEvent(e: Event) {
    e.Append? || e.Finish?
  }

  /** mid is what the reader goroutine does between the unlock of the last read and its check. */
  ghost predicate Window(es: seq<Event>, pre: seq<Event>, mid: seq<Event>) {
    es == pre + [Tick] + mid && forall i :: 0 <= i < |mid| ==> ReaderEvent(mid[i])
  }

  /** What is known while the server is between unlock and check. */
  ghost predicate AtCheck(u: State, mid: seq<Event>, t: State) {
    && u.server.Ready? && t.sent == u.sent && t.server == Step(u, Tick).server
    && t.buff == Step(u, Tick).buff + Appended(mid)
    && (u.isClosed ==> mid == [])
    && (t.isClosed <==> u.isClosed || Finish in mid)
  }

  lemma AtCheckSnoc(u: State, mid: seq<Event>, t: State, e: Event)
    requires AtCheck(u, mid, t) && ReaderEvent(e) && Enabled(t, e)
    ensures AtCheck(u, mid + [e], Step(t, e))
  {
    assert (mid + [e])[..|mid|] == mid;
    if e.Append? {
      var text := e.line + [LINE_FEED];
      assert t.buff + e.line + [LINE_FEED] == t.buff + text;
      assert Step(u, Tick).buff + Appended(mid) + text == Step(u, Tick).buff + (Appended(mid) + text);
    }
  }

  /** While the server is between unlock and check, the history splits at the unlock. */
  lemma {:induction false} CheckingWindow(es: seq<Event>) returns (pre: seq<Event>, mid: seq<Event>)
    requires Exec(INIT, es).Some? && Exec(INIT, es).value.server.Checking?
    ensures Window(es, pre, mid)
    ensures Exec(INIT, pre).Some? && AtCheck(Exec(INIT, pre).value, mid, Exec(INIT, es).value)
  {
    var front, e := es[..|es| - 1], es[|es| - 1];
    assert es == front + [e];
    if e == Tick {
      pre, mid := front, [];
      assert pre + [Tick] + [] == es;
      assert Step(Exec(INIT, pre).value, Tick).buff + [] == Exec(INIT, es).value.buff;
    } else {
      var m;
      pre, m := CheckingWindow(front);
      mid := m + [e];
      assert pre + [Tick] + (m + [e]) == pre + [Tick] + m + [e];
      AtCheckSnoc(Exec(INIT, pre).value, m, Exec(INIT, front).value, e);
    }
  }

  /** Nothing happens after a stop on a read error. */
  lemma StoppedIsFinal(s: State, e: Event)
    requires s.server.Stopped? && s.isClosed
    ensures !Enabled(s, e)
  {
  }

  lemma {:induction false} ReadErrorMeansClosed(es: seq<Event>)
    requires Exec(INIT, es).Some? && Exec(INIT, es).value.server == Stopped(ReadError, [])
    ensures Exec(INIT, es).value.isClosed
    ensures es != [] && es[|es| - 1] == Check
  {
    var front, e := es[..|es| - 1], es[|es| - 1];
    var s := Exec(INIT, front).value;
    ChunkSizes(front);
    if s.server.Stopped? {
      ReadErrorMeansClosed(front);
      StoppedIsFinal(s, e);
    }
  }

  lemma {:induction false} NothingAppended(mid: seq<Event>)
    requires forall i :: 0 <= i < |mid| ==> ReaderEvent(mid[i])
    ensures Appended(mid) == [] <==> forall i :: 0 <= i < |mid| ==> mid[i].Finish?
  {
    if mid != [] {
      NothingAppended(mid[..|mid| - 1]);
    }
  }

  lemma {:induction false} ClosedByFinish(es: seq<Event>)
    requires Exec(INIT, es).Some?
    ensures Exec(INIT, es).value.isClosed <==> Finish in es
  {
    if es != [] {
      var front, e := es[..|es| - 1], es[|es| - 1];
      ClosedByFinish(front);
      assert es == front + [e];
    }
  }

  /**
   * Completeness: when TailFile returns a read error, the client has the text of all lines appended
   * before the lock of the last read, and misses exactly those appended between its unlock and its
   * look at isClosed.  So nothing is missing if and only if no line was appended there -- in
   * particular when isClosed was set before that lock.
   */
  lemma Completeness(es: seq<Event>) returns (pre: seq<Event>, mid: seq<Event>)
    requires Exec(INIT, es).Some? && Exec(INIT, es).value.server == Stopped(ReadError, [])
    ensures es == pre + [Tick] + mid + [Check] && forall i :: 0 <= i < |mid| ==> ReaderEvent(mid[i])
    ensures Sent(Exec(INIT, es).value) == Appended(pre)
    ensures Exec(INIT, es).value.buff == Appended(mid)
    ensures Sent(Exec(INIT, es).value) == Appended(es) <==> forall i :: 0 <= i < |mid| ==> mid[i].Finish?
    ensures Finish in pre ==> mid == []
    ensures Finish in pre + mid
  {
    ReadErrorMeansClosed(es);
    var front := es[..|es| - 1];
    assert es == front + [Check];
    pre, mid := CheckingWindow(front);
    var u, s, t := Exec(INIT, pre).value, Exec(INIT, front).value, Exec(INIT, es).value;
    ChunkSizes(front);
    assert s.server.hand == [];
    assert |u.buff| == 0;
    Conservation(INIT, pre);
    StartsEmpty(INIT, Appended(pre));
    assert Pending(u) == [];
    assert Step(u, Tick).buff + Appended(mid) == Appended(mid);
    Conservation(INIT, es);
    StartsEmpty(INIT, Appended(es));
    assert Pending(t) == Appended(mid);
    NothingAppended(mid);
    ClosedByFinish(pre);
  }

  lemma ExecThree(s: State, e1: Event, t: State, e2: Event, u: State, e3: Event, v: State)
    requires Enabled(s, e1) && t == Step(s, e1) && Enabled(t, e2) && u == Step(t, e2)
    requires Enabled(u, e3) && v == Step(u, e3)
    ensures Exec(s, [e1, e2, e3]) == Some(v)
  {
    ExecSnoc(s, [], e1);
    assert [] + [e1] == [e1];
    ExecSnoc(s, [e1], e2);
    assert [e1] + [e2] == [e1, e2];
    ExecSnoc(s, [e1, e2], e3);
    assert [e1, e2] + [e3] == [e1, e2, e3];
  }

  /** The loss is possible: a line that arrives inside the window stays in the buffer for ever. */
  lemma LineLost(line: seq<byte>)
    ensures Exec(INIT, [Tick, Append(line), Finish, Check])
      == Some(State(line + [LINE_FEED], true, Stopped(ReadError, []), []))
  {
    var t := State([], false, Checking([], Eof), []);
    var u := t.(buff := line + [LINE_FEED]);
    var v := u.(isClosed := true);
    assert INIT.buff[0..] == [] && [] + line + [LINE_FEED] == line + [LINE_FEED];
    ExecThree(INIT, Tick, t, Append(line), u, Finish, v);
    ExecSnoc(INIT, [Tick, Append(line), Finish], Check);
    assert [Tick, Append(line), Finish] + [Check] == [Tick, Append(line), Finish, Check];
  }

  // ----- the other ways to stop --------------------------------------------------------------

  /** The loop stops for a reason of its own exactly when the context is done or a send fails. */
  lemma {:induction false} StopsIff(es: seq<Event>)
    requires Exec(INIT, es).Some?
    ensures var server := Exec(INIT, es).value.server;
      && (server.Stopped? && server.reason == ContextDone <==> Cancel in es)
      && (server.Stopped? && server.reason == SendError <==> Send(false) in es)
  {
    if es != [] {
      var front, e := es[..|es| - 1], es[|es| - 1];
      StopsIff(front);
      assert es == front + [e];
    }
  }

  /** After that nothing is taken out of the buffer and nothing is sent. */
  lemma {:induction false} StoppedForGood(s: State, es: seq<Event>)
    requires s.server.Stopped? && Exec(s, es).Some?
    ensures Exec(s, es).value.server == s.server && Exec(s, es).value.sent == s.sent
    ensures s.buff <= Exec(s, es).value.buff
  {
    if es != [] {
      StoppedForGood(s, es[..|es| - 1]);
    }
  }

  // ----- what ends the stream ----------------------------------------------------------------

  /** The loop polls and sends, and nothing else happens. */
  predicate OnlyPolls(es: seq<Event>) {
    forall e :: e in es ==> e == Tick || e == Check || e == Send(true)
  }

  /** The stream ends with a read error. */
  predicate Ends(s: State) {
    s.server == Stopped(ReadError, [])
  }

  ghost predicate EndsByPolling(s: State) {
    exists fs :: OnlyPolls(fs) && Exec(s, fs).Some? && Ends(Exec(s, fs).value)
  }

  lemma ExecOne(s: State, e: Event)
    requires Enabled(s, e)
    ensures Exec(s, [e]) == Some(Step(s, e))
  {
    ExecSnoc(s, [], e);
    assert [] + [e] == [e];
  }

  /** One more tick finds bytes, which are sent, or finds none, and then the stream ends. */
  lemma PollOnce(s: State)
    requires s.isClosed && s.server.Ready?
    ensures s.buff == [] ==> Exec(s, [Tick, Check]).Some? && Ends(Exec(s, [Tick, Check]).value)
    ensures s.buff != [] ==>
      Exec(s, [Tick, Check, Send(true)]).Some?
      && var t := Exec(s, [Tick, Check, Send(true)]).value; t.isClosed && t.server.Ready? && |t.buff| < |s.buff|
  {
    var t := Step(s, Tick);
    var u := Step(t, Check);
    if s.buff == [] {
      ExecOne(s, Tick);
      ExecSnoc(s, [Tick], Check);
      assert [Tick] + [Check] == [Tick, Check];
    } else {
      ExecThree(s, Tick, t, Check, u, Send(true), Step(u, Send(true)));
    }
  }

  lemma {:induction false} ExecAppend(s: State, es: seq<Event>, fs: seq<Event>)
    requires Exec(s, es).Some?
    ensures Exec(s, es + fs) == Exec(Exec(s, es).value, fs)
  {
    if fs == [] {
      assert es + fs == es;
    } else {
      var f := fs[|fs| - 1];
      ExecAppend(s, es, fs[..|fs| - 1]);
      assert es + fs == (es + fs[..|fs| - 1]) + [f];
      ExecSnoc(s, es + fs[..|fs| - 1], f);
    }
  }

  lemma {:induction false} PollToEnd(s: State) returns (fs: seq<Event>)
    requires s.isClosed && s.server.Ready?
    ensures OnlyPolls(fs) && Exec(s, fs).Some? && Ends(Exec(s, fs).value)
    decreases |s.buff|
  {
    PollOnce(s);
    if s.buff == [] {
      fs := [Tick, Check];
    } else {
      var first := [Tick, Check, Send(true)];
      var rest := PollToEnd(Exec(s, first).value);
      ExecAppend(s, first, rest);
      fs := first + rest;
    }
  }

  /** Polling alone closes nothing, and only a closed reader ends the stream. */
  lemma {:induction false} OpenStaysOpen(s: State, fs: seq<Event>)
    requires !s.isClosed && !s.server.Stopped? && OnlyPolls(fs) && Exec(s, fs).Some?
    ensures !Exec(s, fs).value.isClosed && !Exec(s, fs).value.server.Stopped?
  {
    if fs != [] {
      var front := fs[..|fs| - 1];
      forall e | e in front ensures e == Tick || e == Check || e == Send(true) {
        assert e in fs;
      }
      assert fs[|fs| - 1] in fs;
      OpenStaysOpen(s, front);
    }
  }

  /**
   * What ends the stream: after any run that left the loop waiting, polling on ends it with a read
   * error if and only if readTail has returned -- whether or not the client has asked for that.
   */
  lemma EndsIffFinished(es: seq<Event>)
    requires Exec(INIT, es).Some? && Exec(INIT, es).value.server.Ready?
    ensures EndsByPolling(Exec(INIT, es).value) <==> Finish in es
  {
    var s := Exec(INIT, es).value;
    ClosedByFinish(es);
    if s.isClosed {
      var fs := PollToEnd(s);
    } else {
      forall fs | OnlyPolls(fs) && Exec(s, fs).Some? ensures !Ends(Exec(s, fs).value) {
        OpenStaysOpen(s, fs);
      }
    }
  }

  /** A stream that ended with a read error did so after readTail returned. */
  lemma EndNeedsFinish(es: seq<Event>)
    requires Exec(INIT, es).Some? && Ends(Exec(INIT, es).value)
    ensures Finish in es
  {
    var pre, mid := Completeness(es);
    assert es == pre + [Tick] + mid + [Check];
    assert Finish in pre || Finish in mid;
  }

  /** The client need not have asked: the lines may end because the file cannot be read any more. */
  lemma EndsWithoutRequest()
    ensures Exec(INIT, [Tick, Finish, Check]) == Some(State([], true, Stopped(ReadError, []), []))
    ensures CloseRequest !in [Tick, Finish, Check]
  {
    var t := State([], false, Checking([], Eof), []);
    var u := State([], true, Checking([], Eof), []);
    assert INIT.buff[0..] == [];
    ExecThree(INIT, Tick, t, Finish, u, Check, State([], true, Stopped(ReadError, []), []));
  }

  // ----- drain time --------------------------------------------------------------------------

  function CeilDiv(b: nat): nat {
    (b + CHUNK - 1) / CHUNK
  }

  function Ticks(es: seq<Event>): nat {
    if es == [] then 0 else Ticks(es[..|es| - 1]) + if es[|es| - 1].Tick? then 1 else 0
  }

  /** No cancellation and no failed send. */
  predicate Undisturbed(es: seq<Event>) {
    Cancel !in es && Send(false) !in es
  }

  /** Ticks still to come once the reader is closed. */
  function TicksLeft(s: State): nat {
    if s.server.Stopped? || (s.server.Checking? && s.server.hand == []) then 0 else CeilDiv(|s.buff|) + 1
  }

  /** A closed reader; a hand that is not full means that the buffer is empty. */
  predicate Draining(s: State) {
    && s.isClosed
    && match s.server
       case Ready => true
       case Checking(hand, err) =>
         |hand| <= CHUNK && (|hand| < CHUNK ==> s.buff == []) && err == ReadFullError(|hand|, CHUNK)
       case Sending(hand) => hand != []
       case Stopped(reason, hand) => reason == ReadError && hand == [] && s.buff == []
  }

  lemma DrainStep(s: State, e: Event)
    requires Draining(s) && Enabled(s, e) && e != Cancel && e != Send(false)
    ensures Draining(Step(s, e))
    ensures TicksLeft(s) == TicksLeft(Step(s, e)) + if e.Tick? then 1 else 0
  {
  }

  lemma {:induction false} DrainRun(s: State, es: seq<Event>)
    requires Draining(s) && Exec(s, es).Some? && Undisturbed(es)
    ensures Draining(Exec(s, es).value)
    ensures TicksLeft(s) == TicksLeft(Exec(s, es).value) + Ticks(es)
  {
    if es != [] {
      var front, e := es[..|es| - 1], es[|es| - 1];
      assert es == front + [e];
      DrainRun(s, front);
      DrainStep(Exec(s, front).value, e);
    }
  }

  lemma {:induction false} ClosedAppendsNothing(s: State, es: seq<Event>)
    requires s.isClosed && Exec(s, es).Some?
    ensures Appended(es) == [] && Exec(s, es).value.isClosed
  {
    if es != [] {
      ClosedAppendsNothing(s, es[..|es| - 1]);
    }
  }

  lemma DrainDelivers(s: State, es: seq<Event>)
    requires s.isClosed && s.server.Ready? && Exec(s, es).Some? && Draining(Exec(s, es).value)
    requires Exec(s, es).value.server.Stopped?
    ensures Sent(Exec(s, es).value) == Sent(s) + s.buff
  {
    Conservation(s, es);
    ClosedAppendsNothing(s, es);
    var t := Exec(s, es).value;
    assert Pending(s) == s.buff && Pending(t) == [];
    assert Sent(t) + [] == Sent(t) && Total(s) + [] == Total(s);
  }

  /**
   * Drain time: from a closed buffer of b bytes, if sends succeed and the context stays live, the
   * loop returns after exactly ceil(b/128) + 1 ticks and not before, with every byte sent; and
   * until then some event of the loop is possible.
   */
  lemma DrainTime(s: State, es: seq<Event>)
    requires s.isClosed && s.server.Ready? && Exec(s, es).Some? && Undisturbed(es)
    ensures Ticks(es) <= CeilDiv(|s.buff|) + 1
    ensures var t := Exec(s, es).value;
      if t.server.Stopped? then Ticks(es) == CeilDiv(|s.buff|) + 1 && Sent(t) == Sent(s) + s.buff
      else Enabled(t, Tick) || Enabled(t, Check) || Enabled(t, Send(true))
    ensures var t := Exec(s, es).value;
      Ticks(es) == CeilDiv(|s.buff|) + 1 ==> t.server == Checking([], Eof) || t.server == Stopped(ReadError, [])
  {
    DrainRun(s, es);
    if Exec(s, es).value.server.Stopped? {
      DrainDelivers(s, es);
    }
  }

  // ----- the code, step by step a run of the machine -----------------------------------------

  /** Those of the wanted events of the reader goroutine that are possible when their time comes. */
  function Possible(s: State, wanted: seq<Event>): seq<Event>
    decreases |wanted|
  {
    if wanted == [] then []
    else if ReaderEvent(wanted[0]) && Enabled(s, wanted[0]) then
      [wanted[0]] + Possible(Step(s, wanted[0]), wanted[1..])
    else Possible(s, wanted[1..])
  }

  /** Of the first i wanted events those taken led to u; the others are still to come. */
  ghost predicate Taken(s: State, wanted: seq<Event>, i: nat, u: State, taken: seq<Event>)
    requires i <= |wanted|
  {
    Exec(s, taken) == Some(u) && Possible(s, wanted) == taken + Possible(u, wanted[i..])
  }

  lemma TakenStart(s: State, wanted: seq<Event>)
    ensures Taken(s, wanted, 0, s, [])
  {
    assert wanted[0..] == wanted;
    assert [] + Possible(s, wanted) == Possible(s, wanted);
  }

  lemma TakenStep(s: State, wanted: seq<Event>, i: nat, u: State, taken: seq<Event>)
    requires i < |wanted| && Taken(s, wanted, i, u, taken)
    ensures if ReaderEvent(wanted[i]) && Enabled(u, wanted[i])
            then Taken(s, wanted, i + 1, Step(u, wanted[i]), taken + [wanted[i]])
            else Taken(s, wanted, i + 1, u, taken)
  {
    var e, rest := wanted[i], wanted[i + 1..];
    assert wanted[i..][0] == e && wanted[i..][1..] == rest;
    if ReaderEvent(e) && Enabled(u, e) {
      ExecSnoc(s, taken, e);
      Associate(taken, [e], Possible(Step(u, e), rest));
    }
  }

  /** The reader goroutine's events, in an order the scheduler picks. */
  class Reader {
    var buff: seq<byte>
    var isClosed: bool

    constructor ()
      ensures buff == [] && !isClosed
    {
      buff := [];
      isClosed := false;
    }

    function Seen(server: Server, sent: seq<seq<byte>>): State
      reads this
    {
      State(buff, isClosed, server, sent)
    }

    /** readTail: one line, under the lock. */
    method WriteLine(line: seq<byte>)
      modifies this`buff
      ensures buff == old(buff) + line + [LINE_FEED]
    {
      buff := buff + line + [LINE_FEED];
    }

    /** readTail returns: its lines are at an end, or one of them could not be used. */
    method Finish()
      modifies this`isClosed
      ensures isClosed
    {
      isClosed := true;
    }

    /** The locked part of Read: io.ReadFull drains the buffer into p. */
    method ReadLocked(p: array<byte>) returns (n: nat, err: IoError)
      modifies this`buff, p
      ensures n == ReadCount(|old(buff)|, p.Length) && err == ReadFullError(|old(buff)|, p.Length)
      ensures p[..n] == old(buff)[..n] && buff == old(buff)[n..]
    {
      n := ReadCount(|buff|, p.Length);
      forall i | 0 <= i < n {
        p[i] := buff[i];
      }
      err := if n == p.Length then NoError else if n > 0 then UnexpectedEof else Eof;
      buff := buff[n..];
    }

    /** The other goroutine runs; events that are not possible are not taken. */
    method Interfere(wanted: seq<Event>, ghost s: State)
      requires s == Seen(s.server, s.sent)
      modifies this
      ensures Exec(s, Possible(s, wanted)) == Some(Seen(s.server, s.sent))
    {
      ghost var taken: seq<Event> := [];
      var i := 0;
      TakenStart(s, wanted);
      while i < |wanted|
        invariant 0 <= i <= |wanted|
        invariant Taken(s, wanted, i, Seen(s.server, s.sent), taken)
      {
        TakenStep(s, wanted, i, Seen(s.server, s.sent), taken);
        if !isClosed && ReaderEvent(wanted[i]) {
          taken := taken + [wanted[i]];
          if wanted[i].Append? {
            WriteLine(wanted[i].line);
          } else {
            Finish();
          }
        }
        i := i + 1;
      }
      assert taken + [] == taken;
    }

    /** Read: the other goroutine may run between the unlock and the look at isClosed. */
    method Read(p: array<byte>, between: seq<Event>, ghost sent: seq<seq<byte>>) returns (n: nat, err: IoError)
      requires p.Length == CHUNK
      modifies this, p
      ensures n == ReadCount(|old(buff)|, CHUNK) && p[..n] == old(buff)[..n]
      ensures err == Visible(ReadFullError(|old(buff)|, CHUNK), isClosed)
      ensures var s := old(Seen(Ready, sent));
        Exec(s, [Tick] + Possible(Step(s, Tick), between))
          == Some(Seen(Checking(p[..n], ReadFullError(|old(buff)|, CHUNK)), sent))
    {
      ghost var s := Seen(Ready, sent);
      n, err := ReadLocked(p);
      ghost var locked := Step(s, Tick);
      ExecSnoc(s, [], Tick);
      assert [] + [Tick] == [Tick];
      Interfere(between, locked);
      ExecAppend(s, [Tick], Possible(locked, between));
      if (err == Eof || err == UnexpectedEof) && !isClosed {
        err := NoError;
      }
    }
  }

  /** What the select statement finds ready, and what goes on meanwhile. */
  datatype Turn =
    | Idle(wanted: seq<Event>)
    | ContextIsDone
    | RequestIsThere
    | TickerFired(between: seq<Event>, meanwhile: seq<Event>, sendOk: bool)  // after the lock, and while sending

  /** The events of one turn of the loop. */
  function TurnEvents(s: State, turn: Turn): seq<Event>
    requires s.server.Ready?
  {
    match turn
    case Idle(wanted) => Possible(s, wanted)
    case ContextIsDone => [Cancel]
    case RequestIsThere => [CloseRequest]
    case TickerFired(between, meanwhile, sendOk) =>
      var read := [Tick] + Possible(Step(s, Tick), between) + [Check];
      match Exec(s, read)
      case None => read
      case Some(t) => if t.server.Sending? then read + Possible(t, meanwhile) + [Send(sendOk)] else read
  }

  /** The whole schedule as events of the machine, until the loop returns. */
  function Schedule(s: State, turns: seq<Turn>): seq<Event>
    decreases |turns|
  {
    if turns == [] || !s.server.Ready? then []
    else
      var es := TurnEvents(s, turns[0]);
      match Exec(s, es)
      case None => es
      case Some(t) => es + Schedule(t, turns[1..])
  }

  /** The first i turns made the trace and led to u; the other turns are still to come. */
  ghost predicate OnTrack(s: State, turns: seq<Turn>, i: nat, u: State, trace: seq<Event>)
    requires i <= |turns|
  {
    Exec(s, trace) == Some(u) && Schedule(s, turns) == trace + Schedule(u, turns[i..])
  }

  lemma OnTrackStart(s: State, turns: seq<Turn>)
    ensures OnTrack(s, turns, 0, s, [])
  {
    assert turns[0..] == turns;
    assert [] + Schedule(s, turns) == Schedule(s, turns);
  }

  lemma OnTrackEnd(s: State, turns: seq<Turn>, i: nat, u: State, trace: seq<Event>)
    requires i <= |turns| && OnTrack(s, turns, i, u, trace) && (i == |turns| || !u.server.Ready?)
    ensures Exec(s, Schedule(s, turns)) == Some(u)
  {
    assert trace + [] == trace;
  }

  /** Up to the look at isClosed. */
  lemma PollEvents(u: State, between: seq<Event>, meanwhile: seq<Event>, sendOk: bool, t: State)
    requires u.server.Ready? && t.server.Checking?
    requires Exec(u, [Tick] + Possible(Step(u, Tick), between)) == Some(t)
    ensures var read := [Tick] + Possible(Step(u, Tick), between) + [Check];
      && Exec(u, read) == Some(Step(t, Check))
      && TurnEvents(u, TickerFired(between, meanwhile, sendOk)) ==
         if Step(t, Check).server.Sending? then read + Possible(Step(t, Check), meanwhile) + [Send(sendOk)] else read
  {
    ExecSnoc(u, [Tick] + Possible(Step(u, Tick), between), Check);
  }

  /** The chunk goes out, or does not, after the other goroutine has run once more. */
  lemma SendAfter(u: State, between: seq<Event>, meanwhile: seq<Event>, sendOk: bool, t: State, sending: State)
    requires u.server.Ready? && t.server.Checking? && Step(t, Check).server.Sending? && sending.server.Sending?
    requires Exec(u, [Tick] + Possible(Step(u, Tick), between)) == Some(t)
    requires Exec(Step(t, Check), Possible(Step(t, Check), meanwhile)) == Some(sending)
    ensures Exec(u, TurnEvents(u, TickerFired(between, meanwhile, sendOk))) == Some(Step(sending, Send(sendOk)))
  {
    PollEvents(u, between, meanwhile, sendOk, t);
    var read := [Tick] + Possible(Step(u, Tick), between) + [Check];
    ExecAppend(u, read, Possible(Step(t, Check), meanwhile));
    ExecSnoc(u, read + Possible(Step(t, Check), meanwhile), Send(sendOk));
  }

  /** A tick: read, look at the error, send what was read. */
  method Poll(
    r: Reader, buff: array<byte>, between: seq<Event>, meanwhile: seq<Event>, sendOk: bool,
    sent0: seq<seq<byte>>)
    returns (sent: seq<seq<byte>>, server: Server)
    requires buff.Length == CHUNK
    modifies r, buff
    ensures var u := old(r.Seen(Ready, sent0));
      Exec(u, TurnEvents(u, TickerFired(between, meanwhile, sendOk))) == Some(r.Seen(server, sent))
    ensures server.Ready? || server.Stopped?
  {
    sent, server := sent0, Ready;
    ghost var u := r.Seen(Ready, sent);
    var n, err := r.Read(buff, between, sent);
    ghost var checking := r.Seen(Checking(buff[..n], ReadFullError(|u.buff|, CHUNK)), sent);
    PollEvents(u, between, meanwhile, sendOk, checking);
    if err != NoError && n == 0 {
      server := Stopped(ReadError, []);
      return;
    }
    if n == 0 {
      return;
    }
    r.Interfere(meanwhile, Step(checking, Check));
    SendAfter(u, between, meanwhile, sendOk, checking, r.Seen(Sending(buff[..n]), sent));
    if !sendOk {
      server := Stopped(SendError, buff[..n]);
      return;
    }
    sent := sent + [buff[..n]];
  }

  /** The select statement of TailFile; the buffer is used again and again. */
  method TakeTurn(r: Reader, buff: array<byte>, turn: Turn, sent0: seq<seq<byte>>)
    returns (sent: seq<seq<byte>>, server: Server)
    requires buff.Length == CHUNK
    modifies r, buff
    ensures var u := old(r.Seen(Ready, sent0));
      Exec(u, TurnEvents(u, turn)) == Some(r.Seen(server, sent))
    ensures server.Ready? || server.Stopped?
  {
    sent, server := sent0, Ready;
    ghost var u := r.Seen(Ready, sent);
    match turn {
      case Idle(wanted) => {
        r.Interfere(wanted, u);
      }
      case ContextIsDone => {
        server := Stopped(ContextDone, []);
        ExecOne(u, Cancel);
      }
      case RequestIsThere => {
        ExecOne(u, CloseRequest);
      }
      case TickerFired(between, meanwhile, sendOk) => {
        sent, server := Poll(r, buff, between, meanwhile, sendOk, sent0);
      }
    }
  }

  lemma ScheduleStep(u: State, turns: seq<Turn>, t: State)
    requires turns != [] && u.server.Ready? && Exec(u, TurnEvents(u, turns[0])) == Some(t)
    ensures Schedule(u, turns) == TurnEvents(u, turns[0]) + Schedule(t, turns[1..])
  {
  }

  /** One turn moves from the schedule to the trace. */
  lemma TurnTaken(s: State, turns: seq<Turn>, i: nat, u: State, trace: seq<Event>, t: State)
    requires i < |turns| && u.server.Ready? && OnTrack(s, turns, i, u, trace)
    requires Exec(u, TurnEvents(u, turns[i])) == Some(t)
    ensures OnTrack(s, turns, i + 1, t, trace + TurnEvents(u, turns[i]))
  {
    var es := TurnEvents(u, turns[i]);
    ExecAppend(s, trace, es);
    ScheduleStep(u, turns[i..], t);
    assert turns[i..][1..] == turns[i + 1..];
    Associate(trace, es, Schedule(t, turns[i + 1..]));
  }

  /** TailFile's loop makes exactly the run of the machine that a schedule of turns stands for. */
  method TailFile(r: Reader, turns: seq<Turn>) returns (sent: seq<seq<byte>>, server: Server)
    modifies r
    ensures Exec(old(r.Seen(Ready, [])), Schedule(old(r.Seen(Ready, [])), turns)) == Some(r.Seen(server, sent))
    ensures server.Ready? || server.Stopped?
  {
    var buff := new byte[CHUNK];
    ghost var s := r.Seen(Ready, []);
    ghost var u := s;
    ghost var trace: seq<Event> := [];
    sent, server := [], Ready;
    var i := 0;
    OnTrackStart(s, turns);
    while i < |turns|
      invariant 0 <= i <= |turns| && server == Ready
      invariant u == r.Seen(Ready, sent) && OnTrack(s, turns, i, u, trace)
      decreases |turns| - i
    {
      sent, server := TakeTurn(r, buff, turns[i], sent);
      ghost var t := r.Seen(server, sent);
      TurnTaken(s, turns, i, u, trace, t);
      trace := trace + TurnEvents(u, turns[i]);
      u := t;
      i := i + 1;
      if server.Stopped? {
        OnTrackEnd(s, turns, i, u, trace);
        return;
      }
    }
    OnTrackEnd(s, turns, i, u, trace);
  }

  // ----- in numbers --------------------------------------------------------------------------

  /** Chunks of at most 128 bytes, and a drain of b bytes in b / 128 ticks, rounded up, and one more. */
  lemma InNumbers(s: State, es: seq<Event>)
    requires s.isClosed && s.server.Ready? && Exec(s, es).Some? && Undisturbed(es)
    ensures Exec(s, es).value.server.Stopped? ==> Ticks(es) == (|s.buff| + 127) / 128 + 1
    ensures forall chunks :: GoodChunks(chunks) <==> forall i :: 0 <= i < |chunks| ==> 1 <= |chunks[i]| <= 128
  {
    DrainTime(s, es);
  }

  /** A request to read to the end changes nothing by itself. */
  lemma RequestChangesNothing(s: State)
    requires s.server.Ready?
    ensures Step(s, CloseRequest) == s
  {
  }
}
