// Moving an archive through a stream of small chunks, in both directions: OpenFile and CreateFile of
// internal/red-box/api/slurm.go and the loops and drivers of cmd/results/main.go.
module Transfer {
  import opened Options
  import opened Paths
  import opened Archive

  /** The size of the buffer that is read into. */
  const CHUNK := 128

  function Min(a: nat, b: nat): nat {
    if a < b then a else b
  }

  function Flatten(chunks: seq<Bytes>): Bytes {
    if chunks == [] then [] else Flatten(chunks[..|chunks| - 1]) + chunks[|chunks| - 1]
  }

  lemma FlattenSnoc(chunks: seq<Bytes>, c: Bytes)
    ensures Flatten(chunks + [c]) == Flatten(chunks) + c
  {
    assert (chunks + [c])[..|chunks|] == chunks;
  }

  /** Chunks of 1 to 128 bytes. */
  predicate GoodSizes(chunks: seq<Bytes>) {
    forall k :: 0 <= k < |chunks| ==> 0 < |chunks[k]| <= CHUNK
  }

  // ----- sending -----------------------------------------------------------------------------

  datatype ReadError = NoError | AtEnd | Failed

  /** How a read goes: the number of bytes it gives, possibly none, and an error that may come with bytes. */
  datatype Answer = Answer(n: nat, err: ReadError)

  /**
   * The i-th read with so much left.  A read gives no more than there is or fits the buffer and does
   * not report the end before it; reads nobody has asked to be short fill the buffer.
   */
  function AnswerAt(answers: seq<Answer>, i: nat, left: nat): (a: Answer)
    ensures a.n <= left && a.n <= CHUNK && (a.err == AtEnd ==> a.n == left)
    ensures i >= |answers| && a.err == NoError ==> a.n > 0
  {
    if i >= |answers| then Answer(Min(left, CHUNK), if left == 0 then AtEnd else NoError)
    else
      var n := Min(answers[i].n, Min(left, CHUNK));
      Answer(n, if answers[i].err == AtEnd && n < left then NoError else answers[i].err)
  }

  datatype End = Complete | ReadFailed | SendFailed

  datatype Sent = Sent(chunks: seq<Bytes>, end: End)

  predicate Fails(faults: seq<bool>, i: nat) {
    i < |faults| && faults[i]
  }

  /** With the next n bytes as one more chunk, if there are any. */
  function More(content: Bytes, pos: nat, n: nat, chunks: seq<Bytes>): seq<Bytes>
    requires pos + n <= |content|
  {
    if n > 0 then chunks + [content[pos..pos + n]] else chunks
  }

  /** What has been sent when the loop ends, from the i-th read on: chunks are sent and the file is read up to pos. */
  function SendFrom(content: Bytes, pos: nat, chunks: seq<Bytes>, answers: seq<Answer>, sends: seq<bool>, i: nat): Sent
    requires pos <= |content|
    decreases if i < |answers| then |answers| - i else 0, |content| - pos
  {
    var a := AnswerAt(answers, i, |content| - pos);
    if a.n > 0 && Fails(sends, i) then Sent(chunks, SendFailed)
    else
      var more := More(content, pos, a.n, chunks);
      match a.err
      case AtEnd => Sent(more, Complete)
      case Failed => Sent(more, ReadFailed)
      case NoError => SendFrom(content, pos + a.n, more, answers, sends, i + 1)
  }

  function SendAll(content: Bytes, answers: seq<Answer>, sends: seq<bool>): Sent {
    SendFrom(content, 0, [], answers, sends, 0)
  }

  class File {
    const content: Bytes
    var pos: nat

    constructor (content: Bytes)
      ensures this.content == content && pos == 0
    {
      this.content := content;
      pos := 0;
    }

    /** Bytes come to the front of the buffer; what a longer read left behind them stays there. */
    method Read(buff: array<bv8>, answers: seq<Answer>, i: nat) returns (n: nat, err: ReadError)
      requires buff.Length == CHUNK && pos <= |content|
      modifies this`pos, buff
      ensures Answer(n, err) == AnswerAt(answers, i, |content| - old(pos))
      ensures pos == old(pos) + n && pos <= |content|
      ensures buff[..n] == content[old(pos)..pos] && buff[n..] == old(buff[n..])
    {
      var a := AnswerAt(answers, i, |content| - pos);
      n, err := a.n, a.err;
      for k := 0 to n
        invariant pos == old(pos) && pos + n <= |content| && n <= CHUNK
        invariant buff[..k] == content[pos..pos + k]
        invariant forall j :: k <= j < CHUNK ==> buff[j] == old(buff[j])
      {
        buff[k] := content[pos + k];
        assert content[pos..pos + k + 1] == content[pos..pos + k] + [content[pos + k]];
      }
      pos := pos + n;
    }
  }

  /** The loop of OpenFile and of an upload; sends says which chunks cannot be sent. */
  method SendFile(content: Bytes, answers: seq<Answer>, sends: seq<bool>) returns (sent: Sent)
    ensures sent == SendAll(content, answers, sends)
  {
    var fd := new File(content);
    var buff := new bv8[CHUNK];
    var chunks: seq<Bytes> := [];
    var i := 0;
    ghost var goal := SendAll(content, answers, sends);
    while true
      invariant fresh(fd) && fresh(buff) && fd.content == content && fd.pos <= |content|
      invariant goal == SendFrom(content, fd.pos, chunks, answers, sends, i)
      decreases if i < |answers| then |answers| - i else 0, |content| - fd.pos
    {
      var n, err := fd.Read(buff, answers, i);
      if n > 0 {
        if Fails(sends, i) {
          return Sent(chunks, SendFailed);
        }
        chunks := chunks + [buff[..n]];
      }
      if err != NoError {
        return Sent(chunks, if err == AtEnd then Complete else ReadFailed);
      }
      i := i + 1;
    }
  }

  lemma Extends(content: Bytes, pos: nat, n: nat, chunks: seq<Bytes>)
    requires pos + n <= |content| && n <= CHUNK && Flatten(chunks) == content[..pos] && GoodSizes(chunks)
    ensures var more := More(content, pos, n, chunks);
      Flatten(more) == content[..pos + n] && GoodSizes(more)
  {
    FlattenSnoc(chunks, content[pos..pos + n]);
    assert content[..pos] + content[pos..pos + n] == content[..pos + n];
  }

  /** The chunks hold the file up to some point, and all of it if the loop ended at the end of the file. */
  ghost predicate Carries(sent: Sent, content: Bytes) {
    && Flatten(sent.chunks) <= content && (sent.end == Complete ==> Flatten(sent.chunks) == content)
    && forall k :: 0 <= k < |sent.chunks| ==> 1 <= |sent.chunks[k]| <= 128
  }

  lemma CarriesUpTo(content: Bytes, pos: nat, sent: Sent)
    requires pos <= |content| && Flatten(sent.chunks) == content[..pos] && GoodSizes(sent.chunks)
    requires sent.end == Complete ==> pos == |content|
    ensures Carries(sent, content)
  {
  }

  /** One round of the loop. */
  lemma SendRound(
    content: Bytes, pos: nat, chunks: seq<Bytes>, answers: seq<Answer>, sends: seq<bool>, i: nat, a: Answer)
    requires pos <= |content| && a == AnswerAt(answers, i, |content| - pos)
    ensures SendFrom(content, pos, chunks, answers, sends, i) ==
      if a.n > 0 && Fails(sends, i) then Sent(chunks, SendFailed)
      else if a.err == NoError then
        SendFrom(content, pos + a.n, More(content, pos, a.n, chunks), answers, sends, i + 1)
      else Sent(More(content, pos, a.n, chunks), if a.err == AtEnd then Complete else ReadFailed)
  {
  }

  /** The chunks hold the file up to pos. */
  ghost predicate SoFar(content: Bytes, pos: nat, chunks: seq<Bytes>) {
    pos <= |content| && Flatten(chunks) == content[..pos] && GoodSizes(chunks)
  }

  lemma LastRoundCarries(
    content: Bytes, pos: nat, chunks: seq<Bytes>, answers: seq<Answer>, sends: seq<bool>, i: nat, a: Answer)
    requires SoFar(content, pos, chunks)
    requires a == AnswerAt(answers, i, |content| - pos) && (a.err != NoError || (a.n > 0 && Fails(sends, i)))
    ensures Carries(SendFrom(content, pos, chunks, answers, sends, i), content)
  {
    SendRound(content, pos, chunks, answers, sends, i, a);
    if a.n > 0 && Fails(sends, i) {
      CarriesUpTo(content, pos, Sent(chunks, SendFailed));
    } else {
      Extends(content, pos, a.n, chunks);
      var end := if a.err == AtEnd then Complete else ReadFailed;
      CarriesUpTo(content, pos + a.n, Sent(More(content, pos, a.n, chunks), end));
    }
  }

  lemma NextRoundCarries(
    content: Bytes, pos: nat, chunks: seq<Bytes>, answers: seq<Answer>, sends: seq<bool>, i: nat, a: Answer)
    returns (more: seq<Bytes>)
    requires SoFar(content, pos, chunks)
    requires a == AnswerAt(answers, i, |content| - pos) && a.err == NoError && !(a.n > 0 && Fails(sends, i))
    ensures i < |answers| || a.n > 0
    ensures SoFar(content, pos + a.n, more)
    ensures SendFrom(content, pos, chunks, answers, sends, i)
      == SendFrom(content, pos + a.n, more, answers, sends, i + 1)
  {
    SendRound(content, pos, chunks, answers, sends, i, a);
    Extends(content, pos, a.n, chunks);
    more := More(content, pos, a.n, chunks);
  }

  lemma {:induction false} SentCarries(
    content: Bytes, pos: nat, chunks: seq<Bytes>, answers: seq<Answer>, sends: seq<bool>, i: nat, sent: Sent)
    requires SoFar(content, pos, chunks) && sent == SendFrom(content, pos, chunks, answers, sends, i)
    ensures Carries(sent, content)
    decreases if i < |answers| then |answers| - i else 0, |content| - pos
  {
    var a := AnswerAt(answers, i, |content| - pos);
    if a.err != NoError || (a.n > 0 && Fails(sends, i)) {
      LastRoundCarries(content, pos, chunks, answers, sends, i, a);
    } else {
      var more := NextRoundCarries(content, pos, chunks, answers, sends, i, a);
      SentCarries(content, pos + a.n, more, answers, sends, i + 1, sent);
    }
  }

  /**
   * What is sent is a prefix of the file in chunks of 1 to 128 bytes, for all short and failing reads
   * and all failing sends, and the whole file if the loop ended at its end.
   */
  lemma SentIsPrefix(content: Bytes, answers: seq<Answer>, sends: seq<bool>)
    ensures Carries(SendAll(content, answers, sends), content)
  {
    assert content[..0] == [];
    SentCarries(content, 0, [], answers, sends, 0, SendAll(content, answers, sends));
  }

  lemma {:induction false} ReachesEnd(content: Bytes, pos: nat, chunks: seq<Bytes>, answers: seq<Answer>, i: nat)
    requires pos <= |content| && forall k :: 0 <= k < |answers| ==> answers[k].err != Failed
    ensures SendFrom(content, pos, chunks, answers, [], i).end == Complete
    decreases if i < |answers| then |answers| - i else 0, |content| - pos
  {
    var a := AnswerAt(answers, i, |content| - pos);
    if a.err == NoError {
      ReachesEnd(content, pos + a.n, More(content, pos, a.n, chunks), answers, i + 1);
    }
  }

  /** Reads of any size, with and without the end reported early, do no harm as long as none fails. */
  lemma ShortReadsAreHarmless(content: Bytes, answers: seq<Answer>)
    requires forall k :: 0 <= k < |answers| ==> answers[k].err != Failed
    ensures SendAll(content, answers, []).end == Complete
  {
    ReachesEnd(content, 0, [], answers, 0);
  }

  /** Reads that are not short send 128 bytes at a time. */
  lemma FullReads(content: Bytes, pos: nat, chunks: seq<Bytes>, i: nat)
    requires pos + 128 < |content|
    ensures SendFrom(content, pos, chunks, [], [], i)
      == SendFrom(content, pos + 128, chunks + [content[pos..pos + 128]], [], [], i + 1)
  {
  }

  // ----- receiving ---------------------------------------------------------------------------

  /** The chunks that arrive, and whether the stream then ends as the sender wished. */
  datatype Stream = Stream(chunks: seq<Bytes>, finished: bool)

  datatype Received = Received(written: Bytes, ok: bool)

  /** A write that fails writes so many bytes before. */
  function FailedWrite(writes: seq<Option<nat>>, i: nat): Option<nat> {
    if i < |writes| then writes[i] else None
  }

  /** What has been written when the loop ends, from the i-th chunk on. */
  function ReceiveFrom(s: Stream, writes: seq<Option<nat>>, i: nat, written: Bytes): Received
    requires i <= |s.chunks|
    decreases |s.chunks| - i
  {
    if i == |s.chunks| then Received(written, s.finished)
    else
      match FailedWrite(writes, i)
      case Some(n) => Received(written + s.chunks[i][..Min(n, |s.chunks[i]|)], false)
      case None => ReceiveFrom(s, writes, i + 1, written + s.chunks[i])
  }

  function ReceiveAll(s: Stream, writes: seq<Option<nat>>): Received {
    ReceiveFrom(s, writes, 0, [])
  }

  /** The loop of CreateFile and of a download. */
  method ReceiveFile(s: Stream, writes: seq<Option<nat>>) returns (r: Received)
    ensures r == ReceiveAll(s, writes)
  {
    var written: Bytes := [];
    for i := 0 to |s.chunks|
      invariant ReceiveAll(s, writes) == ReceiveFrom(s, writes, i, written)
    {
      var fault := FailedWrite(writes, i);
      if fault.Some? {
        return Received(written + s.chunks[i][..Min(fault.value, |s.chunks[i]|)], false);
      }
      written := written + s.chunks[i];
    }
    return Received(written, s.finished);
  }

  predicate WritesGoWell(writes: seq<Option<nat>>, n: nat) {
    forall i :: 0 <= i < n ==> FailedWrite(writes, i).None?
  }

  lemma {:induction false} FlattenPrefix(chunks: seq<Bytes>, k: nat)
    requires k <= |chunks|
    ensures Flatten(chunks[..k]) <= Flatten(chunks)
    decreases |chunks|
  {
    if k < |chunks| {
      var front := chunks[..|chunks| - 1];
      assert front[..k] == chunks[..k];
      FlattenPrefix(front, k);
    } else {
      assert chunks[..k] == chunks;
    }
  }

  /** What is written is a prefix of what arrives, and all of it if and only if nothing went wrong. */
  ghost predicate Keeps(r: Received, s: Stream, writes: seq<Option<nat>>) {
    && r.written <= Flatten(s.chunks)
    && (r.ok ==> r.written == Flatten(s.chunks))
    && (r.ok <==> s.finished && WritesGoWell(writes, |s.chunks|))
  }

  lemma FlattenNext(chunks: seq<Bytes>, i: nat)
    requires i < |chunks|
    ensures Flatten(chunks[..i + 1]) == Flatten(chunks[..i]) + chunks[i]
  {
    assert chunks[..i + 1] == chunks[..i] + [chunks[i]];
    FlattenSnoc(chunks[..i], chunks[i]);
  }

  lemma PartWritten(s: Stream, writes: seq<Option<nat>>, i: nat, n: nat)
    requires i < |s.chunks| && n <= |s.chunks[i]| && FailedWrite(writes, i).Some?
    ensures Keeps(Received(Flatten(s.chunks[..i]) + s.chunks[i][..n], false), s, writes)
  {
    FlattenNext(s.chunks, i);
    FlattenPrefix(s.chunks, i + 1);
    var written := Flatten(s.chunks[..i]);
    assert written + s.chunks[i][..n] <= written + s.chunks[i];
  }

  lemma {:induction false} ReceivedKeeps(s: Stream, writes: seq<Option<nat>>, i: nat, written: Bytes)
    requires i <= |s.chunks| && written == Flatten(s.chunks[..i]) && WritesGoWell(writes, i)
    ensures Keeps(ReceiveFrom(s, writes, i, written), s, writes)
    decreases |s.chunks| - i
  {
    if i == |s.chunks| {
      assert s.chunks[..i] == s.chunks;
    } else if FailedWrite(writes, i).None? {
      FlattenNext(s.chunks, i);
      ReceivedKeeps(s, writes, i + 1, written + s.chunks[i]);
    } else {
      PartWritten(s, writes, i, Min(FailedWrite(writes, i).value, |s.chunks[i]|));
    }
  }

  lemma {:induction false} FailsAt(s: Stream, writes: seq<Option<nat>>, i: nat, written: Bytes, k: nat, n: nat)
    requires i <= k < |s.chunks| && written == Flatten(s.chunks[..i])
    requires forall j :: i <= j < k ==> FailedWrite(writes, j) == None
    requires FailedWrite(writes, k) == Some(n) && n <= |s.chunks[k]|
    ensures ReceiveFrom(s, writes, i, written) == Received(Flatten(s.chunks[..k]) + s.chunks[k][..n], false)
    decreases k - i
  {
    if i < k {
      FlattenNext(s.chunks, i);
      FailsAt(s, writes, i + 1, written + s.chunks[i], k, n);
    }
  }

  /** The first write that fails, after n bytes, leaves the chunks before it and these bytes. */
  lemma FirstFailureLeaves(s: Stream, writes: seq<Option<nat>>, k: nat, n: nat)
    requires k < |s.chunks| && WritesGoWell(writes, k)
    requires FailedWrite(writes, k) == Some(n) && n <= |s.chunks[k]|
    ensures ReceiveAll(s, writes) == Received(Flatten(s.chunks[..k]) + s.chunks[k][..n], false)
  {
    FailsAt(s, writes, 0, [], k, n);
  }

  /** Without a failing write all chunks are written. */
  lemma {:induction false} AllWritten(s: Stream, writes: seq<Option<nat>>, i: nat, written: Bytes)
    requires i <= |s.chunks| && written == Flatten(s.chunks[..i]) && WritesGoWell(writes, |s.chunks|)
    ensures ReceiveFrom(s, writes, i, written) == Received(Flatten(s.chunks), s.finished)
    decreases |s.chunks| - i
  {
    if i == |s.chunks| {
      assert s.chunks[..i] == s.chunks;
    } else {
      FlattenNext(s.chunks, i);
      AllWritten(s, writes, i + 1, written + s.chunks[i]);
    }
  }

  lemma ReceivedIsPrefix(s: Stream, writes: seq<Option<nat>>)
    ensures Keeps(ReceiveAll(s, writes), s, writes)
  {
    ReceivedKeeps(s, writes, 0, []);
  }

  // ----- one file from end to end ------------------------------------------------------------

  /** How a call goes: it is answered, it never arrives, or it is carried out and the answer is lost. */
  datatype Call = Answered | Unheard | Unanswered

  /**
   * All that may go wrong: making the archive, opening the stream, short and failing reads, failing
   * sends, a connection cut after some chunks, failing writes, and for an upload also the last answer on
   * the stream and the call that has the archive extracted.
   */
  datatype Faults = Faults(
    zip: Call,
    accepted: bool,
    answers: seq<Answer>,
    sends: seq<bool>,
    cut: Option<nat>,
    writes: seq<Option<nat>>,
    acknowledged: bool,
    unzip: Call)

  /** Chunks arrive in order; the stream finishes if the sender came to the end of the file and the connection held. */
  function Deliver(sent: Sent, cut: Option<nat>): Stream {
    match cut
    case None => Stream(sent.chunks, sent.end == Complete)
    case Some(k) => Stream(sent.chunks[..Min(k, |sent.chunks|)], false)
  }

  function Transferred(content: Bytes, f: Faults): Received {
    ReceiveAll(Deliver(SendAll(content, f.answers, f.sends), f.cut), f.writes)
  }

  predicate StreamGoesWell(content: Bytes, f: Faults) {
    var sent := SendAll(content, f.answers, f.sends);
    sent.end == Complete && f.cut.None? && WritesGoWell(f.writes, |sent.chunks|)
  }

  /**
   * For every file and all faults: what is written is a prefix of the file, and the receiver is
   * satisfied if and only if nothing went wrong, and then it has the whole file.
   */
  lemma TransferExact(content: Bytes, f: Faults)
    ensures var r := Transferred(content, f);
      r.written <= content && (r.ok <==> StreamGoesWell(content, f)) && (r.ok ==> r.written == content)
  {
    var sent := SendAll(content, f.answers, f.sends);
    SentIsPrefix(content, f.answers, f.sends);
    ReceivedIsPrefix(Deliver(sent, f.cut), f.writes);
    if f.cut.Some? {
      FlattenPrefix(sent.chunks, Min(f.cut.value, |sent.chunks|));
    }
  }

  /** A connection cut after k chunks leaves these chunks, and the receiver is told. */
  lemma CutLeaves(content: Bytes, f: Faults, k: nat)
    requires f.cut == Some(k) && k <= |SendAll(content, f.answers, f.sends).chunks| && WritesGoWell(f.writes, k)
    ensures Transferred(content, f) == Received(Flatten(SendAll(content, f.answers, f.sends).chunks[..k]), false)
  {
    var sent := SendAll(content, f.answers, f.sends);
    var s := Stream(sent.chunks[..k], false);
    assert Deliver(sent, f.cut) == s;
    AllWritten(s, f.writes, 0, []);
  }

  // ----- the drivers -------------------------------------------------------------------------

  /** How archives are encoded in bytes. */
  datatype Codec = Codec(encode: seq<Entry> -> Bytes, decode: Bytes -> Option<seq<Entry>>)

  /** The archive is decoded as it was encoded. */
  predicate Restores(c: Codec, entries: seq<Entry>) {
    c.decode(c.encode(entries)) == Some(entries)
  }

  /** The name of the archive, on both ends. */
  function ZipName(source: Path): string {
    if source.names != [] then source.names[|source.names| - 1] + ".zip"
    else if source.rooted then ".zip" else "..zip"
  }

  /** Where the archive is put. */
  function ZipPath(to: seq<string>, source: Path): seq<string> {
    to + [ZipName(source)]
  }

  /** Directories are where os.Create needs them, and none where it puts the file. */
  ghost predicate CanCreate(fs: Fs, path: seq<string>)
    requires path != []
  {
    DirsTo(fs, path[..|path| - 1]) && (path in fs ==> fs[path].Regular?)
  }

  /** os.Create, and then the chunks as they arrive. */
  ghost function Stored(fs: Fs, path: seq<string>, r: Received): Outcome
    requires path != []
  {
    if CanCreate(fs, path) then Outcome(fs[path := Regular(r.written)], r.ok) else Outcome(fs, false)
  }

  /** The receiving disk when the stream is over; both directions make the directory before the file. */
  ghost function Arrived(fs: Fs, to: seq<string>, source: Path, t: Tree, f: Faults, c: Codec): Outcome {
    if !f.zip.Answered? || !f.accepted then Outcome(fs, false)
    else
      var made := MadeAll(fs, to);
      if !made.ok then made
      else Stored(made.fs, ZipPath(to, source), Transferred(c.encode(Entries(source, t)), f))
  }

  /** The archive that lies at path, extracted. */
  ghost function Opened(fs: Fs, path: seq<string>, to: seq<string>, c: Codec): Outcome {
    if path !in fs || fs[path].Directory? then Outcome(fs, false)
    else
      match c.decode(fs[path].content)
      case None => Outcome(fs, false)
      case Some(entries) => Unzipped(fs, Show(true, to), entries)
  }

  ghost function Downloaded(fs: Fs, to: seq<string>, source: Path, t: Tree, f: Faults, c: Codec): Outcome {
    var arrived := Arrived(fs, to, source, t, f, c);
    if arrived.ok then Opened(arrived.fs, ZipPath(to, source), to, c) else arrived
  }

  /** After an upload: the server extracts the archive when it is told to. */
  ghost function Uploaded(fs: Fs, to: seq<string>, source: Path, t: Tree, f: Faults, c: Codec): Outcome {
    var arrived := Arrived(fs, to, source, t, f, c);
    if !arrived.ok || !f.acknowledged || f.unzip.Unheard? then arrived.(ok := false)
    else
      var extracted := Opened(arrived.fs, ZipPath(to, source), to, c);
      if f.unzip.Answered? then extracted else extracted.(ok := false)
  }

  method Create(disk: Disk, path: seq<string>) returns (ok: bool)
    requires path != []
    modifies disk
    ensures ok == CanCreate(old(disk.nodes), path)
    ensures disk.nodes == if ok then old(disk.nodes)[path := Regular([])] else old(disk.nodes)
  {
    var parent := path[..|path| - 1];
    for i := 0 to |path|
      invariant disk.nodes == old(disk.nodes)
      invariant forall k :: 0 <= k < i ==> path[..k] in disk.nodes && disk.nodes[path[..k]] == Directory
    {
      if path[..i] !in disk.nodes || disk.nodes[path[..i]] != Directory {
        assert OnWay(path[..i], parent);
        return false;
      }
    }
    assert DirsTo(disk.nodes, parent) by {
      forall p | OnWay(p, parent) ensures p in disk.nodes && disk.nodes[p] == Directory {
        assert p == path[..|p|];
      }
    }
    if path in disk.nodes && disk.nodes[path].Directory? {
      return false;
    }
    disk.nodes := disk.nodes[path := Regular([])];
    return true;
  }

  /** Make the file and fill it from the stream. */
  method Store(disk: Disk, path: seq<string>, s: Stream, writes: seq<Option<nat>>) returns (ok: bool)
    requires path != []
    modifies disk
    ensures Outcome(disk.nodes, ok) == Stored(old(disk.nodes), path, ReceiveAll(s, writes))
  {
    ok := Create(disk, path);
    if !ok {
      return;
    }
    var r := ReceiveFile(s, writes);
    disk.nodes := disk.nodes[path := Regular(r.written)];
    return r.ok;
  }

  /** Archive, send, make the directory, receive. */
  method Transfer(disk: Disk, to: seq<string>, source: Path, t: Tree, f: Faults, c: Codec) returns (ok: bool)
    modifies disk
    ensures Outcome(disk.nodes, ok) == Arrived(old(disk.nodes), to, source, t, f, c)
  {
    var entries := ZipFile(source, t);
    if !f.zip.Answered? || !f.accepted {
      return false;
    }
    var sent := SendFile(c.encode(entries.value), f.answers, f.sends);
    var made := disk.MkdirAll(to);
    if !made {
      return false;
    }
    ok := Store(disk, ZipPath(to, source), Deliver(sent, f.cut), f.writes);
  }

  method Open(disk: Disk, path: seq<string>, to: seq<string>, c: Codec) returns (ok: bool)
    modifies disk
    ensures Outcome(disk.nodes, ok) == Opened(old(disk.nodes), path, to, c)
  {
    if path !in disk.nodes || disk.nodes[path].Directory? {
      return false;
    }
    var entries := c.decode(disk.nodes[path].content);
    if entries.None? {
      return false;
    }
    ok := disk.Unzip(entries.value, Show(true, to));
  }

  method Upload(disk: Disk, to: seq<string>, source: Path, t: Tree, f: Faults, c: Codec) returns (ok: bool)
    modifies disk
    ensures Outcome(disk.nodes, ok) == Uploaded(old(disk.nodes), to, source, t, f, c)
  {
    ok := Transfer(disk, to, source, t, f, c);
    if !ok || !f.acknowledged || f.unzip.Unheard? {
      return false;
    }
    ok := Open(disk, ZipPath(to, source), to, c);
    return ok && f.unzip.Answered?;
  }

  method Download(disk: Disk, to: seq<string>, source: Path, t: Tree, f: Faults, c: Codec) returns (ok: bool)
    modifies disk
    ensures Outcome(disk.nodes, ok) == Downloaded(old(disk.nodes), to, source, t, f, c)
  {
    ok := Transfer(disk, to, source, t, f, c);
    if ok {
      ok := Open(disk, ZipPath(to, source), to, c);
    }
  }

  // ----- trees from end to end ---------------------------------------------------------------

  function ArchiveOf(source: Path, t: Tree, c: Codec): Bytes {
    c.encode(Entries(source, t))
  }

  predicate DownloadGoesWell(content: Bytes, f: Faults) {
    f.zip.Answered? && f.accepted && StreamGoesWell(content, f)
  }

  predicate UploadGoesWell(content: Bytes, f: Faults) {
    DownloadGoesWell(content, f) && f.acknowledged && f.unzip.Answered?
  }

  /** The disk can take the archive: no file is on the way to it and no directory in its place. */
  ghost predicate HasRoom(fs: Fs, to: seq<string>, source: Path) {
    NoFileOn(fs, to) && (ZipPath(to, source) in fs ==> fs[ZipPath(to, source)].Regular?)
  }

  /** And the tree: it can be extracted, and what is in its place already is of the same kind. */
  ghost predicate Receptive(fs: Fs, to: seq<string>, source: Path, t: Tree) {
    && HasRoom(fs, to, source) && HasProperBase(source) && to != []
    && Compatible(fs, Placed(to + [Base(source)], t))
  }

  /** The disk with the directories on the way to the destination and these bytes in the archive. */
  ghost function WithZip(fs: Fs, to: seq<string>, source: Path, bytes: Bytes): Fs {
    WithDirs(fs, to)[ZipPath(to, source) := Regular(bytes)]
  }

  /** The archive does not lie where the tree goes. */
  lemma ZipIsBeside(to: seq<string>, source: Path)
    requires HasProperBase(source)
    ensures !(to + [Base(source)] <= ZipPath(to, source))
  {
    var at, zip := to + [Base(source)], ZipPath(to, source);
    assert |ZipName(source)| == |Base(source)| + 4;
    assert at[|to|] == Base(source) && zip[|to|] == ZipName(source);
    assert |at| == |zip|;
  }

  /** When the archive arrives, and what is on the disk then and otherwise. */
  lemma ArrivedIs(fs: Fs, to: seq<string>, source: Path, t: Tree, f: Faults, c: Codec)
    ensures var (a, r) := (Arrived(fs, to, source, t, f, c), Transferred(ArchiveOf(source, t, c), f));
      && (a.ok <==> DownloadGoesWell(ArchiveOf(source, t, c), f) && HasRoom(fs, to, source))
      && (a.ok ==> a.fs == WithZip(fs, to, source, ArchiveOf(source, t, c)))
      && (a.fs == fs || a.fs == WithDirs(fs, to) || a.fs == WithZip(fs, to, source, r.written))
  {
    TransferExact(ArchiveOf(source, t, c), f);
    var zip := ZipPath(to, source);
    assert zip[..|zip| - 1] == to && !OnWay(zip, to);
    if NoFileOn(fs, to) {
      assert DirsTo(WithDirs(fs, to), to);
    }
  }

  lemma ZipKeepsDirs(fs: Fs, to: seq<string>, source: Path, bytes: Bytes)
    requires NoFileOn(fs, to)
    ensures NoFileOn(WithZip(fs, to, source, bytes), to)
    ensures WithDirs(WithZip(fs, to, source, bytes), to) == WithZip(fs, to, source, bytes)
  {
    assert !OnWay(ZipPath(to, source), to);
  }

  lemma ZipKeepsCompatible(fs: Fs, to: seq<string>, source: Path, t: Tree, bytes: Bytes)
    requires HasProperBase(source)
    ensures var placed := Placed(to + [Base(source)], t);
      Compatible(WithZip(fs, to, source, bytes), placed) <==> Compatible(fs, placed)
  {
    var at := to + [Base(source)];
    var placed := Placed(at, t);
    ZipIsBeside(to, source);
    PlacedBelow(at, t);
    forall p | p in placed
      ensures p in fs <==> p in WithZip(fs, to, source, bytes)
      ensures p in fs ==> fs[p] == WithZip(fs, to, source, bytes)[p]
    {
      assert at <= p && !OnWay(p, to);
    }
  }

  /** Extracting the true archive. */
  lemma OpenedIs(fs: Fs, to: seq<string>, source: Path, t: Tree, c: Codec)
    requires Restores(c, Entries(source, t))
    requires IsClean(source) && ProperTree(t) && AllProper(to) && HasRoom(fs, to, source)
    ensures var stored := WithZip(fs, to, source, ArchiveOf(source, t, c));
      var o := Opened(stored, ZipPath(to, source), to, c);
      && (o.ok <==> Receptive(fs, to, source, t))
      && (o.ok ==> o.fs == stored + Placed(to + [Base(source)], t))
  {
    var bytes := ArchiveOf(source, t, c);
    ZipUnzip(source, t, Entries(source, t), to, WithZip(fs, to, source, bytes));
    ZipKeepsDirs(fs, to, source, bytes);
    if HasProperBase(source) {
      ZipKeepsCompatible(fs, to, source, t, bytes);
    }
  }

  /** When the archive is extracted where it arrived, and what the disk is then. */
  lemma ExtractedIs(fs: Fs, to: seq<string>, source: Path, t: Tree, f: Faults, c: Codec)
    requires Restores(c, Entries(source, t))
    requires IsClean(source) && ProperTree(t) && AllProper(to)
    requires Arrived(fs, to, source, t, f, c).ok
    ensures DownloadGoesWell(ArchiveOf(source, t, c), f) && HasRoom(fs, to, source)
    ensures var o := Opened(Arrived(fs, to, source, t, f, c).fs, ZipPath(to, source), to, c);
      && (o.ok <==> Receptive(fs, to, source, t))
      && (o.ok ==> o.fs == WithZip(fs, to, source, ArchiveOf(source, t, c)) + Placed(to + [Base(source)], t))
  {
    ArrivedIs(fs, to, source, t, f, c);
    OpenedIs(fs, to, source, t, c);
  }

  lemma ArrivedIff(fs: Fs, to: seq<string>, source: Path, t: Tree, f: Faults, c: Codec)
    ensures Arrived(fs, to, source, t, f, c).ok
      <==> DownloadGoesWell(ArchiveOf(source, t, c), f) && HasRoom(fs, to, source)
  {
    ArrivedIs(fs, to, source, t, f, c);
  }

  /**
   * Download, for every tree, clean source and destination, receiving disk and all faults: it succeeds
   * if and only if nothing went wrong on the way and the disk can take the archive and the tree.  Then
   * the disk holds both, and the directories on the way to them, and is otherwise unchanged.
   */
  lemma DownloadExact(fs: Fs, to: seq<string>, source: Path, t: Tree, f: Faults, c: Codec)
    requires Restores(c, Entries(source, t))
    requires IsClean(source) && ProperTree(t) && AllProper(to)
    ensures var (o, bytes) := (Downloaded(fs, to, source, t, f, c), ArchiveOf(source, t, c));
      && (o.ok <==> DownloadGoesWell(bytes, f) && Receptive(fs, to, source, t))
      && (o.ok ==> o.fs == WithZip(fs, to, source, bytes) + Placed(to + [Base(source)], t))
  {
    ArrivedIff(fs, to, source, t, f, c);
    if Arrived(fs, to, source, t, f, c).ok {
      ExtractedIs(fs, to, source, t, f, c);
    }
  }

  /** The same for an upload, where the last two calls must be answered too. */
  lemma UploadExact(fs: Fs, to: seq<string>, source: Path, t: Tree, f: Faults, c: Codec)
    requires Restores(c, Entries(source, t))
    requires IsClean(source) && ProperTree(t) && AllProper(to)
    ensures var (o, bytes) := (Uploaded(fs, to, source, t, f, c), ArchiveOf(source, t, c));
      && (o.ok <==> UploadGoesWell(bytes, f) && Receptive(fs, to, source, t))
      && (o.ok ==> o.fs == WithZip(fs, to, source, bytes) + Placed(to + [Base(source)], t))
  {
    ArrivedIff(fs, to, source, t, f, c);
    if Arrived(fs, to, source, t, f, c).ok {
      ExtractedIs(fs, to, source, t, f, c);
    }
  }

  /**
   * At most the directories on the way to the destination have been made, and the archive there is a
   * prefix of the true one.
   */
  ghost predicate OnlyPrefix(fs: Fs, after: Fs, to: seq<string>, source: Path, bytes: Bytes) {
    || after == fs
    || after == WithDirs(fs, to)
    || exists n: nat :: n <= |bytes| && after == WithZip(fs, to, source, bytes[..n])
  }

  lemma BrokenPrefix(fs: Fs, to: seq<string>, source: Path, t: Tree, f: Faults, c: Codec)
    ensures OnlyPrefix(fs, Arrived(fs, to, source, t, f, c).fs, to, source, ArchiveOf(source, t, c))
  {
    ArrivedIs(fs, to, source, t, f, c);
    var bytes := ArchiveOf(source, t, c);
    TransferExact(bytes, f);
    var written := Transferred(bytes, f).written;
    assert written == bytes[..|written|];
  }

  /** A transfer that fails before its end, in either direction, extracts nothing and leaves a prefix of the archive. */
  lemma BrokenTransfer(fs: Fs, to: seq<string>, source: Path, t: Tree, f: Faults, c: Codec)
    requires !DownloadGoesWell(ArchiveOf(source, t, c), f)
    ensures var (o, bytes) := (Downloaded(fs, to, source, t, f, c), ArchiveOf(source, t, c));
      !o.ok && OnlyPrefix(fs, o.fs, to, source, bytes)
    ensures Uploaded(fs, to, source, t, f, c) == Downloaded(fs, to, source, t, f, c)
  {
    ArrivedIs(fs, to, source, t, f, c);
    BrokenPrefix(fs, to, source, t, f, c);
  }

  /**
   * An upload that fails after the stream: with the last answer on the stream or the call to extract
   * lost nothing is extracted, and with only the answer to that call lost the disk is as if it had come.
   */
  lemma LostAnswer(fs: Fs, to: seq<string>, source: Path, t: Tree, f: Faults, c: Codec)
    requires DownloadGoesWell(ArchiveOf(source, t, c), f) && !UploadGoesWell(ArchiveOf(source, t, c), f)
    ensures var (o, bytes) := (Uploaded(fs, to, source, t, f, c), ArchiveOf(source, t, c));
      && !o.ok
      && if f.acknowledged && f.unzip.Unanswered? then o.fs == Uploaded(fs, to, source, t, f.(unzip := Answered), c).fs
         else OnlyPrefix(fs, o.fs, to, source, bytes)
  {
    var g := f.(unzip := Answered);
    assert Transferred(ArchiveOf(source, t, c), g) == Transferred(ArchiveOf(source, t, c), f);
    BrokenPrefix(fs, to, source, t, f, c);
  }

  /** There is nothing yet where the tree goes. */
  ghost predicate Vacant(fs: Fs, at: seq<string>) {
    forall p :: p in fs ==> !(at <= p)
  }

  /** Exactly the tree, and but for the archive and the directories on the way to it nothing else is new. */
  ghost predicate Arrives(fs: Fs, after: Fs, to: seq<string>, source: Path, t: Tree)
    requires HasProperBase(source)
  {
    var at := to + [Base(source)];
    Holds(after, at, t)
    && forall p :: !(at <= p) && p != to + [Base(source) + ".zip"] ==> OnDisk(after, p) == OnDisk(WithDirs(fs, to), p)
  }

  lemma PlacedArrives(fs: Fs, to: seq<string>, source: Path, t: Tree, bytes: Bytes)
    requires HasProperBase(source) && ProperTree(t) && Vacant(fs, to + [Base(source)])
    ensures Compatible(fs, Placed(to + [Base(source)], t))
    ensures Arrives(fs, WithZip(fs, to, source, bytes) + Placed(to + [Base(source)], t), to, source, t)
  {
    var at := to + [Base(source)];
    PlacedBelow(at, t);
    ZipIsBeside(to, source);
    forall p | p in WithZip(fs, to, source, bytes) ensures !(at <= p) {
      assert p in fs || OnWay(p, to) || p == ZipPath(to, source);
    }
    HoldsAfter(WithZip(fs, to, source, bytes), at, t);
  }

  /** Either way exactly the tree arrives where nothing was before. */
  lemma TreeArrives(fs: Fs, to: seq<string>, source: Path, t: Tree, f: Faults, c: Codec)
    requires Restores(c, Entries(source, t))
    requires IsClean(source) && HasProperBase(source) && ProperTree(t) && AllProper(to) && to != []
    requires HasRoom(fs, to, source) && Vacant(fs, to + [Base(source)])
    ensures DownloadGoesWell(ArchiveOf(source, t, c), f) ==>
      var o := Downloaded(fs, to, source, t, f, c); o.ok && Arrives(fs, o.fs, to, source, t)
    ensures UploadGoesWell(ArchiveOf(source, t, c), f) ==>
      var o := Uploaded(fs, to, source, t, f, c); o.ok && Arrives(fs, o.fs, to, source, t)
  {
    PlacedArrives(fs, to, source, t, ArchiveOf(source, t, c));
    DownloadExact(fs, to, source, t, f, c);
    UploadExact(fs, to, source, t, f, c);
  }
}
