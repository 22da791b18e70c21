/** The write side of an epoll socket under interleaving: one job thread in
    schedi_job_epollsocket_write (direct send, then the write buffer) and one
    epoll thread in schedi_job_epollsocket_write_return.

    send may take any part of what it is offered, would-block or fail. */
module WriteRing {
  import opened ByteRing

  datatype WriterPc =
    | WIdle
    | WDirect(data: seq<Byte>)              // saw avail == buffer size
    | WBuffer(data: seq<Byte>)              // about to load avail again
    | WLoaded(chunk: seq<Byte>)             // the part that fits
    | WCopied(chunk: seq<Byte>)             // in the buffer, head not stored yet
    | WStored(chunk: seq<Byte>)             // head stored, avail not lowered yet

  datatype FlusherPc =
    | FIdle
    | FLoaded(sendable: nat)
    | FSecond(total: nat, rest: nat)
    | FCommit(total: nat, newTail: nat, dead: bool)
    | FStore(newTail: nat, dead: bool)

  datatype Outcome = Sent(n: nat) | WouldBlock | Failed

  /** `accepted` concatenates what the write calls took, `wire` what send took. */
  datatype State = State(
    buf: seq<Byte>, head: nat, tail: nat, avail: nat,
    writer: WriterPc, flusher: FlusherPc,
    accepted: seq<Byte>, wire: seq<Byte>)

  datatype Action =
    | WriteStart(data: seq<Byte>) | WriteDirect(o: Outcome) | WriteLoad | WriteCopy | WriteStore | WriteCommit
    | FlushLoad | FlushFirst(o: Outcome) | FlushSecond(o: Outcome) | FlushCommit | FlushStore

  ghost predicate Init(s: State) {
    && 0 < |s.buf| && s.head == 0 && s.tail == 0 && s.avail == |s.buf|
    && s.writer == WIdle && s.flusher == FIdle && s.accepted == [] && s.wire == []
  }

  /** What is still to be written goes through the buffer, if anything is. */
  function Rest(data: seq<Byte>): WriterPc {
    if data == [] then WIdle else WBuffer(data)
  }

  predicate WriterCan(s: State, a: Action) {
    match (a, s.writer)
    case (WriteStart(_), WIdle) => true
    case (WriteDirect(o), WDirect(data)) => o.Sent? ==> o.n <= |data|
    case (WriteLoad, WBuffer(_)) => true
    case (WriteCopy, WLoaded(chunk)) => s.head < |s.buf| && |chunk| <= |s.buf|
    case (WriteStore, WCopied(chunk)) => s.head < |s.buf| && |chunk| <= |s.buf|
    case (WriteCommit, WStored(chunk)) => |chunk| <= s.avail
    case _ => false
  }

  function WriterNext(s: State, a: Action): State
    requires WriterCan(s, a)
  {
    match a
    case WriteStart(data) => s.(writer := if s.avail == |s.buf| then WDirect(data) else Rest(data))
    case WriteDirect(o) =>
      var data := s.writer.data;
      (match o
       case Sent(n) =>
         s.(wire := s.wire + data[..n], accepted := s.accepted + data[..n], writer := Rest(data[n..]))
       case WouldBlock => s.(writer := Rest(data))
       case Failed => s.(writer := WIdle))
    case WriteLoad => s.(writer := WLoaded(s.writer.data[..Min(|s.writer.data|, s.avail)]))
    case WriteCopy => s.(buf := CopyIn(s.buf, s.head, s.writer.chunk), writer := WCopied(s.writer.chunk))
    case WriteStore => s.(head := Advance(s.head, |s.writer.chunk|, |s.buf|), writer := WStored(s.writer.chunk))
    case WriteCommit =>
      s.(avail := s.avail - |s.writer.chunk|, accepted := s.accepted + s.writer.chunk, writer := WIdle)
  }

  predicate FlusherCan(s: State, a: Action) {
    match (a, s.flusher)
    case (FlushLoad, FIdle) => s.avail <= |s.buf|
    case (FlushFirst(o), FLoaded(sendable)) =>
      s.tail < |s.buf| && (o.Sent? ==> o.n <= Min(sendable, |s.buf| - s.tail))
    case (FlushSecond(o), FSecond(total, rest)) => o.Sent? ==> o.n <= rest <= |s.buf|
    case (FlushCommit, FCommit(_, _, _)) => true
    case (FlushStore, FStore(_, _)) => true
    case _ => false
  }

  function FlusherNext(s: State, a: Action): State
    requires FlusherCan(s, a)
  {
    match a
    case FlushLoad => s.(flusher := if s.avail == |s.buf| then FIdle else FLoaded(|s.buf| - s.avail))
    case FlushFirst(o) =>
      var sendable := s.flusher.sendable;
      var first := Min(sendable, |s.buf| - s.tail);
      if o.Sent? then
        s.(wire := s.wire + s.buf[s.tail..s.tail + o.n],
           flusher := if o.n == first && first < sendable then FSecond(first, sendable - first)
                      else FCommit(o.n, Advance(s.tail, o.n, |s.buf|), false))
      else s.(flusher := FIdle)
    case FlushSecond(o) =>
      var total := s.flusher.total;
      (match o
       case Sent(n) => s.(wire := s.wire + s.buf[..n], flusher := FCommit(total + n, n, false))
       case WouldBlock => s.(flusher := FCommit(total, 0, false))
       case Failed => s.(flusher := FCommit(total, 0, true)))
    case FlushCommit => s.(avail := s.avail + s.flusher.total, flusher := FStore(s.flusher.newTail, s.flusher.dead))
    case FlushStore => s.(tail := s.flusher.newTail, flusher := FIdle)
  }

  ghost predicate WriterStep(s: State, a: Action, s': State)
    requires |s.buf| > 0
  {
    WriterCan(s, a) && s' == WriterNext(s, a)
  }

  ghost predicate FlusherStep(s: State, a: Action, s': State)
    requires |s.buf| > 0
  {
    FlusherCan(s, a) && s' == FlusherNext(s, a)
  }

  ghost predicate Step(s: State, a: Action, s': State) {
    |s.buf| > 0 && (WriterStep(s, a, s') || FlusherStep(s, a, s'))
  }

  // --------------------------------------------------------------- invariant

  function Start(s: State): nat {
    if s.flusher.FStore? then s.flusher.newTail else s.tail
  }

  /** Bytes on the wire that avail does not show yet. */
  function Uncounted(s: State): nat {
    match s.flusher
    case FSecond(total, _) => total
    case FCommit(total, _, _) => total
    case _ => 0
  }

  /** A chunk in the buffer that avail does not show yet. */
  function Pending(s: State): seq<Byte> {
    match s.writer
    case WCopied(chunk) => chunk
    case WStored(chunk) => chunk
    case _ => []
  }

  ghost predicate Bounds(s: State) {
    && Start(s) < |s.buf| && s.head < |s.buf| && s.tail < |s.buf|
    && |Pending(s)| <= s.avail <= |s.buf|
    && Uncounted(s) <= |s.buf| - s.avail
  }

  function Queued(s: State): (n: int)
    ensures s.avail <= |s.buf| ==> n >= 0
  {
    |s.buf| - s.avail
  }

  /** Bytes on the wire, then the unsent part of the ring, are the bytes accepted. */
  ghost predicate InOrder(s: State)
    requires Bounds(s)
  {
    s.wire + Contents(s.buf, Start(s), Queued(s))[Uncounted(s)..] == s.accepted
  }

  /** head is right behind what avail shows, or behind the stored chunk. */
  ghost predicate HeadOk(s: State)
    requires Bounds(s)
  {
    s.head == Advance(Start(s), Queued(s) + (if s.writer.WStored? then |Pending(s)| else 0), |s.buf|)
  }

  /** The chunk just copied lies right behind the contents. */
  ghost predicate ChunkOk(s: State)
    requires Bounds(s)
  {
    Contents(s.buf, Start(s), Queued(s) + |Pending(s)|) == Contents(s.buf, Start(s), Queued(s)) + Pending(s)
  }

  ghost predicate WriterOk(s: State) {
    && (s.writer.WDirect? ==> s.avail == |s.buf|)
    && (s.writer.WLoaded? ==> |s.writer.chunk| <= s.avail)
  }

  ghost predicate FlusherOk(s: State)
    requires Bounds(s)
  {
    match s.flusher
    case FLoaded(sendable) => 0 < sendable <= Queued(s)
    case FSecond(total, rest) => s.tail + total == |s.buf| && total + rest <= Queued(s)
    case FCommit(total, newTail, _) => newTail == Advance(s.tail, total, |s.buf|)
    case _ => true
  }

  ghost predicate Inv(s: State) {
    Bounds(s) && HeadOk(s) && WriterOk(s) && FlusherOk(s) && ChunkOk(s) && InOrder(s)
  }

  lemma InitInv(s: State)
    requires Init(s)
    ensures Inv(s)
  {
  }

  /** A direct send finds the ring empty, so the bytes it takes come last. */
  lemma DirectInOrder(s: State, sent: seq<Byte>)
    requires Bounds(s) && InOrder(s) && s.avail == |s.buf|
    ensures Contents(s.buf, Start(s), 0) == [] && s.wire == s.accepted
    ensures s.wire + sent == s.accepted + sent
  {
    assert Contents(s.buf, Start(s), Queued(s))[Uncounted(s)..] == [];
  }

  lemma WriteDirectInv(s: State, o: Outcome, s': State)
    requires Inv(s) && WriterStep(s, WriteDirect(o), s')
    ensures Inv(s')
  {
    DirectInOrder(s, if o.Sent? then s.writer.data[..o.n] else []);
  }

  lemma CopyInKeeps(buf: seq<Byte>, start: nat, len: nat, chunk: seq<Byte>)
    requires start < |buf| && len + |chunk| <= |buf|
    ensures var buf' := CopyIn(buf, Advance(start, len, |buf|), chunk);
            && Contents(buf', start, len) == Contents(buf, start, len)
            && Contents(buf', start, len + |chunk|) == Contents(buf', start, len) + chunk
  {
    var buf' := CopyIn(buf, Advance(start, len, |buf|), chunk);
    CopyInExtends(buf, start, len, chunk);
    ContentsPrefix(buf', start, len + |chunk|, len);
    assert (Contents(buf, start, len) + chunk)[..len] == Contents(buf, start, len);
  }

  lemma CopyInOrder(s: State, s': State)
    requires Bounds(s) && InOrder(s) && Bounds(s')
    requires Contents(s'.buf, Start(s'), Queued(s')) == Contents(s.buf, Start(s), Queued(s))
    requires Uncounted(s') == Uncounted(s) && s'.accepted == s.accepted && s'.wire == s.wire
    requires |s'.buf| == |s.buf| && Queued(s') == Queued(s)
    ensures InOrder(s')
  {
  }

  lemma WriteCopyIndices(s: State, s': State)
    requires Bounds(s) && HeadOk(s) && WriterOk(s) && FlusherOk(s) && WriterStep(s, WriteCopy, s')
    ensures Bounds(s') && HeadOk(s') && WriterOk(s') && FlusherOk(s')
    ensures |s'.buf| == |s.buf|
  {
  }

  lemma WriteCopyHead(s: State, s': State)
    requires Bounds(s) && HeadOk(s) && WriterOk(s) && WriterStep(s, WriteCopy, s')
    ensures Queued(s) + |s.writer.chunk| <= |s.buf| && s.head == Advance(Start(s), Queued(s), |s.buf|)
  {
  }

  /** The copy goes right behind the unsent bytes. */
  lemma WriteCopyPlace(s: State, s': State)
    requires Bounds(s) && HeadOk(s) && WriterOk(s) && WriterStep(s, WriteCopy, s')
    ensures Queued(s) + |s.writer.chunk| <= |s.buf|
    ensures s' == s.(buf := CopyIn(s.buf, Advance(Start(s), Queued(s), |s.buf|), s.writer.chunk),
                     writer := WCopied(s.writer.chunk))
  {
    WriteCopyHead(s, s');
  }

  lemma WriteCopyInv(s: State, s': State)
    requires Inv(s) && WriterStep(s, WriteCopy, s')
    ensures Inv(s')
  {
    WriteCopyIndices(s, s');
    WriteCopyPlace(s, s');
    CopyInKeeps(s.buf, Start(s), Queued(s), s.writer.chunk);
    CopyInOrder(s, s');
  }

  lemma WriteStoreIndices(s: State, s': State)
    requires Bounds(s) && HeadOk(s) && WriterOk(s) && FlusherOk(s) && WriterStep(s, WriteStore, s')
    ensures Bounds(s') && HeadOk(s') && WriterOk(s') && FlusherOk(s')
  {
    AdvanceTwice(Start(s), Queued(s), |s.writer.chunk|, |s.buf|);
  }

  lemma WriteStoreInv(s: State, s': State)
    requires Inv(s) && WriterStep(s, WriteStore, s')
    ensures Inv(s')
  {
    WriteStoreIndices(s, s');
    assert ChunkOk(s');
    CopyInOrder(s, s');
  }

  lemma ChunkJoins(wire: seq<Byte>, c: seq<Byte>, sent: nat, chunk: seq<Byte>)
    requires sent <= |c|
    ensures wire + (c + chunk)[sent..] == wire + c[sent..] + chunk
  {
    assert (c + chunk)[sent..] == c[sent..] + chunk;
  }

  lemma WriteCommitInv(s: State, s': State)
    requires Inv(s) && WriterStep(s, WriteCommit, s')
    ensures Inv(s')
  {
    ChunkJoins(s.wire, Contents(s.buf, Start(s), Queued(s)), Uncounted(s), s.writer.chunk);
  }

  /** Loads change the writer's own stage only. */
  lemma WriteLoadsInv(s: State, a: Action, s': State)
    requires Inv(s) && WriterStep(s, a, s') && (a.WriteStart? || a.WriteLoad?)
    ensures Inv(s')
  {
    assert s' == s.(writer := s'.writer) && Pending(s') == Pending(s) == [];
    assert Start(s') == Start(s) && Queued(s') == Queued(s) && Uncounted(s') == Uncounted(s);
  }

  lemma WriterStepInv(s: State, a: Action, s': State)
    requires Inv(s) && WriterStep(s, a, s')
    ensures Inv(s')
  {
    match a
    case WriteStart(_) => WriteLoadsInv(s, a, s');
    case WriteDirect(o) => WriteDirectInv(s, o, s');
    case WriteLoad => WriteLoadsInv(s, a, s');
    case WriteCopy => WriteCopyInv(s, s');
    case WriteStore => WriteStoreInv(s, s');
    case WriteCommit => WriteCommitInv(s, s');
    case _ =>
  }

  /** Sending the next n unsent bytes of the ring moves them to the wire. */
  lemma SendNext(wire: seq<Byte>, c: seq<Byte>, sent: nat, n: nat)
    requires sent + n <= |c|
    ensures wire + c[sent..] == wire + c[sent..sent + n] + c[sent + n..]
  {
  }

  lemma FlushFirstIndices(s: State, o: Outcome, s': State)
    requires Bounds(s) && HeadOk(s) && WriterOk(s) && FlusherOk(s) && FlusherStep(s, FlushFirst(o), s')
    ensures Bounds(s') && HeadOk(s') && WriterOk(s') && FlusherOk(s')
    ensures Start(s') == Start(s)
  {
  }

  lemma FlushSecondIndices(s: State, o: Outcome, s': State)
    requires Bounds(s) && HeadOk(s) && WriterOk(s) && FlusherOk(s) && FlusherStep(s, FlushSecond(o), s')
    ensures Bounds(s') && HeadOk(s') && WriterOk(s') && FlusherOk(s')
    ensures Start(s') == Start(s)
  {
  }

  lemma FlushInOrder(s: State, s': State, n: nat)
    requires Bounds(s) && InOrder(s) && Bounds(s')
    requires s'.buf == s.buf && Start(s') == Start(s) && s'.avail == s.avail
    requires Uncounted(s') == Uncounted(s) + n && s'.accepted == s.accepted
    requires s'.wire == s.wire + Contents(s.buf, Start(s), Queued(s))[Uncounted(s)..Uncounted(s) + n]
    ensures InOrder(s')
  {
    SendNext(s.wire, Contents(s.buf, Start(s), Queued(s)), Uncounted(s), n);
  }

  lemma FlushKeepsChunk(s: State, s': State)
    requires Bounds(s) && ChunkOk(s) && Bounds(s')
    requires s'.buf == s.buf && Start(s') == Start(s) && s'.avail == s.avail && s'.writer == s.writer
    ensures ChunkOk(s')
  {
  }

  lemma FlushFirstSent(s: State, n: nat, s': State)
    requires Inv(s) && FlusherStep(s, FlushFirst(Sent(n)), s') && Bounds(s') && Start(s') == Start(s)
    ensures InOrder(s') && ChunkOk(s')
  {
    FlushKeepsChunk(s, s');
    ContentsFirst(s.buf, s.tail, Queued(s), n);
    FlushInOrder(s, s', n);
  }

  lemma FlushFirstInv(s: State, o: Outcome, s': State)
    requires Inv(s) && FlusherStep(s, FlushFirst(o), s')
    ensures Inv(s')
  {
    FlushFirstIndices(s, o, s');
    match o
    case Sent(n) => FlushFirstSent(s, n, s');
    case _ =>
  }

  lemma FlushSecondSent(s: State, n: nat, s': State)
    requires Inv(s) && FlusherStep(s, FlushSecond(Sent(n)), s') && Bounds(s') && Start(s') == Start(s)
    ensures InOrder(s') && ChunkOk(s')
  {
    FlushKeepsChunk(s, s');
    ContentsSecond(s.buf, s.tail, Queued(s), n);
    FlushInOrder(s, s', n);
  }

  lemma FlushSecondInv(s: State, o: Outcome, s': State)
    requires Inv(s) && FlusherStep(s, FlushSecond(o), s')
    ensures Inv(s')
  {
    FlushSecondIndices(s, o, s');
    match o
    case Sent(n) => FlushSecondSent(s, n, s');
    case _ =>
  }

  /** Dropping what was sent from the front of contents and pending chunk alike. */
  lemma DropSent(buf: seq<Byte>, start: nat, q: nat, p: seq<Byte>, total: nat)
    requires start < |buf| && total <= q && q + |p| <= |buf|
    requires Contents(buf, start, q + |p|) == Contents(buf, start, q) + p
    ensures var start' := Advance(start, total, |buf|);
            && Contents(buf, start', q - total) == Contents(buf, start, q)[total..]
            && Contents(buf, start', q - total + |p|) == Contents(buf, start', q - total) + p
            && Advance(start', q - total, |buf|) == Advance(start, q, |buf|)
            && Advance(start', q - total + |p|, |buf|) == Advance(start, q + |p|, |buf|)
  {
    ContentsSuffix(buf, start, q, total);
    ContentsSuffix(buf, start, q + |p|, total);
    AdvanceTwice(start, total, q - total, |buf|);
    AdvanceTwice(start, total, q - total + |p|, |buf|);
    var c := Contents(buf, start, q);
    assert (c + p)[total..] == c[total..] + p;
  }

  lemma FlushCommitInv(s: State, s': State)
    requires Inv(s) && FlusherStep(s, FlushCommit, s')
    ensures Inv(s')
  {
    DropSent(s.buf, s.tail, Queued(s), Pending(s), s.flusher.total);
    assert Bounds(s') && HeadOk(s') && FlusherOk(s');
    assert ChunkOk(s');
    assert InOrder(s');
  }

  lemma FlusherStepInv(s: State, a: Action, s': State)
    requires Inv(s) && FlusherStep(s, a, s')
    ensures Inv(s')
  {
    match a
    case FlushFirst(o) => FlushFirstInv(s, o, s');
    case FlushSecond(o) => FlushSecondInv(s, o, s');
    case FlushCommit => FlushCommitInv(s, s');
    case _ =>
  }

  lemma StepInv(s: State, a: Action, s': State)
    requires Inv(s) && Step(s, a, s')
    ensures Inv(s')
  {
    if WriterStep(s, a, s') {
      WriterStepInv(s, a, s');
    } else {
      FlusherStepInv(s, a, s');
    }
  }

  // -------------------------------------------------------------------- runs

  ghost predicate Next(s: State, s': State) {
    exists a :: Step(s, a, s')
  }

  ghost predicate IsRun(run: seq<State>) {
    && 0 < |run| && Init(run[0])
    && forall i | 0 <= i < |run| - 1 :: Next(run[i], run[i + 1])
  }

  lemma ActionAt(run: seq<State>, i: nat) returns (a: Action)
    requires IsRun(run) && i + 1 < |run|
    ensures Step(run[i], a, run[i + 1])
  {
    assert Next(run[i], run[i + 1]);
    a :| Step(run[i], a, run[i + 1]);
  }

  lemma {:induction false} RunInv(run: seq<State>, i: nat)
    requires IsRun(run) && i < |run|
    ensures Inv(run[i])
  {
    if i == 0 {
      InitInv(run[0]);
    } else {
      RunInv(run, i - 1);
      var a := ActionAt(run, i - 1);
      StepInv(run[i - 1], a, run[i]);
    }
  }

  /** Write-side order: at every moment of every run the bytes on the wire,
      followed by the bytes of the ring not on the wire yet, are exactly the bytes
      the write calls accepted, in order. */
  lemma WriteOrder(run: seq<State>, i: nat)
    requires IsRun(run) && i < |run|
    ensures Bounds(run[i]) && InOrder(run[i])
    ensures run[i].wire <= run[i].accepted
  {
    RunInv(run, i);
  }

  /** The direct send is exclusive: while the job thread is at it, the ring is
      empty and the epoll thread is not sending. */
  lemma DirectSendExclusive(run: seq<State>, i: nat)
    requires IsRun(run) && i < |run| && run[i].writer.WDirect?
    ensures run[i].avail == |run[i].buf|
    ensures run[i].wire == run[i].accepted
    ensures !run[i].flusher.FLoaded? && !run[i].flusher.FSecond?
  {
    RunInv(run, i);
  }

  /** The stages of a write of `data` that began with `before` accepted. */
  ghost predicate Writing(s: State, before: seq<Byte>, data: seq<Byte>) {
    match s.writer
    case WIdle => s.accepted == before + data || s.accepted == before
    case WDirect(d) => d == data && s.accepted == before && |d| <= s.avail
    case WBuffer(d) => s.accepted + d == before + data && |d| <= s.avail
    case WLoaded(chunk) => s.accepted + chunk == before + data
    case WCopied(chunk) => s.accepted + chunk == before + data
    case WStored(chunk) => s.accepted + chunk == before + data
  }

  lemma WriteBegins(s: State, s': State, data: seq<Byte>)
    requires Step(s, WriteStart(data), s') && |data| <= s.avail
    ensures Writing(s', s.accepted, data)
  {
    if data == [] {
      assert s.accepted + data == s.accepted;
    }
  }

  /** A write of no more than avail is taken whole, or, when the direct send
      fails hard, not at all; nothing the epoll thread does changes that. */
  lemma WritingKept(s: State, a: Action, s': State, before: seq<Byte>, data: seq<Byte>)
    requires Inv(s) && Step(s, a, s') && Writing(s, before, data) && s.writer != WIdle
    ensures Writing(s', before, data)
    ensures s'.writer == WIdle && !(a == WriteDirect(Failed)) ==> s'.accepted == before + data
  {
    if a.WriteDirect? && a.o.Sent? {
      assert before + data == before + data[..a.o.n] + data[a.o.n..];
    } else if a.WriteLoad? {
      assert s.writer.data[..Min(|s.writer.data|, s.avail)] == s.writer.data;
    }
    assert before + [] == before;
    assert s.accepted + [] == s.accepted;
    assert s'.accepted + [] == s'.accepted;
  }

  // -------------------------------------------------------- one call of write

  /** A call goes straight to send exactly when nothing is buffered; data that is not
      sent then goes to the buffer. */
  lemma WriteStarts(s: State, s': State, data: seq<Byte>)
    requires Step(s, WriteStart(data), s')
    ensures s'.accepted == s.accepted && s'.wire == s.wire
    ensures s'.writer == if s.avail == |s.buf| then WDirect(data) else if data == [] then WIdle else WBuffer(data)
  {
  }

  /** What the direct send takes is accepted at once; the rest, if there is any, goes to
      the buffer, unless the send failed hard. */
  lemma DirectTakes(s: State, o: Outcome, s': State)
    requires Step(s, WriteDirect(o), s') && s.writer.WDirect?
    ensures var data := s.writer.data;
      var n := if o.Sent? then o.n else 0;
      && n <= |data|
      && s'.accepted == s.accepted + data[..n] && s'.wire == s.wire + data[..n]
      && s'.writer == if o.Failed? || n == |data| then WIdle else WBuffer(data[n..])
  {
    assert s.accepted + [] == s.accepted && s.wire + [] == s.wire;
  }

  /** The stages of a call that buffers the first n bytes of `data`. */
  ghost predicate Buffering(s: State, before: seq<Byte>, data: seq<Byte>, n: nat)
    requires n <= |data|
  {
    match s.writer
    case WIdle => s.accepted == before + data[..n]
    case WLoaded(chunk) => chunk == data[..n] && s.accepted == before
    case WCopied(chunk) => chunk == data[..n] && s.accepted == before
    case WStored(chunk) => chunk == data[..n] && s.accepted == before
    case _ => false
  }

  lemma BufferingStep(s: State, a: Action, s': State, before: seq<Byte>, data: seq<Byte>, n: nat)
    requires n <= |data| && Step(s, a, s') && Buffering(s, before, data, n) && s.writer != WIdle
    ensures Buffering(s', before, data, n)
  {
  }

  lemma {:induction false} BufferingProceeds(run: seq<State>, i: nat, j: nat, before: seq<Byte>, data: seq<Byte>, n: nat)
    requires i <= j < |run| && n <= |data| && Buffering(run[i], before, data, n)
    requires forall k | i <= k < j :: Buffering(run[k], before, data, n) ==> Buffering(run[k + 1], before, data, n)
    ensures Buffering(run[j], before, data, n)
  {
    if i < j {
      BufferingProceeds(run, i, j - 1, before, data, n);
      assert Buffering(run[j - 1 + 1], before, data, n);
    }
  }

  /** Whatever the epoll thread does meanwhile, a write that has come to the buffer takes
      all its data if there is room when it looks, and else as much as there is. */
  lemma BufferTakes(run: seq<State>, i: nat, j: nat, data: seq<Byte>)
    requires IsRun(run) && i < j < |run| && run[i].writer == WBuffer(data)
    requires Step(run[i], WriteLoad, run[i + 1])
    requires forall k | i < k < j :: run[k].writer != WIdle
    ensures Buffering(run[j], run[i].accepted, data, if |data| <= run[i].avail then |data| else run[i].avail)
  {
    var n := if |data| <= run[i].avail then |data| else run[i].avail;
    forall k | i < k < j && Buffering(run[k], run[i].accepted, data, n)
      ensures Buffering(run[k + 1], run[i].accepted, data, n)
    {
      var a := ActionAt(run, k);
      BufferingStep(run[k], a, run[k + 1], run[i].accepted, data, n);
    }
    BufferingProceeds(run, i + 1, j, run[i].accepted, data, n);
  }

  // ------------------------------------------------------ one call of the flusher

  /** The bytes the next send is offered. */
  function Offered(s: State): int {
    match s.flusher
    case FLoaded(sendable) => if sendable <= |s.buf| - s.tail then sendable else |s.buf| - s.tail
    case FSecond(_, rest) => rest
    case _ => 0
  }

  /** What the answers of send make of a call that found `all` bytes to send, `stretch`
      of them up to the end of the buffer. */
  predicate Amounts(answers: seq<Outcome>, stretch: int, all: nat, total: nat, dead: bool) {
    && answers != [] && answers[0].Sent?
    && if answers[0].n < stretch || stretch == all
       then |answers| == 1 && total == answers[0].n && !dead
       else |answers| == 2 && answers[0].n == stretch
            && total == stretch + (if answers[1].Sent? then answers[1].n else 0)
            && (dead <==> answers[1].Failed?)
  }

  /** The stages of a call that began with the tail at `tail` and `all` bytes to send. */
  ghost predicate Flushing(s: State, tail: nat, all: nat, answers: seq<Outcome>) {
    var stretch := if all <= |s.buf| - tail then all else |s.buf| - tail;
    && s.tail == tail
    && match s.flusher
       case FIdle => false
       case FLoaded(n) => n == all && answers == []
       case FSecond(total, rest) =>
         && |answers| == 1 && answers[0].Sent? && answers[0].n == stretch < all
         && total == stretch && rest == all - stretch
       case FCommit(total, _, dead) => Amounts(answers, stretch, all, total, dead)
       case FStore(_, dead) => answers != [] && (dead <==> |answers| == 2 && answers[1].Failed?)
  }

  /** The answers send gave the flusher among some actions. */
  function Answers(actions: seq<Action>): seq<Outcome> {
    if actions == [] then []
    else Answers(actions[..|actions| - 1]) + Answer(actions[|actions| - 1])
  }

  function Answer(a: Action): seq<Outcome> {
    match a
    case FlushFirst(o) => [o]
    case FlushSecond(o) => [o]
    case _ => []
  }

  lemma FlushingStep(s: State, a: Action, s': State, tail: nat, all: nat, answers: seq<Outcome>)
    requires Step(s, a, s') && Flushing(s, tail, all, answers) && s'.flusher != FIdle
    ensures Flushing(s', tail, all, answers + Answer(a))
  {
    if WriterStep(s, a, s') {
      assert answers + [] == answers;
    } else {
      FlushingOn(s, a, s', tail, all, answers);
    }
  }

  lemma FlushingOn(s: State, a: Action, s': State, tail: nat, all: nat, answers: seq<Outcome>)
    requires |s.buf| > 0 && FlusherStep(s, a, s') && Flushing(s, tail, all, answers) && s'.flusher != FIdle
    ensures Flushing(s', tail, all, answers + Answer(a))
  {
    assert answers + [] == answers;
    if a.FlushFirst? {
      assert answers + [a.o] == [a.o];
    } else if a.FlushSecond? {
      assert answers + [a.o] == [answers[0], a.o];
    }
  }

  /** From its load at step i on the flusher is in the middle of one call up to j. */
  ghost predicate Flushes(run: seq<State>, actions: seq<Action>, i: nat, j: nat) {
    && i < j < |run| == |actions| + 1
    && run[i].flusher == FIdle && actions[i] == FlushLoad && run[i].avail <= |run[i].buf|
    && (forall k | i <= k < j :: Step(run[k], actions[k], run[k + 1]))
    && (forall k | i < k <= j :: run[k].flusher != FIdle)
  }

  /** A call that finds nothing to send ends at once. */
  lemma FlushBegins(s: State, s': State)
    requires Step(s, FlushLoad, s') && s.avail <= |s.buf|
    ensures s'.flusher == FIdle <==> s.avail == |s.buf|
    ensures s'.flusher != FIdle ==> Flushing(s', s.tail, |s.buf| - s.avail, [])
  {
  }

  lemma AnswersNext(actions: seq<Action>, i: nat, j: nat)
    requires i <= j < |actions|
    ensures Answers(actions[i..j + 1]) == Answers(actions[i..j]) + Answer(actions[j])
  {
    assert actions[i..j + 1][..j - i] == actions[i..j];
  }

  lemma FlushesAt(run: seq<State>, actions: seq<Action>, i: nat, j: nat, k: nat)
    requires Flushes(run, actions, i, j) && i <= k < j
    ensures Step(run[k], actions[k], run[k + 1]) && run[k + 1].flusher != FIdle
  {
  }

  /** A step takes the call from stage to stage. */
  ghost predicate Carries(s: State, a: Action, s': State, tail: nat, all: nat) {
    forall answers :: Flushing(s, tail, all, answers) ==> Flushing(s', tail, all, answers + Answer(a))
  }

  lemma FlushCarries(s: State, a: Action, s': State, tail: nat, all: nat)
    requires Step(s, a, s') && s'.flusher != FIdle
    ensures Carries(s, a, s', tail, all)
  {
    forall answers | Flushing(s, tail, all, answers)
      ensures Flushing(s', tail, all, answers + Answer(a))
    {
      FlushingStep(s, a, s', tail, all, answers);
    }
  }

  lemma {:induction false} FlushProceeds(run: seq<State>, actions: seq<Action>, i: nat, j: nat, tail: nat, all: nat)
    requires i < j < |run| == |actions| + 1
    requires Flushing(run[i + 1], tail, all, []) && Answer(actions[i]) == []
    requires forall k | i < k < j :: Carries(run[k], actions[k], run[k + 1], tail, all)
    ensures Flushing(run[j], tail, all, Answers(actions[i..j]))
  {
    if j == i + 1 {
      AnswersNext(actions, i, i);
    } else {
      FlushProceeds(run, actions, i, j - 1, tail, all);
      AnswersNext(actions, i, j - 1);
      assert Carries(run[j - 1], actions[j - 1], run[j - 1 + 1], tail, all);
    }
  }

  lemma FlushStarts(run: seq<State>, actions: seq<Action>, i: nat, j: nat)
    requires Flushes(run, actions, i, j)
    ensures Flushing(run[i + 1], run[i].tail, |run[i].buf| - run[i].avail, []) && Answer(actions[i]) == []
  {
    FlushesAt(run, actions, i, j, i);
    FlushBegins(run[i], run[i + 1]);
  }

  lemma FlushCarriesOn(run: seq<State>, actions: seq<Action>, i: nat, j: nat, k: nat, tail: nat, n: nat)
    requires Flushes(run, actions, i, j) && i < k < j
    ensures Carries(run[k], actions[k], run[k + 1], tail, n)
  {
    FlushesAt(run, actions, i, j, k);
    FlushCarries(run[k], actions[k], run[k + 1], tail, n);
  }

  /** One call of write_return, whatever the job thread does meanwhile: send is offered
      everything that was buffered, first up to the end of the buffer and then, exactly
      when that much was taken and there is more, from its beginning; what is counted is
      what was taken; and the socket is found dead exactly when the second send failed. */
  lemma FlushTakes(run: seq<State>, actions: seq<Action>, i: nat, j: nat)
    requires Flushes(run, actions, i, j)
    ensures Flushing(run[j], run[i].tail, |run[i].buf| - run[i].avail, Answers(actions[i..j]))
  {
    var tail, n := run[i].tail, |run[i].buf| - run[i].avail;
    FlushStarts(run, actions, i, j);
    forall k | i < k < j
      ensures Carries(run[k], actions[k], run[k + 1], tail, n)
    {
      FlushCarriesOn(run, actions, i, j, k, tail, n);
    }
    FlushProceeds(run, actions, i, j, tail, n);
  }

  // ------------------------------------------------------------ nobody is stuck

  /** The writer goes on whatever send answers. */
  lemma WriterGoesOn(s: State, o: Outcome) returns (a: Action, s': State)
    requires Inv(s) && s.writer != WIdle
    requires s.writer.WDirect? && o.Sent? ==> o.n <= |s.writer.data|
    ensures WriterStep(s, a, s') && (s.writer.WDirect? ==> a == WriteDirect(o))
  {
    a := match s.writer
      case WDirect(_) => WriteDirect(o)
      case WBuffer(_) => WriteLoad
      case WLoaded(_) => WriteCopy
      case WCopied(_) => WriteStore
      case WStored(_) => WriteCommit;
    s' := WriterNext(s, a);
  }

  /** And so does the flusher. */
  lemma FlusherGoesOn(s: State, o: Outcome) returns (a: Action, s': State)
    requires Inv(s) && s.flusher != FIdle && (o.Sent? ==> o.n <= Offered(s))
    ensures FlusherStep(s, a, s') && (Offered(s) > 0 ==> Answer(a) == [o])
  {
    a := match s.flusher
      case FLoaded(_) => FlushFirst(o)
      case FSecond(_, _) => FlushSecond(o)
      case FCommit(_, _, _) => FlushCommit
      case FStore(_, _) => FlushStore;
    s' := FlusherNext(s, a);
  }
}
