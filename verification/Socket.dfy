/** One epoll socket as a whole: both rings, the state word and the reference
    count, with the job on one side and the epoll thread on the other.

    Each compare-and-swap on the count or avail field commits the readiness bits
    in the same step.  Either side may finish first. */
module Socket {
  import opened ByteRing
  import opened SocketWord
  import R = ReadRing
  import W = WriteRing

  /** How far a side is with giving the socket up. */
  datatype JobSide = Using | JobMarked | JobGone
  datatype EpollSide = Serving | Dying | EpollMarked | EpollGone

  /** `late` records that a bare death came between the two sides' done, `broke` that a
      direct send of the job's has failed hard. */
  datatype State = State(
    read: R.State, write: W.State, word: Word,
    job: JobSide, epoll: EpollSide, fall: int, frees: nat,
    readCondition: nat, writeCondition: nat, late: bool, broke: bool)

  datatype Action =
    | JobReads(r: R.Action) | JobWrites(w: W.Action) | JobDone | JobReleases
    | EpollReads(r: R.Action) | EpollWrites(w: W.Action) | EpollHangup | EpollDone | EpollReleases

  ghost predicate Init(s: State) {
    && R.Init(s.read) && W.Init(s.write)
    && s.word == Created(|s.write.buf|, s.readCondition, s.writeCondition)
    && s.job == Using && s.epoll == Serving && s.fall == 2 && s.frees == 0 && !s.late && !s.broke
  }

  /** The word after a step of one of the job's calls. */
  function JobReadWord(s: State, r: R.Action): Word {
    if r.ReadCommit? && s.read.reader.RCopied? && |s.read.reader.data| <= s.word.count
    then CountAdd(s.word, -|s.read.reader.data|, false, s.readCondition)
    else s.word
  }

  function JobWriteWord(s: State, w: W.Action): Word {
    if w.WriteCommit? && s.write.writer.WStored? && |s.write.writer.chunk| <= s.word.avail
    then AvailAdd(s.word, -|s.write.writer.chunk|, false, s.writeCondition)
    else if w.WriteDirect? && w.o.Failed? then MarkDead(s.word)
    else s.word
  }

  function EpollReadWord(s: State, r: R.Action): Word {
    if r.FillCommit? && s.read.filler.FCommit?
    then CountAdd(s.word, s.read.filler.total, s.read.filler.dead, s.readCondition)
    else if r.FillFirst? && (r.o.Closed? || r.o.Failed?) then MarkDead(s.word)
    else s.word
  }

  function EpollWriteWord(s: State, w: W.Action): Word {
    if w.FlushCommit? && s.write.flusher.FCommit?
    then AvailAdd(s.word, s.write.flusher.total, s.write.flusher.dead, s.writeCondition)
    else if w.FlushFirst? && w.o.Failed? then MarkDead(s.word)
    else s.word
  }

  /** Is this step a schedi_job_epollsocket_dead? */
  predicate BareDeath(a: Action) {
    match a
    case JobWrites(w) => w.WriteDirect? && w.o.Failed?
    case EpollReads(r) => r.FillFirst? && (r.o.Closed? || r.o.Failed?)
    case EpollWrites(w) => w.FlushFirst? && w.o.Failed?
    case EpollHangup => true
    case _ => false
  }

  function LateAfter(s: State, a: Action): bool {
    s.late || (BareDeath(a) && s.word.epollNt && !s.word.epollDid)
  }

  /** Did this step make read_return or write_return come back with -1? */
  predicate ReadReturnsDead(s: State, r: R.Action) {
    || (r.FillFirst? && (r.o.Closed? || r.o.Failed?))
    || (r.FillStore? && s.read.filler.FStore? && s.read.filler.dead)
  }

  predicate WriteReturnsDead(s: State, w: W.Action) {
    || (w.FlushFirst? && w.o.Failed?)
    || (w.FlushStore? && s.write.flusher.FStore? && s.write.flusher.dead)
  }

  /** atomic_fetch_sub on fall; whoever finds 1 frees the socket. */
  function Release(s: State): State {
    s.(fall := s.fall - 1, frees := if s.fall == 1 then s.frees + 1 else s.frees)
  }

  ghost predicate Step(s: State, a: Action, s': State)
  {
    && |s.read.buf| > 0 && |s.write.buf| > 0
    && match a {
      case JobReads(r) =>
        && s.job == Using && s.write.writer == W.WIdle
        && R.ReaderStep(s.read, r, s'.read)
        && s' == s.(read := s'.read, word := JobReadWord(s, r))
      case JobWrites(w) =>
        && s.job == Using && s.read.reader == R.RIdle
        && W.WriterStep(s.write, w, s'.write)
        && s' == s.(write := s'.write, word := JobWriteWord(s, w), late := LateAfter(s, a),
                    broke := s.broke || (w.WriteDirect? && w.o.Failed?))
      case JobDone =>
        && s.job == Using && s.read.reader == R.RIdle && s.write.writer == W.WIdle
        && s' == s.(word := DoneJobSide(s.word), job := JobMarked)
      case JobReleases => s.job == JobMarked && s' == Release(s).(job := JobGone)
      case EpollReads(r) =>
        && s.epoll == Serving && s.write.flusher == W.FIdle
        && R.FillerStep(s.read, r, s'.read)
        && s' == s.(read := s'.read, word := EpollReadWord(s, r), late := LateAfter(s, a),
                    epoll := if ReadReturnsDead(s, r) then Dying else Serving)
      case EpollWrites(w) =>
        && s.epoll == Serving && s.read.filler == R.FIdle
        && W.FlusherStep(s.write, w, s'.write)
        && s' == s.(write := s'.write, word := EpollWriteWord(s, w), late := LateAfter(s, a),
                    epoll := if WriteReturnsDead(s, w) then Dying else Serving)
      case EpollHangup =>
        && s.epoll == Serving && s.read.filler == R.FIdle && s.write.flusher == W.FIdle
        && s' == s.(word := MarkDead(s.word), epoll := Dying, late := LateAfter(s, a))
      case EpollDone => s.epoll == Dying && s' == s.(word := DoneEpollSide(s.word), epoll := EpollMarked)
      case EpollReleases => s.epoll == EpollMarked && s' == Release(s).(epoll := EpollGone)
    }
  }

  // -------------------------------------------------------------- invariants

  /** The count and avail fields of the word are the rings' own. */
  ghost predicate RingsOk(s: State) {
    && R.Inv(s.read) && W.Inv(s.write)
    && s.word.count == s.read.count && s.word.avail == s.write.avail
  }

  predicate Sides(s: State) {
    && (s.word.epollNt <==> s.job != Using)
    && (s.word.epollDid <==> s.epoll in {EpollMarked, EpollGone})
  }

  /** A second recv or send has found the socket dead, and the call that made it has
      noted that in the word and is about to return. */
  predicate ReturningDead(s: State) {
    (s.read.filler.FStore? && s.read.filler.dead) || (s.write.flusher.FStore? && s.write.flusher.dead)
  }

  /** The word is dead exactly when a direct send broke, or the epoll side has stopped
      serving the socket or is about to. */
  predicate DeathOk(s: State) {
    s.word.dead <==> s.broke || s.epoll != Serving || ReturningDead(s)
  }

  /** A bare death came after the job side's done, and the epoll side's is still to
      come. */
  predicate DiedLate(s: State) {
    s.late && !s.word.epollDid
  }

  predicate WordOk(s: State) {
    && (s.word.readReady <==> s.word.count >= s.readCondition)
    && (s.word.writeReady <==> s.word.avail >= s.writeCondition)
    && (s.late ==> s.job != Using && s.epoll != Serving && s.word.ready)
    && (ReadyMeans(s.word) <==> !DiedLate(s))
  }

  function Refs(s: State): nat {
    (if s.job == JobGone then 0 else 1) + (if s.epoll == EpollGone then 0 else 1)
  }

  predicate Counted(s: State) {
    s.fall == Refs(s) && s.frees == if s.fall == 0 then 1 else 0
  }

  ghost predicate Inv(s: State) {
    RingsOk(s) && Sides(s) && WordOk(s) && Counted(s) && DeathOk(s)
  }

  lemma InitInv(s: State)
    requires Init(s)
    ensures Inv(s)
  {
    R.InitInv(s.read);
    W.InitInv(s.write);
  }

  lemma ReadRingKept(s: State, a: Action, s': State)
    requires RingsOk(s) && Step(s, a, s')
    ensures R.Inv(s'.read)
  {
    match a
    case JobReads(r) => R.ReaderStepInv(s.read, r, s'.read);
    case EpollReads(r) => R.FillerStepInv(s.read, r, s'.read);
    case _ =>
  }

  lemma WriteRingKept(s: State, a: Action, s': State)
    requires RingsOk(s) && Step(s, a, s')
    ensures W.Inv(s'.write)
  {
    match a
    case JobWrites(w) => W.WriterStepInv(s.write, w, s'.write);
    case EpollWrites(w) => W.FlusherStepInv(s.write, w, s'.write);
    case _ =>
  }

  lemma RingsCounted(s: State, a: Action, s': State)
    requires RingsOk(s) && Step(s, a, s')
    ensures s'.word.count == s'.read.count && s'.word.avail == s'.write.avail
  {
  }

  lemma RingsKept(s: State, a: Action, s': State)
    requires RingsOk(s) && Step(s, a, s')
    ensures RingsOk(s')
  {
    ReadRingKept(s, a, s');
    WriteRingKept(s, a, s');
    RingsCounted(s, a, s');
  }

  predicate ByJob(a: Action) {
    a.JobReads? || a.JobWrites? || a.JobDone? || a.JobReleases?
  }

  lemma JobKeepsWord(s: State, a: Action, s': State)
    requires Sides(s) && WordOk(s) && Step(s, a, s') && ByJob(a)
    ensures Sides(s') && WordOk(s')
  {
  }

  lemma EpollKeepsWord(s: State, a: Action, s': State)
    requires Sides(s) && WordOk(s) && Step(s, a, s') && !ByJob(a)
    ensures Sides(s') && WordOk(s')
  {
  }

  lemma WordKept(s: State, a: Action, s': State)
    requires Sides(s) && WordOk(s) && Step(s, a, s')
    ensures Sides(s') && WordOk(s')
  {
    if ByJob(a) {
      JobKeepsWord(s, a, s');
    } else {
      EpollKeepsWord(s, a, s');
    }
  }

  lemma CountedKept(s: State, a: Action, s': State)
    requires Counted(s) && Step(s, a, s')
    ensures Counted(s')
  {
  }

  lemma DeathByJob(s: State, a: Action, s': State)
    requires RingsOk(s) && DeathOk(s) && Step(s, a, s') && ByJob(a)
    ensures DeathOk(s')
  {
  }

  lemma DeathByEpoll(s: State, a: Action, s': State)
    requires RingsOk(s) && DeathOk(s) && Step(s, a, s') && !ByJob(a)
    ensures DeathOk(s')
  {
  }

  lemma DeathKept(s: State, a: Action, s': State)
    requires RingsOk(s) && DeathOk(s) && Step(s, a, s')
    ensures DeathOk(s')
  {
    if ByJob(a) {
      DeathByJob(s, a, s');
    } else {
      DeathByEpoll(s, a, s');
    }
  }

  lemma StepInv(s: State, a: Action, s': State)
    requires Inv(s) && Step(s, a, s')
    ensures Inv(s')
  {
    DeathKept(s, a, s');
    RingsKept(s, a, s');
    WordKept(s, a, s');
    CountedKept(s, a, s');
  }

  // -------------------------------------------------------------------- runs

  ghost predicate Next(s: State, s': State) {
    exists a :: Step(s, a, s')
  }

  ghost predicate IsRun(run: seq<State>) {
    && 0 < |run| && Init(run[0])
    && forall i | 0 <= i < |run| - 1 :: Next(run[i], run[i + 1])
  }

  lemma ActionAt(run: seq<State>, i: nat) returns (a: Action)
    requires IsRun(run) && i + 1 < |run|
    ensures Step(run[i], a, run[i + 1])
  {
    assert Next(run[i], run[i + 1]);
    a :| Step(run[i], a, run[i + 1]);
  }

  lemma {:induction false} RunInv(run: seq<State>, i: nat)
    requires IsRun(run) && i < |run|
    ensures Inv(run[i])
  {
    if i == 0 {
      InitInv(run[0]);
    } else {
      RunInv(run, i - 1);
      var a := ActionAt(run, i - 1);
      StepInv(run[i - 1], a, run[i]);
    }
  }

  /** Both directions of data stay in order and within bounds in every run. */
  lemma StreamsInOrder(run: seq<State>, i: nat)
    requires IsRun(run) && i < |run|
    ensures var s := run[i];
            && R.Start(s.read) < |s.read.buf| && s.read.count + R.Uncounted(s.read) <= |s.read.buf|
            && R.InOrder(s.read)
            && W.Bounds(s.write) && W.InOrder(s.write)
            && s.word.count == s.read.count && s.word.avail == s.write.avail
  {
    RunInv(run, i);
  }

  /** The readiness bits mean what is documented at every moment of every run,
      except between a bare death that comes after the job side's done and the epoll
      side's done; and in that window READY is indeed wrong. */
  lemma ReadinessInRun(run: seq<State>, i: nat)
    requires IsRun(run) && i < |run|
    ensures var s := run[i];
            Coherent(s.word, s.readCondition, s.writeCondition) <==> !DiedLate(s)
  {
    RunInv(run, i);
  }

  /** fall is the number of references still held; the socket is freed exactly
      when both are given up, and once. */
  lemma LifetimeInRun(run: seq<State>, i: nat)
    requires IsRun(run) && i < |run|
    ensures run[i].fall == Refs(run[i])
    ensures run[i].frees <= 1
    ensures run[i].frees == 1 <==> run[i].job == JobGone && run[i].epoll == EpollGone
  {
    RunInv(run, i);
  }

  /** Nobody touches the socket once it is freed: every step is taken by a side
      that still holds its reference. */
  lemma NoUseAfterFree(run: seq<State>, i: nat, a: Action)
    requires IsRun(run) && i + 1 < |run| && Step(run[i], a, run[i + 1])
    ensures run[i].frees == 0
    ensures run[i + 1].frees == 1 ==> a.JobReleases? || a.EpollReleases?
  {
    RunInv(run, i);
    RunInv(run, i + 1);
  }

  /** In every run: whenever the epoll side does not serve the socket any more its word
      is dead; and once a death is found, by whichever call of recv or send, the epoll
      side stops serving it as soon as it is between calls, unless it was the job's own
      direct send that failed. */
  lemma DeathInRun(run: seq<State>, i: nat)
    requires IsRun(run) && i < |run|
    ensures run[i].epoll != Serving ==> run[i].word.dead
    ensures run[i].read.filler == R.FIdle && run[i].write.flusher == W.FIdle ==>
              (run[i].word.dead <==> run[i].broke || run[i].epoll != Serving)
  {
    RunInv(run, i);
  }

  /** Either side can always give the socket up once it has come to that, and the second
      to do so frees it. */
  lemma EpollGivesUp(s: State) returns (s1: State, s2: State)
    requires Inv(s) && s.epoll == Dying
    ensures Step(s, Action.EpollDone, s1) && Step(s1, EpollReleases, s2)
    ensures s2.epoll == EpollGone && (s2.frees == 1 <==> s.job == JobGone)
  {
    s1 := s.(word := DoneEpollSide(s.word), epoll := EpollMarked);
    s2 := Release(s1).(epoll := EpollGone);
  }

  lemma JobGivesUp(s: State) returns (s1: State, s2: State)
    requires Inv(s) && s.job == Using && s.read.reader == R.RIdle && s.write.writer == W.WIdle
    ensures Step(s, Action.JobDone, s1) && Step(s1, JobReleases, s2)
    ensures s2.job == JobGone && (s2.frees == 1 <==> s.epoll == EpollGone)
  {
    s1 := s.(word := DoneJobSide(s.word), job := JobMarked);
    s2 := Release(s1).(job := JobGone);
  }

  // --------------------------------------------------- what readiness is for

  predicate ReadUnderway(s: State) {
    R.ReadUnderway(s.read)
  }

  lemma ReadAdvances(run: seq<State>, i: nat, before: seq<Byte>, size: nat)
    requires IsRun(run) && i + 1 < |run| && R.Reading(run[i].read, before, size) && ReadUnderway(run[i + 1])
    ensures R.Reading(run[i + 1].read, before, size)
  {
    RunInv(run, i);
    var a := ActionAt(run, i);
    match a
    case JobReads(r) => R.ReadingKept(run[i].read, r, run[i + 1].read, before, size);
    case EpollReads(r) => R.ReadingKept(run[i].read, r, run[i + 1].read, before, size);
    case _ =>
  }

  ghost predicate ReadsUntil(run: seq<State>, i: nat, j: nat)
    requires j < |run|
  {
    forall k | i <= k <= j :: ReadUnderway(run[k])
  }

  lemma {:induction false} ReadProceeds(run: seq<State>, i: nat, j: nat, before: seq<Byte>, size: nat)
    requires IsRun(run) && i <= j < |run|
    requires R.Reading(run[i].read, before, size) && ReadsUntil(run, i, j)
    ensures R.Reading(run[j].read, before, size)
    decreases j - i
  {
    if i < j {
      assert ReadUnderway(run[i + 1]);
      ReadAdvances(run, i, before, size);
      ReadProceeds(run, i + 1, j, before, size);
    }
  }

  /** When the socket was made ready by its thresholds, neither dead nor given up,
      a read of the threshold size returns exactly that many bytes, whatever the
      epoll thread does meanwhile. */
  lemma ReadyMeansReadable(run: seq<State>, i: nat, j: nat)
    requires IsRun(run) && i < j < |run|
    requires run[i].word.ready && !run[i].word.dead && !run[i].word.epollDid
    requires Step(run[i], JobReads(R.ReadLoad(run[i].readCondition)), run[i + 1])
    requires ReadsUntil(run, i + 1, j)
    ensures R.Reading(run[j].read, run[i].read.delivered, run[i].readCondition)
  {
    RunInv(run, i);
    R.ReadBegins(run[i].read, run[i + 1].read, run[i].readCondition);
    ReadProceeds(run, i + 1, j, run[i].read.delivered, run[i].readCondition);
  }

  predicate WriteUnderway(s: State) {
    s.write.writer != W.WIdle
  }

  /** A write in progress, or over: then its data was accepted whole, or nothing
      was and the socket is dead. */
  ghost predicate WriteOutcome(s: State, before: seq<Byte>, data: seq<Byte>) {
    && W.Writing(s.write, before, data)
    && (s.write.writer == W.WIdle ==> s.write.accepted == before + data || s.word.dead)
  }

  lemma WriteOutcomeKept(s: State, a: Action, s': State, before: seq<Byte>, data: seq<Byte>)
    requires Inv(s) && Step(s, a, s') && WriteOutcome(s, before, data) && WriteUnderway(s)
    ensures WriteOutcome(s', before, data)
  {
    match a
    case JobWrites(w) => W.WritingKept(s.write, w, s'.write, before, data);
    case EpollWrites(w) => W.WritingKept(s.write, w, s'.write, before, data);
    case _ =>
  }

  ghost predicate WritesUntil(run: seq<State>, i: nat, j: nat)
    requires j < |run|
  {
    forall k | i <= k < j :: WriteUnderway(run[k])
  }

  lemma {:induction false} WriteProceeds(run: seq<State>, i: nat, j: nat, before: seq<Byte>, data: seq<Byte>)
    requires IsRun(run) && i <= j < |run|
    requires WriteOutcome(run[i], before, data) && WritesUntil(run, i, j)
    ensures WriteOutcome(run[j], before, data)
    decreases j - i
  {
    if i < j {
      assert WriteUnderway(run[i]);
      WriteAdvances(run, i, before, data);
      WriteProceeds(run, i + 1, j, before, data);
    }
  }

  lemma WriteAdvances(run: seq<State>, i: nat, before: seq<Byte>, data: seq<Byte>)
    requires IsRun(run) && i + 1 < |run|
    requires WriteOutcome(run[i], before, data) && WriteUnderway(run[i])
    ensures WriteOutcome(run[i + 1], before, data)
  {
    RunInv(run, i);
    var a := ActionAt(run, i);
    WriteOutcomeKept(run[i], a, run[i + 1], before, data);
  }

  /** Likewise a write of no more than the write threshold is accepted whole,
      unless the direct send fails hard: then nothing is, and the socket is dead. */
  lemma ReadyMeansWritable(run: seq<State>, i: nat, j: nat, data: seq<Byte>)
    requires IsRun(run) && i < j < |run|
    requires run[i].word.ready && !run[i].word.dead && !run[i].word.epollDid
    requires |data| <= run[i].writeCondition
    requires Step(run[i], JobWrites(W.WriteStart(data)), run[i + 1])
    requires WritesUntil(run, i + 1, j)
    ensures WriteOutcome(run[j], run[i].write.accepted, data)
  {
    RunInv(run, i);
    W.WriteBegins(run[i].write, run[i + 1].write, data);
    if data == [] {
      assert run[i].write.accepted + data == run[i].write.accepted;
    }
    WriteProceeds(run, i + 1, j, run[i].write.accepted, data);
  }
}
