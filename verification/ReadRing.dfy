/** The read side of an epoll socket under interleaving: one job thread in
    schedi_job_epollsocket_read, one epoll thread in
    schedi_job_epollsocket_read_return.

    A step is one load, one copy, one recv, one count update or one index store;
    recv may return part of what was asked for, would-block, end of stream or an
    error. */
module ReadRing {
  import opened ByteRing

  datatype ReaderPc =
    | RIdle
    | RLoaded(n: nat)                       // min(count, size)
    | RCopied(data: seq<Byte>)
    | RCommitted(newTail: nat)              // count lowered, tail not stored yet

  datatype FillerPc =
    | FIdle
    | FLoaded(free: nat)
    | FSecond(total: nat, rest: nat)        // first part filled up to the end
    | FCommit(total: nat, newHead: nat, dead: bool)
    | FStore(newHead: nat, dead: bool)

  datatype Outcome = Bytes(data: seq<Byte>) | WouldBlock | Closed | Failed

  /** `received` is everything recv put into the buffer, `delivered` everything
      handed to the job by reads whose count update happened. */
  datatype State = State(
    buf: seq<Byte>, head: nat, tail: nat, count: nat,
    reader: ReaderPc, filler: FillerPc,
    received: seq<Byte>, delivered: seq<Byte>)

  datatype Action =
    | ReadLoad(size: nat) | ReadCopy | ReadCommit | ReadStore
    | FillLoad | FillFirst(o: Outcome) | FillSecond(o: Outcome) | FillCommit | FillStore

  ghost predicate Init(s: State) {
    && 0 < |s.buf| && s.head == 0 && s.tail == 0 && s.count == 0
    && s.reader == RIdle && s.filler == FIdle && s.received == [] && s.delivered == []
  }

  predicate ReaderCan(s: State, a: Action) {
    match (a, s.reader)
    case (ReadLoad(_), RIdle) => true
    case (ReadCopy, RLoaded(n)) => s.tail < |s.buf| && n <= |s.buf|
    case (ReadCommit, RCopied(data)) => |data| <= s.count && s.tail < |s.buf| && |data| <= |s.buf|
    case (ReadStore, RCommitted(_)) => true
    case _ => false
  }

  function ReaderNext(s: State, a: Action): State
    requires ReaderCan(s, a)
  {
    match a
    case ReadLoad(size) => s.(reader := RLoaded(Min(s.count, size)))
    case ReadCopy => s.(reader := RCopied(CopyOut(s.buf, s.tail, s.reader.n)))
    case ReadCommit =>
      var data := s.reader.data;
      s.(count := s.count - |data|, delivered := s.delivered + data,
         reader := RCommitted(Advance(s.tail, |data|, |s.buf|)))
    case ReadStore => s.(tail := s.reader.newTail, reader := RIdle)
  }

  predicate FillerCan(s: State, a: Action) {
    match (a, s.filler)
    case (FillLoad, FIdle) => s.count <= |s.buf|
    case (FillFirst(o), FLoaded(free)) =>
      s.head < |s.buf| && (o.Bytes? ==> 0 < |o.data| <= Min(free, |s.buf| - s.head))
    case (FillSecond(o), FSecond(_, rest)) => o.Bytes? ==> 0 < |o.data| <= rest <= |s.buf|
    case (FillCommit, FCommit(_, _, _)) => true
    case (FillStore, FStore(_, _)) => true
    case _ => false
  }

  function FillerNext(s: State, a: Action): State
    requires FillerCan(s, a)
  {
    match a
    case FillLoad => s.(filler := if s.count == |s.buf| then FIdle else FLoaded(|s.buf| - s.count))
    case FillFirst(o) =>
      var free := s.filler.free;
      var first := Min(free, |s.buf| - s.head);
      if o.Bytes? then
        s.(buf := Blit(s.buf, s.head, o.data), received := s.received + o.data,
           filler := if |o.data| == first && first < free then FSecond(first, free - first)
                     else FCommit(|o.data|, Advance(s.head, |o.data|, |s.buf|), false))
      else s.(filler := FIdle)
    case FillSecond(o) =>
      var total := s.filler.total;
      (match o
       case Bytes(data) =>
         s.(buf := Blit(s.buf, 0, data), received := s.received + data, filler := FCommit(total + |data|, |data|, false))
       case WouldBlock => s.(filler := FCommit(total, 0, false))
       case _ => s.(filler := FCommit(total, 0, true)))
    case FillCommit => s.(count := s.count + s.filler.total, filler := FStore(s.filler.newHead, s.filler.dead))
    case FillStore => s.(head := s.filler.newHead, filler := FIdle)
  }

  ghost predicate ReaderStep(s: State, a: Action, s': State)
    requires |s.buf| > 0
  {
    ReaderCan(s, a) && s' == ReaderNext(s, a)
  }

  ghost predicate FillerStep(s: State, a: Action, s': State)
    requires |s.buf| > 0
  {
    FillerCan(s, a) && s' == FillerNext(s, a)
  }

  ghost predicate Step(s: State, a: Action, s': State) {
    |s.buf| > 0 && (ReaderStep(s, a, s') || FillerStep(s, a, s'))
  }

  // --------------------------------------------------------------- invariant

  /** Where the next undelivered byte lies: the stored tail lags one step. */
  function Start(s: State): nat {
    if s.reader.RCommitted? then s.reader.newTail else s.tail
  }

  function NextHead(s: State): nat {
    if s.filler.FStore? then s.filler.newHead else s.head
  }

  /** Bytes received but not counted yet. */
  function Uncounted(s: State): nat {
    match s.filler
    case FSecond(total, _) => total
    case FCommit(total, _, _) => total
    case _ => 0
  }

  /** Bytes that arrived are bytes delivered, then the ring, in order. */
  ghost predicate InOrder(s: State)
    requires Start(s) < |s.buf| && s.count + Uncounted(s) <= |s.buf|
  {
    s.received == s.delivered + Contents(s.buf, Start(s), s.count + Uncounted(s))
  }

  ghost predicate ReaderOk(s: State)
    requires Start(s) < |s.buf| && s.count <= |s.buf|
  {
    match s.reader
    case RLoaded(n) => n <= s.count
    case RCopied(data) => |data| <= s.count && data == Contents(s.buf, Start(s), |data|)
    case _ => true
  }

  ghost predicate FillerOk(s: State)
    requires |s.buf| > 0 && s.head < |s.buf|
  {
    match s.filler
    case FIdle => true
    case FLoaded(free) => 0 < free && s.count + free <= |s.buf|
    case FSecond(total, rest) => s.head + total == |s.buf| && s.count + total + rest <= |s.buf|
    case FCommit(total, newHead, _) => s.count + total <= |s.buf| && newHead == Advance(s.head, total, |s.buf|)
    case FStore(_, _) => true
  }

  ghost predicate Inv(s: State) {
    && Start(s) < |s.buf| && s.head < |s.buf| && s.tail < |s.buf|
    && s.count + Uncounted(s) <= |s.buf|
    && NextHead(s) == Advance(Start(s), s.count, |s.buf|)
    && InOrder(s)
    && ReaderOk(s)
    && FillerOk(s)
  }

  lemma InitInv(s: State)
    requires Init(s)
    ensures Inv(s)
  {
  }

  lemma Regroup(d: seq<Byte>, c: seq<Byte>, n: nat)
    requires n <= |c|
    ensures d + c == d + c[..n] + c[n..]
  {
  }

  /** Taking the read bytes off the front of what was received and not delivered. */
  lemma ReadCommitOrder(s: State, data: seq<Byte>)
    requires Inv(s) && s.reader == RCopied(data)
    ensures var len := s.count + Uncounted(s);
            var tail' := Advance(s.tail, |data|, |s.buf|);
            && s.received == s.delivered + data + Contents(s.buf, tail', len - |data|)
            && Advance(tail', s.count - |data|, |s.buf|) == Advance(s.tail, s.count, |s.buf|)
  {
    var len := s.count + Uncounted(s);
    ContentsPrefix(s.buf, s.tail, len, |data|);
    ContentsSuffix(s.buf, s.tail, len, |data|);
    AdvanceTwice(s.tail, |data|, s.count - |data|, |s.buf|);
    Regroup(s.delivered, Contents(s.buf, s.tail, len), |data|);
  }

  lemma ReadCommitInv(s: State, s': State)
    requires Inv(s) && ReaderStep(s, ReadCommit, s')
    ensures Inv(s')
  {
    ReadCommitOrder(s, s.reader.data);
  }

  lemma ReaderStepInv(s: State, a: Action, s': State)
    requires Inv(s) && ReaderStep(s, a, s')
    ensures Inv(s')
  {
    match a
    case ReadCopy => CopyOutIsContents(s.buf, s.tail, s.reader.n);
    case ReadCommit => ReadCommitInv(s, s');
    case _ =>
  }

  /** recv'd bytes go right behind the ring's contents and touch none of them. */
  lemma FillKeeps(s: State, at: nat, data: seq<Byte>, n: nat)
    requires Inv(s) && at + |data| <= |s.buf|
    requires var len := s.count + Uncounted(s);
             n <= len && len + |data| <= |s.buf| && at == Advance(Start(s), len, |s.buf|)
    ensures var len := s.count + Uncounted(s);
            var buf' := Blit(s.buf, at, data);
            && s.received + data == s.delivered + Contents(buf', Start(s), len + |data|)
            && Contents(buf', Start(s), n) == Contents(s.buf, Start(s), n)
  {
    var len := s.count + Uncounted(s);
    var buf' := Blit(s.buf, at, data);
    BlitExtends(s.buf, Start(s), len, at, data);
    assert s.delivered + (Contents(s.buf, Start(s), len) + data)
        == s.delivered + Contents(s.buf, Start(s), len) + data;
    ContentsPrefix(buf', Start(s), len + |data|, n);
    ContentsPrefix(s.buf, Start(s), len, n);
  }

  /** Which bytes of the ring the reader has already copied. */
  function Copied(s: State): nat {
    if s.reader.RCopied? then |s.reader.data| else 0
  }

  lemma FillFirstInv(s: State, o: Outcome, s': State)
    requires Inv(s) && FillerStep(s, FillFirst(o), s')
    ensures Inv(s')
  {
    if o.Bytes? {
      FillKeeps(s, s.head, o.data, Copied(s));
    }
  }

  lemma FillSecondInv(s: State, o: Outcome, s': State)
    requires Inv(s) && FillerStep(s, FillSecond(o), s')
    ensures Inv(s')
  {
    if o.Bytes? {
      FillKeeps(s, 0, o.data, Copied(s));
    }
  }

  lemma FillerStepInv(s: State, a: Action, s': State)
    requires Inv(s) && FillerStep(s, a, s')
    ensures Inv(s')
  {
    match a
    case FillFirst(o) => FillFirstInv(s, o, s');
    case FillSecond(o) => FillSecondInv(s, o, s');
    case _ =>
  }

  // -------------------------------------------------------------------- runs

  ghost predicate IsRun(run: seq<State>) {
    && 0 < |run| && Init(run[0])
    && forall i | 0 <= i < |run| - 1 :: Next(run[i], run[i + 1])
  }

  ghost predicate Next(s: State, s': State) {
    exists a :: Step(s, a, s')
  }

  lemma ActionAt(run: seq<State>, i: nat) returns (a: Action)
    requires IsRun(run) && i + 1 < |run|
    ensures Step(run[i], a, run[i + 1])
  {
    assert Next(run[i], run[i + 1]);
    a :| Step(run[i], a, run[i + 1]);
  }

  lemma StepInv(s: State, a: Action, s': State)
    requires Inv(s) && Step(s, a, s')
    ensures Inv(s')
  {
    if ReaderStep(s, a, s') {
      ReaderStepInv(s, a, s');
    } else {
      FillerStepInv(s, a, s');
    }
  }

  lemma {:induction false} RunInv(run: seq<State>, i: nat)
    requires IsRun(run) && i < |run|
    ensures Inv(run[i])
  {
    if i == 0 {
      InitInv(run[0]);
    } else {
      RunInv(run, i - 1);
      var a := ActionAt(run, i - 1);
      StepInv(run[i - 1], a, run[i]);
    }
  }

  /** Read-side order: at every moment of every run the bytes received are the
      bytes delivered followed by what lies in the ring, and count is within the
      buffer. */
  lemma ReadOrder(run: seq<State>, i: nat)
    requires IsRun(run) && i < |run|
    ensures Start(run[i]) < |run[i].buf| && run[i].count + Uncounted(run[i]) <= |run[i].buf|
    ensures InOrder(run[i])
    ensures run[i].delivered <= run[i].received
  {
    RunInv(run, i);
  }

  /** No step of the epoll thread changes a byte that is counted and not yet
      delivered. */
  lemma NeverOverwritten(s: State, a: Action, s': State)
    requires Inv(s) && FillerStep(s, a, s')
    ensures Inv(s') && Start(s') == Start(s) && s'.count >= s.count
    ensures Contents(s'.buf, Start(s), s.count) == Contents(s.buf, Start(s), s.count)
  {
    FillerStepInv(s, a, s');
    match a
    case FillFirst(Bytes(data)) => FillKeeps(s, s.head, data, s.count);
    case FillSecond(Bytes(data)) => FillKeeps(s, 0, data, s.count);
    case _ =>
  }

  predicate ReadUnderway(s: State) {
    s.reader != RIdle
  }

  /** The stages of a read of `size` bytes that began with `before` delivered. */
  ghost predicate Reading(s: State, before: seq<Byte>, size: nat) {
    match s.reader
    case RIdle => false
    case RLoaded(n) => n == size && s.delivered == before
    case RCopied(data) => |data| == size && s.delivered == before
    case RCommitted(_) => |s.delivered| == |before| + size && before <= s.delivered
  }

  lemma ReadingKept(s: State, a: Action, s': State, before: seq<Byte>, size: nat)
    requires Inv(s) && Step(s, a, s') && Reading(s, before, size) && ReadUnderway(s')
    ensures Reading(s', before, size)
  {
    if a.ReadCopy? {
      CopyOutIsContents(s.buf, s.tail, s.reader.n);
    }
  }

  lemma ReadBegins(s: State, s': State, size: nat)
    requires Step(s, ReadLoad(size), s')
    ensures Reading(s', s.delivered, if size <= s.count then size else s.count)
  {
  }

  lemma ReadAdvances(run: seq<State>, i: nat, before: seq<Byte>, size: nat)
    requires IsRun(run) && i + 1 < |run| && Reading(run[i], before, size) && ReadUnderway(run[i + 1])
    ensures Reading(run[i + 1], before, size)
  {
    RunInv(run, i);
    var a := ActionAt(run, i);
    ReadingKept(run[i], a, run[i + 1], before, size);
  }

  ghost predicate ReadsUntil(run: seq<State>, i: nat, j: nat)
    requires j < |run|
  {
    forall k | i <= k <= j :: ReadUnderway(run[k])
  }

  lemma {:induction false} ReadProceeds(run: seq<State>, i: nat, j: nat, before: seq<Byte>, size: nat)
    requires IsRun(run) && i <= j < |run|
    requires Reading(run[i], before, size) && ReadsUntil(run, i, j)
    ensures Reading(run[j], before, size)
    decreases j - i
  {
    if i < j {
      assert ReadUnderway(run[i + 1]);
      ReadAdvances(run, i, before, size);
      ReadProceeds(run, i + 1, j, before, size);
    }
  }

  /** Whatever the epoll thread does in between, a read of `size` bytes delivers exactly
      `size` bytes if that many were counted when it began, and else all that were. */
  lemma ReadDelivers(run: seq<State>, i: nat, j: nat, size: nat)
    requires IsRun(run) && i < j < |run|
    requires Step(run[i], ReadLoad(size), run[i + 1])
    requires ReadsUntil(run, i + 1, j)
    ensures Reading(run[j], run[i].delivered, if size <= run[i].count then size else run[i].count)
  {
    ReadBegins(run[i], run[i + 1], size);
    ReadProceeds(run, i + 1, j, run[i].delivered, if size <= run[i].count then size else run[i].count);
  }

  // ------------------------------------------------------- one call of the filler

  /** The bytes the next recv is offered. */
  function Offered(s: State): int {
    match s.filler
    case FLoaded(free) => if free <= |s.buf| - s.head then free else |s.buf| - s.head
    case FSecond(_, rest) => rest
    case _ => 0
  }

  /** What the answers of recv make of a call that found `free` bytes free, `stretch` of
      them up to the end of the buffer. */
  predicate Amounts(answers: seq<Outcome>, stretch: int, free: nat, total: nat, dead: bool) {
    && answers != [] && answers[0].Bytes?
    && if |answers[0].data| < stretch || stretch == free
       then |answers| == 1 && total == |answers[0].data| && !dead
       else |answers| == 2 && |answers[0].data| == stretch
            && total == stretch + (if answers[1].Bytes? then |answers[1].data| else 0)
            && (dead <==> answers[1].Closed? || answers[1].Failed?)
  }

  /** The stages of a call that began with the head at `head` and `free` bytes free. */
  ghost predicate Filling(s: State, head: nat, free: nat, answers: seq<Outcome>) {
    var stretch := if free <= |s.buf| - head then free else |s.buf| - head;
    && s.head == head
    && match s.filler
       case FIdle => false
       case FLoaded(f) => f == free && answers == []
       case FSecond(total, rest) =>
         && |answers| == 1 && answers[0].Bytes? && |answers[0].data| == stretch < free
         && total == stretch && rest == free - stretch
       case FCommit(total, _, dead) => Amounts(answers, stretch, free, total, dead)
       case FStore(_, dead) =>
         answers != [] && (dead <==> |answers| == 2 && (answers[1].Closed? || answers[1].Failed?))
  }

  /** The answers recv gave among some actions. */
  function Answers(actions: seq<Action>): seq<Outcome> {
    if actions == [] then []
    else Answers(actions[..|actions| - 1]) + Answer(actions[|actions| - 1])
  }

  function Answer(a: Action): seq<Outcome> {
    match a
    case FillFirst(o) => [o]
    case FillSecond(o) => [o]
    case _ => []
  }

  lemma FillingStep(s: State, a: Action, s': State, head: nat, free: nat, answers: seq<Outcome>)
    requires Step(s, a, s') && Filling(s, head, free, answers) && s'.filler != FIdle
    ensures Filling(s', head, free, answers + Answer(a))
  {
    if ReaderStep(s, a, s') {
      assert answers + [] == answers;
    } else {
      FillingOn(s, a, s', head, free, answers);
    }
  }

  lemma FillingOn(s: State, a: Action, s': State, head: nat, free: nat, answers: seq<Outcome>)
    requires |s.buf| > 0 && FillerStep(s, a, s') && Filling(s, head, free, answers) && s'.filler != FIdle
    ensures Filling(s', head, free, answers + Answer(a))
  {
    assert answers + [] == answers;
    if a.FillFirst? {
      assert answers + [a.o] == [a.o];
    } else if a.FillSecond? {
      assert answers + [a.o] == [answers[0], a.o];
    }
  }

  /** From its load at step i on the filler is in the middle of one call up to j. */
  ghost predicate Fills(run: seq<State>, actions: seq<Action>, i: nat, j: nat) {
    && i < j < |run| == |actions| + 1
    && run[i].filler == FIdle && actions[i] == FillLoad && run[i].count <= |run[i].buf|
    && (forall k | i <= k < j :: Step(run[k], actions[k], run[k + 1]))
    && (forall k | i < k <= j :: run[k].filler != FIdle)
  }

  /** A call that finds no room ends at once. */
  lemma FillBegins(s: State, s': State)
    requires Step(s, FillLoad, s') && s.count <= |s.buf|
    ensures s'.filler == FIdle <==> s.count == |s.buf|
    ensures s'.filler != FIdle ==> Filling(s', s.head, |s.buf| - s.count, [])
  {
  }

  lemma AnswersNext(actions: seq<Action>, i: nat, j: nat)
    requires i <= j < |actions|
    ensures Answers(actions[i..j + 1]) == Answers(actions[i..j]) + Answer(actions[j])
  {
    assert actions[i..j + 1][..j - i] == actions[i..j];
  }

  lemma FillsAt(run: seq<State>, actions: seq<Action>, i: nat, j: nat, k: nat)
    requires Fills(run, actions, i, j) && i <= k < j
    ensures Step(run[k], actions[k], run[k + 1]) && run[k + 1].filler != FIdle
    ensures i < k ==> Fills(run, actions, i, k)
  {
  }

  /** A step takes the call from stage to stage. */
  ghost predicate Carries(s: State, a: Action, s': State, head: nat, free: nat) {
    forall answers :: Filling(s, head, free, answers) ==> Filling(s', head, free, answers + Answer(a))
  }

  lemma FillCarries(s: State, a: Action, s': State, head: nat, free: nat)
    requires Step(s, a, s') && s'.filler != FIdle
    ensures Carries(s, a, s', head, free)
  {
    forall answers | Filling(s, head, free, answers)
      ensures Filling(s', head, free, answers + Answer(a))
    {
      FillingStep(s, a, s', head, free, answers);
    }
  }

  /** Step k does. */
  ghost predicate CarriesAt(run: seq<State>, actions: seq<Action>, k: nat, head: nat, free: nat) {
    k + 1 < |run| == |actions| + 1 && Carries(run[k], actions[k], run[k + 1], head, free)
  }

  lemma CarriedAt(run: seq<State>, actions: seq<Action>, k: nat, head: nat, free: nat, answers: seq<Outcome>)
    requires CarriesAt(run, actions, k, head, free) && Filling(run[k], head, free, answers)
    ensures Filling(run[k + 1], head, free, answers + Answer(actions[k]))
  {
  }

  lemma {:induction false} FillProceeds(run: seq<State>, actions: seq<Action>, i: nat, j: nat, head: nat, free: nat)
    requires i < j < |run| == |actions| + 1
    requires Filling(run[i + 1], head, free, []) && Answer(actions[i]) == []
    requires forall k | i < k < j :: CarriesAt(run, actions, k, head, free)
    ensures Filling(run[j], head, free, Answers(actions[i..j]))
  {
    if j == i + 1 {
      AnswersNext(actions, i, i);
    } else {
      FillProceeds(run, actions, i, j - 1, head, free);
      AnswersNext(actions, i, j - 1);
      CarriedAt(run, actions, j - 1, head, free, Answers(actions[i..j - 1]));
    }
  }

  lemma FillStarts(run: seq<State>, actions: seq<Action>, i: nat, j: nat)
    requires Fills(run, actions, i, j)
    ensures Filling(run[i + 1], run[i].head, |run[i].buf| - run[i].count, []) && Answer(actions[i]) == []
  {
    FillsAt(run, actions, i, j, i);
    FillBegins(run[i], run[i + 1]);
  }

  lemma FillCarriesOn(run: seq<State>, actions: seq<Action>, i: nat, j: nat, k: nat, head: nat, n: nat)
    requires Fills(run, actions, i, j) && i < k < j
    ensures CarriesAt(run, actions, k, head, n)
  {
    FillsAt(run, actions, i, j, k);
    FillCarries(run[k], actions[k], run[k + 1], head, n);
  }

  /** One call of read_return, whatever the job thread does meanwhile: recv is offered
      all the room there was, first up to the end of the buffer and then, exactly when
      that much came and there is more, from its beginning; what is counted is what came;
      and the socket is found dead exactly when the second recv said so. */
  lemma FillTakes(run: seq<State>, actions: seq<Action>, i: nat, j: nat)
    requires Fills(run, actions, i, j)
    ensures Filling(run[j], run[i].head, |run[i].buf| - run[i].count, Answers(actions[i..j]))
  {
    var head, n := run[i].head, |run[i].buf| - run[i].count;
    FillStarts(run, actions, i, j);
    forall k | i < k < j
      ensures CarriesAt(run, actions, k, head, n)
    {
      FillCarriesOn(run, actions, i, j, k, head, n);
    }
    FillProceeds(run, actions, i, j, head, n);
  }

  // ------------------------------------------------------------ nobody is stuck

  lemma ReaderGoesOn(s: State) returns (a: Action, s': State)
    requires Inv(s) && s.reader != RIdle
    ensures ReaderStep(s, a, s')
  {
    a := match s.reader
      case RLoaded(_) => ReadCopy
      case RCopied(_) => ReadCommit
      case RCommitted(_) => ReadStore;
    s' := ReaderNext(s, a);
  }

  /** The filler takes any answer that fits the offer. */
  lemma FillerGoesOn(s: State, o: Outcome) returns (a: Action, s': State)
    requires Inv(s) && s.filler != FIdle && (o.Bytes? ==> 0 < |o.data| <= Offered(s))
    ensures FillerStep(s, a, s') && (Offered(s) > 0 ==> Answer(a) == [o])
  {
    a := match s.filler
      case FLoaded(_) => FillFirst(o)
      case FSecond(_, _) => FillSecond(o)
      case FCommit(_, _, _) => FillCommit
      case FStore(_, _) => FillStore;
    s' := FillerNext(s, a);
  }
}
