/** Workers, setters and shutdown stepping on one ready cache: worker_routine as a
    program-counter machine, schedi_job_setready and schedi_worker_deinit under
    readyjob_mutex, and pthread condition waits.

    One step is one push, one pop, one "pop and cache again", one counter
    decision or one mutex or condition operation; a pick that is refused after
    its pop is one step too.  Condition variables may wake
    spuriously.  A worker whose job calls setready is covered by some setter
    doing so while the worker is `Working`. */
module WorkerProtocol {
  import opened Options
  import opened ReadyCache

  datatype Pc =
    | LoopTop                              // about to test ctx->shutdown
    | PickFree                             // pickready without the mutex
    | LockToPick
    | PickLocked                           // pickready holding the mutex
    | CheckShutdown                        // found nothing, still holding it
    | EnterWait                            // about to call pthread_cond_wait
    | Waiting                              // asleep on the condition
    | Woken                                // must take the mutex again
    | Returned                             // wait returned, holding the mutex
    | GotLocked                            // found a job under the mutex
    | Working
    | AtTick                               // about to decide on the counter
    | TickReset                            // reset it, about to read the peak
    | Sweep(limit: nat, moved: nat)        // slots limit - 1 .. 0 still to do
    | SweepWake(limit: nat, moved: nat)    // cached one again, about to signal
    | Exited

  datatype SetterPc = SIdle | SLocked | SCached | SUnlock

  datatype DeinitPc = NotCalled | Marking(next: nat) | Unlocking | Joining

  datatype Holder = Free | ByWorker(w: nat) | BySetter(k: nat) | ByDeinit

  /** `pops` counts the pops since the counter was last reset and `sweeper` names
      the worker that reset it; both only record history. */
  datatype State = State(
    cache: Cache,
    pcs: seq<Pc>,
    setters: seq<SetterPc>,
    deinit: DeinitPc,
    shutdown: seq<bool>,
    mutex: Holder,
    pops: nat,
    sweeper: Option<nat>)

  /** Why schedi_job_mark_access refuses a popped job: it is UNSTABLE, its access
      count is full, or it is marked for destruction. */
  datatype Refusal = Torn | Full | Doomed

  datatype Action =
    | Worker(w: nat)
    | Refused(w: nat, why: Refusal)
    | WorkerWakes(w: nat, target: Option<nat>)
    | Spurious(w: nat)
    | Setter(k: nat)
    | SetterCaches(k: nat, job: Job)
    | SetterSignals(k: nat, target: Option<nat>)
    | Deinit

  // ------------------------------------------------------------------- steps

  function Goto(s: State, w: nat, pc: Pc): State
    requires w < |s.pcs|
  {
    s.(pcs := s.pcs[w := pc])
  }

  /** pthread_cond_signal wakes one waiter, if there is any. */
  ghost predicate Signals(pcs: seq<Pc>, target: Option<nat>, pcs': seq<Pc>) {
    match target
    case Some(v) => v < |pcs| && pcs[v] == Waiting && pcs' == pcs[v := Woken]
    case None => Waiting !in pcs && pcs' == pcs
  }

  function Broadcast(pcs: seq<Pc>): (r: seq<Pc>)
    ensures |r| == |pcs|
    ensures forall i | 0 <= i < |pcs| :: r[i] == if pcs[i] == Waiting then Woken else pcs[i]
  {
    seq(|pcs|, i requires 0 <= i < |pcs| => if pcs[i] == Waiting then Woken else pcs[i])
  }

  function PopBy(s: State, window: nat, w: nat, found: Pc, notFound: Pc): State
    requires window <= |s.cache.slots| && w < |s.pcs|
  {
    if Popped(s.cache, window).Some?
    then Goto(s, w, found).(cache := Pop(s.cache, window), pops := s.pops + 1)
    else Goto(s, w, notFound)
  }

  /** schedi_job_pickready when schedi_job_mark_access refuses the popped job.  An
      unstable job is dropped and another one is popped; a job with a full access
      count is cached again and one marked for destruction is dropped, and both
      times NULL is returned, although other jobs may be cached. */
  function RefusedPick(window: nat, s: State, w: nat, why: Refusal): State
    requires window <= |s.cache.slots| && w < |s.pcs| && Popped(s.cache, window).Some?
  {
    var c := Pop(s.cache, window);
    var none := if s.pcs[w].PickFree? then LockToPick else CheckShutdown;
    match why
    case Torn => s.(cache := c, pops := s.pops + 1)
    case Full => Goto(s, w, none).(cache := Push(c, Popped(s.cache, window).value))
    case Doomed => Goto(s, w, none).(cache := c, pops := s.pops + 1)
  }

  /** Can worker w go on by itself?  A sweeping worker that is about to signal is seen to
      by `WorkerWakes`. */
  predicate WorkerCan(s: State, w: nat)
    requires w < |s.pcs|
  {
    match s.pcs[w]
    case LockToPick => s.mutex == Free
    case Woken => s.mutex == Free
    case Sweep(limit, _) => limit <= |s.cache.slots|
    case SweepWake(_, _) => false
    case Waiting => false
    case Exited => false
    case _ => true
  }

  function WorkerNext(window: nat, s: State, w: nat): State
    requires window <= |s.cache.slots| && w < |s.pcs| == |s.shutdown| && WorkerCan(s, w)
  {
    match s.pcs[w]
    case LoopTop => Goto(s, w, if s.shutdown[w] then Exited else PickFree)
    case PickFree => PopBy(s, window, w, Working, LockToPick)
    case LockToPick => Goto(s, w, PickLocked).(mutex := ByWorker(w))
    case PickLocked => PopBy(s, window, w, GotLocked, CheckShutdown)
    case CheckShutdown => if s.shutdown[w] then Goto(s, w, Exited).(mutex := Free) else Goto(s, w, EnterWait)
    case EnterWait => Goto(s, w, Waiting).(mutex := Free)
    case Woken => Goto(s, w, Returned).(mutex := ByWorker(w))
    case Returned => Goto(s, w, AtTick).(mutex := Free)
    case GotLocked => Goto(s, w, Working).(mutex := Free)
    case Working => Goto(s, w, AtTick)
    case AtTick =>
      if s.cache.counter < window then Goto(s, w, LoopTop)
      else Goto(s, w, TickReset).(cache := s.cache.(counter := 0), pops := 0, sweeper := Some(w))
    case TickReset => Goto(s, w, Sweep(s.cache.peak, 0))
    case Sweep(limit, moved) =>
      if limit == 0 then Goto(s, w, LoopTop)
      else if s.cache.slots[limit - 1].None? then Goto(s, w, Sweep(limit - 1, moved))
      else Goto(s, w, SweepWake(limit - 1, moved + 1)).(cache := Recache(s.cache, limit - 1))
  }

  ghost predicate WorkerStep(window: nat, s: State, w: nat, s': State)
    requires window <= |s.cache.slots|
  {
    w < |s.pcs| == |s.shutdown| && WorkerCan(s, w) && s' == WorkerNext(window, s, w)
  }

  ghost predicate Step(window: nat, s: State, a: Action, s': State)
    requires window <= |s.cache.slots|
  {
    match a
    case Worker(w) => WorkerStep(window, s, w, s')
    case Refused(w, why) =>
      && w < |s.pcs| && Picking(s.pcs[w]) && Popped(s.cache, window).Some?
      && s' == RefusedPick(window, s, w, why)
    case WorkerWakes(w, target) =>
      && w < |s.pcs| && s.pcs[w].SweepWake? && s.mutex == Free
      && var pc := s.pcs[w];
         exists pcs' :: Signals(s.pcs, target, pcs') &&
           s' == s.(pcs := pcs'[w := if pc.limit <= pc.moved then LoopTop else Sweep(pc.limit, pc.moved)])
    case Spurious(w) => w < |s.pcs| && s.pcs[w] == Waiting && s' == Goto(s, w, Woken)
    case Setter(k) =>
      && k < |s.setters|
      && match s.setters[k] {
        case SIdle => s.mutex == Free && s' == s.(setters := s.setters[k := SLocked], mutex := BySetter(k))
        case SLocked => s' == s.(setters := s.setters[k := SUnlock])  // mark_ready was refused
        case SUnlock => s' == s.(setters := s.setters[k := SIdle], mutex := Free)
        case SCached => false
      }
    case SetterCaches(k, job) =>
      && k < |s.setters| && s.setters[k] == SLocked
      && s' == s.(cache := Push(s.cache, job),
                  setters := s.setters[k := if HasRoom(s.cache) then SCached else SUnlock])
    case SetterSignals(k, target) =>
      && k < |s.setters| && s.setters[k] == SCached
      && exists pcs' :: Signals(s.pcs, target, pcs') &&
           s' == s.(pcs := pcs', setters := s.setters[k := SUnlock])
    case Deinit =>
      match s.deinit {
        case NotCalled => s.mutex == Free && s' == s.(deinit := Marking(0), mutex := ByDeinit)
        case Marking(i) =>
          if i < |s.shutdown| then s' == s.(shutdown := s.shutdown[i := true], deinit := Marking(i + 1))
          else s' == s.(pcs := Broadcast(s.pcs), deinit := Unlocking)
        case Unlocking => s' == s.(deinit := Joining, mutex := Free)
        case Joining => false
      }
  }

  ghost predicate Init(window: nat, s: State) {
    && 0 < window <= |s.cache.slots|
    && IsEmpty(s.cache.slots) && s.cache.count == 0 && s.cache.peak == 0 && s.cache.counter == 0 && !s.cache.full
    && 0 < |s.pcs| == |s.shutdown|
    && (forall w | 0 <= w < |s.pcs| :: s.pcs[w] == LoopTop && !s.shutdown[w])
    && (forall k | 0 <= k < |s.setters| :: s.setters[k] == SIdle)
    && s.deinit == NotCalled && s.mutex == Free && s.pops == 0 && s.sweeper == None
  }

  // -------------------------------------------------------------- invariants

  predicate Holds(pc: Pc) {
    pc.PickLocked? || pc.CheckShutdown? || pc.EnterWait? || pc.Returned? || pc.GotLocked?
  }

  predicate SetterHolds(pc: SetterPc) {
    pc != SIdle
  }

  predicate DeinitHolds(pc: DeinitPc) {
    pc.Marking? || pc.Unlocking?
  }

  /** A worker that may have popped and has not decided on the counter since. */
  predicate Owes(pc: Pc) {
    pc.GotLocked? || pc.Working? || pc.AtTick?
  }

  predicate AboutToSleep(pc: Pc) {
    pc.CheckShutdown? || pc.EnterWait?
  }

  predicate Picking(pc: Pc) {
    pc.PickFree? || pc.PickLocked?
  }

  /** The shutdown broadcast has happened. */
  predicate Closing(pc: DeinitPc) {
    pc.Unlocking? || pc.Joining?
  }

  predicate Awake(pc: Pc) {
    pc != Waiting && pc != Exited
  }

  predicate LimitOk(pc: Pc, n: nat) {
    match pc
    case Sweep(limit, moved) => limit <= n
    case SweepWake(limit, moved) => limit <= n
    case _ => true
  }

  ghost predicate Shape(window: nat, s: State) {
    && 0 < window <= |s.cache.slots|
    && 0 < |s.pcs| == |s.shutdown|
    && Consistent(s.cache)
    && forall w | 0 <= w < |s.pcs| :: LimitOk(s.pcs[w], |s.cache.slots|)
  }

  /** readyjob_mutex has at most one holder, and the holder knows it. */
  ghost predicate Exclusive(s: State) {
    && (forall w | 0 <= w < |s.pcs| :: Holds(s.pcs[w]) <==> s.mutex == ByWorker(w))
    && (forall k | 0 <= k < |s.setters| :: SetterHolds(s.setters[k]) <==> s.mutex == BySetter(k))
    && (DeinitHolds(s.deinit) <==> s.mutex == ByDeinit)
  }


  /** What a sweeping worker at `pc` still guarantees about the slots. */
  ghost predicate Covered(pc: Pc, slots: seq<Slot>, k: nat) {
    match pc
    case TickReset => true
    case Sweep(limit, moved) => Swept(slots, limit, moved, k)
    case SweepWake(limit, moved) => Swept(slots, limit, moved, k)
    case _ => false
  }

  /** Gaps are within the pops since the last reset, unless the worker that reset
      the counter is still sweeping. */
  ghost predicate GapsAccounted(s: State) {
    || GapsWithin(s.cache.slots, s.pops)
    || (s.sweeper.Some? && s.sweeper.value < |s.pcs| &&
        Covered(s.pcs[s.sweeper.value], s.cache.slots, s.pops))
  }

  ghost predicate PopsOwed(window: nat, s: State) {
    && s.pops <= s.cache.counter
    && (s.pops < window || exists w :: 0 <= w < |s.pcs| && Owes(s.pcs[w]))
  }

  ghost predicate OtherAwake(s: State, w: nat) {
    exists v :: 0 <= v < |s.pcs| && v != w && Awake(s.pcs[v])
  }

  /** A worker about to sleep leaves nothing behind, or somebody awake. */
  ghost predicate SafeToSleep(s: State) {
    forall w | 0 <= w < |s.pcs| && AboutToSleep(s.pcs[w]) ::
      IsEmpty(s.cache.slots) || OtherAwake(s, w)
  }

  ghost predicate AllAsleep(s: State) {
    forall w | 0 <= w < |s.pcs| :: s.pcs[w] == Waiting
  }

  /** Nobody is left to pick a cached job: all workers sleep, and no setter is
      between caching its job and signalling. */
  ghost predicate Stranded(s: State) {
    && AllAsleep(s)
    && !IsEmpty(s.cache.slots)
    && SCached !in s.setters
  }

  ghost predicate ShutdownSeen(s: State) {
    && |s.shutdown| == |s.pcs|
    && (s.deinit == NotCalled ==>
          forall w | 0 <= w < |s.pcs| :: !s.shutdown[w] && s.pcs[w] != Exited)
    && (s.deinit.Marking? ==> forall w | 0 <= w < |s.pcs| && w < s.deinit.next :: s.shutdown[w])
    && (Closing(s.deinit) ==>
          forall w | 0 <= w < |s.pcs| :: s.shutdown[w] && s.pcs[w] != EnterWait && s.pcs[w] != Waiting)
  }

  ghost predicate Inv(window: nat, s: State) {
    && Shape(window, s)
    && Exclusive(s)
    && GapsAccounted(s)
    && PopsOwed(window, s)
    && ShutdownSeen(s)
    && (s.deinit == NotCalled ==> SafeToSleep(s) && !Stranded(s))
  }

  // ------------------------------------------------------------------- proof

  lemma InitInv(window: nat, s: State)
    requires Init(window, s)
    ensures Inv(window, s)
  {
    OccupiedZero(s.cache.slots);
  }

  /** How the mutex changes with one party's program counter. */
  predicate MutexMoves(held: bool, holds: bool, who: Holder, m: Holder, m': Holder) {
    if held == holds then m' == m else if holds then m == Free && m' == who else m' == Free
  }

  /** What any worker step changes besides the cache. */
  ghost predicate WorkerLocal(s: State, w: nat, s': State) {
    && w < |s.pcs| == |s.shutdown| && |s'.pcs| == |s.pcs|
    && s'.pcs == s.pcs[w := s'.pcs[w]]
    && s'.setters == s.setters && s'.deinit == s.deinit && s'.shutdown == s.shutdown
    && MutexMoves(Holds(s.pcs[w]), Holds(s'.pcs[w]), ByWorker(w), s.mutex, s'.mutex)
    && s.pcs[w] != Waiting && s.pcs[w] != Exited
    && (s'.pcs[w] == Waiting ==> s.pcs[w] == EnterWait)
    && (s'.pcs[w] == EnterWait ==> s.pcs[w] == CheckShutdown && !s.shutdown[w])
    && (s'.pcs[w] == Exited ==> s.shutdown[w])
  }

  lemma WorkerStepLocal(window: nat, s: State, w: nat, s': State)
    requires window <= |s.cache.slots| && WorkerStep(window, s, w, s')
    ensures WorkerLocal(s, w, s')
  {
  }

  lemma RefusedStepLocal(window: nat, s: State, w: nat, why: Refusal, s': State)
    requires window <= |s.cache.slots| && |s.pcs| == |s.shutdown| && Step(window, s, Refused(w, why), s')
    ensures WorkerLocal(s, w, s')
  {
  }

  lemma ShapeKept(window: nat, s: State, a: Action, s': State)
    requires Shape(window, s) && Step(window, s, a, s')
    ensures Shape(window, s')
  {
    match a
    case Worker(w) => ShapeWorker(window, s, w, s');
    case Refused(w, why) => ShapeRefused(window, s, w, why, s');
    case SetterCaches(_, job) => PushConsistent(s.cache, job);
    case _ =>
  }

  lemma WorkerCacheConsistent(window: nat, s: State, w: nat, s': State)
    requires Shape(window, s) && WorkerStep(window, s, w, s')
    ensures Consistent(s'.cache) && |s'.cache.slots| == |s.cache.slots|
  {
    match s.pcs[w]
    case PickFree => PopConsistent(s.cache, window);
    case PickLocked => PopConsistent(s.cache, window);
    case Sweep(limit, moved) =>
      if limit > 0 && s.cache.slots[limit - 1].Some? {
        RecacheConsistent(s.cache, limit - 1);
      }
    case _ =>
  }

  lemma ShapeWorker(window: nat, s: State, w: nat, s': State)
    requires Shape(window, s) && WorkerStep(window, s, w, s')
    ensures Shape(window, s')
  {
    WorkerCacheConsistent(window, s, w, s');
    WorkerStepLocal(window, s, w, s');
    assert LimitOk(s'.pcs[w], |s.cache.slots|);
  }

  lemma ShapeRefused(window: nat, s: State, w: nat, why: Refusal, s': State)
    requires Shape(window, s) && Step(window, s, Refused(w, why), s')
    ensures Shape(window, s')
  {
    PopConsistent(s.cache, window);
    PushConsistent(Pop(s.cache, window), Popped(s.cache, window).value);
  }

  /** Worker and refused-pick steps move one worker only. */
  predicate ByWorkerAlone(a: Action) {
    a.Worker? || a.Refused?
  }

  lemma AloneLocal(window: nat, s: State, a: Action, s': State)
    requires window <= |s.cache.slots| && |s.pcs| == |s.shutdown| && ByWorkerAlone(a) && Step(window, s, a, s')
    ensures WorkerLocal(s, a.w, s')
  {
    match a
    case Worker(w) => WorkerStepLocal(window, s, w, s');
    case Refused(w, why) => RefusedStepLocal(window, s, w, why, s');
  }

  lemma ExclusiveKept(window: nat, s: State, a: Action, s': State)
    requires Exclusive(s) && window <= |s.cache.slots| && |s.pcs| == |s.shutdown| && Step(window, s, a, s')
    ensures Exclusive(s')
  {
    if ByWorkerAlone(a) {
      AloneLocal(window, s, a, s');
      ExclusiveWorker(s, a.w, s');
    } else {
      ExclusiveOther(window, s, a, s');
    }
  }

  lemma ExclusiveWorker(s: State, w: nat, s': State)
    requires Exclusive(s) && WorkerLocal(s, w, s')
    ensures Exclusive(s')
  {
  }

  lemma ExclusiveOther(window: nat, s: State, a: Action, s': State)
    requires Exclusive(s) && window <= |s.cache.slots| && !ByWorkerAlone(a) && Step(window, s, a, s')
    ensures Exclusive(s')
  {
  }

  lemma ShutdownSeenKept(window: nat, s: State, a: Action, s': State)
    requires ShutdownSeen(s) && Exclusive(s) && window <= |s.cache.slots| && Step(window, s, a, s')
    ensures ShutdownSeen(s')
  {
    if ByWorkerAlone(a) {
      AloneLocal(window, s, a, s');
      ShutdownSeenWorker(s, a.w, s');
    } else {
      ShutdownSeenOther(window, s, a, s');
    }
  }

  lemma ShutdownSeenWorker(s: State, w: nat, s': State)
    requires ShutdownSeen(s) && WorkerLocal(s, w, s')
    ensures ShutdownSeen(s')
  {
  }

  lemma ShutdownSeenDeinit(window: nat, s: State, s': State)
    requires ShutdownSeen(s) && Exclusive(s) && window <= |s.cache.slots| && Step(window, s, Deinit, s')
    ensures ShutdownSeen(s')
  {
    assert s.deinit.Marking? ==> forall w | 0 <= w < |s.pcs| :: !Holds(s.pcs[w]);
  }

  lemma ShutdownSeenOther(window: nat, s: State, a: Action, s': State)
    requires ShutdownSeen(s) && Exclusive(s) && window <= |s.cache.slots| && !ByWorkerAlone(a) && Step(window, s, a, s')
    ensures ShutdownSeen(s')
  {
    if a.Deinit? {
      ShutdownSeenDeinit(window, s, s');
    }
  }

  // Gaps: what another party's cache operation leaves of a sweep in progress.

  lemma CoveredTake(pc: Pc, slots: seq<Slot>, k: nat, i: nat)
    requires Covered(pc, slots, k) && i < |slots| && slots[i].Some?
    ensures Covered(pc, slots[i := None], k + 1)
  {
    match pc
    case Sweep(limit, moved) => SweptTake(slots, limit, moved, k, i);
    case SweepWake(limit, moved) => SweptTake(slots, limit, moved, k, i);
    case _ =>
  }

  lemma CoveredPush(pc: Pc, slots: seq<Slot>, k: nat, job: Job)
    requires Covered(pc, slots, k) && FirstEmpty(slots) < |slots|
    ensures Covered(pc, slots[FirstEmpty(slots) := Some(job)], k)
  {
    match pc
    case Sweep(limit, moved) => SweptPush(slots, limit, moved, k, job);
    case SweepWake(limit, moved) => SweptPush(slots, limit, moved, k, job);
    case _ =>
  }

  lemma CoveredRecache(pc: Pc, slots: seq<Slot>, k: nat, i: nat)
    requires Covered(pc, slots, k) && i < |slots| && slots[i].Some?
    ensures Covered(pc, slots[i := None][RecacheTarget(slots, i) := slots[i]], k)
  {
    match pc
    case Sweep(limit, moved) => SweptRecache(slots, limit, moved, k, i);
    case SweepWake(limit, moved) => SweptRecache(slots, limit, moved, k, i);
    case _ =>
  }

  lemma PopKeepsGaps(s: State, window: nat)
    requires window <= |s.cache.slots| && GapsAccounted(s) && Popped(s.cache, window).Some?
    ensures var slots := Pop(s.cache, window).slots;
      || GapsWithin(slots, s.pops + 1)
      || (s.sweeper.Some? && s.sweeper.value < |s.pcs| && Covered(s.pcs[s.sweeper.value], slots, s.pops + 1))
  {
    var i := PopIndex(s.cache, window).value;
    if GapsWithin(s.cache.slots, s.pops) {
      TakeGaps(s.cache.slots, i, s.pops);
    } else {
      CoveredTake(s.pcs[s.sweeper.value], s.cache.slots, s.pops, i);
    }
  }

  lemma GapsAccountedPop(window: nat, s: State, w: nat, s': State)
    requires Shape(window, s) && GapsAccounted(s) && WorkerStep(window, s, w, s')
    requires Picking(s.pcs[w])
    ensures GapsAccounted(s')
  {
    if Popped(s.cache, window).Some? {
      PopKeepsGaps(s, window);
    }
  }

  /** A put-back is a pop and a push of the same job. */
  lemma PutBackSlots(c: Cache, window: nat)
    requires window <= |c.slots| && Popped(c, window).Some?
    ensures var i := PopIndex(c, window).value;
            Push(Pop(c, window), Popped(c, window).value).slots == c.slots[i := None][RecacheTarget(c.slots, i) := c.slots[i]]
  {
  }

  lemma GapsAccountedRefused(window: nat, s: State, w: nat, why: Refusal, s': State)
    requires Shape(window, s) && GapsAccounted(s) && Step(window, s, Refused(w, why), s')
    ensures GapsAccounted(s')
  {
    if why == Full {
      var i := PopIndex(s.cache, window).value;
      PutBackSlots(s.cache, window);
      if GapsWithin(s.cache.slots, s.pops) {
        RecacheGaps(s.cache.slots, i, s.pops);
      } else {
        CoveredRecache(s.pcs[s.sweeper.value], s.cache.slots, s.pops, i);
      }
    } else {
      PopKeepsGaps(s, window);
    }
  }

  lemma GapsAccountedMove(window: nat, s: State, w: nat, s': State)
    requires Shape(window, s) && GapsAccounted(s) && WorkerStep(window, s, w, s')
    requires s.pcs[w].Sweep? && s.pcs[w].limit > 0 && s.cache.slots[s.pcs[w].limit - 1].Some?
    ensures GapsAccounted(s')
  {
    var slots := s.cache.slots;
    var Sweep(limit, moved) := s.pcs[w];
    RecacheSlots(s.cache, limit - 1);
    if GapsWithin(slots, s.pops) {
      RecacheGaps(slots, limit - 1, s.pops);
    } else if s.sweeper == Some(w) {
      SweptMove(slots, limit, moved, s.pops);
    } else {
      CoveredRecache(s.pcs[s.sweeper.value], slots, s.pops, limit - 1);
    }
  }

  lemma GapsAccountedSweep(window: nat, s: State, w: nat, s': State)
    requires Shape(window, s) && GapsAccounted(s) && WorkerStep(window, s, w, s')
    requires s.pcs[w].Sweep?
    ensures GapsAccounted(s')
  {
    var Sweep(limit, moved) := s.pcs[w];
    if limit > 0 && s.cache.slots[limit - 1].Some? {
      GapsAccountedMove(window, s, w, s');
    } else if s.sweeper == Some(w) && !GapsWithin(s.cache.slots, s.pops) {
      if limit == 0 {
        SweptDone(s.cache.slots, limit, moved, s.pops);
      } else {
        SweptSkip(s.cache.slots, limit, moved, s.pops);
      }
    }
  }

  lemma GapsAccountedWorker(window: nat, s: State, w: nat, s': State)
    requires Shape(window, s) && GapsAccounted(s) && WorkerStep(window, s, w, s')
    ensures GapsAccounted(s')
  {
    match s.pcs[w]
    case PickFree => GapsAccountedPop(window, s, w, s');
    case PickLocked => GapsAccountedPop(window, s, w, s');
    case Sweep(_, _) => GapsAccountedSweep(window, s, w, s');
    case _ =>
  }

  lemma GapsAccountedKept(window: nat, s: State, a: Action, s': State)
    requires Shape(window, s) && GapsAccounted(s) && Step(window, s, a, s')
    ensures GapsAccounted(s')
  {
    match a
    case Worker(w) => GapsAccountedWorker(window, s, w, s');
    case Refused(w, why) => GapsAccountedRefused(window, s, w, why, s');
    case WorkerWakes(w, target) =>
      if s.sweeper == Some(w) && !GapsWithin(s.cache.slots, s.pops) && s.pcs[w].limit <= s.pcs[w].moved {
        SweptDone(s.cache.slots, s.pcs[w].limit, s.pcs[w].moved, s.pops);
      }
    case SetterCaches(k, job) =>
      if HasRoom(s.cache) {
        if GapsWithin(s.cache.slots, s.pops) {
          PushGaps(s.cache.slots, job, s.pops);
        } else {
          CoveredPush(s.pcs[s.sweeper.value], s.cache.slots, s.pops, job);
        }
      }
    case _ =>
  }

  lemma PopsOwedWorker(window: nat, s: State, w: nat, s': State)
    requires Shape(window, s) && PopsOwed(window, s) && WorkerStep(window, s, w, s')
    ensures PopsOwed(window, s')
  {
    assert forall v | 0 <= v < |s.pcs| && v != w :: s'.pcs[v] == s.pcs[v];
    if s'.pops >= window && !Owes(s'.pcs[w]) && s.pcs[w] != AtTick {
      var v :| 0 <= v < |s.pcs| && Owes(s.pcs[v]);
      assert v != w;
      assert Owes(s'.pcs[v]);
    }
  }

  lemma PopsOwedOther(window: nat, s: State, a: Action, s': State)
    requires Shape(window, s) && PopsOwed(window, s) && !ByWorkerAlone(a) && Step(window, s, a, s')
    ensures PopsOwed(window, s')
  {
    if s.pops >= window {
      var v :| 0 <= v < |s.pcs| && Owes(s.pcs[v]);
      assert Owes(s'.pcs[v]);
    }
  }

  // Sleeping.

  /** pickready under the mutex came back empty-handed: nothing is cached, or
      somebody else is awake and still has a counter decision or a sweep to do. */
  lemma NullPick(window: nat, s: State, w: nat)
    requires Shape(window, s) && GapsAccounted(s) && PopsOwed(window, s)
    requires w < |s.pcs| && s.pcs[w] == PickLocked && Popped(s.cache, window).None?
    ensures IsEmpty(s.cache.slots) || OtherAwake(s, w)
  {
    if !IsEmpty(s.cache.slots) {
      if GapsWithin(s.cache.slots, window - 1) {
        WindowSuffices(s.cache, window);
      } else if s.pops < window {
        assert Awake(s.pcs[s.sweeper.value]);
      } else {
        var v :| 0 <= v < |s.pcs| && Owes(s.pcs[v]);
        assert Awake(s.pcs[v]);
      }
    }
  }

  lemma WorkerKeepsEmpty(window: nat, s: State, w: nat, s': State)
    requires Shape(window, s) && WorkerStep(window, s, w, s')
    ensures IsEmpty(s.cache.slots) ==> IsEmpty(s'.cache.slots)
    ensures AboutToSleep(s.pcs[w]) ==> s'.cache == s.cache
    ensures s'.pcs[w] == CheckShutdown ==>
              s.pcs[w] == PickLocked && Popped(s.cache, window).None? && s'.cache == s.cache
  {
  }

  lemma SafeToSleepWorker(window: nat, s: State, w: nat, s': State)
    requires Inv(window, s) && s.deinit == NotCalled
    requires WorkerStep(window, s, w, s')
    ensures SafeToSleep(s')
  {
    WorkerStepLocal(window, s, w, s');
    WorkerKeepsEmpty(window, s, w, s');
    forall u | 0 <= u < |s'.pcs| && AboutToSleep(s'.pcs[u])
      ensures IsEmpty(s'.cache.slots) || OtherAwake(s', u)
    {
      if u == w && s'.pcs[w] == CheckShutdown {
        NullPick(window, s, w);
      }
      if !IsEmpty(s'.cache.slots) {
        var v :| 0 <= v < |s.pcs| && v != u && Awake(s.pcs[v]);
        assert Awake(s'.pcs[v]);
      }
    }
  }

  lemma NotStrandedWorker(window: nat, s: State, w: nat, s': State)
    requires Inv(window, s) && s.deinit == NotCalled
    requires WorkerStep(window, s, w, s')
    ensures !Stranded(s')
  {
    WorkerStepLocal(window, s, w, s');
    WorkerKeepsEmpty(window, s, w, s');
    if s.pcs[w] == EnterWait && !IsEmpty(s.cache.slots) {
      assert OtherAwake(s, w);
      var v :| 0 <= v < |s.pcs| && v != w && Awake(s.pcs[v]);
      assert Awake(s'.pcs[v]);
    }
    assert s'.pcs[w] == Waiting ==> s.pcs[w] == EnterWait;
  }

  /** While a worker is about to sleep it holds the mutex, so nobody else pushes. */
  lemma OtherKeepsCache(window: nat, s: State, a: Action, s': State, u: nat)
    requires Shape(window, s) && Exclusive(s) && !ByWorkerAlone(a) && Step(window, s, a, s')
    requires u < |s'.pcs| && AboutToSleep(s'.pcs[u])
    ensures |s'.pcs| == |s.pcs| && s.pcs[u] == s'.pcs[u] && s'.cache == s.cache
  {
    assert Holds(s'.pcs[u]);
  }

  lemma OtherKeepsAwake(window: nat, s: State, a: Action, s': State, v: nat)
    requires Shape(window, s) && !ByWorkerAlone(a) && Step(window, s, a, s') && |s'.pcs| == |s.pcs|
    requires v < |s.pcs| && Awake(s.pcs[v])
    ensures Awake(s'.pcs[v])
  {
  }

  lemma SafeToSleepOther(window: nat, s: State, a: Action, s': State)
    requires Inv(window, s) && s.deinit == NotCalled
    requires !ByWorkerAlone(a) && Step(window, s, a, s')
    ensures s'.deinit == NotCalled ==> SafeToSleep(s')
  {
    forall u | 0 <= u < |s'.pcs| && AboutToSleep(s'.pcs[u])
      ensures IsEmpty(s'.cache.slots) || OtherAwake(s', u)
    {
      OtherKeepsCache(window, s, a, s', u);
      if !IsEmpty(s.cache.slots) {
        var v :| 0 <= v < |s.pcs| && v != u && Awake(s.pcs[v]);
        OtherKeepsAwake(window, s, a, s', v);
      }
    }
  }

  lemma NotStrandedCaches(window: nat, s: State, k: nat, job: Job, s': State)
    requires Inv(window, s) && s.deinit == NotCalled
    requires Step(window, s, SetterCaches(k, job), s')
    ensures !Stranded(s')
  {
    if AllAsleep(s) {
      assert s.mutex == BySetter(k);
      assert SCached !in s.setters;
      OccupiedZero(s.cache.slots);
      PushConsistent(s.cache, job);
      assert s'.setters[k] == SCached;
    }
  }

  lemma NotStrandedSignals(window: nat, s: State, k: nat, target: Option<nat>, s': State)
    requires Inv(window, s) && Step(window, s, SetterSignals(k, target), s')
    ensures !AllAsleep(s')
  {
    if target.Some? {
      assert s'.pcs[target.value] == Woken;
    } else {
      assert s'.pcs[0] in s.pcs;
    }
  }

  lemma NotStrandedOther(window: nat, s: State, a: Action, s': State)
    requires Inv(window, s) && s.deinit == NotCalled
    requires !ByWorkerAlone(a) && Step(window, s, a, s')
    ensures s'.deinit == NotCalled ==> !Stranded(s')
  {
    match a
    case WorkerWakes(w, target) => assert s'.pcs[w] != Waiting;
    case Spurious(w) => assert s'.pcs[w] == Woken;
    case SetterCaches(k, job) => NotStrandedCaches(window, s, k, job, s');
    case SetterSignals(k, target) => NotStrandedSignals(window, s, k, target, s');
    case Setter(k) => assert SCached !in s.setters;
    case Deinit =>
  }

  // Refused picks.

  ghost predicate SomeoneOwes(s: State) {
    exists w :: 0 <= w < |s.pcs| && Owes(s.pcs[w])
  }

  /** When a refused pick is harmless: a dropped job's gap is still within the window
      or somebody will decide on the counter, and a worker that goes on to sleep
      leaves no job behind or somebody awake. */
  ghost predicate Harmless(window: nat, s: State, w: nat, why: Refusal)
    requires w < |s.pcs|
  {
    && (why != Full ==> s.pops + 1 < window || SomeoneOwes(s))
    && (s.deinit == NotCalled && s.pcs[w].PickLocked? && why != Torn ==>
          (why == Doomed && s.cache.count == 1) || OtherAwake(s, w))
  }

  lemma RefusedPopsOwed(window: nat, s: State, w: nat, why: Refusal, s': State)
    requires Shape(window, s) && PopsOwed(window, s) && Step(window, s, Refused(w, why), s')
    ensures PopsOwed(window, s') <==> (why != Full ==> s.pops + 1 < window || SomeoneOwes(s))
  {
    assert !Owes(s.pcs[w]) && !Owes(s'.pcs[w]);
    assert forall v | 0 <= v < |s.pcs| :: Owes(s'.pcs[v]) <==> Owes(s.pcs[v]);
    assert SomeoneOwes(s') <==> SomeoneOwes(s);
    assert s.pops >= window ==> SomeoneOwes(s);
  }

  lemma RefusedEmpties(window: nat, s: State, w: nat, why: Refusal, s': State)
    requires Shape(window, s) && Step(window, s, Refused(w, why), s')
    ensures IsEmpty(s'.cache.slots) <==> why != Full && s.cache.count == 1
    ensures !IsEmpty(s.cache.slots)
  {
    ShapeRefused(window, s, w, why, s');
    PopConsistent(s.cache, window);
    var c := Pop(s.cache, window);
    OccupiedZero(s.cache.slots);
    OccupiedZero(s'.cache.slots);
    assert FirstEmpty(c.slots) < |c.slots| by {
      assert c.slots[PopIndex(s.cache, window).value].None?;
    }
  }

  lemma RefusedSafeToSleep(window: nat, s: State, w: nat, why: Refusal, s': State)
    requires Inv(window, s) && s.deinit == NotCalled && Step(window, s, Refused(w, why), s')
    ensures SafeToSleep(s') <==>
            (s.pcs[w].PickLocked? && why != Torn ==> (why == Doomed && s.cache.count == 1) || OtherAwake(s, w))
    ensures !Stranded(s')
  {
    RefusedStepLocal(window, s, w, why, s');
    RefusedEmpties(window, s, w, why, s');
    assert Awake(s'.pcs[w]);
    assert OtherAwake(s', w) <==> OtherAwake(s, w) by {
      assert forall v | 0 <= v < |s.pcs| && v != w :: Awake(s'.pcs[v]) <==> Awake(s.pcs[v]);
    }
    forall u | 0 <= u < |s'.pcs| && u != w
      ensures OtherAwake(s', u)
    {
    }
    assert AboutToSleep(s'.pcs[w]) <==> s.pcs[w].PickLocked? && why != Torn;
  }

  /** A refused pick keeps the invariant exactly when it is harmless. */
  lemma RefusedPickKeeps(window: nat, s: State, w: nat, why: Refusal, s': State)
    requires Inv(window, s) && Step(window, s, Refused(w, why), s')
    ensures Inv(window, s') <==> Harmless(window, s, w, why)
  {
    var a := Refused(w, why);
    ShapeKept(window, s, a, s');
    ExclusiveKept(window, s, a, s');
    GapsAccountedKept(window, s, a, s');
    ShutdownSeenKept(window, s, a, s');
    RefusedPopsOwed(window, s, w, why, s');
    RefusedStepLocal(window, s, w, why, s');
    if s.deinit == NotCalled {
      RefusedSafeToSleep(window, s, w, why, s');
    }
  }

  ghost predicate CarefulStep(window: nat, s: State, a: Action) {
    a.Refused? ==> a.w < |s.pcs| && Harmless(window, s, a.w, a.why)
  }

  lemma StepInv(window: nat, s: State, a: Action, s': State)
    requires Inv(window, s) && Step(window, s, a, s')
    ensures Inv(window, s') <==> CarefulStep(window, s, a)
  {
    if a.Refused? {
      RefusedPickKeeps(window, s, a.w, a.why, s');
    } else {
      OrdinaryStepInv(window, s, a, s');
    }
  }

  lemma OrdinaryStepInv(window: nat, s: State, a: Action, s': State)
    requires Inv(window, s) && Step(window, s, a, s') && !a.Refused?
    ensures Inv(window, s')
  {
    ShapeKept(window, s, a, s');
    ExclusiveKept(window, s, a, s');
    GapsAccountedKept(window, s, a, s');
    ShutdownSeenKept(window, s, a, s');
    DeinitIsFinal(window, s, a, s');
    if a.Worker? {
      PopsOwedWorker(window, s, a.w, s');
      if s.deinit == NotCalled {
        SafeToSleepWorker(window, s, a.w, s');
        NotStrandedWorker(window, s, a.w, s');
      }
    } else {
      PopsOwedOther(window, s, a, s');
      if s.deinit == NotCalled {
        SafeToSleepOther(window, s, a, s');
        NotStrandedOther(window, s, a, s');
      }
    }
  }

  lemma DeinitIsFinal(window: nat, s: State, a: Action, s': State)
    requires window <= |s.cache.slots| && Step(window, s, a, s')
    ensures s'.deinit == NotCalled ==> s.deinit == NotCalled
    ensures Closing(s.deinit) ==> Closing(s'.deinit)
  {
  }

  // -------------------------------------------------------------------- runs

  ghost predicate Fires(window: nat, s: State, a: Action, s': State) {
    window <= |s.cache.slots| && Step(window, s, a, s')
  }

  ghost predicate IsRun(window: nat, run: seq<State>, actions: seq<Action>) {
    && |run| == |actions| + 1 && Init(window, run[0])
    && forall i | 0 <= i < |actions| :: Fires(window, run[i], actions[i], run[i + 1])
  }

  /** Every refused pick among the first n steps is harmless. */
  ghost predicate Careful(window: nat, run: seq<State>, actions: seq<Action>, n: nat)
    requires n <= |actions| <= |run|
  {
    forall i | 0 <= i < n :: CarefulStep(window, run[i], actions[i])
  }

  lemma {:induction false} RunInv(window: nat, run: seq<State>, actions: seq<Action>, i: nat)
    requires IsRun(window, run, actions) && i < |run| && Careful(window, run, actions, i)
    ensures Inv(window, run[i])
  {
    if i == 0 {
      InitInv(window, run[0]);
    } else {
      RunInv(window, run, actions, i - 1);
      assert Fires(window, run[i - 1], actions[i - 1], run[i - 1 + 1]);
      assert CarefulStep(window, run[i - 1], actions[i - 1]);
      StepInv(window, run[i - 1], actions[i - 1], run[i]);
    }
  }

  /** No stranded work: as long as shutdown was not requested, no run of any
      number of workers and setters whose refused picks are harmless reaches a state
      where every worker sleeps on the condition while a job is cached and nobody is
      about to signal it. */
  lemma NoStrandedWork(window: nat, run: seq<State>, actions: seq<Action>, i: nat)
    requires IsRun(window, run, actions) && i < |run| && Careful(window, run, actions, i)
    requires run[i].deinit == NotCalled
    ensures !Stranded(run[i])
  {
    RunInv(window, run, actions, i);
  }

  predicate Sweeping(pc: Pc) {
    pc.TickReset? || pc.Sweep? || pc.SweepWake?
  }

  /** Is the worker that last reset the counter still compacting? */
  predicate CompactionPending(s: State) {
    s.sweeper.Some? && s.sweeper.value < |s.pcs| && Sweeping(s.pcs[s.sweeper.value])
  }

  /** In any run, whenever the counter is below the window and no compaction is
      pending, the windowed pop returns a job exactly when one is cached, whatever
      the other workers are doing. */
  lemma WindowSufficesInRun(window: nat, run: seq<State>, actions: seq<Action>, i: nat)
    requires IsRun(window, run, actions) && i < |run| && Careful(window, run, actions, i)
    requires run[i].cache.counter < window && !CompactionPending(run[i])
    ensures window <= |run[i].cache.slots|
    ensures Popped(run[i].cache, window).Some? <==> !IsEmpty(run[i].cache.slots)
  {
    RunInv(window, run, actions, i);
    assert GapsWithin(run[i].cache.slots, run[i].pops);
    WindowSuffices(run[i].cache, window);
  }

  /** Right after any tick that found the counter below the window, and right after
      any compaction that leaves it below, a windowed pop returns a job exactly when
      one is cached, unless another worker's compaction is pending. */
  lemma AfterTick(window: nat, run: seq<State>, actions: seq<Action>, i: nat, w: nat)
    requires IsRun(window, run, actions) && i < |actions| && Careful(window, run, actions, i + 1)
    requires w < |run[i].pcs| == |run[i + 1].pcs| && run[i + 1].pcs[w] == LoopTop
    requires || (actions[i] == Worker(w) && run[i].pcs[w] == AtTick)
             || (Sweeping(run[i].pcs[w]) && run[i].sweeper == Some(w) && run[i + 1].cache.counter < window)
    requires run[i].sweeper == Some(w) || !CompactionPending(run[i + 1])
    ensures Popped(run[i + 1].cache, window).Some? <==> !IsEmpty(run[i + 1].cache.slots)
  {
    RunInv(window, run, actions, i);
    assert Fires(window, run[i], actions[i], run[i + 1]);
    SweeperStays(window, run[i], actions[i], run[i + 1], w);
    WindowSufficesInRun(window, run, actions, i + 1);
  }

  lemma SweeperStays(window: nat, s: State, a: Action, s': State, w: nat)
    requires Fires(window, s, a, s') && w < |s.pcs| == |s'.pcs| && s'.pcs[w] == LoopTop
    requires (a == Worker(w) && s.pcs[w] == AtTick) || Sweeping(s.pcs[w])
    ensures s'.sweeper == s.sweeper
    ensures a == Worker(w) && s.pcs[w] == AtTick ==> s'.cache == s.cache && s.cache.counter < window
  {
  }

  // Shutdown needs nothing of the picks.

  ghost predicate ShutdownInv(window: nat, s: State) {
    Shape(window, s) && Exclusive(s) && ShutdownSeen(s)
  }

  lemma ShutdownStep(window: nat, s: State, a: Action, s': State)
    requires ShutdownInv(window, s) && Fires(window, s, a, s')
    ensures ShutdownInv(window, s')
  {
    ShapeKept(window, s, a, s');
    ExclusiveKept(window, s, a, s');
    ShutdownSeenKept(window, s, a, s');
  }

  lemma StepAt(window: nat, run: seq<State>, actions: seq<Action>, i: nat)
    requires IsRun(window, run, actions) && i < |actions|
    ensures Fires(window, run[i], actions[i], run[i + 1])
  {
  }

  lemma {:induction false} ShutdownRun(window: nat, run: seq<State>, actions: seq<Action>, i: nat)
    requires IsRun(window, run, actions) && i < |run|
    ensures ShutdownInv(window, run[i])
  {
    if i == 0 {
      InitInv(window, run[0]);
    } else {
      ShutdownRun(window, run, actions, i - 1);
      StepAt(window, run, actions, i - 1);
      ShutdownStep(window, run[i - 1], actions[i - 1], run[i]);
    }
  }

  ghost predicate ClosingStays(run: seq<State>) {
    forall k | 0 <= k < |run| - 1 :: Closing(run[k].deinit) ==> Closing(run[k + 1].deinit)
  }

  lemma RunsKeepClosing(window: nat, run: seq<State>, actions: seq<Action>)
    requires IsRun(window, run, actions)
    ensures ClosingStays(run)
  {
    forall k | 0 <= k < |run| - 1 && Closing(run[k].deinit)
      ensures Closing(run[k + 1].deinit)
    {
      StepAt(window, run, actions, k);
      DeinitIsFinal(window, run[k], actions[k], run[k + 1]);
    }
  }

  lemma {:induction false} StaysClosing(run: seq<State>, i: nat, j: nat)
    requires ClosingStays(run) && i <= j < |run| && Closing(run[i].deinit)
    ensures Closing(run[j].deinit)
  {
    if i < j {
      StaysClosing(run, i, j - 1);
      assert Closing(run[j - 1 + 1].deinit);
    }
  }

  lemma AfterBroadcast(window: nat, run: seq<State>, actions: seq<Action>, i: nat, j: nat)
    requires IsRun(window, run, actions) && i <= j < |run| && Closing(run[i].deinit)
    ensures Closing(run[j].deinit)
  {
    RunsKeepClosing(window, run, actions);
    StaysClosing(run, i, j);
  }

  /** Shutdown leaves no sleeper: from the broadcast on, no worker is in the
      condition wait or about to enter it, and each will see its shutdown flag; no
      matter which picks were refused. */
  lemma ShutdownLeavesNoSleeper(window: nat, run: seq<State>, actions: seq<Action>, i: nat, j: nat, w: nat)
    requires IsRun(window, run, actions) && i <= j < |run| && Closing(run[i].deinit)
    requires w < |run[j].pcs|
    ensures |run[j].shutdown| == |run[j].pcs| && run[j].shutdown[w]
    ensures run[j].pcs[w] != Waiting && run[j].pcs[w] != EnterWait
  {
    AfterBroadcast(window, run, actions, i, j);
    ShutdownRun(window, run, actions, j);
  }

  // --------------------------------------------------- what refusals can do

  /** Under the mutex, with everybody else asleep: two more steps of the worker whose
      pick was refused strand work, always when the job was put back and otherwise
      exactly when another one was cached. */
  lemma RefusedPickStrands(window: nat, s: State, w: nat, why: Refusal, s1: State)
    requires Inv(window, s) && s.deinit == NotCalled && why != Torn
    requires Step(window, s, Refused(w, why), s1) && s.pcs[w] == PickLocked
    requires forall v | 0 <= v < |s.pcs| && v != w :: s.pcs[v] == Waiting
    ensures var s2 := Goto(s1, w, EnterWait);
            var s3 := Goto(s2, w, Waiting).(mutex := Free);
            && Step(window, s1, Worker(w), s2) && Step(window, s2, Worker(w), s3)
            && (Stranded(s3) <==> why == Full || s.cache.count > 1)
  {
    var s3 := Goto(Goto(s1, w, EnterWait), w, Waiting).(mutex := Free);
    RefusedEmpties(window, s, w, why, s1);
    assert AllAsleep(s3);
    assert SCached !in s3.setters;
    TakeConsistent(s.cache, PopIndex(s.cache, window).value);
  }
}
