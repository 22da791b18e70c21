/** What goes into the ready cache and out of it in a run of the worker protocol, which
    picks find a job, and whom a signal wakes. */
module CacheTraffic {
  import opened Options
  import opened ReadyCache
  import opened WorkerProtocol

  // ------------------------------------------------------------- conservation

  function One(b: bool): nat { if b then 1 else 0 }

  /** A setter brings a job and the cache is not full. */
  predicate Puts(s: State, a: Action) {
    a.SetterCaches? && s.cache.count < |s.cache.slots|
  }

  /** A worker comes to a job by a pick of its own. */
  predicate Takes(s: State, a: Action, s': State) {
    && a.Worker? && a.w < |s.pcs| && a.w < |s'.pcs|
    && ((s.pcs[a.w] == PickFree && s'.pcs[a.w] == Working) || (s.pcs[a.w] == PickLocked && s'.pcs[a.w] == GotLocked))
  }

  /** A refused job that is not put back. */
  predicate Drops(a: Action) {
    a.Refused? && a.why != Full
  }

  predicate CountStep(s: State, a: Action, s': State) {
    s'.cache.count == s.cache.count + One(Puts(s, a)) - One(Takes(s, a, s')) - One(Drops(a))
  }

  lemma WorkerMoves(window: nat, s: State, w: nat, s': State)
    requires Shape(window, s) && WorkerStep(window, s, w, s')
    ensures s'.cache.count == s.cache.count - One(Takes(s, Worker(w), s'))
  {
    if s.pcs[w].Sweep? && s.pcs[w].limit > 0 && s.cache.slots[s.pcs[w].limit - 1].Some? {
      RecacheConsistent(s.cache, s.pcs[w].limit - 1);
    }
  }

  lemma PutBackCounts(c: Cache, window: nat)
    requires Consistent(c) && window <= |c.slots| && Popped(c, window).Some?
    ensures Push(Pop(c, window), Popped(c, window).value).count == c.count
    ensures Pop(c, window).count == c.count - 1
  {
    var d := Pop(c, window);
    assert d.slots[PopIndex(c, window).value].None?;
    assert HasRoom(d);
  }

  /** The number of cached jobs changes by puts, takes and drops, and by nothing else. */
  lemma CountMoves(window: nat, s: State, a: Action, s': State)
    requires Shape(window, s) && Fires(window, s, a, s')
    ensures CountStep(s, a, s')
  {
    match a
    case Worker(w) => WorkerMoves(window, s, w, s');
    case Refused(_, _) => PutBackCounts(s.cache, window);
    case SetterCaches(_, job) => PushConsistent(s.cache, job);
    case _ =>
  }

  function Sum(run: seq<State>, actions: seq<Action>, n: nat): int
    requires n <= |actions| && |run| == |actions| + 1
  {
    if n == 0 then 0
    else Sum(run, actions, n - 1) + One(Puts(run[n - 1], actions[n - 1]))
         - One(Takes(run[n - 1], actions[n - 1], run[n])) - One(Drops(actions[n - 1]))
  }

  lemma CountStepAt(window: nat, run: seq<State>, actions: seq<Action>, k: nat)
    requires IsRun(window, run, actions) && k < |actions|
    ensures CountStep(run[k], actions[k], run[k + 1])
  {
    ShutdownRun(window, run, actions, k);
    StepAt(window, run, actions, k);
    CountMoves(window, run[k], actions[k], run[k + 1]);
  }

  lemma {:induction false} CountIsSum(run: seq<State>, actions: seq<Action>, n: nat)
    requires n < |run| == |actions| + 1 && run[0].cache.count == 0
    requires forall k | 0 <= k < |actions| :: CountStep(run[k], actions[k], run[k + 1])
    ensures run[n].cache.count == Sum(run, actions, n)
  {
    if n > 0 {
      CountIsSum(run, actions, n - 1);
      assert CountStep(run[n - 1], actions[n - 1], run[n - 1 + 1]);
    }
  }

  /** Conservation: at every moment of every run the cache holds the jobs put less those
      taken by workers and those dropped. */
  lemma JobsConserved(window: nat, run: seq<State>, actions: seq<Action>, n: nat)
    requires IsRun(window, run, actions) && n < |run|
    ensures run[n].cache.count == Occupied(run[n].cache.slots) == Sum(run, actions, n)
  {
    forall k | 0 <= k < |actions|
      ensures CountStep(run[k], actions[k], run[k + 1])
    {
      CountStepAt(window, run, actions, k);
    }
    CountIsSum(run, actions, n);
    ShutdownRun(window, run, actions, n);
  }

  // ------------------------------------------------------- the other counters

  /** Pushes and pops in one step: a put-back and a re-caching move are one of each. */
  function Changes(s: State, a: Action, s': State): nat {
    if Puts(s, a) || Takes(s, a, s') || Drops(a) then 1
    else if a.Refused? || (a.Worker? && a.w < |s'.pcs| && s'.pcs[a.w].SweepWake?) then 2
    else 0
  }

  /** A worker decides to compact. */
  predicate Resets(a: Action, s': State) {
    a.Worker? && a.w < |s'.pcs| && s'.pcs[a.w] == TickReset
  }

  predicate CountersStep(s: State, a: Action, s': State) {
    && s'.cache.counter == (if Resets(a, s') then 0 else s.cache.counter + Changes(s, a, s'))
    && s'.cache.peak == if s'.cache.count > s.cache.peak then s'.cache.count else s.cache.peak
  }

  lemma WorkerCounts(window: nat, s: State, w: nat, s': State)
    requires Shape(window, s) && WorkerStep(window, s, w, s')
    ensures s'.cache.peak == s.cache.peak
    ensures s'.cache.counter == if Resets(Worker(w), s') then 0 else s.cache.counter + Changes(s, Worker(w), s')
  {
    if s.pcs[w].Sweep? && s.pcs[w].limit > 0 && s.cache.slots[s.pcs[w].limit - 1].Some? {
      RecacheConsistent(s.cache, s.pcs[w].limit - 1);
    }
  }

  lemma CountersMove(window: nat, s: State, a: Action, s': State)
    requires Shape(window, s) && Fires(window, s, a, s')
    ensures CountersStep(s, a, s')
  {
    CountMoves(window, s, a, s');
    match a
    case Worker(w) => WorkerCounts(window, s, w, s');
    case Refused(_, _) => PutBackCounts(s.cache, window);
    case SetterCaches(_, job) => PushConsistent(s.cache, job);
    case _ =>
  }

  /** The largest count so far. */
  function MostCached(run: seq<State>, n: nat): int
    requires n < |run|
  {
    if n == 0 then run[0].cache.count
    else var m := MostCached(run, n - 1);
         if run[n].cache.count > m then run[n].cache.count else m
  }

  /** Pushes and pops since the counter was last reset. */
  function ChangesSinceReset(run: seq<State>, actions: seq<Action>, n: nat): nat
    requires n <= |actions| && |run| == |actions| + 1
  {
    if n == 0 || Resets(actions[n - 1], run[n]) then 0
    else ChangesSinceReset(run, actions, n - 1) + Changes(run[n - 1], actions[n - 1], run[n])
  }

  lemma CountersStepAt(window: nat, run: seq<State>, actions: seq<Action>, k: nat)
    requires IsRun(window, run, actions) && k < |actions|
    ensures CountersStep(run[k], actions[k], run[k + 1])
  {
    ShutdownRun(window, run, actions, k);
    StepAt(window, run, actions, k);
    CountersMove(window, run[k], actions[k], run[k + 1]);
  }

  lemma {:induction false} CountersAre(run: seq<State>, actions: seq<Action>, n: nat)
    requires n < |run| == |actions| + 1
    requires run[0].cache.count == 0 && run[0].cache.peak == 0 && run[0].cache.counter == 0
    requires forall k | 0 <= k < |actions| :: CountersStep(run[k], actions[k], run[k + 1])
    ensures run[n].cache.peak == MostCached(run, n)
    ensures run[n].cache.counter == ChangesSinceReset(run, actions, n)
  {
    if n > 0 {
      CountersAre(run, actions, n - 1);
      assert CountersStep(run[n - 1], actions[n - 1], run[n - 1 + 1]);
    }
  }

  /** In every run peaked_job_count is the largest count there has been, and the
      reorganize counter the number of pushes and pops since its last reset. */
  lemma CountersInRun(window: nat, run: seq<State>, actions: seq<Action>, n: nat)
    requires IsRun(window, run, actions) && n < |run|
    ensures run[n].cache.peak == MostCached(run, n)
    ensures run[n].cache.counter == ChangesSinceReset(run, actions, n)
  {
    forall k | 0 <= k < |actions|
      ensures CountersStep(run[k], actions[k], run[k + 1])
    {
      CountersStepAt(window, run, actions, k);
    }
    CountersAre(run, actions, n);
  }

  /** A push meets a full cache. */
  predicate FailsToPut(s: State, a: Action) {
    a.SetterCaches? && s.cache.count == |s.cache.slots|
  }

  predicate FlagStep(s: State, a: Action, s': State) {
    s'.cache.full == (FailsToPut(s, a) || (s.cache.full && !Takes(s, a, s') && !a.Refused?))
  }

  lemma WorkerFlag(window: nat, s: State, w: nat, s': State)
    requires Shape(window, s) && WorkerStep(window, s, w, s')
    ensures s'.cache.full == (s.cache.full && !Takes(s, Worker(w), s'))
  {
    if s.pcs[w].Sweep? && s.pcs[w].limit > 0 && s.cache.slots[s.pcs[w].limit - 1].Some? {
      var t := TakeAt(s.cache, s.pcs[w].limit - 1);
      assert t.slots[s.pcs[w].limit - 1].None?;
      assert HasRoom(t);
    }
  }

  lemma FlagMoves(window: nat, s: State, a: Action, s': State)
    requires Shape(window, s) && Fires(window, s, a, s')
    ensures FlagStep(s, a, s')
  {
    match a
    case Worker(w) => WorkerFlag(window, s, w, s');
    case Refused(_, _) => PutBackCounts(s.cache, window);
    case SetterCaches(_, job) => PushConsistent(s.cache, job);
    case _ =>
  }

  /** SCHEDI_JOB_ARRAY_FULL: was there a failed push with no windowed pop after it? */
  predicate FailedSincePop(run: seq<State>, actions: seq<Action>, n: nat)
    requires n <= |actions| && |run| == |actions| + 1
  {
    n > 0 && (FailsToPut(run[n - 1], actions[n - 1])
              || (FailedSincePop(run, actions, n - 1) && !Takes(run[n - 1], actions[n - 1], run[n]) && !actions[n - 1].Refused?))
  }

  lemma FlagStepAt(window: nat, run: seq<State>, actions: seq<Action>, k: nat)
    requires IsRun(window, run, actions) && k < |actions|
    ensures FlagStep(run[k], actions[k], run[k + 1])
  {
    ShutdownRun(window, run, actions, k);
    StepAt(window, run, actions, k);
    FlagMoves(window, run[k], actions[k], run[k + 1]);
  }

  lemma {:induction false} FlagIs(run: seq<State>, actions: seq<Action>, n: nat)
    requires n < |run| == |actions| + 1 && !run[0].cache.full
    requires forall k | 0 <= k < |actions| :: FlagStep(run[k], actions[k], run[k + 1])
    ensures run[n].cache.full <==> FailedSincePop(run, actions, n)
  {
    if n > 0 {
      FlagIs(run, actions, n - 1);
      assert FlagStep(run[n - 1], actions[n - 1], run[n - 1 + 1]);
    }
  }

  lemma FullExactlyWhen(window: nat, run: seq<State>, actions: seq<Action>, n: nat)
    requires IsRun(window, run, actions) && n < |run|
    ensures run[n].cache.full <==> FailedSincePop(run, actions, n)
  {
    forall k | 0 <= k < |actions|
      ensures FlagStep(run[k], actions[k], run[k + 1])
    {
      FlagStepAt(window, run, actions, k);
    }
    FlagIs(run, actions, n);
  }

  // -------------------------------------------------------------------- picks

  /** A pick takes the job of the lowest occupied slot of the window, and one only; it
      comes back empty-handed exactly when the window holds none. */
  lemma PopTakesLowest(c: Cache, window: nat)
    requires Consistent(c) && window <= |c.slots|
    ensures Popped(c, window) == None <==> forall k | 0 <= k < window :: c.slots[k].None?
    ensures Popped(c, window).Some? ==>
              exists i: nat :: i < window && c.slots[i] == Popped(c, window)
                && (forall k | 0 <= k < i :: c.slots[k].None?) && Pop(c, window).slots == c.slots[i := None]
  {
    OccupiedZero(c.slots);
    if Popped(c, window).Some? {
      var i := PopIndex(c, window).value;
      assert i == FirstJob(c.slots, window);
    }
  }

  /** A push fills the lowest empty slot, and changes nothing but the flag when there is
      none. */
  lemma PushFillsLowest(c: Cache, job: Job)
    ensures !HasRoom(c) <==> forall k | 0 <= k < |c.slots| :: c.slots[k].Some?
    ensures !HasRoom(c) ==> Push(c, job) == c.(full := true)
    ensures HasRoom(c) ==>
              exists e: nat :: e < |c.slots| && c.slots[e].None? && (forall k | 0 <= k < e :: c.slots[k].Some?)
                && Push(c, job).slots == c.slots[e := Some(job)]
  {
    var e := FirstEmpty(c.slots);
    if HasRoom(c) {
      assert c.slots[e].None?;
    }
  }

  /** The job a setter caches is the one it was called for. */
  lemma PutsItsJob(window: nat, s: State, a: Action, s': State)
    requires Fires(window, s, a, s') && a.SetterCaches? && HasRoom(s.cache)
    ensures exists e: nat :: e < |s.cache.slots| && s.cache.slots[e].None? && s'.cache.slots == s.cache.slots[e := Some(a.job)]
    ensures a.k < |s'.setters| && s'.setters[a.k] == SCached
  {
    PushFillsLowest(s.cache, a.job);
  }

  /** In a run whose refused picks are harmless a worker's pick, free or under the mutex,
      ends with a job exactly when one is cached anywhere, as long as the counter is low
      and no compaction is pending. */
  lemma PickFindsExactlyWhen(window: nat, run: seq<State>, actions: seq<Action>, i: nat, w: nat)
    requires IsRun(window, run, actions) && i < |actions| && Careful(window, run, actions, i)
    requires actions[i] == Worker(w) && w < |run[i].pcs| && Picking(run[i].pcs[w])
    requires run[i].cache.counter < window && !CompactionPending(run[i])
    ensures Takes(run[i], actions[i], run[i + 1]) <==> !IsEmpty(run[i].cache.slots)
  {
    WindowSufficesInRun(window, run, actions, i);
    StepAt(window, run, actions, i);
  }

  // ------------------------------------------------------------------- signals

  predicate IsSignal(a: Action) {
    a.SetterSignals? || a.WorkerWakes?
  }

  /** A signal wakes one waiter exactly when there is one, and nobody else. */
  lemma SignalWakes(window: nat, s: State, a: Action, s': State)
    requires Fires(window, s, a, s') && IsSignal(a)
    ensures a.target == None <==> Waiting !in s.pcs
    ensures |s'.pcs| == |s.pcs|
    ensures forall v | 0 <= v < |s.pcs| && s.pcs[v] == Waiting ::
              s'.pcs[v] == if a.target == Some(v) then Woken else Waiting
  {
  }

  /** A setter signals for each job it caches before it does anything else. */
  lemma SetterGoesOn(window: nat, s: State, a: Action, s': State, k: nat)
    requires Fires(window, s, a, s') && k < |s.setters| && s.setters[k] == SCached
    ensures k < |s'.setters|
    ensures s'.setters[k] != SCached ==> a.SetterSignals? && a.k == k
  {
  }

  // ---------------------------------------------------------------------- ticks

  lemma LoopsAlone(window: nat, s: State, v: nat, s': State, w: nat)
    requires window <= |s.cache.slots| && WorkerStep(window, s, v, s') && w < |s.pcs| && w < |s'.pcs|
    requires s.pcs[w] != LoopTop && s'.pcs[w] == LoopTop
    ensures Sweeping(s.pcs[w]) || (s.pcs[w] == AtTick && s.cache.counter < window && s'.cache == s.cache)
  {
    WorkerStepLocal(window, s, v, s');
    assert v == w;
  }

  /** A worker comes back to its loop test only from a decision on the counter: it found
      the counter low, or it has reset it and compacted. */
  lemma LoopsThroughTick(window: nat, s: State, a: Action, s': State, w: nat)
    requires Fires(window, s, a, s') && w < |s.pcs| && w < |s'.pcs|
    requires s.pcs[w] != LoopTop && s'.pcs[w] == LoopTop
    ensures Sweeping(s.pcs[w]) || (s.pcs[w] == AtTick && s.cache.counter < window && s'.cache == s.cache)
  {
    match a
    case Worker(v) => LoopsAlone(window, s, v, s', w);
    case _ =>
  }

  /** It resets the counter and compacts exactly when the counter has reached the
      window. */
  lemma TickResetsExactlyWhen(window: nat, s: State, s': State, w: nat)
    requires Fires(window, s, Worker(w), s') && s.pcs[w] == AtTick
    ensures w < |s'.pcs| && (s'.pcs[w] == TickReset <==> s.cache.counter >= window)
    ensures s'.cache == if s.cache.counter >= window then s.cache.(counter := 0) else s.cache
  {
  }
}
