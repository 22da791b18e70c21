/** What becomes of the workers once their shutdown flags are set: each leaves its loop
    after a bounded number of its own steps, takes at most one more job on the way, and
    nothing but readyjob_mutex can hold it up. */
module Shutdown {
  import opened Options
  import opened ReadyCache
  import opened WorkerProtocol

  // ------------------------------------------------------ out of the loop

  predicate Out(pc: Pc) {
    pc == LoopTop || pc == Exited
  }

  predicate Inside(pc: Pc) {
    pc == GotLocked || pc == Working
  }

  /** About to pick, or at it. */
  predicate MayPick(pc: Pc) {
    pc == PickFree || pc == LockToPick || pc == PickLocked
  }

  predicate Flagged(s: State, w: nat) {
    w < |s.pcs| == |s.shutdown| && s.shutdown[w]
  }

  /** Steps of worker w, its spurious wake-up included. */
  predicate Mine(a: Action, w: nat) {
    match a
    case Worker(v) => v == w
    case Refused(v, _) => v == w
    case WorkerWakes(v, _) => v == w
    case Spurious(v) => v == w
    case _ => false
  }

  lemma AloneLeavesOthers(window: nat, s: State, a: Action, s': State, w: nat)
    requires Fires(window, s, a, s') && w < |s.pcs| == |s.shutdown| && ByWorkerAlone(a) && a.w != w
    ensures w < |s'.pcs| && s'.pcs[w] == s.pcs[w]
  {
    AloneLocal(window, s, a, s');
  }

  lemma RestWakesOnly(window: nat, s: State, a: Action, s': State, w: nat)
    requires Fires(window, s, a, s') && w < |s.pcs| && !Mine(a, w) && !ByWorkerAlone(a)
    ensures w < |s'.pcs|
    ensures s'.pcs[w] == s.pcs[w] || (s.pcs[w] == Waiting && s'.pcs[w] == Woken)
  {
  }

  lemma OthersWakeOnly(window: nat, s: State, a: Action, s': State, w: nat)
    requires Fires(window, s, a, s') && Flagged(s, w) && !Mine(a, w)
    ensures w < |s'.pcs|
    ensures s'.pcs[w] == s.pcs[w] || (s.pcs[w] == Waiting && s'.pcs[w] == Woken)
  {
    if ByWorkerAlone(a) {
      AloneLeavesOthers(window, s, a, s', w);
    } else {
      RestWakesOnly(window, s, a, s', w);
    }
  }

  lemma FlagStays(window: nat, s: State, a: Action, s': State, w: nat)
    requires Fires(window, s, a, s') && Flagged(s, w)
    ensures Flagged(s', w)
  {
    if a.Worker? {
      WorkerStepLocal(window, s, a.w, s');
    }
  }

  predicate Advances(pc: Pc, pc': Pc) {
    && (Out(pc) ==> Out(pc')) && (!MayPick(pc) ==> !MayPick(pc'))
    && (!Inside(pc) && Inside(pc') ==> MayPick(pc))
  }

  lemma WorkerAdvances(window: nat, s: State, s': State, w: nat)
    requires window <= |s.cache.slots| && WorkerStep(window, s, w, s') && Flagged(s, w)
    ensures w < |s'.pcs| && Advances(s.pcs[w], s'.pcs[w])
  {
  }

  lemma MineAdvances(window: nat, s: State, a: Action, s': State, w: nat)
    requires Fires(window, s, a, s') && Flagged(s, w) && Mine(a, w)
    ensures w < |s'.pcs| && Advances(s.pcs[w], s'.pcs[w])
  {
    match a
    case Worker(_) => WorkerAdvances(window, s, s', w);
    case Refused(_, _) =>
    case WorkerWakes(_, _) =>
    case Spurious(_) =>
  }

  lemma FlaggedStep(window: nat, s: State, a: Action, s': State, w: nat)
    requires Fires(window, s, a, s') && Flagged(s, w)
    ensures Flagged(s', w) && Advances(s.pcs[w], s'.pcs[w])
  {
    FlagStays(window, s, a, s', w);
    if Mine(a, w) {
      MineAdvances(window, s, a, s', w);
    } else {
      OthersWakeOnly(window, s, a, s', w);
    }
  }

  lemma {:induction false} StaysFlagged(window: nat, run: seq<State>, actions: seq<Action>, i: nat, j: nat, w: nat)
    requires IsRun(window, run, actions) && i <= j < |run| && Flagged(run[i], w)
    ensures Flagged(run[j], w)
    ensures Out(run[i].pcs[w]) ==> Out(run[j].pcs[w])
    ensures !MayPick(run[i].pcs[w]) ==> !MayPick(run[j].pcs[w])
  {
    if i < j {
      StaysFlagged(window, run, actions, i, j - 1, w);
      StepAt(window, run, actions, j - 1);
      FlaggedStep(window, run[j - 1], actions[j - 1], run[j], w);
    }
  }

  /** A worker whose flag is set and that is at the loop test, or has left, never does
      anything but leave. */
  lemma NeverInAgain(window: nat, run: seq<State>, actions: seq<Action>, i: nat, j: nat, w: nat)
    requires IsRun(window, run, actions) && i <= j < |run| && w < |run[i].pcs| && w < |run[i].shutdown|
    requires run[i].shutdown[w] && (run[i].pcs[w] == LoopTop || run[i].pcs[w] == Exited)
    ensures w < |run[j].pcs| && (run[j].pcs[w] == LoopTop || run[j].pcs[w] == Exited)
  {
    ShutdownRun(window, run, actions, i);
    StaysFlagged(window, run, actions, i, j, w);
  }

  /** It comes to a job. */
  predicate TakesJob(s: State, s': State, w: nat) {
    w < |s.pcs| && w < |s'.pcs| && !Inside(s.pcs[w]) && Inside(s'.pcs[w])
  }

  /** Once its flag is set a worker takes at most one more job. */
  lemma OneMoreJob(window: nat, run: seq<State>, actions: seq<Action>, i: nat, j: nat, k: nat, w: nat)
    requires IsRun(window, run, actions) && i <= j < k && k + 1 < |run|
    requires w < |run[i].pcs| && w < |run[i].shutdown| && run[i].shutdown[w]
    requires TakesJob(run[j], run[j + 1], w)
    ensures !TakesJob(run[k], run[k + 1], w)
  {
    ShutdownRun(window, run, actions, i);
    StaysFlagged(window, run, actions, i, j + 1, w);
    StaysFlagged(window, run, actions, j + 1, k, w);
    StepAt(window, run, actions, k);
    FlaggedStep(window, run[k], actions[k], run[k + 1], w);
  }

  // ------------------------------------------------- how long it takes to leave

  /** Steps left to a worker in the shutdown, n being the number of cache slots. */
  function Rank(pc: Pc, n: nat): nat {
    match pc
    case Exited => 0
    case LoopTop => 1
    case CheckShutdown => 1
    case Sweep(limit, _) => 2 * limit + 2
    case SweepWake(limit, _) => 2 * limit + 3
    case TickReset => 2 * n + 3
    case AtTick => 2 * n + 4
    case Returned => 2 * n + 5
    case Working => 2 * n + 5
    case Woken => 2 * n + 6
    case GotLocked => 2 * n + 6
    case PickLocked => 2 * n + 7
    case LockToPick => 2 * n + 8
    case PickFree => 2 * n + 9
    case EnterWait => 0
    case Waiting => 0
  }

  /** A step of worker w itself.  Dropping an unstable job to pop another one is not
      counted: `Lifecycle.DrawnIsStable` shows when that does not happen. */
  predicate Own(a: Action, w: nat) {
    match a
    case Worker(v) => v == w
    case Refused(v, why) => v == w && why != Torn
    case WorkerWakes(v, _) => v == w
    case _ => false
  }

  predicate AwakeAndFlagged(s: State, w: nat) {
    Flagged(s, w) && s.pcs[w] != EnterWait && s.pcs[w] != Waiting
  }

  lemma OwnWorkerStep(window: nat, s: State, s': State, w: nat)
    requires Shape(window, s) && window <= |s.cache.slots| && WorkerStep(window, s, w, s') && AwakeAndFlagged(s, w)
    ensures Rank(s'.pcs[w], |s.cache.slots|) < Rank(s.pcs[w], |s.cache.slots|)
  {
  }

  lemma OwnStep(window: nat, s: State, a: Action, s': State, w: nat)
    requires Shape(window, s) && Fires(window, s, a, s') && AwakeAndFlagged(s, w) && Own(a, w) && w < |s'.pcs|
    ensures Rank(s'.pcs[w], |s.cache.slots|) < Rank(s.pcs[w], |s.cache.slots|)
  {
    match a
    case Worker(_) => OwnWorkerStep(window, s, s', w);
    case Refused(_, _) =>
    case WorkerWakes(_, _) =>
  }

  lemma OthersStep(window: nat, s: State, a: Action, s': State, w: nat)
    requires Fires(window, s, a, s') && AwakeAndFlagged(s, w) && !Own(a, w)
    ensures w < |s'.pcs| && s'.pcs[w] == s.pcs[w]
  {
    if !Mine(a, w) {
      OthersWakeOnly(window, s, a, s', w);
    }
  }

  lemma SlotsStay(window: nat, s: State, a: Action, s': State)
    requires Fires(window, s, a, s')
    ensures |s'.cache.slots| == |s.cache.slots|
  {
  }

  lemma {:induction false} SlotsInRun(window: nat, run: seq<State>, actions: seq<Action>, n: nat)
    requires IsRun(window, run, actions) && n < |run|
    ensures |run[n].cache.slots| == |run[0].cache.slots|
  {
    if n > 0 {
      SlotsInRun(window, run, actions, n - 1);
      StepAt(window, run, actions, n - 1);
      SlotsStay(window, run[n - 1], actions[n - 1], run[n]);
    }
  }

  /** Own steps of worker w among the actions i .. j-1. */
  function OwnSteps(actions: seq<Action>, w: nat, i: nat, j: nat): nat
    requires i <= j <= |actions|
  {
    if i == j then 0 else OwnSteps(actions, w, i, j - 1) + if Own(actions[j - 1], w) then 1 else 0
  }

  predicate Falls(s: State, a: Action, s': State, w: nat, n: nat) {
    && w < |s.pcs| && w < |s'.pcs|
    && Rank(s'.pcs[w], n) + (if Own(a, w) then 1 else 0) <= Rank(s.pcs[w], n)
  }

  lemma StepFalls(window: nat, run: seq<State>, actions: seq<Action>, i: nat, k: nat, w: nat)
    requires IsRun(window, run, actions) && i <= k < |actions| && Closing(run[i].deinit) && w < |run[k].pcs|
    ensures Falls(run[k], actions[k], run[k + 1], w, |run[0].cache.slots|)
  {
    ShutdownLeavesNoSleeper(window, run, actions, i, k, w);
    ShutdownRun(window, run, actions, k);
    SlotsInRun(window, run, actions, k);
    StepAt(window, run, actions, k);
    FlagStays(window, run[k], actions[k], run[k + 1], w);
    if Own(actions[k], w) {
      OwnStep(window, run[k], actions[k], run[k + 1], w);
    } else {
      OthersStep(window, run[k], actions[k], run[k + 1], w);
    }
  }

  lemma {:induction false} RankFalls(run: seq<State>, actions: seq<Action>, i: nat, j: nat, w: nat, n: nat)
    requires i <= j < |run| == |actions| + 1 && w < |run[i].pcs|
    requires forall k | i <= k < j :: w < |run[k].pcs| ==> Falls(run[k], actions[k], run[k + 1], w, n)
    ensures w < |run[j].pcs| && OwnSteps(actions, w, i, j) + Rank(run[j].pcs[w], n) <= Rank(run[i].pcs[w], n)
  {
    if i < j {
      RankFalls(run, actions, i, j - 1, w, n);
      assert Falls(run[j - 1], actions[j - 1], run[j - 1 + 1], w, n);
    }
  }

  lemma RankBounded(window: nat, s: State, w: nat)
    requires Shape(window, s) && w < |s.pcs|
    ensures Rank(s.pcs[w], |s.cache.slots|) <= 2 * |s.cache.slots| + 9
  {
  }

  /** From the broadcast on each worker makes at most 2n + 9 steps, n being the number of
      cache slots, and after that many it has left. */
  lemma LeavesInTime(window: nat, run: seq<State>, actions: seq<Action>, i: nat, j: nat, w: nat)
    requires IsRun(window, run, actions) && i <= j < |run| && Closing(run[i].deinit) && w < |run[i].pcs|
    ensures w < |run[j].pcs| && OwnSteps(actions, w, i, j) <= 2 * |run[i].cache.slots| + 9
    ensures OwnSteps(actions, w, i, j) == 2 * |run[i].cache.slots| + 9 ==> run[j].pcs[w] == Exited
  {
    forall k | i <= k < j && w < |run[k].pcs|
      ensures Falls(run[k], actions[k], run[k + 1], w, |run[0].cache.slots|)
    {
      StepFalls(window, run, actions, i, k, w);
    }
    SlotsInRun(window, run, actions, i);
    RankFalls(run, actions, i, j, w, |run[0].cache.slots|);
    ShutdownRun(window, run, actions, i);
    RankBounded(window, run[i], w);
    ShutdownLeavesNoSleeper(window, run, actions, i, j, w);
  }

  // --------------------------------------------------------- nobody is stuck

  predicate NeedsMutex(pc: Pc) {
    pc == LockToPick || pc == Woken || pc.SweepWake?
  }

  /** Somebody signal can wake, if anybody waits. */
  lemma SomeSignal(pcs: seq<Pc>) returns (target: Option<nat>, pcs': seq<Pc>)
    ensures Signals(pcs, target, pcs') && |pcs'| == |pcs|
  {
    if v :| 0 <= v < |pcs| && pcs[v] == Waiting {
      target, pcs' := Some(v), pcs[v := Woken];
    } else {
      target, pcs' := None, pcs;
    }
  }

  /** A worker that neither sleeps nor has left can go on, unless it needs the mutex and
      somebody has it; nothing else ever holds it up. */
  lemma WorkerGoesOn(window: nat, s: State, w: nat) returns (a: Action, s': State)
    requires Shape(window, s) && w < |s.pcs| && s.pcs[w] != Waiting && s.pcs[w] != Exited
    requires NeedsMutex(s.pcs[w]) ==> s.mutex == Free
    ensures Fires(window, s, a, s') && (a == Worker(w) || (a.WorkerWakes? && a.w == w))
  {
    var pc := s.pcs[w];
    if pc.SweepWake? {
      var target, pcs' := SomeSignal(s.pcs);
      a := WorkerWakes(w, target);
      s' := s.(pcs := pcs'[w := if pc.limit <= pc.moved then LoopTop else Sweep(pc.limit, pc.moved)]);
    } else {
      a := Worker(w);
      s' := WorkerNext(window, s, w);
    }
  }

  /** Whoever holds the mutex can go on, so that it is given back. */
  lemma HolderGoesOn(window: nat, s: State) returns (a: Action, s': State)
    requires Shape(window, s) && Exclusive(s) && s.mutex != Free
    requires s.mutex.ByWorker? ==> s.mutex.w < |s.pcs|
    requires s.mutex.BySetter? ==> s.mutex.k < |s.setters|
    ensures Fires(window, s, a, s')
    ensures match s.mutex
            case ByWorker(w) => a == Worker(w)
            case BySetter(k) => (a == Setter(k) || (a.SetterSignals? && a.k == k))
            case ByDeinit => a == Deinit
            case Free => false
  {
    match s.mutex
    case ByWorker(w) => a, s' := WorkerGoesOn(window, s, w);
    case BySetter(k) => a, s' := SetterGoesOn(window, s, k);
    case ByDeinit => a, s' := DeinitGoesOn(window, s);
  }

  lemma SetterGoesOn(window: nat, s: State, k: nat) returns (a: Action, s': State)
    requires Shape(window, s) && k < |s.setters| && s.setters[k] != SIdle
    ensures Fires(window, s, a, s') && (a == Setter(k) || (a.SetterSignals? && a.k == k))
  {
    if s.setters[k] == SCached {
      var target, pcs' := SomeSignal(s.pcs);
      a, s' := SetterSignals(k, target), s.(pcs := pcs', setters := s.setters[k := SUnlock]);
    } else {
      a := Setter(k);
      s' := if s.setters[k] == SLocked then s.(setters := s.setters[k := SUnlock])
            else s.(setters := s.setters[k := SIdle], mutex := Free);
    }
  }

  lemma DeinitGoesOn(window: nat, s: State) returns (a: Action, s': State)
    requires Shape(window, s) && DeinitHolds(s.deinit)
    ensures Fires(window, s, a, s') && a == Deinit
  {
    a := Deinit;
    match s.deinit
    case Marking(i) =>
      s' := if i < |s.shutdown| then s.(shutdown := s.shutdown[i := true], deinit := Marking(i + 1))
            else s.(pcs := Broadcast(s.pcs), deinit := WorkerProtocol.Unlocking);
    case Unlocking => s' := s.(deinit := Joining, mutex := Free);
  }
}
