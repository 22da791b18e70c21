/** Runs of the worker protocol, step by step from the start, that show what refused
    picks can do and why a tick does not suffice while another worker compacts. */
module WorkerRuns {
  import opened Options
  import opened ReadyCache
  import opened Traces
  import opened WorkerProtocol

  type Run = Trace<State, Action>

  ghost predicate Good(window: nat, r: Run) {
    IsRun(window, r.states, r.actions)
  }

  ghost predicate Continues(window: nat, r: Run, actions: seq<Action>, r': Run)
    requires Good(window, r)
  {
    Good(window, r') && r'.states[0] == r.states[0] && r'.actions == r.actions + actions
  }

  lemma Then(window: nat, r: Run, a: Action, s': State) returns (r': Run)
    requires Good(window, r) && Fires(window, Final(r), a, s')
    ensures Continues(window, r, [a], r') && r'.states == r.states + [s'] && Final(r') == s'
  {
    r' := Longer(r, a, s');
  }

  function Pushing(job: Job): seq<Action> {
    [Setter(0), SetterCaches(0, job), SetterSignals(0, None), Setter(0)]
  }

  /** A setter caches a job while nobody waits. */
  lemma Pushes(window: nat, r: Run, job: Job) returns (r': Run)
    requires Good(window, r) && window <= |Final(r).cache.slots|
    requires var s := Final(r);
             |s.setters| > 0 && s.setters[0] == SIdle && s.mutex == Free && HasRoom(s.cache) && Waiting !in s.pcs
    ensures Continues(window, r, Pushing(job), r')
    ensures Final(r') == Final(r).(cache := Push(Final(r).cache, job))
  {
    var s := Final(r);
    var s1 := s.(setters := s.setters[0 := SLocked], mutex := BySetter(0));
    var s2 := s1.(cache := Push(s.cache, job), setters := s1.setters[0 := SCached]);
    var s3 := s2.(setters := s2.setters[0 := SUnlock]);
    var s4 := s3.(setters := s3.setters[0 := SIdle], mutex := Free);
    var r1 := Then(window, r, Setter(0), s1);
    var r2 := Then(window, r1, SetterCaches(0, job), s2);
    assert Signals(s2.pcs, None, s2.pcs);
    var r3 := Then(window, r2, SetterSignals(0, None), s3);
    r' := Then(window, r3, Setter(0), s4);
    assert s4.setters == s.setters;
  }

  function Times(n: nat, a: Action): seq<Action> {
    seq(n, _ => a)
  }

  /** The only worker finds nothing on its free pick and is about to lock. */
  lemma FindsNothing(window: nat, s: State) returns (r: Run)
    requires Init(window, s) && |s.pcs| == 1
    ensures Good(window, r) && r.states[0] == s && r.actions == Times(2, Worker(0))
    ensures Final(r) == Goto(s, 0, LockToPick)
  {
    r := Trace([s], []);
    r := Then(window, r, Worker(0), Goto(s, 0, PickFree));
    r := Then(window, r, Worker(0), Goto(s, 0, LockToPick));
  }

  /** From finding nothing to sleep. */
  lemma Sleeps(window: nat, r: Run) returns (r': Run)
    requires Good(window, r) && window <= |Final(r).cache.slots|
    requires Final(r).pcs == [CheckShutdown] && Final(r).shutdown == [false]
    ensures Continues(window, r, [Worker(0), Worker(0)], r')
    ensures Final(r') == Final(r).(pcs := [Waiting], mutex := Free)
  {
    var s1 := Final(r).(pcs := [EnterWait]);
    r' := Then(window, r, Worker(0), s1);
    r' := Then(window, r', Worker(0), s1.(pcs := [Waiting], mutex := Free));
  }

  /** It picks under the mutex, is refused, and goes to sleep. */
  lemma RefusedToSleep(window: nat, r: Run, why: Refusal) returns (r': Run)
    requires Good(window, r) && why != Torn && window <= |Final(r).cache.slots|
    requires var s := Final(r);
      s.pcs == [LockToPick] && s.shutdown == [false] && s.mutex == Free && Popped(s.cache, window).Some?
    ensures Continues(window, r, [Worker(0), Refused(0, why), Worker(0), Worker(0)], r')
    ensures var s := Final(r);
      var c := Pop(s.cache, window);
      && Final(r').pcs == [Waiting] && Final(r').setters == s.setters && Final(r').deinit == s.deinit
      && Final(r').cache == if why == Full then Push(c, Popped(s.cache, window).value) else c
  {
    var s := Final(r);
    var s1 := Goto(s, 0, PickLocked).(mutex := ByWorker(0));
    var s2 := RefusedPick(window, s1, 0, why);
    r' := Then(window, r, Worker(0), s1);
    r' := Then(window, r', Refused(0, why), s2);
    r' := Sleeps(window, r');
  }

  lemma FirstPushes(c: Cache, a: Job, b: Job)
    requires |c.slots| >= 2 && IsEmpty(c.slots) && c.count == 0
    ensures HasRoom(c) && Push(c, a).slots == c.slots[0 := Some(a)] && Push(c, a).count == 1
    ensures HasRoom(Push(c, a)) && Push(Push(c, a), b).slots == c.slots[0 := Some(a)][1 := Some(b)]
    ensures Push(Push(c, a), b).count == 2
  {
    assert FirstEmpty(c.slots) == 0;
    var slots := c.slots[0 := Some(a)];
    assert slots[0].Some? && slots[1].None?;
    assert FirstEmpty(slots) == FirstEmpty(slots, 1) == 1;
  }

  /** A run from the start, with one worker and two cached jobs: the pick under the
      mutex draws the one marked for destruction, and the other is stranded. */
  lemma DoomedPickStrands(window: nat, s: State, a: Job, b: Job) returns (r: Run)
    requires Init(window, s) && |s.pcs| == 1 && |s.setters| > 0 && |s.cache.slots| >= 2
    ensures Good(window, r) && r.states[0] == s && Stranded(Final(r)) && Final(r).deinit == NotCalled
    ensures r.actions == Times(2, Worker(0)) + Pushing(a) + Pushing(b)
                         + [Worker(0), Refused(0, Doomed), Worker(0), Worker(0)]
    ensures Final(r).cache.slots == s.cache.slots[1 := Some(b)]
  {
    FirstPushes(s.cache, a, b);
    r := FindsNothing(window, s);
    r := Pushes(window, r, a);
    r := Pushes(window, r, b);
    var c := Final(r).cache;
    assert FirstJob(c.slots, window) == 0;
    r := RefusedToSleep(window, r, Doomed);
    assert c.slots[0 := None] == s.cache.slots[1 := Some(b)];
    assert Final(r).cache.slots[1].Some?;
  }

  /** With a window of one slot, a drop at the free pick leaves nothing in the window
      for the pick under the mutex. */
  lemma DropsFreely(r: Run) returns (r': Run)
    requires Good(1, r) && 2 <= |Final(r).cache.slots|
    requires var s := Final(r);
      && s.pcs == [LoopTop] && s.shutdown == [false] && s.mutex == Free
      && s.cache.count == 2 && s.cache.slots[0].Some?
    ensures Continues(1, r, [Worker(0), Refused(0, Doomed), Worker(0), Worker(0)], r')
    ensures var s := Final(r);
      && Final(r').pcs == [CheckShutdown] && Final(r').shutdown == [false]
      && Final(r').setters == s.setters && Final(r').deinit == s.deinit
      && Final(r').cache.slots == s.cache.slots[0 := None]
  {
    var s := Final(r);
    assert FirstJob(s.cache.slots, 1) == 0;
    var s1 := Goto(s, 0, PickFree);
    var s2 := RefusedPick(1, s1, 0, Doomed);
    var s3 := Goto(s2, 0, PickLocked).(mutex := ByWorker(0));
    r' := Then(1, r, Worker(0), s1);
    r' := Then(1, r', Refused(0, Doomed), s2);
    r' := Then(1, r', Worker(0), s3);
    r' := Then(1, r', Worker(0), Goto(s3, 0, CheckShutdown));
  }

  /** A drop at the free pick costs the window a slot that no tick makes good: with a
      window of one slot the worker drops the job there, finds nothing under the mutex,
      and sleeps while a job is cached in slot 1. */
  lemma FreeDropStrands(s: State, a: Job, b: Job) returns (r: Run)
    requires Init(1, s) && |s.pcs| == 1 && |s.setters| > 0 && |s.cache.slots| >= 2
    ensures Good(1, r) && r.states[0] == s && Stranded(Final(r)) && Final(r).deinit == NotCalled
    ensures r.actions == Pushing(a) + Pushing(b) + [Worker(0), Refused(0, Doomed)] + Times(4, Worker(0))
    ensures Final(r).cache.slots == s.cache.slots[1 := Some(b)]
  {
    FirstPushes(s.cache, a, b);
    r := Trace([s], []);
    r := Pushes(1, r, a);
    r := Pushes(1, r, b);
    r := DropsFreely(r);
    r := Sleeps(1, r);
    assert Final(r).cache.slots == s.cache.slots[1 := Some(b)];
    assert Final(r).cache.slots[1].Some?;
  }

  /** The same with a single job whose access count is full: it is cached again, nobody
      is signalled, and it is stranded itself. */
  lemma PutBackStrands(window: nat, s: State, a: Job) returns (r: Run)
    requires Init(window, s) && |s.pcs| == 1 && |s.setters| > 0 && |s.cache.slots| >= 2
    ensures Good(window, r) && r.states[0] == s && Stranded(Final(r)) && Final(r).deinit == NotCalled
    ensures r.actions == Times(2, Worker(0)) + Pushing(a) + [Worker(0), Refused(0, Full), Worker(0), Worker(0)]
    ensures Final(r).cache.slots == s.cache.slots[0 := Some(a)]
  {
    FirstPushes(s.cache, a, a);
    r := FindsNothing(window, s);
    r := Pushes(window, r, a);
    var c := Final(r).cache;
    assert FirstJob(c.slots, window) == 0;
    r := RefusedToSleep(window, r, Full);
    assert c.slots[0 := None] == s.cache.slots;
    assert Final(r).cache.slots[0].Some?;
  }

  /** Takes a job freely and comes to its tick. */
  lemma Works(window: nat, r: Run, w: nat) returns (r': Run)
    requires Good(window, r) && window <= |Final(r).cache.slots|
    requires var s := Final(r);
      w < |s.pcs| == |s.shutdown| && s.pcs[w] == LoopTop && !s.shutdown[w] && Popped(s.cache, window).Some?
    ensures Continues(window, r, Times(3, Worker(w)), r')
    ensures var s := Final(r);
      Final(r') == Goto(s, w, AtTick).(cache := Pop(s.cache, window), pops := s.pops + 1)
  {
    var s := Final(r);
    var s1 := Goto(s, w, PickFree);
    var s2 := Goto(s1, w, Working).(cache := Pop(s.cache, window), pops := s.pops + 1);
    var s3 := Goto(s2, w, AtTick);
    var r1 := Then(window, r, Worker(w), s1);
    var r2 := Then(window, r1, Worker(w), s2);
    r' := Then(window, r2, Worker(w), s3);
    assert s3.pcs == s.pcs[w := AtTick];
  }

  /** Two workers, a window of one slot, and a job just beyond it. */
  lemma BothComeToTick(s: State, a: Job, b: Job) returns (r: Run)
    requires Init(1, s) && |s.pcs| == 2 && |s.setters| > 0 && |s.cache.slots| >= 2
    ensures Good(1, r) && r.states[0] == s && Unrefused(r.actions)
    ensures Final(r).pcs == [AtTick, AtTick] && |Final(r).shutdown| == 2 && Final(r).cache.counter >= 1
    ensures Final(r).cache.slots == s.cache.slots[1 := Some(b)]
  {
    r := Trace([s], []);
    FirstPushes(s.cache, a, b);
    r := Pushes(1, r, a);
    r := Works(1, r, 1);
    var c := Final(r).cache;
    assert c.slots == s.cache.slots;
    FirstPushes(c, a, b);
    r := Pushes(1, r, a);
    r := Pushes(1, r, b);
    r := Works(1, r, 0);
    assert Final(r).cache.slots == s.cache.slots[1 := Some(b)];
  }

  predicate Unrefused(actions: seq<Action>) {
    forall a | a in actions :: !a.Refused?
  }

  /** Why `AfterTick` excludes another worker's compaction: with a window of one slot,
      worker 1 ticks while worker 0 has just reset the counter, and right after the
      tick the job in slot 1 is out of the window's reach. */
  lemma TickDuringCompaction(s: State, a: Job, b: Job) returns (r: Run, t: State)
    requires Init(1, s) && |s.pcs| == 2 && |s.setters| > 0 && |s.cache.slots| >= 2
    ensures Good(1, r) && r.states[0] == s && Unrefused(r.actions)
    ensures t in r.states && t.pcs == [TickReset, AtTick] && Fires(1, t, Worker(1), Final(r))
    ensures Final(r).pcs == [TickReset, LoopTop] && Final(r).cache.counter < 1
    ensures Popped(Final(r).cache, 1).None? && Final(r).cache.slots == s.cache.slots[1 := Some(b)]
  {
    r := BothComeToTick(s, a, b);
    var u := Final(r);
    t := Goto(u, 0, TickReset).(cache := u.cache.(counter := 0), pops := 0, sweeper := Some(0));
    r := Then(1, r, Worker(0), t);
    r := Then(1, r, Worker(1), Goto(t, 1, LoopTop));
    assert r.states[|r.states| - 2] == t;
  }
}
