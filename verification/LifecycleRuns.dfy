/** Runs of the job machine, step by step from the start, that show why the provisos of
    `Lifecycle` are there: an unclean claim, a second destroy, and the guard of
    destroy_now as it is coded. */
module LifecycleRuns {
  import opened JobFlags
  import opened JobView
  import opened Lifecycle
  import opened Options
  import opened Traces
  import RC = ReadyCache

  type Run = Trace<State, Action>

  predicate Clean(s: State, action: Action) {
    forall account :: Heeds(account, s, action)
  }

  /** A run all of whose steps heed all accounts, with the one possible exception of
      step k. */
  ghost predicate Good(window: nat, r: Run, k: nat) {
    && IsRun(window, r.states, r.actions)
    && forall n | 0 <= n < |r.actions| && n != k :: Clean(r.states[n], r.actions[n])
  }

  ghost predicate Ready(window: nat, r: Run, k: nat, i: nat, j: nat) {
    && Good(window, r, k)
    && 0 < window <= |Final(r).cache.slots| && i < |Final(r).agents| && j < |Final(r).jobs|
  }

  /** One more act. */
  lemma Then(window: nat, r: Run, k: nat, i: nat, j: nat, a: Act) returns (r': Run)
    requires Ready(window, r, k, i, j) && Lifecycle.Possible(window, Final(r), i, j, a)
    requires |r.actions| == k || Clean(Final(r), ByAgent(i, j, a))
    ensures Good(window, r', k) && r'.states == r.states + [Final(r')] && r'.actions == r.actions + [ByAgent(i, j, a)]
    ensures Final(r') == DoIt(window, Final(r), i, j, a)
  {
    var s' := DoIt(window, Final(r), i, j, a);
    r' := Longer(r, ByAgent(i, j, a), s');
    forall n | 0 <= n < |r'.actions|
      ensures Step(window, r'.states[n], r'.actions[n], r'.states[n + 1])
    {
      if n < |r.actions| {
        StepAt(window, r.states, r.actions, n);
      }
    }
  }

  /** All accounts but one are heeded all along. */
  ghost predicate AllBut(breach: Account, r: Run)
    requires |r.actions| <= |r.states|
  {
    forall account | account != breach :: RunHeeds(account, r.states, r.actions, |r.actions|)
  }

  lemma BreachesOnce(window: nat, r: Run, k: nat, breach: Account)
    requires Good(window, r, k) && k < |r.actions|
    requires forall account | account != breach :: Heeds(account, r.states[k], r.actions[k])
    ensures AllBut(breach, r)
  {
    forall account, n | account != breach && 0 <= n < |r.actions|
      ensures Heeds(account, r.states[n], r.actions[n])
    {
      if n != k {
        assert Clean(r.states[n], r.actions[n]);
      }
    }
  }

  /** Longer by `more` acts, with the start and the exceptional step kept. */
  ghost predicate Extends(r: Run, r': Run, k: nat, more: nat) {
    && |r.states| == |r.actions| + 1 && |r'.states| == |r'.actions| + 1
    && |r'.actions| == |r.actions| + more && r'.states[0] == r.states[0]
    && (k < |r.actions| ==> r'.states[k] == r.states[k] && r'.actions[k] == r.actions[k])
  }

  /** The exceptional step comes next, and it is this one. */
  ghost predicate Excepts(r: Run, r': Run, k: nat, action: Action) {
    k == |r.actions| ==> k < |r'.actions| <= |r'.states| && |r.states| > 0
                         && r'.states[k] == Final(r) && r'.actions[k] == action
  }

  /** One more act that leaves the cache alone, with its effect. */
  lemma Acts(window: nat, r: Run, k: nat, i: nat, a: Act, e: Effect) returns (r': Run)
    requires Ready(window, r, k, i, 0) && !a.PopIt? && !a.Cache? && !a.PickAccess?
    requires |r.actions| == k || Clean(Final(r), ByAgent(i, 0, a))
    requires var s := Final(r);
      Enabled(s.jobs[0], Cached(s, 0), 0, s.agents[i], a) && Do(s.jobs[0], Cached(s, 0), 0, s.agents[i], a) == e
    ensures Good(window, r', k) && Extends(r, r', k, 1) && Excepts(r, r', k, ByAgent(i, 0, a))
    ensures var s := Final(r); Final(r') == State(s.jobs[0 := e.job], s.cache, s.agents[i := e.pc])
  {
    r' := Then(window, r, k, i, 0, a);
  }

  /** What a stretch of acts by agent i on job 0 leaves. */
  ghost predicate Leaves(r: Run, r': Run, i: nat, job: Job, pc: Pc)
    requires |r.states| > 0 && |r'.states| > 0
  {
    var s := Final(r);
    0 < |s.jobs| && i < |s.agents| && Final(r') == State(s.jobs[0 := job], s.cache, s.agents[i := pc])
  }

  function Made(v: Job): Job {
    v.(phase := Live, flags := CREATED, needSock := 0, needJobs := 0, destroyed := false, born := v.born + {v.gen})
  }

  /** Claim and create. */
  lemma Makes(window: nat, r: Run, k: nat, i: nat) returns (r': Run)
    requires Ready(window, r, k, i, 0) && Final(r).agents[i] == Idle
    requires var v := Final(r).jobs[0];
      v.phase == Free && (|r.actions| == k || (v.flags.access == 0 && !v.flags.ready && !v.flags.executing))
    ensures Good(window, r', k) && Extends(r, r', k, 2) && Excepts(r, r', k, ByAgent(i, 0, Claim))
    ensures Leaves(r, r', i, Made(Final(r).jobs[0]), Idle)
  {
    var v := Final(r).jobs[0];
    r' := Acts(window, r, k, i, Claim, Effect(Creating(0), v.(phase := Claimed, flags := CLAIMED), 0));
    r' := Acts(window, r', k, i, Create, Effect(Idle, Made(v), 0));
  }

  function Condemned(v: Job): Job {
    v.(destroyed := true, flags := v.flags.(willDestroy := true))
  }

  /** schedi_job_destroy on a word that lets the teardown begin. */
  lemma Destroys(window: nat, r: Run, k: nat, i: nat) returns (r': Run)
    requires Ready(window, r, k, i, 0) && (Final(r).agents[i] == Idle || Final(r).agents[i] == Finished(0))
    requires var v := Final(r).jobs[0];
      && CanMarkUnstable(v.flags)
      && (|r.actions| == k || (v.phase == Live && !v.flags.willDestroy))
    ensures Good(window, r', k) && Extends(r, r', k, 2) && Excepts(r, r', k, ByAgent(i, 0, Destroy))
    ensures var m := Condemned(Final(r).jobs[0]);
            Leaves(r, r', i, m.(phase := Tearing, flags := m.flags.(unstable := true)), Tear1(0))
  {
    var m := Condemned(Final(r).jobs[0]);
    r' := Acts(window, r, k, i, Destroy, Effect(Destroying(0), m, 0));
    r' := Acts(window, r', k, i, TryDestroy,
               Effect(Tear1(0), m.(phase := Tearing, flags := m.flags.(unstable := true)), 0));
  }

  /** The teardown up to and with the destructor. */
  lemma RunsDtor(window: nat, r: Run, k: nat, i: nat) returns (r': Run)
    requires Ready(window, r, k, i, 0) && Final(r).agents[i] == Tear1(0)
    ensures Good(window, r', k) && Extends(r, r', k, 2)
    ensures var v := Final(r).jobs[0];
            Leaves(r, r', i, v.(gen := v.gen + 1, dtors := v.dtors + multiset{v.gen}), Tear3(0))
  {
    var v := Final(r).jobs[0];
    r' := Acts(window, r, k, i, RaiseGen, Effect(Tear2(0), v.(gen := v.gen + 1), 0));
    r' := Acts(window, r', k, i, RunDtor,
               Effect(Tear3(0), v.(gen := v.gen + 1, dtors := v.dtors + multiset{v.gen}), 0));
  }

  function Torn(v: Job): Job {
    v.(phase := Free, gen := v.gen + 1, flags := NULL_FLAGS, dtors := v.dtors + multiset{v.gen})
  }

  lemma Frees(window: nat, r: Run, k: nat, i: nat) returns (r': Run)
    requires Ready(window, r, k, i, 0) && Final(r).agents[i] == Tear3(0)
    ensures Good(window, r', k) && Extends(r, r', k, 2)
    ensures Leaves(r, r', i, Final(r).jobs[0].(phase := Free, flags := NULL_FLAGS), Idle)
  {
    var v := Final(r).jobs[0];
    r' := Acts(window, r, k, i, ClearFlags, Effect(Tear4(0), v.(flags := NULL_FLAGS), 0));
    r' := Acts(window, r', k, i, ReleaseSlot, Effect(Idle, v.(phase := Free, flags := NULL_FLAGS), 0));
  }

  /** The whole teardown. */
  lemma Tears(window: nat, r: Run, k: nat, i: nat) returns (r': Run)
    requires Ready(window, r, k, i, 0) && Final(r).agents[i] == Tear1(0)
    ensures Good(window, r', k) && Extends(r, r', k, 4)
    ensures Leaves(r, r', i, Torn(Final(r).jobs[0]), Idle)
  {
    r' := RunsDtor(window, r, k, i);
    r' := Frees(window, r', k, i);
  }

  /** An agent takes access and compares the generation it knows. */
  lemma Takes(window: nat, r: Run, k: nat, i: nat, g: nat) returns (r': Run)
    requires Ready(window, r, k, i, 0) && Final(r).agents[i] == Idle && CanAccess(Final(r).jobs[0].flags)
    ensures Good(window, r', k) && Extends(r, r', k, 2)
    ensures var v := Final(r).jobs[0];
            Leaves(r, r', i, v.(flags := v.flags.(access := v.flags.access + 1)),
                   if v.gen == g then Valid(0, g) else Leaving(0))
  {
    var v := Final(r).jobs[0];
    var w := v.(flags := v.flags.(access := v.flags.access + 1));
    r' := Acts(window, r, k, i, TakeAccess(g), Effect(Access(0, g), w, 0));
    r' := Acts(window, r', k, i, CompareGen, Effect(if v.gen == g then Valid(0, g) else Leaving(0), w, 0));
  }

  // ------------------------------------------------- a claim that is not clean

  /** A slot is used and freed, and agent 0, which knows generation 0, is about to give
      back an access it took on the free slot. */
  lemma ComesToBeStale(window: nat, s: State) returns (r: Run)
    requires Init(window, s) && 0 < |s.jobs| && |s.agents| >= 4
    ensures Ready(window, r, 10, 3, 0) && r.states[0] == s && |r.actions| == 10
    ensures Final(r).agents == s.agents[0 := Leaving(0)]
    ensures var v := Final(r).jobs[0]; v.phase == Free && v.gen == 1 && v.flags == NULL_FLAGS.(access := 1)
  {
    r := Trace([s], []);
    r := Makes(window, r, 10, 1);
    r := Destroys(window, r, 10, 1);
    r := Tears(window, r, 10, 1);
    assert Final(r).agents == s.agents;
    r := Takes(window, r, 10, 0, 0);
  }

  /** Any system with a slot and four threads has a run with a single unclean step, a
      claim that finds a stale access, that ends with a teardown of slot 0 under way
      while a thread holds access to it with its generation checked. */
  lemma TeardownCanOverlapAccess(window: nat, s: State) returns (r: Run)
    requires Init(window, s) && 0 < |s.jobs| && |s.agents| >= 4
    ensures Good(window, r, 10) && r.states[0] == s && |r.actions| == 17
    ensures r.actions[10] == ByAgent(1, 0, Claim) && AllBut(Accesses, r)
    ensures Final(r).agents == s.agents[2 := Valid(0, 1)][3 := Tear1(0)]
  {
    r := ComesToBeStale(window, s);
    r := Makes(window, r, 10, 1);
    r := Takes(window, r, 10, 2, 1);
    r := Acts(window, r, 10, 0, Give, Effect(Idle, Final(r).jobs[0].(flags := CREATED), 0));
    r := Destroys(window, r, 10, 3);
    BreachesOnce(window, r, 10, Accesses);
    assert Final(r).agents == s.agents[2 := Valid(0, 1)][3 := Tear1(0)];
  }

  // ---------------------------------------------------- through the ready cache

  /** The cache holds nothing, or slot 0 alone. */
  ghost predicate HoldsNone(c: RC.Cache) {
    RC.IsEmpty(c.slots) && c.count == 0
  }

  ghost predicate HoldsOne(c: RC.Cache) {
    && 0 < |c.slots| && c.slots[0] == Some(0) && c.count == 1
    && forall i | 0 < i < |c.slots| :: c.slots[i].None?
  }

  lemma PushesFirst(c: RC.Cache)
    requires 0 < |c.slots| && HoldsNone(c)
    ensures RC.HasRoom(c) && HoldsOne(RC.Push(c, 0)) && |RC.Push(c, 0).slots| == |c.slots|
  {
    assert RC.FirstEmpty(c.slots) == 0;
  }

  lemma PopsFirst(c: RC.Cache, window: nat)
    requires 0 < window <= |c.slots| && HoldsOne(c)
    ensures RC.Popped(c, window) == Some(0) && multiset(c.slots)[Some(0)] > 0
    ensures HoldsNone(RC.Pop(c, window)) && |RC.Pop(c, window).slots| == |c.slots|
  {
    assert RC.FirstJob(c.slots, window) == 0;
    assert Some(0) in c.slots;
  }

  /** A setready call under way marks the slot READY and caches it. */
  lemma CachesIt(window: nat, r: Run, k: nat, i: nat) returns (r': Run)
    requires Ready(window, r, k, i, 0) && Final(r).agents[i] == Setting(0)
    requires CanMarkReady(Final(r).jobs[0].flags) && HoldsNone(Final(r).cache)
    ensures Ready(window, r', k, i, 0) && Extends(r, r', k, 2) && HoldsOne(Final(r').cache)
    ensures var s, v := Final(r), Final(r).jobs[0];
      && Final(r').jobs == s.jobs[0 := v.(flags := v.flags.(ready := true))]
      && Final(r').agents == s.agents[i := Idle]
  {
    var s := Final(r);
    var w := s.jobs[0].(flags := s.jobs[0].flags.(ready := true));
    r' := Acts(window, r, k, i, MarkReady, Effect(Pc.Marked(0), w, 0));
    PushesFirst(Final(r').cache);
    r' := Then(window, r', k, i, 0, Cache(true));
    assert Final(r').agents == s.agents[i := Idle];
    assert Final(r').jobs == s.jobs[0 := w];
  }

  lemma Picks(window: nat, r: Run, k: nat, i: nat) returns (r': Run)
    requires Ready(window, r, k, i, 0) && Final(r).agents[i] == Idle
    requires CanAccess(Final(r).jobs[0].flags) && HoldsOne(Final(r).cache)
    ensures Ready(window, r', k, i, 0) && Extends(r, r', k, 2) && HoldsNone(Final(r').cache)
    ensures var s, v := Final(r), Final(r).jobs[0];
      && Final(r').jobs == s.jobs[0 := v.(flags := v.flags.(access := v.flags.access + 1))]
      && Final(r').agents == s.agents[i := PickAccessed(0)]
  {
    var s := Final(r);
    PopsFirst(s.cache, window);
    r' := Then(window, r, k, i, 0, PopIt);
    PushesFirst(Final(r').cache);
    r' := Then(window, r', k, i, 0, PickAccess(true));
    assert Final(r').agents == s.agents[i := PickAccessed(0)];
  }

  lemma ClearsReadiness(window: nat, r: Run, k: nat, i: nat) returns (r': Run)
    requires Ready(window, r, k, i, 0) && Final(r).agents[i] == PickAccessed(0)
    requires var f := Final(r).jobs[0].flags; f.ready && !f.unstable && !f.willDestroy
    ensures Ready(window, r', k, i, 0) && Extends(r, r', k, 2)
    ensures var v := Final(r).jobs[0];
            Leaves(r, r', i, v.(flags := v.flags.(ready := false, readyBasic := false)), Picked(0))
  {
    var v := Final(r).jobs[0];
    r' := Acts(window, r, k, i, PickUnready, Effect(PickCleared(0), v.(flags := v.flags.(ready := false)), 0));
    r' := Acts(window, r', k, i, PickUnbasic,
               Effect(Picked(0), v.(flags := v.flags.(ready := false, readyBasic := false)), 0));
  }

  lemma StartsRun(window: nat, r: Run, k: nat, i: nat) returns (r': Run)
    requires Ready(window, r, k, i, 0) && Final(r).agents[i] == Picked(0)
    requires var f := Final(r).jobs[0].flags; f.access == 1 && !f.unstable && !f.executing
    ensures Ready(window, r', k, i, 0) && Extends(r, r', k, 2)
    ensures var v := Final(r).jobs[0];
            Leaves(r, r', i, v.(flags := v.flags.(executing := true, access := 0)), Pc.Running(0))
  {
    var v := Final(r).jobs[0];
    r' := Acts(window, r, k, i, MarkExecuting, Effect(Executing(0), v.(flags := v.flags.(executing := true)), 0));
    r' := Acts(window, r', k, i, DropAccess,
               Effect(Pc.Running(0), v.(flags := v.flags.(executing := true, access := 0)), 0));
  }

  function Entered(v: Job): Job {
    v.(flags := v.flags.(ready := false, readyBasic := false, executing := true, access := 0))
  }

  /** The worker clears the readiness bits and enters run. */
  lemma Enters(window: nat, r: Run, k: nat, i: nat) returns (r': Run)
    requires Ready(window, r, k, i, 0) && Final(r).agents[i] == PickAccessed(0)
    requires var f := Final(r).jobs[0].flags;
             f.ready && f.access == 1 && !f.unstable && !f.willDestroy && !f.executing
    ensures Ready(window, r', k, i, 0) && Extends(r, r', k, 4)
    ensures Leaves(r, r', i, Entered(Final(r).jobs[0]), Pc.Running(0))
  {
    r' := ClearsReadiness(window, r, k, i);
    r' := StartsRun(window, r', k, i);
  }

  const LIVE: Job := Made(FREE_JOB)
  const RUNNING: Job := LIVE.(flags := CREATED.(executing := true))

  /** Agent 0 makes a job, sets it ready and caches it. */
  lemma ComesToBeCached(window: nat, s: State, k: nat) returns (r: Run)
    requires Init(window, s) && 0 < |s.jobs| && |s.agents| >= 3
    ensures Ready(window, r, k, 2, 0) && r.states[0] == s && |r.actions| == 5 && HoldsOne(Final(r).cache)
    ensures Final(r).jobs == s.jobs[0 := LIVE.(flags := CREATED.(ready := true))] && Final(r).agents == s.agents
  {
    r := Trace([s], []);
    r := Makes(window, r, k, 0);
    r := Acts(window, r, k, 0, StartSetting, Effect(Setting(0), LIVE, 0));
    r := CachesIt(window, r, k, 0);
    assert Final(r).agents == s.agents;
    assert Final(r).jobs == s.jobs[0 := LIVE.(flags := CREATED.(ready := true))];
  }

  /** Agent 1 comes to be inside run of job 0. */
  lemma ComesToRun(window: nat, s: State, k: nat) returns (r: Run)
    requires Init(window, s) && 0 < |s.jobs| && |s.agents| >= 3
    ensures Ready(window, r, k, 1, 0) && r.states[0] == s && |r.actions| == 11 && HoldsNone(Final(r).cache)
    ensures Final(r).jobs == s.jobs[0 := RUNNING] && Final(r).agents == s.agents[1 := Pc.Running(0)]
  {
    r := ComesToBeCached(window, s, k);
    r := Picks(window, r, k, 1);
    r := Enters(window, r, k, 1);
    assert Final(r).jobs == s.jobs[0 := RUNNING];
    assert Final(r).agents == s.agents[1 := Pc.Running(0)];
  }

  // ------------------------------------------- readiness from outside the job

  const ASKING: Job := LIVE.(needSock := 1, flags := CREATED.(epollSock := false, readyBasic := true))

  /** A job that asks for one ready socket and is marked READYBASIC. */
  lemma Asks(window: nat, s: State) returns (r: Run)
    requires Init(window, s) && 0 < |s.jobs| && |s.agents| >= 3
    ensures Ready(window, r, 7, 0, 0) && r.states[0] == s && |r.actions| == 4 && HoldsNone(Final(r).cache)
    ensures Final(r).jobs == s.jobs[0 := ASKING] && Final(r).agents == s.agents
  {
    r := Trace([s], []);
    r := Makes(window, r, 7, 0);
    r := Acts(window, r, 7, 0, Update(0, 0, 0, false, 1, 0), Effect(Idle, ASKING.(flags := CREATED.(epollSock := false)), 0));
    r := Acts(window, r, 7, 0, Update(0, 0, 0, true, 1, 0), Effect(Idle, ASKING, 0));
    assert Final(r).agents == s.agents;
    assert Final(r).jobs == s.jobs[0 := ASKING];
  }

  const MET: Job := ASKING.(flags := CREATED.(readyBasic := true, avSock := 1))

  lemma SocketHandsOver(window: nat, r: Run) returns (r': Run)
    requires Ready(window, r, 7, 0, 0) && Final(r).jobs[0] == ASKING && Final(r).agents[0] == Idle
    ensures Good(window, r', 7) && Extends(r, r', 7, 1) && Leaves(r, r', 0, MET, Setting(0))
  {
    r' := Acts(window, r, 7, 0, Update(1, 0, 0, false, 1, 0), Effect(Setting(0), MET, 0));
  }

  /** It is not ready yet; the socket's update hands it over, and it is cached. */
  lemma SocketMakesReady(window: nat, s: State) returns (r: Run)
    requires Init(window, s) && 0 < |s.jobs| && |s.agents| >= 3
    ensures Good(window, r, |r.actions|) && r.states[0] == s && |r.actions| == 7 && 0 < |Final(r).jobs|
    ensures Final(r).agents == s.agents && HoldsOne(Final(r).cache) && Final(r).jobs[0].flags == MET.flags.(ready := true)
    ensures !AllReady(ASKING.flags) && AllReady(MET.flags)
  {
    r := Asks(window, s);
    r := SocketHandsOver(window, r);
    r := CachesIt(window, r, 7, 0);
    assert Final(r).agents == s.agents;
  }

  // ------------------------------------------------------- a second destroy

  const REFUSED: Job := RUNNING.(destroyed := true, queued := 1, flags := CREATED.(executing := true, willDestroy := true))

  /** A user destroys the running job: it is marked and queued. */
  lemma UserDestroys(window: nat, r: Run, k: nat) returns (r': Run)
    requires Ready(window, r, k, 2, 0) && Final(r).agents[2] == Idle && Final(r).jobs[0] == RUNNING
    ensures Good(window, r', k) && Extends(r, r', k, 2)
    ensures Final(r').jobs == Final(r).jobs[0 := REFUSED] && Final(r').agents == Final(r).agents
    ensures Final(r').cache == Final(r).cache
  {
    var s := Final(r);
    r' := Acts(window, r, k, 2, Destroy, Effect(Destroying(0), REFUSED.(queued := 0), 0));
    r' := Acts(window, r', k, 2, TryDestroy, Effect(Idle, REFUSED, 0));
    assert Final(r').jobs == s.jobs[0 := REFUSED];
    assert Final(r').agents == s.agents;
  }

  const GONE: Job := REFUSED.(phase := Free, gen := 1, flags := NULL_FLAGS, dtors := multiset{0})

  /** The run returns with an error, and its worker destroys the job a second time,
      this time with success.  The first destroy's queue entry stays. */
  lemma WorkerDestroys(window: nat, r: Run) returns (r': Run)
    requires Ready(window, r, 14, 1, 0) && |r.actions| == 13
    requires Final(r).agents[1] == Pc.Running(0) && Final(r).jobs[0] == REFUSED
    ensures Good(window, r', 14) && Extends(r, r', 14, 7) && r'.actions[14] == ByAgent(1, 0, Destroy)
    ensures Leaves(r, r', 1, GONE, Idle)
  {
    var s := Final(r);
    r' := Acts(window, r, 14, 1, RunReturns,
               Effect(Finished(0), REFUSED.(flags := CREATED.(willDestroy := true)), 0));
    r' := Destroys(window, r', 14, 1);
    r' := Tears(window, r', 14, 1);
    assert multiset{} + multiset{0 as nat} == multiset{0};
    assert Final(r').jobs == s.jobs[0 := GONE];
    assert Final(r').agents == s.agents[1 := Idle];
  }

  /** The run up to there: step 14 is the only improper one. */
  lemma TwoDestroys(window: nat, s: State) returns (r: Run)
    requires Init(window, s) && 0 < |s.jobs| && |s.agents| >= 3
    ensures Good(window, r, 14) && r.states[0] == s && |r.actions| == 20 && Ready(window, r, 14, 2, 0)
    ensures r.actions[14] == ByAgent(1, 0, Destroy)
    ensures Final(r).jobs == s.jobs[0 := GONE] && Final(r).agents == s.agents
  {
    r := ComesToRun(window, s, 14);
    r := UserDestroys(window, r, 14);
    r := WorkerDestroys(window, r);
    assert Final(r).agents == s.agents;
  }

  /** A checker takes the entry from the queue and tries. */
  lemma Retries(window: nat, r: Run, k: nat) returns (r': Run)
    requires Ready(window, r, k, 2, 0) && Final(r).agents[2] == Idle
    requires Final(r).jobs[0].queued == 1 && CanMarkUnstable(Final(r).jobs[0].flags)
    ensures Good(window, r', k) && Extends(r, r', k, 2)
    ensures var v := Final(r).jobs[0];
            Leaves(r, r', 2, v.(queued := 0, phase := Tearing, flags := v.flags.(unstable := true)), Tear1(0))
  {
    var v := Final(r).jobs[0];
    r' := Acts(window, r, k, 2, TakeQueued, Effect(Destroying(0), v.(queued := 0), 0));
    r' := Acts(window, r', k, 2, TryDestroy,
               Effect(Tear1(0), v.(queued := 0, phase := Tearing, flags := v.flags.(unstable := true)), 0));
  }

  /** What a second destroy does, one: the queue entry of the first tears down the job
      that is created in the slot afterwards, which nobody destroyed. */
  lemma StaleEntryTearsDownNewJob(window: nat, s: State) returns (r: Run)
    requires Init(window, s) && 0 < |s.jobs| && |s.agents| >= 3
    ensures Good(window, r, 14) && r.states[0] == s && |r.actions| == 24
    ensures r.actions[14] == ByAgent(1, 0, Destroy) && AllBut(Teardowns, r) && 0 < |Final(r).jobs|
    ensures var v := Final(r).jobs[0];
      v.phase == Tearing && !v.destroyed && !v.flags.willDestroy && v.gen == 1 && v.born == {0, 1}
    ensures Final(r).agents == s.agents[2 := Tear1(0)]
  {
    r := TwoDestroys(window, s);
    r := Makes(window, r, 14, 0);
    r := Retries(window, r, 14);
    BreachesOnce(window, r, 14, Teardowns);
    assert Final(r).agents == s.agents[2 := Tear1(0)];
  }

  /** Two: if no job is created meanwhile, it tears down the free slot, and the
      destructor runs for a generation under which nothing was ever created. */
  lemma StaleEntryRunsDestructorAgain(window: nat, s: State) returns (r: Run)
    requires Init(window, s) && 0 < |s.jobs| && |s.agents| >= 3
    ensures Good(window, r, 14) && r.states[0] == s && |r.actions| == 24
    ensures r.actions[14] == ByAgent(1, 0, Destroy) && AllBut(Teardowns, r) && 0 < |Final(r).jobs|
    ensures Final(r).jobs[0].dtors == multiset{0, 1} && Final(r).jobs[0].born == {0}
  {
    r := TwoDestroys(window, s);
    r := Retries(window, r, 14);
    r := RunsDtor(window, r, 14, 2);
    BreachesOnce(window, r, 14, Teardowns);
  }

  // --------------------------------------------------------- a late setready

  /** A worker whose run returned 1 completes the readiness and is about to call
      setready; a user destroys the idle job, which goes at once; and the call then
      marks the freed slot's word READY and caches the slot. */
  lemma CachesFreeSlot(window: nat, s: State, k: nat) returns (r: Run)
    requires Init(window, s) && 0 < |s.jobs| && |s.agents| >= 3 && k >= 21
    ensures Ready(window, r, k, 2, 0) && r.states[0] == s && |r.actions| == 21 && HoldsOne(Final(r).cache)
    ensures Final(r).agents == s.agents && |Final(r).jobs| == |s.jobs|
    ensures var v := Final(r).jobs[0]; v.phase == Free && v.gen == 1 && v.flags == NULL_FLAGS.(ready := true)
  {
    r := ComesToRun(window, s, k);
    r := Acts(window, r, k, 1, RunReturns, Effect(Finished(0), LIVE, 0));
    r := Acts(window, r, k, 1, ReturnAgain, Effect(Setting(0), LIVE.(flags := CREATED.(readyBasic := true)), 0));
    r := Destroys(window, r, k, 2);
    r := Tears(window, r, k, 2);
    r := CachesIt(window, r, k, 1);
    assert Final(r).agents == s.agents;
  }

  /** What a late setready does, one: the claim overwrites READY, and the job created in
      the slot is cached without being READY.  One ordinary destroy is enough. */
  lemma LateSetreadyCachesNewJob(window: nat, s: State) returns (r: Run)
    requires Init(window, s) && 0 < |s.jobs| && |s.agents| >= 3
    ensures Good(window, r, 21) && r.states[0] == s && |r.actions| == 23
    ensures r.actions[21] == ByAgent(0, 0, Claim) && AllBut(Tokens, r)
    ensures Final(r).agents == s.agents && 0 < |Final(r).jobs|
    ensures var v := Final(r).jobs[0];
      v.phase == Live && !v.flags.willDestroy && !v.flags.ready && Cached(Final(r), 0) >= 1
  {
    r := CachesFreeSlot(window, s, 21);
    PopsFirst(Final(r).cache, window);
    r := Makes(window, r, 21, 0);
    BreachesOnce(window, r, 21, Tokens);
    assert Final(r).agents == s.agents;
  }

  /** Two: a worker draws the free slot first and runs the job that is gone; the claim
      overwrites EXECUTING, and a second worker runs the new job beside it. */
  lemma LateSetreadyRunsTwice(window: nat, s: State) returns (r: Run)
    requires Init(window, s) && 0 < |s.jobs| && |s.agents| >= 3
    ensures Good(window, r, 27) && r.states[0] == s && |r.actions| == 38
    ensures r.actions[27] == ByAgent(2, 0, Claim) && AllBut(Executions, r)
    ensures Final(r).agents == s.agents[1 := Pc.Running(0)][0 := Pc.Running(0)]
  {
    r := CachesFreeSlot(window, s, 27);
    r := Picks(window, r, 27, 1);
    r := Enters(window, r, 27, 1);
    r := Makes(window, r, 27, 2);
    r := Acts(window, r, 27, 2, StartSetting, Effect(Setting(0), Final(r).jobs[0], 0));
    r := CachesIt(window, r, 27, 2);
    r := Picks(window, r, 27, 0);
    r := Enters(window, r, 27, 0);
    BreachesOnce(window, r, 27, Executions);
    assert Final(r).agents == s.agents[1 := Pc.Running(0)][0 := Pc.Running(0)];
  }

  // -------------------------------------------------- destroyed while cached

  const DOOMED: Job := LIVE.(destroyed := true, queued := 1, flags := CREATED.(ready := true, willDestroy := true))

  /** A worker draws a job marked for destruction. */
  lemma DrawsInVain(window: nat, r: Run, k: nat) returns (r': Run)
    requires Ready(window, r, k, 1, 0) && Final(r).agents[1] == Idle
    requires Final(r).jobs[0].flags.willDestroy && HoldsOne(Final(r).cache)
    ensures Good(window, r', k) && Extends(r, r', k, 2) && HoldsNone(Final(r').cache)
    ensures Final(r').jobs == Final(r).jobs && Final(r').agents == Final(r).agents
  {
    var s := Final(r);
    PopsFirst(s.cache, window);
    r' := Then(window, r, k, 1, 0, PopIt);
    PushesFirst(Final(r').cache);
    r' := Then(window, r', k, 1, 0, PickAccess(true));
    assert Final(r').agents == s.agents;
    assert Final(r').jobs == s.jobs;
  }

  lemma DestroysCached(window: nat, r: Run) returns (r': Run)
    requires Ready(window, r, 9, 2, 0) && Final(r).agents[2] == Idle
    requires Final(r).jobs[0] == LIVE.(flags := CREATED.(ready := true))
    ensures Ready(window, r', 9, 1, 0) && Extends(r, r', 9, 2) && Final(r').cache == Final(r).cache
    ensures Final(r').agents == Final(r).agents && Final(r').jobs == Final(r).jobs[0 := DOOMED]
  {
    r' := Acts(window, r, 9, 2, Destroy, Effect(Destroying(0), DOOMED.(queued := 0), 0));
    r' := Acts(window, r', 9, 2, TryDestroy, Effect(Idle, DOOMED, 0));
    assert Final(r').agents == Final(r).agents;
    assert Final(r').jobs == Final(r).jobs[0 := DOOMED];
  }

  /** A user destroys a cached job: the teardown is refused because of READY, the pick
      because of the mark, and the job is left for good as `StuckForever` says. */
  lemma DestroyedWhileCached(window: nat, s: State) returns (r: Run)
    requires Init(window, s) && 0 < |s.jobs| && |s.agents| >= 3
    ensures Good(window, r, |r.actions|) && r.states[0] == s && |r.actions| == 9
    ensures 0 < |Final(r).jobs| && Final(r).agents == s.agents && Stuck(Final(r), 0)
  {
    r := ComesToBeCached(window, s, 9);
    r := DestroysCached(window, r);
    r := DrawsInVain(window, r, 9);
    TotalZero(s.agents, KToken, 0);
    assert Some(0) !in Final(r).cache.slots;
  }

  // ------------------------------------- the guard of destroy_now as it is coded

  /** destroy_now as documented: it goes on when mark_unstable succeeds. */
  function DocumentedNow(v: Job, j: nat): Effect {
    if CanMarkUnstable(v.flags) then Effect(Tear1(j), v.(phase := Tearing, flags := v.flags.(unstable := true)), 0)
    else Effect(Idle, v.(queued := v.queued + 1), 0)
  }

  /** As coded: mark_unstable returns 0 when it succeeds, which is taken for failure;
      and when it is refused the teardown goes on without the mark. */
  function CodedNow(v: Job, j: nat): Effect {
    if CanMarkUnstable(v.flags) then Effect(Idle, v.(queued := v.queued + 1, flags := v.flags.(unstable := true)), 0)
    else Effect(Tear1(j), v.(phase := Tearing), 0)
  }

  function Outcome(s: State, i: nat, j: nat, e: Effect): State
    requires i < |s.agents| && j < |s.jobs|
  {
    State(s.jobs[j := e.job], s.cache, s.agents[i := e.pc])
  }

  /** The documented guard always keeps the account of teardowns and the coded one
      never does. */
  lemma GuardsApart(window: nat, s: State, i: nat, j: nat)
    requires Core(window, s) && i < |s.agents| && j < |s.jobs| && s.agents[i] == Destroying(j)
    ensures Kept(Teardowns, Outcome(s, i, j, DocumentedNow(s.jobs[j], j)))
    ensures !Kept(Teardowns, Outcome(s, i, j, CodedNow(s.jobs[j], j)))
  {
    var v := s.jobs[j];
    assert DocumentedNow(v, j) == Do(v, Cached(s, j), j, s.agents[i], TryDestroy);
    assert Outcome(s, i, j, DocumentedNow(v, j)) == DoIt(window, s, i, j, TryDestroy);
    AgentStepInv(Teardowns, window, s, i, j, TryDestroy);
    CodedBreaks(window, s, i, j);
  }

  lemma CodedBreaks(window: nat, s: State, i: nat, j: nat)
    requires Core(window, s) && i < |s.agents| && j < |s.jobs| && s.agents[i] == Destroying(j)
    ensures !Kept(Teardowns, Outcome(s, i, j, CodedNow(s.jobs[j], j)))
  {
    var e := CodedNow(s.jobs[j], j);
    var s' := Outcome(s, i, j, e);
    KeptAt(Teardowns, s, j);
    TallyMoves(s.agents, i, e.pc, j);
    TallyCounts(s.agents, i, j);
    assert !UnstableOk(ViewOf(s', j));
    assert !Holds(Teardowns, ViewOf(s', j));
  }

  /** A proper run on which they differ where it hurts: agent 1 is inside run of job 0
      and agent 2 is about to tear it down; as documented the job is queued and runs
      on, as coded its teardown begins under the run. */
  lemma CodedGuardOverlapsRun(window: nat, s: State) returns (r: Run)
    requires Init(window, s) && 0 < |s.jobs| && |s.agents| >= 3
    ensures Good(window, r, |r.actions|) && r.states[0] == s
    ensures 0 < |Final(r).jobs| && Final(r).agents == s.agents[1 := Pc.Running(0)][2 := Destroying(0)]
    ensures var v := Final(r).jobs[0];
      && DocumentedNow(v, 0).pc == Idle && !DocumentedNow(v, 0).job.flags.unstable
      && CodedNow(v, 0).pc == Tear1(0)
      && Outcome(Final(r), 2, 0, CodedNow(v, 0)).agents[1] == Pc.Running(0)
  {
    r := ComesToRun(window, s, 12);
    r := Acts(window, r, 12, 2, Destroy, Effect(Destroying(0), REFUSED.(queued := 0), 0));
  }
}
