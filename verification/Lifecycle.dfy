/** All job slots, one ready cache and any number of agents: scheduling, running,
    teardown and reuse of slots at the granularity of single compare-and-swaps on
    meta_flag (pushes, pops and re-caching moves being one step each). */
module Lifecycle {
  import opened JobFlags
  import opened JobView
  import opened Options
  import RC = ReadyCache

  datatype State = State(jobs: seq<Job>, cache: RC.Cache, agents: seq<Pc>)

  datatype Action = ByAgent(i: nat, j: nat, act: Act) | Recache(k: nat)

  function Cached(s: State, j: nat): nat {
    multiset(s.cache.slots)[Some(j)]
  }

  /** Does PickAccess put the job back because its access count is full? */
  predicate PutsBack(v: Job) {
    !v.flags.unstable && !v.flags.willDestroy && v.flags.access >= 15
  }

  function CacheAfter(s: State, window: nat, j: nat, a: Act): RC.Cache
    requires window <= |s.cache.slots| && j < |s.jobs|
  {
    match a
    case PopIt => RC.Pop(s.cache, window)
    case Cache(_) => RC.Push(s.cache, j)
    case PickAccess(_) => if PutsBack(s.jobs[j]) then RC.Push(s.cache, j) else s.cache
    case _ => s.cache
  }

  ghost predicate Possible(window: nat, s: State, i: nat, j: nat, a: Act)
    requires window <= |s.cache.slots|
  {
    && i < |s.agents| && j < |s.jobs|
    && Enabled(s.jobs[j], Cached(s, j), j, s.agents[i], a)
    && (a.PopIt? ==> RC.Popped(s.cache, window) == Some(j))
    && (a.Cache? ==> a.kept == RC.HasRoom(s.cache))
    && (a.PickAccess? ==> a.kept == RC.HasRoom(s.cache))
  }

  function DoIt(window: nat, s: State, i: nat, j: nat, a: Act): State
    requires window <= |s.cache.slots| && i < |s.agents| && j < |s.jobs|
    requires Enabled(s.jobs[j], Cached(s, j), j, s.agents[i], a)
  {
    var e := Do(s.jobs[j], Cached(s, j), j, s.agents[i], a);
    State(s.jobs[j := e.job], CacheAfter(s, window, j, a), s.agents[i := e.pc])
  }

  ghost predicate Step(window: nat, s: State, action: Action, s': State) {
    && window <= |s.cache.slots|
    && match action
       case ByAgent(i, j, a) => Possible(window, s, i, j, a) && s' == DoIt(window, s, i, j, a)
       case Recache(k) =>
         && k < |s.cache.slots| && s.cache.slots[k].Some?
         && s' == s.(cache := RC.Recache(s.cache, k))
  }

  /** What an account asks of a step, see `JobView.Respects`. */
  predicate Heeds(account: Account, s: State, action: Action) {
    action.ByAgent? && action.j < |s.jobs| ==> Respects(account, s.jobs[action.j], action.act)
  }

  const FREE_JOB: Job := Job(NULL_FLAGS, 0, 0, 0, Free, 0, false, 0, {}, multiset{})

  ghost predicate Init(window: nat, s: State) {
    && 0 < window <= |s.cache.slots| == |s.jobs|
    && RC.IsEmpty(s.cache.slots) && s.cache.count == 0 && s.cache.peak == 0
    && (forall j | 0 <= j < |s.jobs| :: s.jobs[j] == FREE_JOB)
    && (forall i | 0 <= i < |s.agents| :: s.agents[i] == Idle)
  }

  // ------------------------------------------------------- counting agents

  function JobOf(pc: Pc): (r: int)
    ensures r >= -1
  {
    if pc.Idle? then -1 else pc.j
  }

  function Weight(pc: Pc, kind: Kind, j: nat): nat {
    One(JobOf(pc) == j && Is(pc, kind))
  }

  function Total(agents: seq<Pc>, kind: Kind, j: nat): nat {
    if agents == [] then 0
    else Total(agents[..|agents| - 1], kind, j) + Weight(agents[|agents| - 1], kind, j)
  }

  lemma {:induction false} TotalUpdate(agents: seq<Pc>, i: nat, pc: Pc, kind: Kind, j: nat)
    requires i < |agents|
    ensures Total(agents[i := pc], kind, j) == Total(agents, kind, j) - Weight(agents[i], kind, j) + Weight(pc, kind, j)
  {
    var n := |agents| - 1;
    var changed := agents[i := pc];
    if i < n {
      TotalUpdate(agents[..n], i, pc, kind, j);
      assert changed[..n] == agents[..n][i := pc];
    } else {
      assert changed[..n] == agents[..n];
    }
  }

  lemma {:induction false} TotalAtLeast(agents: seq<Pc>, i: nat, k: nat, kind: Kind, j: nat)
    requires i < |agents| && k < |agents|
    ensures Weight(agents[i], kind, j) + (if i == k then 0 else Weight(agents[k], kind, j)) <= Total(agents, kind, j)
  {
    var n := |agents| - 1;
    if i < n && k < n {
      TotalAtLeast(agents[..n], i, k, kind, j);
    } else if i < n {
      TotalAtLeast(agents[..n], i, i, kind, j);
    } else if k < n {
      TotalAtLeast(agents[..n], k, k, kind, j);
    }
  }

  lemma {:induction false} TotalZero(agents: seq<Pc>, kind: Kind, j: nat)
    requires forall i | 0 <= i < |agents| :: agents[i] == Idle
    ensures Total(agents, kind, j) == 0
  {
    if agents != [] {
      TotalZero(agents[..|agents| - 1], kind, j);
    }
  }

  function TallyOf(agents: seq<Pc>, j: nat): Tally {
    Tally(Total(agents, KAccess, j), Total(agents, KExec, j), Total(agents, KToken, j), Total(agents, KBuild, j),
          Total(agents, KTear1, j), Total(agents, KTear2, j), Total(agents, KTear3, j), Total(agents, KTear4, j),
          Total(agents, KDestroy, j), Total(agents, KSetting, j), Total(agents, KCleared, j))
  }

  function ViewOf(s: State, j: nat): View
    requires j < |s.jobs|
  {
    View(s.jobs[j], Cached(s, j), TallyOf(s.agents, j))
  }

  /** An agent that moves from one stage with job j (or idleness) to another. */
  lemma TallyMoves(agents: seq<Pc>, i: nat, pc: Pc, j: nat)
    requires i < |agents|
    requires agents[i] == Idle || JobOf(agents[i]) == j
    requires pc == Idle || JobOf(pc) == j
    ensures TallyOf(agents[i := pc], j) == Shift(TallyOf(agents, j), agents[i], pc)
  {
    forall kind: Kind
      ensures Total(agents[i := pc], kind, j) == Total(agents, kind, j) - One(Is(agents[i], kind)) + One(Is(pc, kind))
    {
      TotalUpdate(agents, i, pc, kind, j);
    }
  }

  /** Such a move is nothing to any other job. */
  lemma TallyStays(agents: seq<Pc>, i: nat, pc: Pc, j: nat, k: nat)
    requires i < |agents| && k != j
    requires agents[i] == Idle || JobOf(agents[i]) == j
    requires pc == Idle || JobOf(pc) == j
    ensures TallyOf(agents[i := pc], k) == TallyOf(agents, k)
  {
    forall kind: Kind
      ensures Total(agents[i := pc], kind, k) == Total(agents, kind, k)
    {
      TotalUpdate(agents, i, pc, kind, k);
    }
  }

  lemma TallyCounts(agents: seq<Pc>, i: nat, j: nat)
    requires i < |agents| && (agents[i] == Idle || JobOf(agents[i]) == j)
    ensures Counts(TallyOf(agents, j), agents[i]) && NonNegative(TallyOf(agents, j))
  {
    forall kind: Kind
      ensures Total(agents, kind, j) >= One(Is(agents[i], kind))
    {
      TotalAtLeast(agents, i, i, kind, j);
    }
  }

  lemma StaysWithJob(v: Job, cached: int, j: nat, p: Pc, a: Act)
    requires Enabled(v, cached, j, p, a)
    ensures p == Idle || JobOf(p) == j
    ensures var pc := Do(v, cached, j, p, a).pc; pc == Idle || JobOf(pc) == j
  {
  }

  // -------------------------------------------------------- counting slots

  lemma SlotCounts(slots: seq<RC.Slot>, e: nat, slot: RC.Slot, j: nat)
    requires e < |slots|
    ensures multiset(slots[e := slot])[Some(j)]
         == multiset(slots)[Some(j)] - One(slots[e] == Some(j)) + One(slot == Some(j))
  {
    assert multiset(slots[e := slot]) == multiset(slots) - multiset{slots[e]} + multiset{slot};
    assert slots[e] in multiset(slots);
  }

  lemma PushCounts(c: RC.Cache, j: nat, k: nat)
    ensures multiset(RC.Push(c, j).slots)[Some(k)]
         == multiset(c.slots)[Some(k)] + One(k == j && RC.HasRoom(c))
  {
    var e := RC.FirstEmpty(c.slots);
    if e < |c.slots| {
      SlotCounts(c.slots, e, Some(j), k);
    }
  }

  lemma PopCounts(c: RC.Cache, window: nat, j: nat, k: nat)
    requires window <= |c.slots| && RC.Popped(c, window) == Some(j)
    ensures multiset(RC.Pop(c, window).slots)[Some(k)] == multiset(c.slots)[Some(k)] - One(k == j)
  {
    SlotCounts(c.slots, RC.PopIndex(c, window).value, None, k);
  }

  lemma {:induction false} JobsBut(n: nat, j: nat)
    ensures |set k | 0 <= k < n && k != j :: Some(k)| == if j < n then n - 1 else n
  {
    var all := set k | 0 <= k < n && k != j :: Some(k);
    if n == 0 {
      assert all == {};
    } else {
      JobsBut(n - 1, j);
      var before := set k | 0 <= k < n - 1 && k != j :: Some(k);
      assert all == if n - 1 == j then before else before + {Some(n - 1)};
    }
  }

  /** Pigeonhole: full slots that hold distinct jobs below n, and not job j, are
      fewer than n. */
  lemma Pigeonhole(slots: seq<RC.Slot>, n: nat, j: nat)
    requires j < n && Some(j) !in slots
    requires forall e | 0 <= e < |slots| :: slots[e].Some? && slots[e].value < n
    requires forall k | 0 <= k < n :: multiset(slots)[Some(k)] <= 1
    ensures |slots| < n
  {
    JobsBut(n, j);
    var names := set k | 0 <= k < n && k != j :: Some(k);
    var held, room := multiset(slots), multiset(names);
    forall x | x in held
      ensures held[x] <= room[x]
    {
      var e :| 0 <= e < |slots| && slots[e] == x;
      assert x == Some(x.value) && x in names;
    }
    assert room == held + (room - held);
    assert |room| == |held| + |room - held|;
  }

  // -------------------------------------------------------------- invariant

  /** What an agent that compared gen equal relies on. */
  ghost predicate Pinned(s: State) {
    forall i | 0 <= i < |s.agents| && s.agents[i].Valid? ::
      s.agents[i].j < |s.jobs| && s.jobs[s.agents[i].j].gen == s.agents[i].g
  }

  ghost predicate CacheOk(c: RC.Cache, n: nat) {
    && RC.Consistent(c) && |c.slots| == n
    && forall e | 0 <= e < |c.slots| && c.slots[e].Some? :: c.slots[e].value < n
  }

  /** What every step keeps. */
  ghost predicate Shape(window: nat, s: State) {
    && 0 < window <= |s.jobs| && CacheOk(s.cache, |s.jobs|)
    && forall i | 0 <= i < |s.agents| :: JobOf(s.agents[i]) < |s.jobs|
  }

  /** An account holds for all jobs; that of accesses vouches for those who compared
      gen equal. */
  ghost predicate Kept(account: Account, s: State) {
    && (forall j | 0 <= j < |s.jobs| :: Holds(account, ViewOf(s, j)))
    && (account == Accesses ==> Pinned(s))
  }

  /** The account of teardowns, on which the others rest. */
  ghost predicate Core(window: nat, s: State) {
    Shape(window, s) && Kept(Teardowns, s)
  }

  /** All accounts but that of accesses. */
  ghost predicate Inv(window: nat, s: State) {
    Core(window, s) && Kept(Tokens, s) && Kept(Executions, s)
  }

  const NO_AGENTS: Tally := Tally(0, 0, 0, 0, 0, 0, 0, 0, 0, 0, 0)

  predicate IsFree(v: View) {
    v.job == FREE_JOB && v.cached == 0 && v.tally == NO_AGENTS
  }

  lemma FreeUnstable(v: View)
    requires IsFree(v)
    ensures UnstableOk(v)
  {
  }

  lemma FreeBits(v: View)
    requires IsFree(v)
    ensures ExecutingOk(v) && AccessOk(v)
  {
  }

  lemma FreeToken(v: View)
    requires IsFree(v)
    ensures TokenOk(v) && NotForgotten(v)
  {
  }

  lemma FreeHistory(v: View)
    requires IsFree(v)
    ensures PhaseOk(v) && HistoryOk(v) && DerivedOk(v)
  {
  }

  lemma FreeHolds(v: View, account: Account)
    requires IsFree(v)
    ensures Holds(account, v)
  {
    FreeUnstable(v);
    FreeBits(v);
    FreeToken(v);
    FreeHistory(v);
  }

  lemma InitView(window: nat, s: State, j: nat)
    requires Init(window, s) && j < |s.jobs|
    ensures ViewOf(s, j) == View(FREE_JOB, 0, NO_AGENTS)
  {
    forall kind: Kind
      ensures Total(s.agents, kind, j) == 0
    {
      TotalZero(s.agents, kind, j);
    }
    assert Some(j) !in s.cache.slots;
  }

  lemma InitKept(window: nat, s: State, account: Account)
    requires Init(window, s)
    ensures Shape(window, s) && Kept(account, s)
  {
    RC.OccupiedZero(s.cache.slots);
    forall j | 0 <= j < |s.jobs|
      ensures Holds(account, ViewOf(s, j))
    {
      InitView(window, s, j);
      FreeHolds(ViewOf(s, j), account);
    }
  }

  lemma KeptAt(account: Account, s: State, j: nat)
    requires Kept(account, s) && j < |s.jobs|
    ensures Holds(account, ViewOf(s, j))
  {
  }

  /** Whoever holds a job's READY token without having it cached finds room. */
  lemma RoomForToken(window: nat, s: State, i: nat, j: nat)
    requires Shape(window, s) && Kept(Tokens, s) && i < |s.agents| && j < |s.jobs|
    requires Is(s.agents[i], KToken) && JobOf(s.agents[i]) == j
    ensures RC.HasRoom(s.cache)
  {
    var slots := s.cache.slots;
    TotalAtLeast(s.agents, i, i, KToken, j);
    KeptAt(Tokens, s, j);
    assert Some(j) !in multiset(slots);
    if !RC.HasRoom(s.cache) {
      forall k | 0 <= k < |s.jobs|
        ensures multiset(slots)[Some(k)] <= 1
      {
        KeptAt(Tokens, s, k);
      }
      Pigeonhole(slots, |s.jobs|, j);
    }
  }

  lemma PushOk(c: RC.Cache, n: nat, j: nat, k: nat)
    requires CacheOk(c, n) && j < n
    ensures CacheOk(RC.Push(c, j), n)
    ensures multiset(RC.Push(c, j).slots)[Some(k)] == multiset(c.slots)[Some(k)] + One(k == j && RC.HasRoom(c))
  {
    RC.PushConsistent(c, j);
    PushCounts(c, j, k);
  }

  lemma PopOk(c: RC.Cache, n: nat, window: nat, j: nat, k: nat)
    requires CacheOk(c, n) && window <= n && RC.Popped(c, window) == Some(j)
    ensures CacheOk(RC.Pop(c, window), n)
    ensures multiset(RC.Pop(c, window).slots)[Some(k)] == multiset(c.slots)[Some(k)] - One(k == j)
  {
    RC.PopConsistent(c, window);
    PopCounts(c, window, j, k);
  }

  lemma CachedChange(v: Job, cached: int, j: nat, p: Pc, a: Act)
    requires Enabled(v, cached, j, p, a)
    ensures Do(v, cached, j, p, a).cached ==
            match a
            case PopIt => -1
            case Cache(kept) => One(kept)
            case PickAccess(kept) => One(kept && PutsBack(v))
            case _ => 0
  {
  }

  lemma CacheStep(window: nat, s: State, i: nat, j: nat, a: Act, k: nat)
    requires window <= |s.cache.slots| == |s.jobs| && CacheOk(s.cache, |s.jobs|) && Possible(window, s, i, j, a)
    ensures var c := CacheAfter(s, window, j, a);
            && CacheOk(c, |s.jobs|)
            && multiset(c.slots)[Some(k)] == Cached(s, k) +
               if k == j then Do(s.jobs[j], Cached(s, j), j, s.agents[i], a).cached else 0
  {
    CachedChange(s.jobs[j], Cached(s, j), j, s.agents[i], a);
    if a.PopIt? {
      PopOk(s.cache, |s.jobs|, window, j, k);
    } else {
      PushOk(s.cache, |s.jobs|, j, k);
    }
  }

  lemma PushesFindRoom(window: nat, s: State, i: nat, j: nat, a: Act)
    requires Shape(window, s) && Kept(Tokens, s) && Possible(window, s, i, j, a)
    ensures RoomAct(a)
  {
    if a.Cache? || a.PickAccess? {
      RoomForToken(window, s, i, j);
    }
  }

  lemma TallyAfter(window: nat, s: State, i: nat, j: nat, a: Act)
    requires window <= |s.cache.slots| && Possible(window, s, i, j, a)
    ensures Counts(TallyOf(s.agents, j), s.agents[i])
    ensures TallyOf(DoIt(window, s, i, j, a).agents, j)
         == Shift(TallyOf(s.agents, j), s.agents[i], Do(s.jobs[j], Cached(s, j), j, s.agents[i], a).pc)
  {
    StaysWithJob(s.jobs[j], Cached(s, j), j, s.agents[i], a);
    TallyMoves(s.agents, i, Do(s.jobs[j], Cached(s, j), j, s.agents[i], a).pc, j);
    TallyCounts(s.agents, i, j);
  }

  /** The view of the job acted on, after the act. */
  lemma ViewMoves(window: nat, s: State, i: nat, j: nat, a: Act)
    requires Shape(window, s) && Possible(window, s, i, j, a)
    ensures Counts(ViewOf(s, j).tally, s.agents[i])
    ensures ViewOf(DoIt(window, s, i, j, a), j) == After(ViewOf(s, j), j, s.agents[i], a)
  {
    CacheStep(window, s, i, j, a, j);
    TallyAfter(window, s, i, j, a);
  }

  /** Other jobs look as before. */
  lemma ViewStays(window: nat, s: State, i: nat, j: nat, a: Act, k: nat)
    requires Shape(window, s) && Possible(window, s, i, j, a) && k < |s.jobs| && k != j
    ensures ViewOf(DoIt(window, s, i, j, a), k) == ViewOf(s, k)
  {
    StaysWithJob(s.jobs[j], Cached(s, j), j, s.agents[i], a);
    CacheStep(window, s, i, j, a, k);
    TallyStays(s.agents, i, Do(s.jobs[j], Cached(s, j), j, s.agents[i], a).pc, j, k);
  }

  lemma TalliesOfTwo(agents: seq<Pc>, i: nat, k: nat, j: nat, kind: Kind)
    requires i < |agents| && k < |agents| && JobOf(agents[i]) == j && JobOf(agents[k]) == j
    ensures Total(agents, kind, j) >= One(Is(agents[k], kind)) && Total(agents, kind, j) >= One(Is(agents[i], kind))
    ensures i != k ==> Total(agents, kind, j) >= One(Is(agents[i], kind)) + One(Is(agents[k], kind))
  {
    TotalAtLeast(agents, i, k, kind, j);
    TotalAtLeast(agents, k, i, kind, j);
  }

  predicate TearsOrBuilds(pc: Pc) {
    pc.Tear1? || pc.Tear2? || pc.Tear3? || pc.Creating?
  }

  /** While somebody tears a job down or sets it up, nobody else does either; nobody
      carries it, runs it or has access to it, if the account of that holds. */
  lemma TeardownExcludes(window: nat, s: State, i: nat, k: nat, j: nat)
    requires Core(window, s) && i < |s.agents| && k < |s.agents| && j < |s.jobs|
    requires JobOf(s.agents[i]) == j && JobOf(s.agents[k]) == j && TearsOrBuilds(s.agents[i])
    ensures TearsOrBuilds(s.agents[k]) || s.agents[k].Tear4? ==> k == i
    ensures Kept(Tokens, s) ==> !Is(s.agents[k], KToken)
    ensures Kept(Executions, s) ==> !Is(s.agents[k], KExec)
    ensures Kept(Accesses, s) ==> !Is(s.agents[k], KAccess)
  {
    forall kind: Kind
      ensures Total(s.agents, kind, j) >= One(Is(s.agents[k], kind)) && Total(s.agents, kind, j) >= One(Is(s.agents[i], kind))
      ensures i != k ==> Total(s.agents, kind, j) >= One(Is(s.agents[i], kind)) + One(Is(s.agents[k], kind))
    {
      TalliesOfTwo(s.agents, i, k, j, kind);
    }
    KeptAt(Teardowns, s, j);
    var v := ViewOf(s, j);
    assert v.job.flags.unstable;
    assert v.tally.build + v.tally.tear1 + v.tally.tear2 + v.tally.tear3 == 1;
    forall account | Kept(account, s)
      ensures Holds(account, v)
    {
      KeptAt(account, s, j);
    }
  }

  lemma PinnedKept(window: nat, s: State, i: nat, j: nat, a: Act)
    requires Core(window, s) && Kept(Accesses, s) && Possible(window, s, i, j, a)
    ensures Pinned(DoIt(window, s, i, j, a))
  {
    var s' := DoIt(window, s, i, j, a);
    forall k | 0 <= k < |s'.agents| && s'.agents[k].Valid?
      ensures s'.agents[k].j < |s'.jobs| && s'.jobs[s'.agents[k].j].gen == s'.agents[k].g
    {
      if a.RaiseGen? && k != i && s.agents[k].j == j {
        TeardownExcludes(window, s, i, k, j);
      }
    }
  }

  lemma AgentShape(window: nat, s: State, i: nat, j: nat, a: Act)
    requires Shape(window, s) && Possible(window, s, i, j, a)
    ensures Shape(window, DoIt(window, s, i, j, a))
  {
    CacheStep(window, s, i, j, a, j);
    StaysWithJob(s.jobs[j], Cached(s, j), j, s.agents[i], a);
  }

  /** The job acted on: its account survives exactly when the act respects it. */
  lemma ViewStep(account: Account, window: nat, s: State, i: nat, j: nat, a: Act)
    requires Core(window, s) && Kept(account, s) && Possible(window, s, i, j, a)
    ensures Holds(account, ViewOf(DoIt(window, s, i, j, a), j)) <==> Respects(account, s.jobs[j], a)
  {
    ViewMoves(window, s, i, j, a);
    KeptAt(Teardowns, s, j);
    KeptAt(account, s, j);
    if account == Tokens {
      PushesFindRoom(window, s, i, j, a);
    }
    ActInv(account, ViewOf(s, j), j, s.agents[i], a);
  }

  lemma AgentStepInv(account: Account, window: nat, s: State, i: nat, j: nat, a: Act)
    requires Core(window, s) && Kept(account, s) && Possible(window, s, i, j, a)
    ensures Kept(account, DoIt(window, s, i, j, a)) <==> Respects(account, s.jobs[j], a)
  {
    var s' := DoIt(window, s, i, j, a);
    ViewStep(account, window, s, i, j, a);
    if Respects(account, s.jobs[j], a) {
      forall k | 0 <= k < |s'.jobs| && k != j
        ensures Holds(account, ViewOf(s', k))
      {
        KeptAt(account, s, k);
        ViewStays(window, s, i, j, a, k);
      }
      if account == Accesses {
        PinnedKept(window, s, i, j, a);
      }
    } else {
      assert !Holds(account, ViewOf(s', j));
    }
  }

  lemma RecacheViews(window: nat, s: State, k: nat, s': State)
    requires Shape(window, s) && Step(window, s, Recache(k), s')
    ensures Shape(window, s') && s'.jobs == s.jobs && s'.agents == s.agents
    ensures forall j | 0 <= j < |s.jobs| :: ViewOf(s', j) == ViewOf(s, j)
  {
    RC.RecacheConsistent(s.cache, k);
    RC.RecacheSlots(s.cache, k);
    RC.RecacheMultiset(s.cache.slots, k);
  }

  lemma StepShape(window: nat, s: State, action: Action, s': State)
    requires Shape(window, s) && Step(window, s, action, s')
    ensures Shape(window, s') && |s'.jobs| == |s.jobs|
  {
    match action
    case ByAgent(i, j, a) => AgentShape(window, s, i, j, a);
    case Recache(k) => RecacheViews(window, s, k, s');
  }

  /** Each step keeps each account exactly when it heeds it.  A freed slot's word is 0,
      which bans nothing: a stale agent can still take access there, mark it READY, or
      run it, and section_claim then overwrites the word. */
  lemma StepKeeps(account: Account, window: nat, s: State, action: Action, s': State)
    requires Core(window, s) && Kept(account, s) && Step(window, s, action, s')
    ensures Kept(account, s') <==> Heeds(account, s, action)
  {
    match action
    case ByAgent(i, j, a) => AgentStepInv(account, window, s, i, j, a);
    case Recache(k) =>
      RecacheViews(window, s, k, s');
      forall j | 0 <= j < |s'.jobs|
        ensures Holds(account, ViewOf(s', j))
      {
        KeptAt(account, s, j);
      }
  }

  /** The accounts together. */
  lemma StepInv(window: nat, s: State, action: Action, s': State)
    requires Inv(window, s) && Step(window, s, action, s')
    ensures Inv(window, s') <==>
            Heeds(Teardowns, s, action) && Heeds(Tokens, s, action) && Heeds(Executions, s, action)
  {
    StepShape(window, s, action, s');
    StepKeeps(Teardowns, window, s, action, s');
    StepKeeps(Tokens, window, s, action, s');
    StepKeeps(Executions, window, s, action, s');
  }

  /** schedi_job_destroy by whoever calls it: its account survives exactly when the job
      is live and not marked for destruction.  The worker whose run failed destroys
      its job without looking, so a user's destroy of a running job is enough to break
      this. */
  lemma DestroyExactlyOnce(window: nat, s: State, i: nat, j: nat)
    requires Core(window, s) && Possible(window, s, i, j, Destroy)
    ensures Core(window, DoIt(window, s, i, j, Destroy))
       <==> s.jobs[j].phase == Live && !s.jobs[j].flags.willDestroy
  {
    AgentShape(window, s, i, j, Destroy);
    AgentStepInv(Teardowns, window, s, i, j, Destroy);
  }

  /** section_claim: each account survives exactly when the word it overwrites is clean
      of the bits concerned. */
  lemma ClaimNeedsCleanWord(window: nat, s: State, i: nat, j: nat)
    requires Core(window, s) && Possible(window, s, i, j, Claim)
    ensures var f, s' := s.jobs[j].flags, DoIt(window, s, i, j, Claim);
      && Core(window, s')
      && (Kept(Tokens, s) ==> (Kept(Tokens, s') <==> !f.ready))
      && (Kept(Executions, s) ==> (Kept(Executions, s') <==> !f.executing))
      && (Kept(Accesses, s) ==> (Kept(Accesses, s') <==> f.access == 0))
  {
    AgentShape(window, s, i, j, Claim);
    forall account | Kept(account, s)
      ensures Kept(account, DoIt(window, s, i, j, Claim)) <==> Respects(account, s.jobs[j], Claim)
    {
      AgentStepInv(account, window, s, i, j, Claim);
    }
    assert Kept(Teardowns, s);
  }

  ghost predicate NoneAt(agents: seq<Pc>, kind: Kind, j: nat) {
    forall i | 0 <= i < |agents| && JobOf(agents[i]) == j :: !Is(agents[i], kind)
  }

  lemma {:induction false} TotalNone(agents: seq<Pc>, kind: Kind, j: nat)
    ensures Total(agents, kind, j) == 0 <==> NoneAt(agents, kind, j)
  {
    if agents != [] {
      var n := |agents| - 1;
      TotalNone(agents[..n], kind, j);
      assert NoneAt(agents[..n], kind, j) && Weight(agents[n], kind, j) == 0 <==> NoneAt(agents, kind, j);
    }
  }

  /** When a claim respects the accounts, in terms of who still deals with the slot: no
      cache slot holds it and no agent carries it to or from the cache; no agent
      executes it; none has access to it, or had and never gave it back. */
  lemma ClaimProperExactlyWhen(window: nat, s: State, j: nat)
    requires Core(window, s) && j < |s.jobs| && s.jobs[j].phase == Free
    ensures Kept(Tokens, s) ==>
              (Respects(Tokens, s.jobs[j], Claim) <==> Cached(s, j) == 0 && NoneAt(s.agents, KToken, j))
    ensures Kept(Executions, s) ==> (Respects(Executions, s.jobs[j], Claim) <==> NoneAt(s.agents, KExec, j))
    ensures Kept(Accesses, s) ==>
              (Respects(Accesses, s.jobs[j], Claim) <==> NoneAt(s.agents, KAccess, j) && s.jobs[j].leaked == 0)
  {
    KeptAt(Teardowns, s, j);
    forall account | Kept(account, s)
      ensures Holds(account, ViewOf(s, j))
    {
      KeptAt(account, s, j);
    }
    TotalNone(s.agents, KToken, j);
    TotalNone(s.agents, KExec, j);
    TotalNone(s.agents, KAccess, j);
  }

  /** Destroyed while it was cached, and drawn: READY will never be cleared. */
  ghost predicate Stuck(s: State, j: nat)
    requires j < |s.jobs|
  {
    StuckView(ViewOf(s, j))
  }

  lemma StuckStep(window: nat, s: State, action: Action, s': State, j: nat)
    requires Shape(window, s) && Step(window, s, action, s') && j < |s.jobs|
    requires Stuck(s, j) && Untorn(ViewOf(s, j))
    ensures |s'.jobs| == |s.jobs| && Stuck(s', j) && Untorn(ViewOf(s', j))
  {
    match action
    case ByAgent(i, k, a) =>
      if k == j {
        ViewMoves(window, s, i, j, a);
        StuckAct(ViewOf(s, j), j, s.agents[i], a);
      } else {
        ViewStays(window, s, i, k, a, j);
      }
    case Recache(k) => RecacheViews(window, s, k, s');
  }

  // -------------------------------------------------------------------- runs

  ghost predicate IsRun(window: nat, run: seq<State>, actions: seq<Action>) {
    && |run| == |actions| + 1 && Init(window, run[0])
    && forall i | 0 <= i < |actions| :: Step(window, run[i], actions[i], run[i + 1])
  }

  /** The first n steps heed an account. */
  ghost predicate RunHeeds(account: Account, run: seq<State>, actions: seq<Action>, n: nat)
    requires n <= |actions| <= |run|
  {
    forall i | 0 <= i < n :: Heeds(account, run[i], actions[i])
  }

  lemma StepAt(window: nat, run: seq<State>, actions: seq<Action>, i: nat)
    requires IsRun(window, run, actions) && i < |actions|
    ensures Step(window, run[i], actions[i], run[i + 1])
  {
  }

  lemma {:induction false} RunShape(window: nat, run: seq<State>, actions: seq<Action>, n: nat)
    requires IsRun(window, run, actions) && n < |run|
    ensures Shape(window, run[n]) && |run[n].jobs| == |run[0].jobs|
  {
    if n == 0 {
      InitKept(window, run[0], Teardowns);
    } else {
      RunShape(window, run, actions, n - 1);
      StepAt(window, run, actions, n - 1);
      StepShape(window, run[n - 1], actions[n - 1], run[n]);
    }
  }

  /** An account holds in every run that heeds it and that of teardowns. */
  lemma {:induction false} RunKeeps(account: Account, window: nat, run: seq<State>, actions: seq<Action>, n: nat)
    requires IsRun(window, run, actions) && n < |run|
    requires RunHeeds(Teardowns, run, actions, n) && RunHeeds(account, run, actions, n)
    ensures Core(window, run[n]) && Kept(account, run[n])
  {
    RunShape(window, run, actions, n);
    if n == 0 {
      InitKept(window, run[0], Teardowns);
      InitKept(window, run[0], account);
    } else {
      RunKeeps(account, window, run, actions, n - 1);
      StepAt(window, run, actions, n - 1);
      StepKeeps(Teardowns, window, run[n - 1], actions[n - 1], run[n]);
      StepKeeps(account, window, run[n - 1], actions[n - 1], run[n]);
    }
  }

  /** No agent is between marking and caching, or between popping and unmarking,
      job j. */
  ghost predicate Settled(s: State, j: nat) {
    NoneAt(s.agents, KToken, j)
  }

  /** Exactly-once scheduling: a job's READY is set iff exactly one cache slot or one
      agent carries it, so a settled job not marked for destruction is READY iff
      exactly one cache slot holds it. */
  lemma ExactlyOnce(window: nat, run: seq<State>, actions: seq<Action>, n: nat, j: nat)
    requires IsRun(window, run, actions) && n < |run| && j < |run[n].jobs|
    requires RunHeeds(Teardowns, run, actions, n) && RunHeeds(Tokens, run, actions, n)
    requires !run[n].jobs[j].flags.willDestroy
    ensures Cached(run[n], j) + Total(run[n].agents, KToken, j) == One(run[n].jobs[j].flags.ready)
    ensures Settled(run[n], j) ==> (run[n].jobs[j].flags.ready <==> Cached(run[n], j) == 1)
  {
    RunKeeps(Tokens, window, run, actions, n);
    KeptAt(Tokens, run[n], j);
    if Settled(run[n], j) {
      TotalNone(run[n].agents, KToken, j);
    }
  }

  /** No ready job is forgotten: a live job that was marked READYBASIC, with enough
      sockets ready, no request out and enough leaves completed, is READY, or some agent
      is about to set it or to clear READYBASIC. */
  lemma NeverForgotten(window: nat, run: seq<State>, actions: seq<Action>, n: nat, j: nat)
    requires IsRun(window, run, actions) && n < |run| && j < |run[n].jobs|
    requires RunHeeds(Teardowns, run, actions, n) && RunHeeds(Tokens, run, actions, n)
    requires run[n].jobs[j].phase == Live && !run[n].jobs[j].flags.willDestroy && Met(run[n].jobs[j])
    ensures run[n].jobs[j].flags.ready
         || Total(run[n].agents, KSetting, j) >= 1 || Total(run[n].agents, KCleared, j) >= 1
  {
    RunKeeps(Tokens, window, run, actions, n);
    KeptAt(Teardowns, run[n], j);
    KeptAt(Tokens, run[n], j);
  }

  /** In particular a run that returned 1 is not forgotten: its job comes out marked
      READYBASIC, and if the rest is met too, READY or about to be. */
  lemma ReturnAgainIsHeard(window: nat, run: seq<State>, actions: seq<Action>, n: nat, i: nat, j: nat)
    requires IsRun(window, run, actions) && n < |actions| && actions[n] == ByAgent(i, j, ReturnAgain)
    requires RunHeeds(Teardowns, run, actions, n + 1) && RunHeeds(Tokens, run, actions, n + 1)
    requires j < |run[n].jobs| && run[n].jobs[j].phase == Live && !run[n].jobs[j].flags.willDestroy
    ensures j < |run[n + 1].jobs|
    ensures var v := run[n + 1].jobs[j];
      && v.flags.readyBasic
      && (v.flags.avSock >= v.needSock && v.flags.waiting == 0 && v.flags.avJobs >= v.needJobs ==>
            v.flags.ready
            || Total(run[n + 1].agents, KSetting, j) >= 1 || Total(run[n + 1].agents, KCleared, j) >= 1)
  {
    RunKeeps(Teardowns, window, run, actions, n);
    KeptAt(Teardowns, run[n], j);
    StepAt(window, run, actions, n);
    RerunIsHeard(run[n].jobs[j], j);
    if Met(run[n + 1].jobs[j]) {
      NeverForgotten(window, run, actions, n + 1, j);
    }
  }

  /** setready and pickready never find the cache full. */
  lemma CacheNeverFull(window: nat, run: seq<State>, actions: seq<Action>, n: nat, i: nat)
    requires IsRun(window, run, actions) && n < |run| && i < |run[n].agents|
    requires RunHeeds(Teardowns, run, actions, n) && RunHeeds(Tokens, run, actions, n)
    requires run[n].agents[i].Marked? || run[n].agents[i].PickPopped?
    ensures RC.HasRoom(run[n].cache)
  {
    RunKeeps(Tokens, window, run, actions, n);
    RoomForToken(window, run[n], i, run[n].agents[i].j);
  }

  /** A job drawn from the cache is never UNSTABLE: pickready's check for that is as
      useless as its comment suspects.  It is marked for destruction exactly when
      destroy was called on this very job. */
  lemma DrawnIsStable(window: nat, run: seq<State>, actions: seq<Action>, n: nat, i: nat)
    requires IsRun(window, run, actions) && n < |run| && i < |run[n].agents| && run[n].agents[i].PickPopped?
    requires RunHeeds(Teardowns, run, actions, n) && RunHeeds(Tokens, run, actions, n)
    ensures run[n].agents[i].j < |run[n].jobs|
    ensures var v := run[n].jobs[run[n].agents[i].j];
            !v.flags.unstable && (v.flags.willDestroy <==> v.phase == Live && v.destroyed)
  {
    RunKeeps(Tokens, window, run, actions, n);
    var j := run[n].agents[i].j;
    KeptAt(Teardowns, run[n], j);
    KeptAt(Tokens, run[n], j);
    TotalAtLeast(run[n].agents, i, i, KToken, j);
  }

  /** No two workers are inside run of the same job. */
  lemma OneRunner(window: nat, run: seq<State>, actions: seq<Action>, n: nat, i: nat, k: nat)
    requires IsRun(window, run, actions) && n < |run| && i < |run[n].agents| && k < |run[n].agents|
    requires RunHeeds(Teardowns, run, actions, n) && RunHeeds(Executions, run, actions, n)
    requires run[n].agents[i].Running? && run[n].agents[k].Running? && run[n].agents[i].j == run[n].agents[k].j
    ensures i == k
  {
    RunKeeps(Executions, window, run, actions, n);
    var j := run[n].agents[i].j;
    KeptAt(Executions, run[n], j);
    TotalAtLeast(run[n].agents, i, k, KExec, j);
  }

  /** Teardown is alone: while one agent tears job j down or sets it up, no other
      agent does either; nobody carries it, runs it or has access to it, each as long
      as claims have found no such bit in the word. */
  lemma TeardownAlone(window: nat, run: seq<State>, actions: seq<Action>, n: nat, i: nat, k: nat)
    requires IsRun(window, run, actions) && n < |run| && RunHeeds(Teardowns, run, actions, n)
    requires i < |run[n].agents| && k < |run[n].agents| && k != i
    requires TearsOrBuilds(run[n].agents[i]) && JobOf(run[n].agents[k]) == run[n].agents[i].j
    ensures !TearsOrBuilds(run[n].agents[k]) && !run[n].agents[k].Tear4?
    ensures RunHeeds(Tokens, run, actions, n) ==> !Is(run[n].agents[k], KToken)
    ensures RunHeeds(Executions, run, actions, n) ==> !Is(run[n].agents[k], KExec)
    ensures RunHeeds(Accesses, run, actions, n) ==> !Is(run[n].agents[k], KAccess)
  {
    forall account | RunHeeds(account, run, actions, n)
      ensures Kept(account, run[n])
    {
      RunKeeps(account, window, run, actions, n);
    }
    RunKeeps(Teardowns, window, run, actions, n);
    TeardownExcludes(window, run[n], i, k, run[n].agents[i].j);
  }

  /** The destructor runs once for each incarnation that was torn down, and never
      for one that was not. */
  lemma DestructorOnce(window: nat, run: seq<State>, actions: seq<Action>, n: nat, j: nat, g: nat)
    requires IsRun(window, run, actions) && n < |run| && j < |run[n].jobs| && RunHeeds(Teardowns, run, actions, n)
    ensures run[n].jobs[j].dtors[g] <= 1
    ensures run[n].jobs[j].dtors[g] == 1 ==> g in run[n].jobs[j].born && g < run[n].jobs[j].gen
    ensures (g in run[n].jobs[j].born && g < run[n].jobs[j].gen && Total(run[n].agents, KTear2, j) == 0) ==>
              run[n].jobs[j].dtors[g] == 1
  {
    RunKeeps(Teardowns, window, run, actions, n);
    KeptAt(Teardowns, run[n], j);
  }

  /** (slot, gen) never names two incarnations: a create always meets a gen under
      which nothing was created in its slot before. */
  lemma FreshIncarnation(window: nat, run: seq<State>, actions: seq<Action>, n: nat, i: nat, j: nat, s': State)
    requires IsRun(window, run, actions) && n < |run| && RunHeeds(Teardowns, run, actions, n)
    requires Step(window, run[n], ByAgent(i, j, Create), s')
    ensures run[n].jobs[j].gen !in run[n].jobs[j].born
    ensures run[n].jobs[j].gen in s'.jobs[j].born
  {
    RunKeeps(Teardowns, window, run, actions, n);
    KeptAt(Teardowns, run[n], j);
    TallyCounts(run[n].agents, i, j);
  }

  /** A gen compared equal under access stays equal until the access is given
      back. */
  lemma ValidatedAccessPins(window: nat, run: seq<State>, actions: seq<Action>, n: nat, i: nat)
    requires IsRun(window, run, actions) && n < |run| && i < |run[n].agents| && run[n].agents[i].Valid?
    requires RunHeeds(Teardowns, run, actions, n) && RunHeeds(Accesses, run, actions, n)
    ensures run[n].agents[i].j < |run[n].jobs|
    ensures run[n].jobs[run[n].agents[i].j].gen == run[n].agents[i].g
  {
    RunKeeps(Accesses, window, run, actions, n);
  }

  lemma {:induction false} StuckStays(window: nat, run: seq<State>, actions: seq<Action>, m: nat, n: nat, j: nat)
    requires IsRun(window, run, actions) && m <= n < |run| && j < |run[m].jobs|
    requires Stuck(run[m], j) && Untorn(ViewOf(run[m], j))
    ensures j < |run[n].jobs| && Stuck(run[n], j) && Untorn(ViewOf(run[n], j))
  {
    if m < n {
      StuckStays(window, run, actions, m, n - 1, j);
      RunShape(window, run, actions, n - 1);
      StepAt(window, run, actions, n - 1);
      StuckStep(window, run[n - 1], actions[n - 1], run[n], j);
    }
  }

  /** A job destroyed while it was cached, once drawn, is never torn down: it stays
      live, marked and READY whatever is done afterwards, further destroys included. */
  lemma StuckForever(window: nat, run: seq<State>, actions: seq<Action>, m: nat, n: nat, j: nat)
    requires IsRun(window, run, actions) && m <= n < |run| && RunHeeds(Teardowns, run, actions, m)
    requires j < |run[m].jobs| && Stuck(run[m], j)
    ensures j < |run[n].jobs| && Stuck(run[n], j)
  {
    RunKeeps(Teardowns, window, run, actions, m);
    KeptAt(Teardowns, run[m], j);
    StuckStays(window, run, actions, m, n, j);
  }

  /** Entries of the destroy queue and attempts under way, for the first n jobs. */
  function DestroyLoad(s: State, n: nat): nat
    requires n <= |s.jobs|
  {
    if n == 0 then 0 else DestroyLoad(s, n - 1) + s.jobs[n - 1].queued + Total(s.agents, KDestroy, n - 1)
  }

  lemma {:induction false} DestroyLoadBounded(s: State, n: nat)
    requires Kept(Teardowns, s) && n <= |s.jobs|
    ensures DestroyLoad(s, n) <= n
  {
    if n > 0 {
      DestroyLoadBounded(s, n - 1);
      KeptAt(Teardowns, s, n - 1);
    }
  }

  /** The destroy queue never holds more than one entry for a slot, checked-out ones
      included: 256 slots cannot fill its 1024 places, so the losses of
      `DestroyQueue.LostExactlyAtFull` do not occur. */
  lemma DestroyQueueNeverFills(window: nat, run: seq<State>, actions: seq<Action>, n: nat)
    requires IsRun(window, run, actions) && n < |run| && RunHeeds(Teardowns, run, actions, n)
    ensures DestroyLoad(run[n], |run[n].jobs|) <= |run[n].jobs|
  {
    RunKeeps(Teardowns, window, run, actions, n);
    DestroyLoadBounded(run[n], |run[n].jobs|);
  }

  // ------------------------------------------------------------ nobody is stuck

  /** What an agent in the middle of something does next. */
  function NextAct(pc: Pc, room: bool): Act
    requires pc != Idle
  {
    match pc
    case Setting(_) => MarkReady
    case Marked(_) => Cache(room)
    case PickPopped(_) => PickAccess(room)
    case PickAccessed(_) => PickUnready
    case PickCleared(_) => PickUnbasic
    case Picked(_) => MarkExecuting
    case Executing(_) => DropAccess
    case Running(_) => RunReturns
    case Finished(_) => ReturnZero
    case Access(_, _) => CompareGen
    case Valid(_, _) => Give
    case Leaving(_) => Give
    case Destroying(_) => TryDestroy
    case Tear1(_) => RaiseGen
    case Tear2(_) => RunDtor
    case Tear3(_) => ClearFlags
    case Tear4(_) => ReleaseSlot
    case Creating(_) => Create
  }

  /** Whatever the others do, an agent in the middle of something can go on; one whose run
      has returned can as well return 1 or destroy the job. */
  lemma GoesOn(window: nat, s: State, i: nat) returns (s': State)
    requires Shape(window, s) && i < |s.agents| && s.agents[i] != Idle
    ensures Step(window, s, ByAgent(i, s.agents[i].j, NextAct(s.agents[i], RC.HasRoom(s.cache))), s')
    ensures s.agents[i].Finished? ==>
              && Possible(window, s, i, s.agents[i].j, ReturnAgain) && Possible(window, s, i, s.agents[i].j, Destroy)
  {
    var j := s.agents[i].j;
    s' := DoIt(window, s, i, j, NextAct(s.agents[i], RC.HasRoom(s.cache)));
  }

  // ---------------------------------------------- after a claim that finds an access

  /** One step that leaves the cache alone. */
  lemma Act1(window: nat, s: State, i: nat, j: nat, a: Act, e: Effect) returns (s': State)
    requires window <= |s.cache.slots| && i < |s.agents| && j < |s.jobs|
    requires !a.PopIt? && !a.Cache? && !a.PickAccess?
    requires Enabled(s.jobs[j], Cached(s, j), j, s.agents[i], a)
    requires Do(s.jobs[j], Cached(s, j), j, s.agents[i], a) == e
    ensures Step(window, s, ByAgent(i, j, a), s')
    ensures s' == State(s.jobs[j := e.job], s.cache, s.agents[i := e.pc])
  {
    s' := DoIt(window, s, i, j, a);
  }

  lemma ClaimAndCreate(window: nat, s: State, j: nat, maker: nat) returns (s1: State, s2: State)
    requires window <= |s.cache.slots| && j < |s.jobs| && maker < |s.agents|
    requires s.jobs[j].phase == Free && s.agents[maker] == Idle
    ensures Step(window, s, ByAgent(maker, j, Claim), s1)
    ensures Step(window, s1, ByAgent(maker, j, Create), s2)
    ensures s2.cache == s.cache && s2.agents == s.agents && |s2.jobs| == |s.jobs|
    ensures var v := s2.jobs[j]; v.flags == CREATED && v.gen == s.jobs[j].gen && v.phase == Live && !v.destroyed
  {
    var v := s.jobs[j];
    s1 := Act1(window, s, maker, j, Claim, Effect(Creating(j), v.(phase := Claimed, flags := CLAIMED), 0));
    s2 := Act1(window, s1, maker, j, Create,
               Effect(Idle, v.(phase := Live, flags := CREATED, needSock := 0, needJobs := 0,
                               destroyed := false, born := v.born + {v.gen}), 0));
    assert s2.agents == s.agents;
  }

  lemma TakeAndCompare(window: nat, s: State, j: nat, user: nat) returns (s1: State, s2: State)
    requires window <= |s.cache.slots| && j < |s.jobs| && user < |s.agents|
    requires s.jobs[j].flags == CREATED && s.agents[user] == Idle
    ensures Step(window, s, ByAgent(user, j, TakeAccess(s.jobs[j].gen)), s1)
    ensures Step(window, s1, ByAgent(user, j, CompareGen), s2)
    ensures s2.cache == s.cache && s2.agents == s.agents[user := Valid(j, s.jobs[j].gen)]
    ensures s2.jobs == s.jobs[j := s.jobs[j].(flags := CREATED.(access := 1))]
  {
    var v := s.jobs[j];
    var v' := v.(flags := CREATED.(access := 1));
    s1 := Act1(window, s, user, j, TakeAccess(v.gen), Effect(Access(j, v.gen), v', 0));
    s2 := Act1(window, s1, user, j, CompareGen, Effect(Valid(j, v.gen), v', 0));
    assert s2.jobs == s.jobs[j := v'];
  }

  lemma GiveAndDestroy(window: nat, s: State, j: nat, stale: nat, killer: nat)
    returns (s1: State, s2: State, s3: State)
    requires window <= |s.cache.slots| && j < |s.jobs| && stale < |s.agents| && killer < |s.agents| && stale != killer
    requires s.jobs[j].flags == CREATED.(access := 1) && s.jobs[j].phase == Live && !s.jobs[j].destroyed
    requires s.agents[stale] == Leaving(j) && s.agents[killer] == Idle
    ensures Step(window, s, ByAgent(stale, j, Give), s1)
    ensures Step(window, s1, ByAgent(killer, j, Destroy), s2)
    ensures Step(window, s2, ByAgent(killer, j, TryDestroy), s3)
    ensures s3.agents == s.agents[stale := Idle][killer := Tear1(j)]
  {
    var v := s.jobs[j];
    var v1 := v.(flags := CREATED);
    var v2 := v.(destroyed := true, flags := CREATED.(willDestroy := true));
    s1 := Act1(window, s, stale, j, Give, Effect(Idle, v1, 0));
    s2 := Act1(window, s1, killer, j, Destroy, Effect(Destroying(j), v2, 0));
    s3 := Act1(window, s2, killer, j, TryDestroy,
               Effect(Tear1(j), v2.(phase := Tearing, flags := CREATED.(willDestroy := true, unstable := true)), 0));
  }

  /** What goes wrong otherwise.  One agent still has to give back an access it
      took on the free slot; the slot is claimed and created again; a second agent
      takes access and finds its gen equal; the first gives back what is by now the
      second's; and a destroyer starts the teardown under the second's feet. */
  lemma StaleAccessBreaksTeardown(window: nat, s: State, j: nat, stale: nat, maker: nat, user: nat, killer: nat)
    returns (s1: State, s2: State, s3: State, s4: State, s5: State, s6: State, s7: State)
    requires window <= |s.cache.slots| && j < |s.jobs| && s.jobs[j].phase == Free
    requires stale < |s.agents| && maker < |s.agents| && user < |s.agents| && killer < |s.agents|
    requires user != killer
    requires s.agents[stale] == Leaving(j)
    requires s.agents[maker] == s.agents[user] == s.agents[killer] == Idle
    ensures Step(window, s, ByAgent(maker, j, Claim), s1)
    ensures Step(window, s1, ByAgent(maker, j, Create), s2)
    ensures Step(window, s2, ByAgent(user, j, TakeAccess(s2.jobs[j].gen)), s3)
    ensures Step(window, s3, ByAgent(user, j, CompareGen), s4)
    ensures Step(window, s4, ByAgent(stale, j, Give), s5)
    ensures Step(window, s5, ByAgent(killer, j, Destroy), s6)
    ensures Step(window, s6, ByAgent(killer, j, TryDestroy), s7)
    ensures s7.agents[killer] == Tear1(j) && s7.agents[user] == Valid(j, s.jobs[j].gen)
  {
    s1, s2 := ClaimAndCreate(window, s, j, maker);
    s3, s4 := TakeAndCompare(window, s2, j, user);
    s5, s6, s7 := GiveAndDestroy(window, s4, j, stale, killer);
  }
}
