/** One job slot as seen by all agents together: its record, how often the ready
    cache holds it, and how many agents are at which stage with it.  Every step of
    the system is, for the job it touches, one of the few record changes below
    together with one agent moving from stage to stage. */
module JobView {
  import opened JobFlags

  /** Agents are threads of any kind: workers, the epoll thread, users. */
  datatype Pc =
    | Idle
    | Setting(j: nat)              // in setready, about to mark_ready
    | Marked(j: nat)               // READY set by this agent, about to cache
    | PickPopped(j: nat)           // popped it from the cache
    | PickAccessed(j: nat)         // holds access, about to unmark_ready
    | PickCleared(j: nat)          // about to unmark_readybasic
    | Picked(j: nat)               // about to mark_executing
    | Executing(j: nat)            // marked, about to give the access back
    | Running(j: nat)              // inside job->run
    | Finished(j: nat)             // unmarked executing
    | Access(j: nat, g: nat)       // holds access, gen not compared yet
    | Valid(j: nat, g: nat)        // gen compared equal
    | Leaving(j: nat)              // about to unmark_access
    | Destroying(j: nat)           // marked WLLDESTROY, about to mark_unstable
    | Tear1(j: nat)                // marked UNSTABLE, about to raise gen
    | Tear2(j: nat)                // about to run the destructor
    | Tear3(j: nat)                // about to clear meta_flag
    | Tear4(j: nat)                // about to release the slot
    | Creating(j: nat)             // claimed, about to store the created flags

  datatype Phase = Free | Claimed | Live | Tearing

  /** `phase`, `leaked`, `destroyed`, `queued`, `born` and `dtors` record history:
      where the slot is between claim and release, accesses never given back,
      whether destroy was called on this incarnation, how often the slot sits in
      the destroy queue, the gens created here, the gens whose destructor ran. */
  datatype Job = Job(
    flags: Flags, gen: nat, needSock: int, needJobs: int,
    phase: Phase, leaked: nat, destroyed: bool, queued: nat,
    born: set<nat>, dtors: multiset<nat>)

  datatype Kind =
    | KAccess | KExec | KToken | KBuild | KTear1 | KTear2 | KTear3 | KTear4
    | KDestroy | KSetting | KCleared

  predicate Is(pc: Pc, kind: Kind) {
    match kind
    case KAccess =>
      pc.PickAccessed? || pc.PickCleared? || pc.Picked? || pc.Executing? || pc.Access? || pc.Valid? || pc.Leaving?
    case KExec => pc.Executing? || pc.Running?
    case KToken => pc.Marked? || pc.PickPopped? || pc.PickAccessed?
    case KBuild => pc.Creating?
    case KTear1 => pc.Tear1?
    case KTear2 => pc.Tear2?
    case KTear3 => pc.Tear3?
    case KTear4 => pc.Tear4?
    case KDestroy => pc.Destroying?
    case KSetting => pc.Setting?
    case KCleared => pc.PickCleared?
  }

  function One(b: bool): nat { if b then 1 else 0 }

  datatype Tally = Tally(
    access: int, exec: int, token: int, build: int,
    tear1: int, tear2: int, tear3: int, tear4: int,
    destroy: int, setting: int, cleared: int)

  /** The tally once an agent moves from p to p'. */
  function Shift(t: Tally, p: Pc, p': Pc): Tally {
    Tally(t.access - One(Is(p, KAccess)) + One(Is(p', KAccess)),
          t.exec - One(Is(p, KExec)) + One(Is(p', KExec)),
          t.token - One(Is(p, KToken)) + One(Is(p', KToken)),
          t.build - One(Is(p, KBuild)) + One(Is(p', KBuild)),
          t.tear1 - One(Is(p, KTear1)) + One(Is(p', KTear1)),
          t.tear2 - One(Is(p, KTear2)) + One(Is(p', KTear2)),
          t.tear3 - One(Is(p, KTear3)) + One(Is(p', KTear3)),
          t.tear4 - One(Is(p, KTear4)) + One(Is(p', KTear4)),
          t.destroy - One(Is(p, KDestroy)) + One(Is(p', KDestroy)),
          t.setting - One(Is(p, KSetting)) + One(Is(p', KSetting)),
          t.cleared - One(Is(p, KCleared)) + One(Is(p', KCleared)))
  }

  predicate Counts(t: Tally, p: Pc) {
    && t.access >= One(Is(p, KAccess)) && t.exec >= One(Is(p, KExec)) && t.token >= One(Is(p, KToken))
    && t.build >= One(Is(p, KBuild)) && t.tear1 >= One(Is(p, KTear1)) && t.tear2 >= One(Is(p, KTear2))
    && t.tear3 >= One(Is(p, KTear3)) && t.tear4 >= One(Is(p, KTear4)) && t.destroy >= One(Is(p, KDestroy))
    && t.setting >= One(Is(p, KSetting)) && t.cleared >= One(Is(p, KCleared))
  }

  datatype View = View(job: Job, cached: int, tally: Tally)

  // ---------------------------------------------------------- record changes

  /** The stages at which an agent acts on a job, with what becomes of the job's
      record and of the agent.  `kept` says whether the cache takes a pushed job. */
  datatype Act =
    | StartSetting | MarkReady | Cache(kept: bool)
    | PopIt | PickAccess(kept: bool) | PickUnready | PickUnbasic | MarkExecuting | DropAccess
    | RunReturns | ReturnZero | ReturnAgain
    | TakeAccess(g: nat) | CompareGen | Give
    | Update(sock: int, wait: int, jobs: int, basic: bool, needSock: int, needJobs: int)
    | Destroy | TryDestroy | TakeQueued | RaiseGen | RunDtor | ClearFlags | ReleaseSlot
    | Claim | Create

  /** Result of an act: the agent's next stage, the record, the change in how
      often the cache holds the job. */
  datatype Effect = Effect(pc: Pc, job: Job, cached: int)

  predicate Enabled(v: Job, cached: int, j: nat, p: Pc, a: Act) {
    match a
    case StartSetting => p == Idle
    case MarkReady => p == Setting(j)
    case Cache(_) => p == Marked(j)
    case PopIt => p == Idle && cached > 0
    case PickAccess(_) => p == PickPopped(j)
    case PickUnready => p == PickAccessed(j)
    case PickUnbasic => p == PickCleared(j)
    case MarkExecuting => p == Picked(j)
    case DropAccess => p == Executing(j)
    case RunReturns => p == Running(j)
    case ReturnZero => p == Finished(j)
    case ReturnAgain => p == Finished(j)
    case TakeAccess(_) => p == Idle && CanAccess(v.flags)
    case CompareGen => p.Access? && p.j == j
    case Give => (p.Valid? || p.Leaving?) && p.j == j
    case Update(sock, wait, jobs, basic, _, _) =>
      p == Idle && UpdateFits(v.flags, sock, wait, jobs) && (basic ==> !v.flags.unstable && !v.flags.willDestroy)
    // schedi_job_destroy, by anybody holding a pointer or by the worker whose run failed
    case Destroy => p == Idle || p == Finished(j)
    case TryDestroy => p == Destroying(j)
    case TakeQueued => p == Idle && v.queued > 0
    case RaiseGen => p == Tear1(j)
    case RunDtor => p == Tear2(j)
    case ClearFlags => p == Tear3(j)
    case ReleaseSlot => p == Tear4(j)
    case Claim => p == Idle && v.phase == Free
    case Create => p == Creating(j)
  }

  function Updated(v: Job, u: Act): Job
    requires u.Update? && UpdateFits(v.flags, u.sock, u.wait, u.jobs)
  {
    v.(needSock := u.needSock, needJobs := u.needJobs,
       flags := JobFlags.Update(v.flags, u.sock, u.wait, u.jobs, u.basic, u.needSock, u.needJobs))
  }

  /** READYBASIC marked by a worker whose job returned 1, with its setready edge. */
  function Rerun(v: Job, j: nat): Effect {
    var f := v.flags;
    if f.unstable || f.willDestroy || !UpdateFits(f, 0, 0, 0) then Effect(Idle, v, 0)
    else
      var f' := JobFlags.Update(f, 0, 0, 0, true, v.needSock, v.needJobs);
      Effect(if RisingEdge(f, f') then Setting(j) else Idle, v.(flags := f'), 0)
  }

  function Do(v: Job, cached: int, j: nat, p: Pc, a: Act): Effect
    requires Enabled(v, cached, j, p, a)
  {
    var f := v.flags;
    match a
    case StartSetting => Effect(Setting(j), v, 0)
    case MarkReady =>
      if CanMarkReady(f) then Effect(Marked(j), v.(flags := f.(ready := true)), 0) else Effect(Idle, v, 0)
    case Cache(kept) =>
      if kept then Effect(Idle, v, 1)
      else Effect(Idle, v.(flags := f.(ready := f.ready && !CanUnmarkReady(f))), 0)
    case PopIt => Effect(PickPopped(j), v, -1)
    case PickAccess(kept) =>
      if f.unstable || f.willDestroy then Effect(Idle, v, 0)
      else if f.access >= 15 then Effect(Idle, v, if kept then 1 else 0)
      else Effect(PickAccessed(j), v.(flags := f.(access := f.access + 1)), 0)
    case PickUnready => Effect(PickCleared(j), v.(flags := f.(ready := f.ready && !CanUnmarkReady(f))), 0)
    case PickUnbasic =>
      Effect(Picked(j), v.(flags := f.(readyBasic := f.readyBasic && (f.unstable || f.willDestroy))), 0)
    case MarkExecuting =>
      if !f.unstable && !f.executing then Effect(Executing(j), v.(flags := f.(executing := true)), 0)
      else Effect(Idle, v.(leaked := v.leaked + 1), 0)   // the source never gives this access back
    case DropAccess => Effect(Running(j), Dropped(v), 0)
    case RunReturns => Effect(Finished(j), v.(flags := f.(executing := f.executing && f.unstable)), 0)
    case ReturnZero => Effect(Idle, v, 0)
    case ReturnAgain => Rerun(v, j)
    case TakeAccess(g) => Effect(Access(j, g), v.(flags := f.(access := f.access + 1)), 0)
    case CompareGen => Effect(if v.gen == p.g then Valid(j, p.g) else Leaving(j), v, 0)
    case Give => Effect(Idle, Dropped(v), 0)
    case Update(_, _, _, _, _, _) =>
      Effect(if RisingEdge(f, Updated(v, a).flags) then Setting(j) else Idle, Updated(v, a), 0)
    case Destroy =>
      Effect(Destroying(j), v.(destroyed := true, flags := f.(willDestroy := f.willDestroy || !f.unstable)), 0)
    case TryDestroy =>
      if CanMarkUnstable(f) then Effect(Tear1(j), v.(phase := Tearing, flags := f.(unstable := true)), 0)
      else Effect(Idle, v.(queued := v.queued + 1), 0)
    case TakeQueued => Effect(Destroying(j), v.(queued := v.queued - 1), 0)
    case RaiseGen => Effect(Tear2(j), v.(gen := v.gen + 1), 0)
    case RunDtor =>
      var dead: nat := if v.gen > 0 then v.gen - 1 else 0;   // gen was raised one step before
      Effect(Tear3(j), v.(dtors := v.dtors + multiset{dead}), 0)
    case ClearFlags => Effect(Tear4(j), v.(flags := NULL_FLAGS), 0)
    case ReleaseSlot => Effect(Idle, v.(phase := Free), 0)
    case Claim => Effect(Creating(j), v.(phase := Claimed, flags := CLAIMED), 0)
    case Create =>
      Effect(Idle, v.(phase := Live, flags := CREATED, needSock := 0, needJobs := 0,
                      destroyed := false, born := v.born + {v.gen}), 0)
  }

  /** unmark_access: refused on an unstable word; at zero it wraps to 15. */
  function Dropped(v: Job): Job {
    var f := v.flags;
    if f.unstable then v else v.(flags := f.(access := if f.access == 0 then 15 else f.access - 1))
  }

  // --------------------------------------------------------------- invariant

  predicate Bounded(f: Flags) {
    Fits(f.avSock) && Fits(f.waiting) && Fits(f.avJobs) && Fits(f.access)
  }

  predicate UnstableCounts(v: View) {
    var t := v.tally;
    t.build + t.tear1 + t.tear2 + t.tear3 == One(v.job.flags.unstable)
  }

  /** UNSTABLE accounts for the agents that set the job up or tear it down. */
  predicate UnstableOk(v: View) {
    Bounded(v.job.flags) && UnstableCounts(v)
  }

  /** EXECUTING accounts for the agents that run it. */
  predicate ExecutingOk(v: View) {
    var f := v.job.flags;
    v.tally.exec == One(f.executing) && (f.unstable ==> !f.executing)
  }

  /** The access count accounts for the agents that hold access. */
  predicate AccessOk(v: View) {
    var f := v.job.flags;
    f.access == v.tally.access + v.job.leaked && (f.unstable ==> f.access == 0)
  }

  /** READY is a token: it is held by one cache slot, or by one agent between
      marking and caching, or by one between popping and unmarking.  Only a job
      marked for destruction may have its token dropped with READY left set. */
  predicate TokenOk(v: View) {
    var f := v.job.flags;
    && 0 <= v.cached && v.cached + v.tally.token <= One(f.ready)
    && (!f.willDestroy ==> v.cached + v.tally.token == One(f.ready))
    && (f.unstable ==> !f.ready)
  }

  /** All four readiness bits imply READY, or that somebody is about to act. */
  predicate NotForgotten(v: View) {
    var f := v.job.flags;
    !f.willDestroy && !f.unstable && AllReady(f) ==>
      f.ready || v.tally.setting >= 1 || v.tally.cleared >= 1
  }

  predicate PhaseOk(v: View) {
    var f, t, phase := v.job.flags, v.tally, v.job.phase;
    && t.build == One(phase == Claimed)
    && t.tear1 + t.tear2 + t.tear3 + t.tear4 == One(phase == Tearing)
    && t.destroy + v.job.queued == One(phase == Live && v.job.destroyed)
    && (f.willDestroy ==> phase == Live || (phase == Tearing && t.tear4 == 0))
    && (phase == Live && v.job.destroyed ==> f.willDestroy)
    && (phase == Live && f.willDestroy ==> v.job.destroyed)
  }

  /** Each gen is created at most once here, and its destructor runs once. */
  ghost predicate HistoryOk(v: View) {
    var job, t := v.job, v.tally;
    && (forall g | g in job.born :: g <= job.gen)
    && (job.gen in job.born <==> job.phase == Live || t.tear1 == 1)
    && (t.tear2 == 1 ==> job.gen >= 1 && job.gen - 1 in job.born)
    && (forall g: nat {:trigger job.dtors[g]} ::
          job.dtors[g] == One(g in job.born && g < job.gen && !(t.tear2 == 1 && g == job.gen - 1)))
  }

  /** What is to hold before a job may run: marked READYBASIC, enough sockets ready, no
      request out, enough leaves completed. */
  predicate Met(v: Job) {
    v.flags.readyBasic && v.flags.avSock >= v.needSock && v.flags.waiting == 0 && v.flags.avJobs >= v.needJobs
  }

  /** The derived bits of a live job compare its counts with what it asks for. */
  predicate DerivedOk(v: View) {
    v.job.phase == Live ==> Derived(v.job.flags, v.job.needSock, v.job.needJobs)
  }

  predicate NonNegative(t: Tally) {
    && t.access >= 0 && t.exec >= 0 && t.token >= 0 && t.build >= 0
    && t.tear1 >= 0 && t.tear2 >= 0 && t.tear3 >= 0 && t.tear4 >= 0
    && t.destroy >= 0 && t.setting >= 0 && t.cleared >= 0
  }

  /** The accounts kept of a job.  Each rests on one thing that nothing in the word
      enforces, see `Respects`; the other three rest on Teardowns besides. */
  datatype Account = Teardowns | Tokens | Executions | Accesses

  ghost predicate Holds(account: Account, v: View) {
    match account
    case Teardowns => NonNegative(v.tally) && UnstableOk(v) && PhaseOk(v) && HistoryOk(v) && DerivedOk(v)
    case Tokens => TokenOk(v) && NotForgotten(v)
    case Executions => ExecutingOk(v)
    case Accesses => AccessOk(v)
  }

  /** What an account asks of an act: that destroy is called on a live job not marked
      for destruction yet; that a claim finds no READY, no EXECUTING, or no access in
      the slot's word. */
  predicate Respects(account: Account, v: Job, a: Act) {
    match account
    case Teardowns => a.Destroy? ==> v.phase == Live && !v.flags.willDestroy
    case Tokens => a.Claim? ==> !v.flags.ready
    case Executions => a.Claim? ==> !v.flags.executing
    case Accesses => a.Claim? ==> v.flags.access == 0
  }

  /** Acts that push find room; the global machine proves they do. */
  predicate RoomAct(a: Act) {
    (a.Cache? ==> a.kept) && (a.PickAccess? ==> a.kept)
  }

  function After(v: View, j: nat, p: Pc, a: Act): View
    requires Enabled(v.job, v.cached, j, p, a)
  {
    var e := Do(v.job, v.cached, j, p, a);
    View(e.job, v.cached + e.cached, Shift(v.tally, p, e.pc))
  }

  predicate Staged(v: View, j: nat, p: Pc, a: Act) {
    && Counts(v.tally, p) && Enabled(v.job, v.cached, j, p, a)
    && NonNegative(v.tally) && UnstableOk(v) && PhaseOk(v)
  }

  /** The acts by theme, so that each proof looks at a few of them. */
  datatype Theme = Queueing | Picking | Executes | Updating | Accessing | Ending | Building

  function ThemeOf(a: Act): Theme {
    match a
    case StartSetting => Queueing
    case MarkReady => Queueing
    case Cache(_) => Queueing
    case PopIt => Queueing
    case PickAccess(_) => Picking
    case PickUnready => Picking
    case PickUnbasic => Picking
    case MarkExecuting => Executes
    case DropAccess => Executes
    case RunReturns => Executes
    case ReturnZero => Executes
    case ReturnAgain => Updating
    case TakeAccess(_) => Accessing
    case CompareGen => Accessing
    case Give => Accessing
    case Update(_, _, _, _, _, _) => Updating
    case Destroy => Ending
    case TryDestroy => Ending
    case TakeQueued => Ending
    case RaiseGen => Building
    case RunDtor => Building
    case ClearFlags => Building
    case ReleaseSlot => Building
    case Claim => Building
    case Create => Building
  }

  predicate OnCachePath(a: Act) {
    ThemeOf(a) == Queueing || ThemeOf(a) == Picking || ThemeOf(a) == Executes
  }

  predicate ToAndFro(a: Act) {
    ThemeOf(a) == Queueing || ThemeOf(a) == Picking
  }

  predicate OnWord(a: Act) {
    ThemeOf(a) == Updating || ThemeOf(a) == Accessing
  }

  // The account of teardowns.

  /** Nothing that it looks at has changed. */
  ghost predicate SameLife(v: View, w: View) {
    var t, u := v.tally, w.tally;
    && w.job.phase == v.job.phase && w.job.destroyed == v.job.destroyed && w.job.queued == v.job.queued
    && w.job.gen == v.job.gen && w.job.born == v.job.born && w.job.dtors == v.job.dtors
    && w.job.flags.unstable == v.job.flags.unstable && w.job.flags.willDestroy == v.job.flags.willDestroy
    && u.build == t.build && u.destroy == t.destroy
    && u.tear1 == t.tear1 && u.tear2 == t.tear2 && u.tear3 == t.tear3 && u.tear4 == t.tear4
  }

  lemma LivesQueueing(v: View, j: nat, p: Pc, a: Act)
    requires Enabled(v.job, v.cached, j, p, a) && ThemeOf(a) == Queueing
    ensures SameLife(v, After(v, j, p, a))
  {
  }

  lemma LivesPicking(v: View, j: nat, p: Pc, a: Act)
    requires Enabled(v.job, v.cached, j, p, a) && ThemeOf(a) == Picking
    ensures SameLife(v, After(v, j, p, a))
  {
  }

  lemma LivesExecutes(v: View, j: nat, p: Pc, a: Act)
    requires Enabled(v.job, v.cached, j, p, a) && ThemeOf(a) == Executes
    ensures SameLife(v, After(v, j, p, a))
  {
  }

  lemma LivesUpdating(v: View, j: nat, p: Pc, a: Act)
    requires Enabled(v.job, v.cached, j, p, a) && ThemeOf(a) == Updating
    ensures SameLife(v, After(v, j, p, a))
  {
  }

  lemma LivesAccessing(v: View, j: nat, p: Pc, a: Act)
    requires Enabled(v.job, v.cached, j, p, a) && ThemeOf(a) == Accessing
    ensures SameLife(v, After(v, j, p, a))
  {
  }

  lemma BoundedKept(v: View, j: nat, p: Pc, a: Act)
    requires Enabled(v.job, v.cached, j, p, a) && Bounded(v.job.flags)
    ensures Bounded(After(v, j, p, a).job.flags)
  {
  }

  lemma UnstableEnding(v: View, j: nat, p: Pc, a: Act)
    requires Staged(v, j, p, a) && ThemeOf(a) == Ending
    ensures UnstableCounts(After(v, j, p, a))
  {
  }

  lemma UnstableBuilding(v: View, j: nat, p: Pc, a: Act)
    requires Staged(v, j, p, a) && ThemeOf(a) == Building
    ensures UnstableCounts(After(v, j, p, a))
  {
  }

  lemma PhaseEnding(v: View, j: nat, p: Pc, a: Act)
    requires Staged(v, j, p, a) && Respects(Teardowns, v.job, a) && ThemeOf(a) == Ending
    ensures PhaseOk(After(v, j, p, a))
  {
  }

  lemma PhaseBuilding(v: View, j: nat, p: Pc, a: Act)
    requires Staged(v, j, p, a) && ThemeOf(a) == Building
    ensures PhaseOk(After(v, j, p, a))
  {
  }

  lemma HistoryEnding(v: View, j: nat, p: Pc, a: Act)
    requires Staged(v, j, p, a) && HistoryOk(v) && ThemeOf(a) == Ending
    ensures HistoryOk(After(v, j, p, a))
  {
  }

  lemma HistoryBuilding(v: View, j: nat, p: Pc, a: Act)
    requires Staged(v, j, p, a) && HistoryOk(v) && ThemeOf(a) == Building
    ensures HistoryOk(After(v, j, p, a))
  {
  }

  lemma LivesOn(v: View, j: nat, p: Pc, a: Act)
    requires Enabled(v.job, v.cached, j, p, a) && ThemeOf(a) != Ending && ThemeOf(a) != Building
    ensures SameLife(v, After(v, j, p, a))
  {
    match ThemeOf(a)
    case Queueing => LivesQueueing(v, j, p, a);
    case Picking => LivesPicking(v, j, p, a);
    case Executes => LivesExecutes(v, j, p, a);
    case Updating => LivesUpdating(v, j, p, a);
    case Accessing => LivesAccessing(v, j, p, a);
    case _ =>
  }

  lemma SameLifeKeeps(v: View, w: View)
    requires UnstableOk(v) && PhaseOk(v) && HistoryOk(v) && SameLife(v, w) && Bounded(w.job.flags)
    ensures UnstableOk(w) && PhaseOk(w) && HistoryOk(w)
  {
  }

  lemma TeardownsKept(v: View, j: nat, p: Pc, a: Act)
    requires Staged(v, j, p, a) && HistoryOk(v) && Respects(Teardowns, v.job, a)
    ensures UnstableOk(After(v, j, p, a)) && PhaseOk(After(v, j, p, a)) && HistoryOk(After(v, j, p, a))
  {
    BoundedKept(v, j, p, a);
    match ThemeOf(a)
    case Ending =>
      UnstableEnding(v, j, p, a);
      PhaseEnding(v, j, p, a);
      HistoryEnding(v, j, p, a);
    case Building =>
      UnstableBuilding(v, j, p, a);
      PhaseBuilding(v, j, p, a);
      HistoryBuilding(v, j, p, a);
    case _ =>
      LivesOn(v, j, p, a);
      SameLifeKeeps(v, After(v, j, p, a));
  }

  lemma DerivedOnPath(v: View, j: nat, p: Pc, a: Act)
    requires Enabled(v.job, v.cached, j, p, a) && DerivedOk(v) && OnCachePath(a)
    ensures DerivedOk(After(v, j, p, a))
  {
  }

  lemma DerivedOnWord(v: View, j: nat, p: Pc, a: Act)
    requires Enabled(v.job, v.cached, j, p, a) && DerivedOk(v) && OnWord(a)
    ensures DerivedOk(After(v, j, p, a))
  {
  }

  lemma DerivedOfLife(v: View, j: nat, p: Pc, a: Act)
    requires Staged(v, j, p, a) && DerivedOk(v) && !OnCachePath(a) && !OnWord(a)
    ensures DerivedOk(After(v, j, p, a))
  {
  }

  lemma DerivedKept(v: View, j: nat, p: Pc, a: Act)
    requires Staged(v, j, p, a) && DerivedOk(v)
    ensures DerivedOk(After(v, j, p, a))
  {
    if OnCachePath(a) {
      DerivedOnPath(v, j, p, a);
    } else if OnWord(a) {
      DerivedOnWord(v, j, p, a);
    } else {
      DerivedOfLife(v, j, p, a);
    }
  }

  /** A run that returned 1 is heard: a job not condemned comes out marked READYBASIC,
      and if all else is met the worker goes on to setready, unless the readiness was
      complete before. */
  lemma RerunIsHeard(v: Job, j: nat)
    requires !v.flags.unstable && !v.flags.willDestroy && Bounded(v.flags)
    ensures var e := Rerun(v, j);
      && e.job.flags.readyBasic && e.cached == 0
      && e.job.flags.avSock == v.flags.avSock && e.job.flags.waiting == v.flags.waiting
      && e.job.flags.avJobs == v.flags.avJobs
      && (Met(e.job) && !AllReady(v.flags) ==> e.pc == Setting(j))
  {
  }

  // The account of tokens.

  lemma TokenToAndFro(v: View, j: nat, p: Pc, a: Act)
    requires Staged(v, j, p, a) && TokenOk(v) && RoomAct(a) && ToAndFro(a)
    ensures TokenOk(After(v, j, p, a))
  {
  }

  lemma TokenInRun(v: View, j: nat, p: Pc, a: Act)
    requires Staged(v, j, p, a) && TokenOk(v) && ThemeOf(a) == Executes
    ensures TokenOk(After(v, j, p, a))
  {
  }

  lemma TokenOnWord(v: View, j: nat, p: Pc, a: Act)
    requires Staged(v, j, p, a) && TokenOk(v) && OnWord(a)
    ensures TokenOk(After(v, j, p, a))
  {
  }

  lemma TokenEnding(v: View, j: nat, p: Pc, a: Act)
    requires Staged(v, j, p, a) && TokenOk(v) && ThemeOf(a) == Ending
    ensures TokenOk(After(v, j, p, a))
  {
  }

  lemma TokenBuilding(v: View, j: nat, p: Pc, a: Act)
    requires Staged(v, j, p, a) && TokenOk(v) && Respects(Tokens, v.job, a) && ThemeOf(a) == Building
    ensures TokenOk(After(v, j, p, a))
  {
  }

  lemma TokenKept(v: View, j: nat, p: Pc, a: Act)
    requires Staged(v, j, p, a) && TokenOk(v) && Respects(Tokens, v.job, a) && RoomAct(a)
    ensures TokenOk(After(v, j, p, a))
  {
    match ThemeOf(a)
    case Executes => TokenInRun(v, j, p, a);
    case Updating => TokenOnWord(v, j, p, a);
    case Accessing => TokenOnWord(v, j, p, a);
    case Ending => TokenEnding(v, j, p, a);
    case Building => TokenBuilding(v, j, p, a);
    case _ => TokenToAndFro(v, j, p, a);
  }

  lemma NotForgottenOnPath(v: View, j: nat, p: Pc, a: Act)
    requires Staged(v, j, p, a) && Holds(Tokens, v) && RoomAct(a) && OnCachePath(a)
    ensures NotForgotten(After(v, j, p, a))
  {
  }

  lemma NotForgottenOffPath(v: View, j: nat, p: Pc, a: Act)
    requires Staged(v, j, p, a) && Holds(Tokens, v) && !OnCachePath(a)
    ensures NotForgotten(After(v, j, p, a))
  {
  }

  lemma NotForgottenKept(v: View, j: nat, p: Pc, a: Act)
    requires Staged(v, j, p, a) && Holds(Tokens, v) && RoomAct(a)
    ensures NotForgotten(After(v, j, p, a))
  {
    if OnCachePath(a) {
      NotForgottenOnPath(v, j, p, a);
    } else {
      NotForgottenOffPath(v, j, p, a);
    }
  }

  // The accounts of executions and of accesses.

  lemma ExecutingToAndFro(v: View, j: nat, p: Pc, a: Act)
    requires Staged(v, j, p, a) && ExecutingOk(v) && ToAndFro(a)
    ensures ExecutingOk(After(v, j, p, a))
  {
  }

  lemma ExecutingInRun(v: View, j: nat, p: Pc, a: Act)
    requires Staged(v, j, p, a) && ExecutingOk(v) && ThemeOf(a) == Executes
    ensures ExecutingOk(After(v, j, p, a))
  {
  }

  lemma ExecutingOnWord(v: View, j: nat, p: Pc, a: Act)
    requires Staged(v, j, p, a) && ExecutingOk(v) && OnWord(a)
    ensures ExecutingOk(After(v, j, p, a))
  {
  }

  lemma ExecutingEnding(v: View, j: nat, p: Pc, a: Act)
    requires Staged(v, j, p, a) && ExecutingOk(v) && ThemeOf(a) == Ending
    ensures ExecutingOk(After(v, j, p, a))
  {
  }

  lemma ExecutingBuilding(v: View, j: nat, p: Pc, a: Act)
    requires Staged(v, j, p, a) && ExecutingOk(v) && Respects(Executions, v.job, a) && ThemeOf(a) == Building
    ensures ExecutingOk(After(v, j, p, a))
  {
  }

  lemma ExecutingKept(v: View, j: nat, p: Pc, a: Act)
    requires Staged(v, j, p, a) && ExecutingOk(v) && Respects(Executions, v.job, a)
    ensures ExecutingOk(After(v, j, p, a))
  {
    match ThemeOf(a)
    case Executes => ExecutingInRun(v, j, p, a);
    case Updating => ExecutingOnWord(v, j, p, a);
    case Accessing => ExecutingOnWord(v, j, p, a);
    case Ending => ExecutingEnding(v, j, p, a);
    case Building => ExecutingBuilding(v, j, p, a);
    case _ => ExecutingToAndFro(v, j, p, a);
  }

  lemma AccessToAndFro(v: View, j: nat, p: Pc, a: Act)
    requires Staged(v, j, p, a) && AccessOk(v) && ToAndFro(a)
    ensures AccessOk(After(v, j, p, a))
  {
  }

  lemma AccessInRun(v: View, j: nat, p: Pc, a: Act)
    requires Staged(v, j, p, a) && AccessOk(v) && ThemeOf(a) == Executes
    ensures AccessOk(After(v, j, p, a))
  {
  }

  lemma AccessOnWord(v: View, j: nat, p: Pc, a: Act)
    requires Staged(v, j, p, a) && AccessOk(v) && OnWord(a)
    ensures AccessOk(After(v, j, p, a))
  {
  }

  lemma AccessEnding(v: View, j: nat, p: Pc, a: Act)
    requires Staged(v, j, p, a) && AccessOk(v) && ThemeOf(a) == Ending
    ensures AccessOk(After(v, j, p, a))
  {
  }

  lemma AccessBuilding(v: View, j: nat, p: Pc, a: Act)
    requires Staged(v, j, p, a) && AccessOk(v) && Respects(Accesses, v.job, a) && ThemeOf(a) == Building
    ensures AccessOk(After(v, j, p, a))
  {
  }

  lemma AccessKept(v: View, j: nat, p: Pc, a: Act)
    requires Staged(v, j, p, a) && AccessOk(v) && Respects(Accesses, v.job, a)
    ensures AccessOk(After(v, j, p, a))
  {
    match ThemeOf(a)
    case Executes => AccessInRun(v, j, p, a);
    case Updating => AccessOnWord(v, j, p, a);
    case Accessing => AccessOnWord(v, j, p, a);
    case Ending => AccessEnding(v, j, p, a);
    case Building => AccessBuilding(v, j, p, a);
    case _ => AccessToAndFro(v, j, p, a);
  }

  lemma ActHolds(account: Account, v: View, j: nat, p: Pc, a: Act)
    requires Staged(v, j, p, a) && Holds(account, v) && Respects(account, v.job, a)
    requires account == Tokens ==> RoomAct(a)
    ensures Holds(account, After(v, j, p, a))
  {
    match account
    case Teardowns =>
      TeardownsKept(v, j, p, a);
      DerivedKept(v, j, p, a);
    case Tokens =>
      TokenKept(v, j, p, a);
      NotForgottenKept(v, j, p, a);
    case Executions => ExecutingKept(v, j, p, a);
    case Accesses => AccessKept(v, j, p, a);
  }

  lemma DestroyUpsets(v: View, j: nat, p: Pc, a: Act)
    requires Staged(v, j, p, a) && !Respects(Teardowns, v.job, a)
    ensures !PhaseOk(After(v, j, p, a))
  {
  }

  lemma ClaimUpsets(account: Account, v: View, j: nat, p: Pc, a: Act)
    requires Staged(v, j, p, a) && account != Teardowns && Holds(account, v) && !Respects(account, v.job, a)
    ensures !Holds(account, After(v, j, p, a))
  {
  }

  /** Each act keeps each account exactly when it respects it; Teardowns must hold
      besides, and the other two need not. */
  lemma ActInv(account: Account, v: View, j: nat, p: Pc, a: Act)
    requires Holds(Teardowns, v) && Holds(account, v)
    requires Counts(v.tally, p) && Enabled(v.job, v.cached, j, p, a) && (account == Tokens ==> RoomAct(a))
    ensures Holds(account, After(v, j, p, a)) <==> Respects(account, v.job, a)
  {
    if Respects(account, v.job, a) {
      ActHolds(account, v, j, p, a);
    } else if account == Teardowns {
      DestroyUpsets(v, j, p, a);
    } else {
      ClaimUpsets(account, v, j, p, a);
    }
  }

  // Marked for destruction, READY, and carried by nobody: the pick that would clear
  // READY was refused.

  predicate StuckView(v: View) {
    && v.job.phase == Live && v.job.flags.willDestroy && v.job.flags.ready
    && v.cached == 0 && v.tally.token == 0
  }

  /** Nobody sets the job up or tears it down. */
  predicate Untorn(v: View) {
    var t := v.tally;
    && NonNegative(t) && !v.job.flags.unstable
    && t.build == 0 && t.tear1 == 0 && t.tear2 == 0 && t.tear3 == 0 && t.tear4 == 0
  }

  lemma StuckOnPath(v: View, j: nat, p: Pc, a: Act)
    requires Counts(v.tally, p) && Enabled(v.job, v.cached, j, p, a) && OnCachePath(a)
    requires StuckView(v) && Untorn(v)
    ensures StuckView(After(v, j, p, a)) && Untorn(After(v, j, p, a))
  {
  }

  lemma StuckOffPath(v: View, j: nat, p: Pc, a: Act)
    requires Counts(v.tally, p) && Enabled(v.job, v.cached, j, p, a) && !OnCachePath(a)
    requires StuckView(v) && Untorn(v)
    ensures StuckView(After(v, j, p, a)) && Untorn(After(v, j, p, a))
  {
  }

  /** No act whatsoever gets the job out of that. */
  lemma StuckAct(v: View, j: nat, p: Pc, a: Act)
    requires Counts(v.tally, p) && Enabled(v.job, v.cached, j, p, a)
    requires StuckView(v) && Untorn(v)
    ensures StuckView(After(v, j, p, a)) && Untorn(After(v, j, p, a))
  {
    if OnCachePath(a) {
      StuckOnPath(v, j, p, a);
    } else {
      StuckOffPath(v, j, p, a);
    }
  }
}
