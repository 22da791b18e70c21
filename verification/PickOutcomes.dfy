/** The worker protocol and the job machine together: which picks are refused is said
    by the words of the jobs drawn, and those are in the hands of whoever destroys jobs
    and holds accesses. */
module PickOutcomes {
  import opened Options
  import JF = JobFlags
  import JV = JobView
  import LC = Lifecycle
  import RC = ReadyCache
  import WP = WorkerProtocol

  /** Why schedi_job_mark_access fails on a word, if it does. */
  function Answer(f: JF.Flags): Option<WP.Refusal> {
    if f.unstable then Some(WP.Torn)
    else if f.willDestroy then Some(WP.Doomed)
    else if f.access >= 15 then Some(WP.Full)
    else None
  }

  /** Both machines mean the same by it: the agent goes on with access exactly without
      a refusal, and the job goes back into the cache exactly for a full count. */
  lemma AnswerIsPick(v: JV.Job, cached: int, j: nat)
    ensures var e := JV.Do(v, cached, j, JV.PickPopped(j), JV.PickAccess(true));
      && (e.pc == JV.PickAccessed(j) <==> Answer(v.flags) == None)
      && (e.pc == JV.Idle <==> Answer(v.flags) != None)
      && (e.cached == 1 <==> Answer(v.flags) == Some(WP.Full))
  {
  }

  ghost predicate Draws(window: nat, s: WP.State, a: WP.Action) {
    && (a.Worker? || a.Refused?) && a.w < |s.pcs| && WP.Picking(s.pcs[a.w])
    && window <= |s.cache.slots| && RC.Popped(s.cache, window).Some?
  }

  /** The pick gets the answer of the word that the job drawn has in t, where an agent
      of the job machine has drawn it. */
  ghost predicate ReadsWord(window: nat, s: WP.State, a: WP.Action, t: LC.State)
    requires Draws(window, s, a)
  {
    var j := RC.Popped(s.cache, window).value;
    && j < |t.jobs| && JV.PickPopped(j) in t.agents
    && Answer(t.jobs[j].flags) == if a.Refused? then Some(a.why) else None
  }

  /** Two runs of one execution: `at` says in which state of the job machine each pick
      of the worker protocol reads its word. */
  ghost predicate OneExecution(window: nat, run: seq<WP.State>, actions: seq<WP.Action>, life: seq<LC.State>, at: seq<nat>) {
    && |run| == |actions| + 1 && |at| == |actions|
    && forall k | 0 <= k < |actions| && Draws(window, run[k], actions[k]) ::
         at[k] < |life| && ReadsWord(window, run[k], actions[k], life[at[k]])
  }

  /** A job machine's run in which destroys and claims respect the READY tokens. */
  ghost predicate TokensHeeded(window: nat, life: seq<LC.State>, acts: seq<LC.Action>) {
    && LC.IsRun(window, life, acts)
    && LC.RunHeeds(JV.Teardowns, life, acts, |acts|) && LC.RunHeeds(JV.Tokens, life, acts, |acts|)
  }

  /** Destroy was called on this incarnation. */
  predicate Destroyed(v: JV.Job) {
    v.phase == JV.Live && v.destroyed
  }

  lemma DrawnAt(window: nat, life: seq<LC.State>, acts: seq<LC.Action>, n: nat, j: nat)
    requires TokensHeeded(window, life, acts) && n < |life| && JV.PickPopped(j) in life[n].agents
    ensures j < |life[n].jobs|
    ensures !life[n].jobs[j].flags.unstable && (life[n].jobs[j].flags.willDestroy <==> Destroyed(life[n].jobs[j]))
  {
    var i :| 0 <= i < |life[n].agents| && life[n].agents[i] == JV.PickPopped(j);
    LC.DrawnIsStable(window, life, acts, n, i);
  }

  /** A pick is refused exactly when destroy was called on the very job drawn or its word
      counts 15 accesses. */
  lemma RefusedExactlyWhen(window: nat, run: seq<WP.State>, actions: seq<WP.Action>,
                        life: seq<LC.State>, acts: seq<LC.Action>, at: seq<nat>, k: nat)
    requires TokensHeeded(window, life, acts) && OneExecution(window, run, actions, life, at)
    requires k < |actions| && Draws(window, run[k], actions[k])
    ensures at[k] < |life|
    ensures var j := RC.Popped(run[k].cache, window).value;
      && j < |life[at[k]].jobs|
      && var v := life[at[k]].jobs[j];
         actions[k].Refused? <==> Destroyed(v) || v.flags.access >= 15
  {
    DrawnAt(window, life, acts, at[k], RC.Popped(run[k].cache, window).value);
  }

  /** No job is drawn that has been destroyed or has 15 accesses. */
  ghost predicate DrawnWell(life: seq<LC.State>) {
    forall n, j | 0 <= n < |life| && 0 <= j < |life[n].jobs| && JV.PickPopped(j) in life[n].agents ::
      !Destroyed(life[n].jobs[j]) && life[n].jobs[j].flags.access < 15
  }

  lemma DrawnWellIsCareful(window: nat, run: seq<WP.State>, actions: seq<WP.Action>,
                           life: seq<LC.State>, acts: seq<LC.Action>, at: seq<nat>, n: nat)
    requires WP.IsRun(window, run, actions) && n < |run|
    requires TokensHeeded(window, life, acts) && OneExecution(window, run, actions, life, at) && DrawnWell(life)
    ensures WP.Careful(window, run, actions, n)
  {
    forall k | 0 <= k < n
      ensures WP.CarefulStep(window, run[k], actions[k])
    {
      WP.StepAt(window, run, actions, k);
      if actions[k].Refused? {
        RefusedExactlyWhen(window, run, actions, life, acts, at, k);
        assert false;
      }
    }
  }

  /** No stranded work, in terms a user controls: as long as no job is destroyed between
      being cached and being drawn, and none has all its 15 accesses held when it is
      drawn, the workers never all sleep over a cached job that nobody is about to
      signal. */
  lemma WellDrawnNeverStranded(window: nat, run: seq<WP.State>, actions: seq<WP.Action>,
                               life: seq<LC.State>, acts: seq<LC.Action>, at: seq<nat>, n: nat)
    requires WP.IsRun(window, run, actions) && n < |run| && run[n].deinit == WP.NotCalled
    requires TokensHeeded(window, life, acts) && OneExecution(window, run, actions, life, at) && DrawnWell(life)
    ensures !WP.Stranded(run[n])
  {
    DrawnWellIsCareful(window, run, actions, life, acts, at, n);
    WP.NoStrandedWork(window, run, actions, n);
  }
}
