/** A parent job and the leaves that report to it.  A leaf that completes adds one to
    the parent's packed available_jobs when the parent is still the incarnation it
    was given; the parent is handed to schedi_job_setready by the update that
    completes its four readiness bits.

    Anything that gives or takes readiness may happen at any moment, and anybody may
    mark the parent READYBASIC or call setready on it directly.  An update that
    takes the full readiness away from a job that is waiting to be picked is a fall;
    the job stays in the cache then. */
module Dependencies {
  import JF = JobFlags

  datatype Leaf = Leaf(gen: nat, done: bool)

  /** `owned`: the parent is in its run or being set up; `inside` counts the times
      somebody marked it READYBASIC meanwhile.  `queued` is READY: it waits
      for a pick.  `handed` counts the calls of schedi_job_setready by
      rising edges, `direct` those by anybody else, `picks` the picks
      by workers and `early` those that found the readiness gone, `falls` the updates
      that took it away, `missed` the completions the parent refused. */
  datatype State = State(
    flags: JF.Flags, needSock: int, needJobs: int, gen: nat, leaves: seq<Leaf>,
    owned: bool, inside: nat, queued: bool,
    handed: nat, direct: nat, picks: nat, early: nat, falls: nat, missed: nat)

  datatype Action =
    | AddLeaf(gen: nat)
    | LeafCompletes(k: nat)
    | RequireJobs(n: int)
    | RequireSocks(n: int)
    | Change(sock: int, wait: int)
    | Returns(again: bool)
    | Resumes
    | SetReady
    | Picks
    | Other(flags: JF.Flags)

  function One(l: Leaf, gen: nat): (n: nat)
    ensures n <= 1
  {
    if l.done && l.gen == gen then 1 else 0
  }

  /** How many leaves of this incarnation have completed. */
  function Completed(leaves: seq<Leaf>, gen: nat): (n: nat)
    ensures n <= |leaves|
  {
    if leaves == [] then 0 else Completed(leaves[..|leaves| - 1], gen) + One(leaves[|leaves| - 1], gen)
  }

  function Bit(b: bool): nat { if b then 1 else 0 }

  /** mark_ready is refused. */
  predicate Condemned(f: JF.Flags) {
    f.unstable || f.willDestroy
  }

  /** The word becomes f, with the setready call of a rising edge. */
  function Becomes(s: State, f: JF.Flags): State {
    var rises := JF.RisingEdge(s.flags, f);
    s.(flags := f,
       handed := s.handed + Bit(rises),
       queued := s.queued || (rises && !Condemned(f)),
       falls := s.falls + Bit(JF.RisingEdge(f, s.flags)))
  }

  /** One schedi_job_meta_flag_cas_update without bans. */
  function Updated(s: State, sock: int, wait: int, jobs: int, basic: bool): State {
    if !JF.UpdateFits(s.flags, sock, wait, jobs) then s
    else Becomes(s, JF.Update(s.flags, sock, wait, jobs, basic, s.needSock, s.needJobs))
  }

  /** schedi_job_mark_readybasic */
  function Basic(s: State): State {
    if Condemned(s.flags) then s else Updated(s, 0, 0, 0, true)
  }

  /** The tail of worker_routine for a leaf that is done. */
  function Notified(s: State, leafGen: nat): State {
    if JF.AccessRefused(s.flags) then s.(missed := s.missed + if leafGen == s.gen then 1 else 0)
    else if leafGen != s.gen then s
    else if !JF.UpdateFits(s.flags, 0, 0, 1) then s.(missed := s.missed + 1)
    else Updated(s, 0, 0, 1, false)
  }

  /** Fields outside the readiness machinery: status bits, never cleared within one
      incarnation, and accesses. */
  predicate SameReadiness(f: JF.Flags, g: JF.Flags) {
    && f.readyBasic == g.readyBasic && f.epollTool == g.epollTool
    && f.epollSock == g.epollSock && f.readyJob == g.readyJob
    && f.avSock == g.avSock && f.waiting == g.waiting && f.avJobs == g.avJobs
    && (Condemned(f) ==> Condemned(g))
  }

  ghost predicate Step(s: State, a: Action, s': State) {
    match a
    case AddLeaf(gen) =>
      s' == s.(leaves := s.leaves + [Leaf(gen, false)])
    case LeafCompletes(k) =>
      && k < |s.leaves| && !s.leaves[k].done
      && s' == Notified(s, s.leaves[k].gen).(leaves := s.leaves[k := s.leaves[k].(done := true)])
    case RequireJobs(n) => s' == Updated(s.(needJobs := n), 0, 0, 0, false)
    case RequireSocks(n) => s' == Updated(s.(needSock := n), 0, 0, 0, false)
    case Change(sock, wait) => s' == Updated(s, sock, wait, 0, false)
    case Returns(again) =>
      // the end of set-up or of a run; a run that returned 1 is marked for the next
      s.owned && s' == if again then Basic(s.(owned := false)) else s.(owned := false)
    case Resumes =>
      s' == Basic(s.(inside := s.inside + Bit(s.owned)))
    case SetReady =>
      s' == s.(direct := s.direct + 1, queued := s.queued || !Condemned(s.flags))
    case Picks =>
      && s.queued && !JF.AccessRefused(s.flags)
      && s' == s.(picks := s.picks + 1, early := s.early + Bit(!JF.AllReady(s.flags)),
                  queued := false, owned := true, flags := s.flags.(readyBasic := false))
    case Other(f) =>
      SameReadiness(s.flags, f) && s' == s.(flags := f)
  }

  /** schedi_job_create */
  ghost predicate Init(s: State) {
    && s.flags == JF.CREATED && s.needSock == 0 && s.needJobs == 0
    && s.leaves == [] && s.owned && !s.queued
    && s.inside == 0 && s.direct == 0 && s.handed == 0 && s.picks == 0 && s.early == 0 && s.falls == 0 && s.missed == 0
  }

  /** Hand-overs against picks and falls. */
  predicate Balanced(s: State) {
    && s.handed + s.early == s.picks + s.falls + Bit(JF.AllReady(s.flags))
    && s.early + Bit(s.queued && !JF.AllReady(s.flags)) <= s.falls + s.direct
    && (s.owned && s.flags.readyBasic ==> s.inside > 0)
    && (JF.AllReady(s.flags) && !Condemned(s.flags) ==> s.queued)
  }

  predicate WordOk(s: State) {
    JF.InRange(s.flags) && JF.Derived(s.flags, s.needSock, s.needJobs)
  }

  ghost predicate Inv(s: State) {
    && WordOk(s) && Balanced(s)
    && s.flags.avJobs + s.missed == Completed(s.leaves, s.gen)
  }

  // ----------------------------------------------------------------- proofs

  lemma {:induction false} CompletedAppend(leaves: seq<Leaf>, l: Leaf, gen: nat)
    ensures Completed(leaves + [l], gen) == Completed(leaves, gen) + One(l, gen)
  {
    assert (leaves + [l])[..|leaves|] == leaves;
  }

  lemma {:induction false} CompletedReplace(leaves: seq<Leaf>, k: nat, l: Leaf, gen: nat)
    requires k < |leaves|
    ensures Completed(leaves[k := l], gen) + One(leaves[k], gen) == Completed(leaves, gen) + One(l, gen)
  {
    var n := |leaves| - 1;
    if k < n {
      CompletedReplace(leaves[..n], k, l, gen);
      assert leaves[k := l][..n] == leaves[..n][k := l];
    } else {
      assert leaves[k := l][..n] == leaves[..n];
    }
  }

  lemma BecomesBalanced(s: State, f: JF.Flags)
    requires Balanced(s) && (s.owned && f.readyBasic ==> s.inside > 0) && (Condemned(f) <==> Condemned(s.flags))
    ensures Balanced(Becomes(s, f))
  {
  }

  lemma UpdateKeeps(s: State, sock: int, wait: int, jobs: int, basic: bool)
    requires Balanced(s) && JF.InRange(s.flags) && (basic && s.owned ==> s.inside > 0)
    requires JF.UpdateFits(s.flags, sock, wait, jobs)
    ensures var s' := Updated(s, sock, wait, jobs, basic);
      && Balanced(s') && WordOk(s') && s'.flags.avJobs == s.flags.avJobs + jobs
      && s' == s.(flags := s'.flags, handed := s'.handed, queued := s'.queued, falls := s'.falls)
  {
    BecomesBalanced(s, JF.Update(s.flags, sock, wait, jobs, basic, s.needSock, s.needJobs));
  }

  lemma BasicInv(s: State)
    requires Inv(s) && (s.owned ==> s.inside > 0)
    ensures Inv(Basic(s))
  {
    if !Condemned(s.flags) {
      UpdateKeeps(s, 0, 0, 0, true);
    }
  }

  lemma ReturnsInv(s: State, again: bool, s': State)
    requires Inv(s) && Step(s, Returns(again), s')
    ensures Inv(s')
  {
    var freed := s.(owned := false);
    BasicInv(freed);
  }

  lemma NotifiedKeeps(s: State, leafGen: nat)
    requires Balanced(s) && WordOk(s)
    ensures var s' := Notified(s, leafGen);
      && Balanced(s') && WordOk(s') && s'.gen == s.gen && s'.leaves == s.leaves
      && s'.flags.avJobs + s'.missed == s.flags.avJobs + s.missed + Bit(leafGen == s.gen)
  {
    if JF.UpdateFits(s.flags, 0, 0, 1) {
      UpdateKeeps(s, 0, 0, 1, false);
    }
  }

  lemma LeafInv(s: State, k: nat, s': State)
    requires Inv(s) && Step(s, LeafCompletes(k), s')
    ensures Inv(s')
  {
    CompletedReplace(s.leaves, k, s'.leaves[k], s.gen);
    NotifiedKeeps(s, s.leaves[k].gen);
  }

  lemma RequireInv(s: State, a: Action, s': State)
    requires Inv(s) && Step(s, a, s') && (a.RequireJobs? || a.RequireSocks?)
    ensures Inv(s')
  {
    var t := if a.RequireJobs? then s.(needJobs := a.n) else s.(needSock := a.n);
    UpdateKeeps(t, 0, 0, 0, false);
  }

  lemma ChangeInv(s: State, sock: int, wait: int, s': State)
    requires Inv(s) && Step(s, Change(sock, wait), s')
    ensures Inv(s')
  {
    if JF.UpdateFits(s.flags, sock, wait, 0) {
      UpdateKeeps(s, sock, wait, 0, false);
    }
  }

  lemma AddLeafInv(s: State, gen: nat, s': State)
    requires Inv(s) && Step(s, AddLeaf(gen), s')
    ensures Inv(s')
  {
    CompletedAppend(s.leaves, Leaf(gen, false), s.gen);
  }

  lemma OtherInv(s: State, f: JF.Flags, s': State)
    requires Inv(s) && Step(s, Other(f), s')
    ensures Inv(s')
  {
  }

  lemma ResumesInv(s: State, s': State)
    requires Inv(s) && Step(s, Resumes, s')
    ensures Inv(s')
  {
    BasicInv(s.(inside := s.inside + Bit(s.owned)));
  }

  lemma ReadyInv(s: State, a: Action, s': State)
    requires Inv(s) && Step(s, a, s') && (a.SetReady? || a.Picks?)
    ensures Inv(s')
  {
  }

  lemma StepInv(s: State, a: Action, s': State)
    requires Inv(s) && Step(s, a, s')
    ensures Inv(s')
  {
    match a
    case AddLeaf(gen) => AddLeafInv(s, gen, s');
    case LeafCompletes(k) => LeafInv(s, k, s');
    case RequireJobs(_) => RequireInv(s, a, s');
    case RequireSocks(_) => RequireInv(s, a, s');
    case Change(sock, wait) => ChangeInv(s, sock, wait, s');
    case Returns(again) => ReturnsInv(s, again, s');
    case Resumes => ResumesInv(s, s');
    case SetReady => ReadyInv(s, a, s');
    case Picks => ReadyInv(s, a, s');
    case Other(f) => OtherInv(s, f, s');
  }

  /** All that the parent waits for besides its own word: enough leaves completed, enough
      sockets ready, no request out. */
  predicate RestMet(s: State) {
    s.flags.avJobs >= s.needJobs && s.flags.avSock >= s.needSock && s.flags.waiting == 0
  }

  /** A run that returned 1 is heard: the parent is marked READYBASIC, and if the rest is
      met it waits in the cache. */
  lemma ReturnIsHeard(s: State, s': State)
    requires Inv(s) && Step(s, Returns(true), s') && !s.flags.unstable && !s.flags.willDestroy
    ensures s'.flags.readyBasic && RestMet(s') == RestMet(s)
    ensures RestMet(s) ==> s'.queued
  {
  }

  /** And so is a mark by anybody else. */
  lemma ResumeIsHeard(s: State, s': State)
    requires Inv(s) && Step(s, Resumes, s') && !s.flags.unstable && !s.flags.willDestroy
    ensures s'.flags.readyBasic && RestMet(s') == RestMet(s)
    ensures RestMet(s) ==> s'.queued
  {
  }

  /** A direct call is heard, too. */
  lemma SetReadyIsHeard(s: State, s': State)
    requires Step(s, SetReady, s') && !s.flags.unstable && !s.flags.willDestroy
    ensures s'.queued
  {
  }

  /** A parent that waits in the cache can be picked whenever it grants an access; the pick
      takes it out and clears READYBASIC. */
  lemma PickTakes(s: State) returns (s': State)
    requires s.queued && !s.flags.unstable && !s.flags.willDestroy && s.flags.access != 15
    ensures Step(s, Picks, s') && !s'.queued && !s'.flags.readyBasic && s'.owned && s'.picks == s.picks + 1
  {
    s' := s.(picks := s.picks + 1, early := s.early + Bit(!JF.AllReady(s.flags)),
             queued := false, owned := true, flags := s.flags.(readyBasic := false));
  }

  /** A change of the socket and request counts takes effect exactly when both stay within
      0 .. 15. */
  lemma ChangeTakes(s: State, sock: int, wait: int, s': State)
    requires Inv(s) && Step(s, Change(sock, wait), s')
    ensures var fits := 0 <= s.flags.avSock + sock <= 15 && 0 <= s.flags.waiting + wait <= 15;
      && s'.flags.avSock == s.flags.avSock + (if fits then sock else 0)
      && s'.flags.waiting == s.flags.waiting + (if fits then wait else 0)
  {
  }

  ghost predicate IsRun(run: seq<State>, actions: seq<Action>) {
    && |run| == |actions| + 1 && Init(run[0])
    && forall i | 0 <= i < |actions| :: Step(run[i], actions[i], run[i + 1])
  }

  lemma StepAt(run: seq<State>, actions: seq<Action>, i: nat)
    requires IsRun(run, actions) && i < |actions|
    ensures Step(run[i], actions[i], run[i + 1])
  {
  }

  lemma InitInv(s: State)
    requires Init(s)
    ensures Inv(s)
  {
  }

  lemma {:induction false} RunInv(run: seq<State>, actions: seq<Action>, i: nat)
    requires IsRun(run, actions) && i < |run|
    ensures Inv(run[i])
  {
    if i == 0 {
      InitInv(run[0]);
    } else {
      RunInv(run, actions, i - 1);
      StepAt(run, actions, i - 1);
      StepInv(run[i - 1], actions[i - 1], run[i]);
    }
  }

  /** Over the whole life of the parent, whatever the order of completions, returns and
      changes of readiness, the hand-overs are balanced by the picks that found the
      readiness complete and by the falls; a parent that is completely ready and not
      condemned waits in the cache; and every completed leaf of its own is counted or
      was refused.  So without falls and direct calls it is handed over once for every
      pick, and once more exactly while all four bits are set. */
  lemma OneHandOverPerPick(run: seq<State>, actions: seq<Action>, i: nat)
    requires IsRun(run, actions) && i < |run|
    ensures var s := run[i];
      && s.handed + s.early == s.picks + s.falls + Bit(JF.AllReady(s.flags)) && s.early <= s.falls + s.direct
      && (JF.AllReady(s.flags) && !Condemned(s.flags) ==> s.queued)
      && (s.falls == 0 && s.direct == 0 ==>
            s.handed == s.picks + Bit(JF.AllReady(s.flags)) && (s.queued ==> JF.AllReady(s.flags)))
      && s.flags.avJobs + s.missed == Completed(s.leaves, s.gen)
  {
    RunInv(run, actions, i);
  }

  /** The numbers of jobs and of sockets last asked for. */
  function JobsAsked(actions: seq<Action>, n: nat): int
    requires n <= |actions|
  {
    if n == 0 then 0 else if actions[n - 1].RequireJobs? then actions[n - 1].n else JobsAsked(actions, n - 1)
  }

  function SocksAsked(actions: seq<Action>, n: nat): int
    requires n <= |actions|
  {
    if n == 0 then 0 else if actions[n - 1].RequireSocks? then actions[n - 1].n else SocksAsked(actions, n - 1)
  }

  lemma AsksStep(s: State, a: Action, s': State)
    requires Step(s, a, s')
    ensures s'.needJobs == if a.RequireJobs? then a.n else s.needJobs
    ensures s'.needSock == if a.RequireSocks? then a.n else s.needSock
  {
  }

  /** The parent's requirements are those last set. */
  lemma {:induction false} AskedInRun(run: seq<State>, actions: seq<Action>, n: nat)
    requires IsRun(run, actions) && n < |run|
    ensures run[n].needJobs == JobsAsked(actions, n) && run[n].needSock == SocksAsked(actions, n)
  {
    if n > 0 {
      AskedInRun(run, actions, n - 1);
      StepAt(run, actions, n - 1);
      AsksStep(run[n - 1], actions[n - 1], run[n]);
    }
  }

  /** Has the parent returned 1, or been marked READYBASIC, since its last pick, at a
      moment when it was not condemned? */
  predicate Asked(run: seq<State>, actions: seq<Action>, n: nat)
    requires n <= |actions| <= |run|
  {
    && n > 0 && !actions[n - 1].Picks?
    && (Asked(run, actions, n - 1)
        || ((actions[n - 1] == Returns(true) || actions[n - 1] == Resumes)
            && !run[n - 1].flags.unstable && !run[n - 1].flags.willDestroy))
  }

  lemma BasicStep(s: State, a: Action, s': State)
    requires Inv(s) && Step(s, a, s')
    ensures s'.flags.readyBasic <==>
            !a.Picks? && (s.flags.readyBasic
                          || ((a == Returns(true) || a == Resumes) && !s.flags.unstable && !s.flags.willDestroy))
  {
  }

  /** READYBASIC says exactly that. */
  lemma {:induction false} BasicExactlyWhen(run: seq<State>, actions: seq<Action>, n: nat)
    requires IsRun(run, actions) && n < |run|
    ensures run[n].flags.readyBasic <==> Asked(run, actions, n)
  {
    if n > 0 {
      BasicExactlyWhen(run, actions, n - 1);
      StepAt(run, actions, n - 1);
      RunInv(run, actions, n - 1);
      BasicStep(run[n - 1], actions[n - 1], run[n]);
    }
  }

  lemma UpdateFalls(s: State, sock: int, wait: int, jobs: int, basic: bool)
    ensures var s' := Updated(s, sock, wait, jobs, basic);
            s'.falls == s.falls + Bit(JF.AllReady(s.flags) && !JF.AllReady(s'.flags))
  {
  }

  /** A fall is a step other than a pick that takes the full readiness away. */
  lemma FallsExactlyWhen(s: State, a: Action, s': State)
    requires Step(s, a, s')
    ensures s'.falls == s.falls + Bit(JF.AllReady(s.flags) && !JF.AllReady(s'.flags) && !a.Picks?)
  {
    match a
    case LeafCompletes(_) => UpdateFalls(s, 0, 0, 1, false);
    case RequireJobs(n) => UpdateFalls(s.(needJobs := n), 0, 0, 0, false);
    case RequireSocks(n) => UpdateFalls(s.(needSock := n), 0, 0, 0, false);
    case Change(sock, wait) => UpdateFalls(s, sock, wait, 0, false);
    case Returns(_) => UpdateFalls(s.(owned := false), 0, 0, 0, true);
    case Resumes => UpdateFalls(s.(inside := s.inside + Bit(s.owned)), 0, 0, 0, true);
    case SetReady =>
    case _ =>
  }

  /** The hand-over happens only when the parent has returned, or somebody else marked
      it READYBASIC, and at least the required number of leaves of its own incarnation
      have completed, even if some completions were refused. */
  lemma HandOverNeedsLeaves(run: seq<State>, actions: seq<Action>, i: nat)
    requires IsRun(run, actions) && i < |actions| && run[i + 1].handed > run[i].handed
    ensures Asked(run, actions, i + 1) && (run[i + 1].owned ==> run[i + 1].inside > 0)
    ensures Completed(run[i + 1].leaves, run[i + 1].gen) >= JobsAsked(actions, i + 1)
    ensures run[i + 1].handed == run[i].handed + 1
  {
    RunInv(run, actions, i + 1);
    StepAt(run, actions, i);
    HandsOver(run[i], actions[i], run[i + 1]);
    BasicExactlyWhen(run, actions, i + 1);
    AskedInRun(run, actions, i + 1);
  }

  lemma HandsOver(s: State, a: Action, s': State)
    requires Step(s, a, s') && s'.handed > s.handed
    ensures s'.handed == s.handed + 1 && JF.AllReady(s'.flags)
  {
  }

  /** A leaf of this incarnation completes while the parent refuses accesses. */
  ghost predicate Refuses(s: State, a: Action) {
    a.LeafCompletes? && a.k < |s.leaves| && s.leaves[a.k].gen == s.gen && JF.AccessRefused(s.flags)
  }

  ghost predicate NeverRefused(run: seq<State>, actions: seq<Action>, n: nat)
    requires n <= |actions| <= |run|
  {
    forall i | 0 <= i < n :: !Refuses(run[i], actions[i])
  }

  /** Only a completion changes what was completed or missed. */
  lemma MissesOnlyLeaves(s: State, a: Action, s': State)
    requires Step(s, a, s') && !a.LeafCompletes?
    ensures s'.missed == s.missed && s'.gen == s.gen && Completed(s'.leaves, s'.gen) == Completed(s.leaves, s.gen)
  {
    if a.AddLeaf? {
      CompletedAppend(s.leaves, Leaf(a.gen, false), s.gen);
    }
  }

  lemma MissedLeaf(s: State, k: nat, s': State)
    requires Inv(s) && Step(s, LeafCompletes(k), s')
    ensures s.missed <= s'.missed && s'.gen == s.gen
    ensures Completed(s.leaves, s.gen) <= Completed(s'.leaves, s'.gen)
    ensures s'.missed == s.missed <==>
            !Refuses(s, LeafCompletes(k)) && (s.leaves[k].gen == s.gen ==> s.flags.avJobs < 15)
  {
    CompletedReplace(s.leaves, k, s'.leaves[k], s.gen);
  }

  /** A completion is missed exactly when the parent refuses it or has counted 15. */
  lemma MissedStep(s: State, a: Action, s': State)
    requires Inv(s) && Step(s, a, s')
    ensures Completed(s.leaves, s.gen) <= Completed(s'.leaves, s'.gen)
    ensures s'.missed == 0 <==> s.missed == 0 && !Refuses(s, a) && Completed(s'.leaves, s'.gen) <= 15
  {
    if a.LeafCompletes? {
      MissedLeaf(s, a.k, s');
      CompletedReplace(s.leaves, a.k, s'.leaves[a.k], s.gen);
    } else {
      MissesOnlyLeaves(s, a, s');
    }
  }

  /** No completion is missed exactly when none of its own is refused and no more than
      15 of them complete. */
  lemma {:induction false} NoneMissedExactlyWhen(run: seq<State>, actions: seq<Action>, n: nat)
    requires IsRun(run, actions) && n < |run|
    ensures run[n].missed == 0 <==> NeverRefused(run, actions, n) && Completed(run[n].leaves, run[n].gen) <= 15
  {
    if n > 0 {
      NoneMissedExactlyWhen(run, actions, n - 1);
      StepAt(run, actions, n - 1);
      RunInv(run, actions, n - 1);
      MissedStep(run[n - 1], actions[n - 1], run[n]);
    }
  }

  /** It has returned 1 or was marked READYBASIC, enough leaves have completed, enough
      sockets are ready and no epoll request is out. */
  predicate WantsToRun(run: seq<State>, actions: seq<Action>, n: nat)
    requires n <= |actions| < |run|
  {
    && Asked(run, actions, n) && Completed(run[n].leaves, run[n].gen) >= JobsAsked(actions, n)
    && run[n].flags.avSock >= SocksAsked(actions, n) && run[n].flags.waiting == 0
  }

  /** As long as no completion is missed, see `NoneMissedExactlyWhen`, a parent that is
      not condemned and wants to run waits in the cache for a worker; and without falls
      and direct calls nothing else makes it wait there. */
  lemma HandedOverExactlyWhen(run: seq<State>, actions: seq<Action>, n: nat)
    requires IsRun(run, actions) && n < |run|
    requires NeverRefused(run, actions, n) && Completed(run[n].leaves, run[n].gen) <= 15
    ensures JF.AllReady(run[n].flags) <==> WantsToRun(run, actions, n)
    ensures WantsToRun(run, actions, n) && !Condemned(run[n].flags) ==> run[n].queued
    ensures run[n].falls == 0 && run[n].direct == 0 && !Condemned(run[n].flags) ==>
              (run[n].queued <==> WantsToRun(run, actions, n))
  {
    NoneMissedExactlyWhen(run, actions, n);
    BasicExactlyWhen(run, actions, n);
    AskedInRun(run, actions, n);
    RunInv(run, actions, n);
  }
}
