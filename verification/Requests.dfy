/** Epoll requests of the jobs that follow one another in a slot.  A request carries
    the generation of the job that made it; the slot's counters are shared by all the
    incarnations, so an answer must find out whether its job is still the one there.

    `JobMakes` to `AddingFails` are the steps of schedi_job_tool_epoll, called from the
    job's own run; `Enters`, `Notes` and `Leaves` those of
    schedi_job_epoll_request_return on the epoll thread.  A teardown is meant to wait
    for both: for the run (EXECUTING) and for held accesses, see `Lifecycle`.  The
    machine lets it begin at any moment; the theorems say what they ask of that. */
module Requests {
  import opened Traces

  datatype Status =
    | Begun                    // total_req raised
    | Reserved                 // waiting_count raised
    | Outstanding              // known to epoll
    | Returning(error: bool)   // access held, generation found to match
    | Noted(error: bool)       // ret_count or err_count raised
    | Answered(error: bool)    // waiting_count lowered
    | Failed                   // schedi_job_tool_epoll returned an error
    | Dropped                  // the answer found another incarnation

  datatype Request = Request(gen: nat, status: Status)

  datatype Phase = Free | Claimed | Live | Dying

  datatype State = State(
    phase: Phase, gen: nat, waiting: int, total: nat, ret: nat, err: nat, requests: seq<Request>)

  datatype Action =
    | JobMakes
    | Reserves(k: nat)
    | Adds(k: nat)
    | AddingFails(k: nat)
    | Enters(k: nat, error: bool)
    | Notes(k: nat)
    | Leaves(k: nat)
    | TeardownBegins
    | TeardownEnds
    | Claims
    | Creates

  /** Steps that the job's run or a held access covers. */
  predicate InProgress(r: Request) {
    r.status == Begun || r.status == Reserved || r.status.Returning? || r.status.Noted?
  }

  function To(s: State, k: nat, status: Status): State
    requires k < |s.requests|
  {
    s.(requests := s.requests[k := s.requests[k].(status := status)])
  }

  /** schedi_job_meta_flag_cas_update with a delta on waiting_count. */
  function Waits(s: State, delta: int): State {
    if 0 <= s.waiting + delta <= 15 then s.(waiting := s.waiting + delta) else s
  }

  ghost predicate Step(s: State, a: Action, s': State) {
    match a
    case JobMakes =>
      s.phase == Live && s' == s.(total := s.total + 1, requests := s.requests + [Request(s.gen, Begun)])
    case Reserves(k) =>
      && k < |s.requests| && s.requests[k].status == Begun
      && s' == if s.waiting + 1 > 15 then To(s, k, Failed) else To(Waits(s, 1), k, Reserved)
    case Adds(k) =>
      k < |s.requests| && s.requests[k].status == Reserved && s' == To(s, k, Outstanding)
    case AddingFails(k) =>
      k < |s.requests| && s.requests[k].status == Reserved && s' == To(Waits(s, -1), k, Failed)
    case Enters(k, error) =>
      && k < |s.requests| && s.requests[k].status == Outstanding
      && s' == if s.phase == Claimed || s.phase == Dying || s.requests[k].gen != s.gen
               then To(s, k, Dropped) else To(s, k, Returning(error))
    case Notes(k) =>
      && k < |s.requests| && s.requests[k].status.Returning?
      && var error := s.requests[k].status.error;
         var noted := if error then s.(err := s.err + 1) else s.(ret := s.ret + 1);
         s' == To(noted, k, Noted(error))
    case Leaves(k) =>
      && k < |s.requests| && s.requests[k].status.Noted?
      && s' == To(Waits(s, -1), k, Answered(s.requests[k].status.error))
    case TeardownBegins =>
      s.phase == Live && s' == s.(phase := Dying)
    case TeardownEnds =>
      s.phase == Dying && s' == s.(phase := Free, gen := s.gen + 1, waiting := 0)
    case Claims =>
      s.phase == Free && s' == s.(phase := Claimed)
    case Creates =>
      s.phase == Claimed && s' == s.(phase := Live, waiting := 0, total := 0, ret := 0, err := 0)
  }

  ghost predicate Init(s: State) {
    s.phase == Free && s.requests == []
  }

  /** No call and no answer is half done. */
  ghost predicate Quiet(s: State) {
    forall r | r in s.requests :: !InProgress(r)
  }

  /** A teardown begins on a quiet job. */
  ghost predicate Proper(s: State, a: Action) {
    a.TeardownBegins? ==> Quiet(s)
  }

  predicate OfRequest(a: Action) {
    a.Reserves? || a.Adds? || a.AddingFails? || a.Enters? || a.Notes? || a.Leaves?
  }

  /** A request that is not over yet can go on, at whatever moment of its job's life. */
  lemma GoesOn(s: State, k: nat, error: bool) returns (a: Action, s': State)
    requires k < |s.requests|
    requires var st := s.requests[k].status; !st.Answered? && st != Failed && st != Dropped
    ensures Step(s, a, s') && OfRequest(a) && a.k == k && s'.requests[k].status != s.requests[k].status
    ensures a.Enters? ==> a.error == error
  {
    match s.requests[k].status
    case Begun =>
      a := Reserves(k);
      s' := if s.waiting + 1 > 15 then To(s, k, Failed) else To(Waits(s, 1), k, Reserved);
    case Reserved => a, s' := Adds(k), To(s, k, Outstanding);
    case Outstanding =>
      a := Enters(k, error);
      s' := if s.phase == Claimed || s.phase == Dying || s.requests[k].gen != s.gen
            then To(s, k, Dropped) else To(s, k, Returning(error));
    case Returning(e) =>
      a := Notes(k);
      s' := To(if e then s.(err := s.err + 1) else s.(ret := s.ret + 1), k, Noted(e));
    case Noted(e) => a, s' := Leaves(k), To(Waits(s, -1), k, Answered(e));
  }

  // --------------------------------------------------------------- counting

  datatype Kind = Any | Started | Out | Good | Bad | Refused | Unanswered

  /** Out: counted in waiting_count.  Unanswered: noted, but still in it. */
  predicate Is(st: Status, kind: Kind) {
    match kind
    case Any => true
    case Started => st == Begun
    case Out => st == Reserved || st == Outstanding || st.Returning? || st.Noted?
    case Good => (st.Noted? || st.Answered?) && !st.error
    case Bad => (st.Noted? || st.Answered?) && st.error
    case Refused => st == Failed
    case Unanswered => st.Noted?
  }

  function One(r: Request, gen: nat, kind: Kind): (n: int)
    ensures 0 <= n <= 1
  {
    if r.gen == gen && Is(r.status, kind) then 1 else 0
  }

  /** How many requests of one incarnation are of a kind. */
  function Tally(requests: seq<Request>, gen: nat, kind: Kind): (n: nat)
    ensures n <= |requests|
  {
    if requests == [] then 0
    else Tally(requests[..|requests| - 1], gen, kind) + One(requests[|requests| - 1], gen, kind)
  }

  lemma {:induction false} TallyAppend(requests: seq<Request>, r: Request, gen: nat, kind: Kind)
    ensures Tally(requests + [r], gen, kind) == Tally(requests, gen, kind) + One(r, gen, kind)
  {
    assert (requests + [r])[..|requests|] == requests;
  }

  lemma {:induction false} TallyReplace(requests: seq<Request>, k: nat, r: Request, gen: nat, kind: Kind)
    requires k < |requests|
    ensures Tally(requests[k := r], gen, kind)
         == Tally(requests, gen, kind) - One(requests[k], gen, kind) + One(r, gen, kind)
  {
    var n := |requests| - 1;
    if k < n {
      TallyReplace(requests[..n], k, r, gen, kind);
      assert requests[k := r][..n] == requests[..n][k := r];
    } else {
      assert requests[k := r][..n] == requests[..n];
    }
  }

  lemma {:induction false} TallyPositive(requests: seq<Request>, k: nat, gen: nat, kind: Kind)
    requires k < |requests|
    ensures Tally(requests, gen, kind) >= One(requests[k], gen, kind)
  {
    if k < |requests| - 1 {
      TallyPositive(requests[..|requests| - 1], k, gen, kind);
    }
  }

  lemma {:induction false} TallyNone(requests: seq<Request>, gen: nat, kind: Kind)
    requires forall r | r in requests :: r.gen < gen
    ensures Tally(requests, gen, kind) == 0
  {
    if requests != [] {
      TallyNone(requests[..|requests| - 1], gen, kind);
    }
  }

  /** A request not dropped is of exactly one of the kinds. */
  lemma {:induction false} TallySplits(requests: seq<Request>, gen: nat)
    requires forall r | r in requests && r.gen == gen :: r.status != Dropped
    ensures Tally(requests, gen, Any) + Tally(requests, gen, Unanswered)
         == Tally(requests, gen, Started) + Tally(requests, gen, Out) + Tally(requests, gen, Good)
          + Tally(requests, gen, Bad) + Tally(requests, gen, Refused)
  {
    if requests != [] {
      TallySplits(requests[..|requests| - 1], gen);
      assert requests[|requests| - 1] in requests;
    }
  }

  // -------------------------------------------------------------- invariants

  /** Which generations there are, and who can be in progress. */
  ghost predicate Ages(s: State) {
    && (forall r | r in s.requests :: r.gen <= s.gen)
    && (forall r | r in s.requests && InProgress(r) :: r.gen == s.gen && s.phase == Live)
    && (forall r | r in s.requests && r.gen == s.gen ::
          (s.phase == Live || s.phase == Dying) && (s.phase == Live ==> r.status != Dropped))
  }

  ghost predicate Accounts(s: State) {
    s.phase == Live ==>
      && s.waiting == Tally(s.requests, s.gen, Out) <= 15
      && s.total == Tally(s.requests, s.gen, Any)
      && s.ret == Tally(s.requests, s.gen, Good)
      && s.err == Tally(s.requests, s.gen, Bad)
  }

  ghost predicate Inv(s: State) {
    Ages(s) && Accounts(s)
  }

  lemma AgesRequestStep(s: State, a: Action, s': State)
    requires Ages(s) && Step(s, a, s') && OfRequest(a)
    ensures Ages(s')
  {
    var r, r' := s.requests[a.k], s'.requests[a.k];
    assert r in s.requests;
    assert r'.gen == r.gen;
    assert forall x | x in s'.requests :: x in s.requests || x == r';
  }

  lemma AgesStep(s: State, a: Action, s': State)
    requires Ages(s) && Step(s, a, s') && Proper(s, a)
    ensures Ages(s')
  {
    if OfRequest(a) {
      AgesRequestStep(s, a, s');
    }
  }

  /** What one request's new status does to the four sums. */
  lemma Tallies(s: State, k: nat, status: Status, after: seq<Request>)
    requires k < |s.requests| && after == s.requests[k := s.requests[k].(status := status)]
    ensures var r, r' := s.requests[k], s.requests[k].(status := status);
      && Tally(s.requests, s.gen, Out) >= One(r, s.gen, Out)
      && Tally(after, s.gen, Out) == Tally(s.requests, s.gen, Out) - One(r, s.gen, Out) + One(r', s.gen, Out)
      && Tally(after, s.gen, Any) == Tally(s.requests, s.gen, Any)
      && Tally(after, s.gen, Good) == Tally(s.requests, s.gen, Good) - One(r, s.gen, Good) + One(r', s.gen, Good)
      && Tally(after, s.gen, Bad) == Tally(s.requests, s.gen, Bad) - One(r, s.gen, Bad) + One(r', s.gen, Bad)
  {
    var r' := s.requests[k].(status := status);
    TallyPositive(s.requests, k, s.gen, Out);
    TallyReplace(s.requests, k, r', s.gen, Out);
    TallyReplace(s.requests, k, r', s.gen, Any);
    TallyReplace(s.requests, k, r', s.gen, Good);
    TallyReplace(s.requests, k, r', s.gen, Bad);
  }

  /** The counters moved with the request. */
  predicate Moved(s: State, t: State, r: Request, status: Status) {
    var r' := r.(status := status);
    && t.phase == s.phase && t.gen == s.gen && t.requests == s.requests && t.total == s.total
    && t.waiting == s.waiting - One(r, s.gen, Out) + One(r', s.gen, Out) <= 15
    && t.ret == s.ret - One(r, s.gen, Good) + One(r', s.gen, Good)
    && t.err == s.err - One(r, s.gen, Bad) + One(r', s.gen, Bad)
  }

  lemma MovedAccounts(s: State, t: State, k: nat, status: Status)
    requires Accounts(s) && s.phase == Live && k < |s.requests| && Moved(s, t, s.requests[k], status)
    ensures Accounts(To(t, k, status))
  {
    Tallies(s, k, status, To(t, k, status).requests);
  }

  lemma CallMoves(s: State, a: Action, s': State)
    requires Inv(s) && Step(s, a, s') && (a.Reserves? || a.Adds? || a.AddingFails?)
    ensures Accounts(s')
  {
    var k := a.k;
    assert s.requests[k] in s.requests;
    TallyPositive(s.requests, k, s.gen, Out);
    var t := match a case Reserves(_) => Waits(s, 1) case Adds(_) => s case _ => Waits(s, -1);
    MovedAccounts(s, t, k, s'.requests[k].status);
  }

  lemma EnterMoves(s: State, k: nat, error: bool, s': State)
    requires Inv(s) && Step(s, Enters(k, error), s')
    ensures Accounts(s')
  {
    if s.phase == Live {
      MovedAccounts(s, s, k, s'.requests[k].status);
    }
  }

  lemma AnswerMoves(s: State, a: Action, s': State)
    requires Inv(s) && Step(s, a, s') && (a.Notes? || a.Leaves?)
    ensures Accounts(s')
  {
    var k := a.k;
    var error := s.requests[k].status.error;
    assert s.requests[k] in s.requests;
    TallyPositive(s.requests, k, s.gen, Out);
    var t := if a.Leaves? then Waits(s, -1) else if error then s.(err := s.err + 1) else s.(ret := s.ret + 1);
    MovedAccounts(s, t, k, s'.requests[k].status);
  }

  lemma AccountsStep(s: State, a: Action, s': State)
    requires Inv(s) && Step(s, a, s')
    ensures Accounts(s')
  {
    match a
    case JobMakes =>
      var r := Request(s.gen, Begun);
      TallyAppend(s.requests, r, s.gen, Out);
      TallyAppend(s.requests, r, s.gen, Any);
      TallyAppend(s.requests, r, s.gen, Good);
      TallyAppend(s.requests, r, s.gen, Bad);
    case Creates =>
      forall kind
        ensures Tally(s.requests, s.gen, kind) == 0
      {
        TallyNone(s.requests, s.gen, kind);
      }
    case TeardownBegins =>
    case TeardownEnds =>
    case Claims =>
    case Reserves(_) => CallMoves(s, a, s');
    case Adds(_) => CallMoves(s, a, s');
    case AddingFails(_) => CallMoves(s, a, s');
    case Enters(k, error) => EnterMoves(s, k, error, s');
    case Notes(_) => AnswerMoves(s, a, s');
    case Leaves(_) => AnswerMoves(s, a, s');
  }

  /** Each step keeps the accounts exactly when it is proper: a teardown that begins
      under a call or an answer breaks them, and nothing else does. */
  lemma StepInv(s: State, a: Action, s': State)
    requires Inv(s) && Step(s, a, s')
    ensures Inv(s') <==> Proper(s, a)
  {
    if Proper(s, a) {
      AgesStep(s, a, s');
      AccountsStep(s, a, s');
    } else {
      var r :| r in s.requests && InProgress(r);
      assert r in s'.requests;
    }
  }

  ghost predicate IsRun(run: seq<State>, actions: seq<Action>) {
    && |run| == |actions| + 1 && Init(run[0])
    && forall i | 0 <= i < |actions| :: Step(run[i], actions[i], run[i + 1])
  }

  /** Teardowns among the first n steps begin on quiet jobs. */
  ghost predicate ProperRun(run: seq<State>, actions: seq<Action>, n: nat)
    requires n <= |actions| <= |run|
  {
    forall i | 0 <= i < n :: Proper(run[i], actions[i])
  }

  lemma StepAt(run: seq<State>, actions: seq<Action>, i: nat)
    requires IsRun(run, actions) && i < |actions|
    ensures Step(run[i], actions[i], run[i + 1])
  {
  }

  lemma {:induction false} RunInv(run: seq<State>, actions: seq<Action>, i: nat)
    requires IsRun(run, actions) && i < |run| && ProperRun(run, actions, i)
    ensures Inv(run[i])
  {
    if i > 0 {
      RunInv(run, actions, i - 1);
      StepAt(run, actions, i - 1);
      StepInv(run[i - 1], actions[i - 1], run[i]);
    }
  }

  // ---------------------------------------------------------------- theorems

  /** At every moment of a live job's life its waiting_count is the number of its own
      requests that are out, and its other counters add up, whatever became of the
      requests of the slot's earlier jobs. */
  lemma CountersInRun(run: seq<State>, actions: seq<Action>, i: nat)
    requires IsRun(run, actions) && i < |run| && ProperRun(run, actions, i) && run[i].phase == Live
    ensures var s := run[i];
      && s.waiting == Tally(s.requests, s.gen, Out)
      && s.total + Tally(s.requests, s.gen, Unanswered)
         == s.ret + s.err + s.waiting + Tally(s.requests, s.gen, Refused) + Tally(s.requests, s.gen, Started)
  {
    RunInv(run, actions, i);
    TallySplits(run[i].requests, run[i].gen);
  }

  lemma {:induction false} TallyQuiet(requests: seq<Request>, gen: nat)
    requires forall r | r in requests :: !InProgress(r)
    ensures Tally(requests, gen, Started) == 0 && Tally(requests, gen, Unanswered) == 0
  {
    if requests != [] {
      TallyQuiet(requests[..|requests| - 1], gen);
      assert requests[|requests| - 1] in requests;
    }
  }

  /** Between calls: total_req == ret_count + err_count + waiting_count + failed ones. */
  lemma TotalsBetweenCalls(run: seq<State>, actions: seq<Action>, i: nat)
    requires IsRun(run, actions) && i < |run| && ProperRun(run, actions, i) && run[i].phase == Live
    requires Quiet(run[i])
    ensures var s := run[i];
      s.total == s.ret + s.err + s.waiting + Tally(s.requests, s.gen, Refused)
  {
    CountersInRun(run, actions, i);
    TallyQuiet(run[i].requests, run[i].gen);
  }

  /** A request of an earlier job never changes a counter, and no decrement is ever
      refused as out of range. */
  lemma StaleRequestsChangeNothing(run: seq<State>, actions: seq<Action>, i: nat)
    requires IsRun(run, actions) && i < |actions| && ProperRun(run, actions, i) && OfRequest(actions[i])
    ensures var s, s', k := run[i], run[i + 1], actions[i].k;
      && k < |s.requests|
      && (s.requests[k].gen != s.gen ==>
            s'.waiting == s.waiting && s'.total == s.total && s'.ret == s.ret && s'.err == s.err)
      && (actions[i].AddingFails? || actions[i].Leaves? ==> s'.waiting == s.waiting - 1)
  {
    var s, a := run[i], actions[i];
    RunInv(run, actions, i);
    assert Step(run[i], actions[i], run[i + 1]);
    assert s.requests[a.k] in s.requests;
    TallyPositive(s.requests, a.k, s.gen, Out);
  }

  /** An answer is dropped exactly when its job is gone: another one is in the slot, or it
      is being torn down or set up.  Otherwise it goes on, as what epoll reported. */
  lemma DroppedExactlyWhen(run: seq<State>, actions: seq<Action>, i: nat)
    requires IsRun(run, actions) && i < |actions| && ProperRun(run, actions, i) && actions[i].Enters?
    ensures var s, k := run[i], actions[i].k;
      && k < |s.requests| && k < |run[i + 1].requests|
      && run[i + 1].requests[k].status ==
           if s.phase == Live && s.requests[k].gen == s.gen then Returning(actions[i].error) else Dropped
  {
    RunInv(run, actions, i);
    StepAt(run, actions, i);
    assert run[i].requests[actions[i].k] in run[i].requests;
  }

  /** schedi_job_tool_epoll fails with -4 exactly when 15 requests of this very job are
      out. */
  lemma RefusedExactlyAt15(run: seq<State>, actions: seq<Action>, i: nat)
    requires IsRun(run, actions) && i < |actions| && ProperRun(run, actions, i) && actions[i].Reserves?
    ensures var s, k := run[i], actions[i].k;
      && k < |s.requests| && k < |run[i + 1].requests|
      && (run[i + 1].requests[k].status == Failed <==> Tally(s.requests, s.gen, Out) == 15)
  {
    RunInv(run, actions, i);
    assert Step(run[i], actions[i], run[i + 1]);
    assert run[i].requests[actions[i].k] in run[i].requests;
  }

  // ------------------------------------ a teardown under an answer

  type Run = Trace<State, Action>

  ghost predicate Sound(r: Run) {
    IsRun(r.states, r.actions)
  }

  lemma Then(r: Run, a: Action, s': State) returns (r': Run)
    requires Sound(r) && Step(Final(r), a, s')
    ensures Sound(r') && r'.states == r.states + [s'] && r'.actions == r.actions + [a]
  {
    r' := Longer(r, a, s');
  }

  /** A job makes a request of its own and registers it. */
  lemma Asks(r: Run) returns (r': Run)
    requires Sound(r) && Final(r).phase == Live && 0 <= Final(r).waiting < 15
    ensures Sound(r') && r'.states[0] == r.states[0] && |r'.states| == |r'.actions| + 1
    ensures var k := |Final(r).requests|; r'.actions == r.actions + [JobMakes, Reserves(k), Adds(k)]
    ensures var s := Final(r);
      Final(r') == s.(total := s.total + 1, waiting := s.waiting + 1,
                      requests := s.requests + [Request(s.gen, Outstanding)])
  {
    var s := Final(r);
    var k := |s.requests|;
    var s1 := s.(total := s.total + 1, requests := s.requests + [Request(s.gen, Begun)]);
    var s2 := To(Waits(s1, 1), k, Reserved);
    var s3 := To(s2, k, Outstanding);
    r' := Then(r, JobMakes, s1);
    r' := Then(r', Reserves(k), s2);
    r' := Then(r', Adds(k), s3);
    assert s3.requests == s.requests + [Request(s.gen, Outstanding)];
  }

  lemma NewJob(r: Run) returns (r': Run)
    requires Sound(r) && Final(r).phase == Free
    ensures Sound(r') && r'.states[0] == r.states[0] && r'.actions == r.actions + [Claims, Creates]
    ensures Final(r') == Final(r).(phase := Live, waiting := 0, total := 0, ret := 0, err := 0)
  {
    r' := Then(r, Claims, Final(r).(phase := Claimed));
    r' := Then(r', Creates, Final(r).(phase := Live, waiting := 0, total := 0, ret := 0, err := 0));
  }

  /** The whole run: the answer to the first job's request has found its generation
      equal when the teardown begins; the slot is reused, and the rest of the answer
      is counted for the second job, whose own request is still out. */
  lemma OldAnswerReachesNewJob(s: State) returns (r: Run)
    requires Init(s)
    ensures Sound(r) && r.states[0] == s
    ensures r.actions == [Claims, Creates, JobMakes, Reserves(0), Adds(0), Enters(0, false),
                          TeardownBegins, TeardownEnds, Claims, Creates,
                          JobMakes, Reserves(1), Adds(1), Notes(0), Leaves(0)]
    ensures var t := Final(r);
      && t.phase == Live && t.gen == s.gen + 1 && t.ret == 1 && t.waiting == 0
      && t.requests == [Request(s.gen, Answered(false)), Request(t.gen, Outstanding)]
  {
    r := Trace([s], []);
    r := NewJob(r);
    r := Asks(r);
    var s1 := To(Final(r), 0, Returning(false));
    r := Then(r, Enters(0, false), s1);
    r := Then(r, TeardownBegins, s1.(phase := Dying));
    r := Then(r, TeardownEnds, s1.(phase := Free, gen := s1.gen + 1, waiting := 0));
    r := NewJob(r);
    r := Asks(r);
    var s2 := To(Final(r).(ret := 1), 0, Noted(false));
    r := Then(r, Notes(0), s2);
    r := Then(r, Leaves(0), To(Waits(s2, -1), 0, Answered(false)));
  }
}
