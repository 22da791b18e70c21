/** How a job's packed available_sockets follows its sockets.  Each socket word
    update that flips READY applies the flip to the owner's count, unless the owner
    refuses the access or the count leaves its four bits; a socket that starts out
    ready counts at once, and is counted out again when its registration fails.

    A socket update and the change of the count it causes are one step. */
module AvailableSockets {
  import SW = SocketWord
  import JF = JobFlags

  datatype Stage = Registering | Registered | Failed

  /** A released socket stays here with its final word. */
  datatype Sock = Sock(word: SW.Word, readCondition: nat, writeCondition: nat, stage: Stage)

  /** `drift` sums the changes that were refused. */
  datatype State = State(
    bufferSize: nat, flags: JF.Flags, needSock: int, needJobs: int, socks: seq<Sock>, drift: int)

  datatype Action =
    | Create(readCondition: nat, writeCondition: nat)
    | RegistrationSucceeds(k: nat)
    | RegistrationFails(k: nat)
    | Updates(k: nat, u: SW.Update)
    | Require(n: int)
    | Other(flags: JF.Flags)

  predicate Counts(s: Sock) {
    s.stage != Failed && s.word.ready
  }

  function One(s: Sock): (n: int)
    ensures 0 <= n <= 1
  {
    if Counts(s) then 1 else 0
  }

  /** The number of sockets whose READY bit is set. */
  function ReadyCount(socks: seq<Sock>): (n: nat)
    ensures n <= |socks|
  {
    if socks == [] then 0 else ReadyCount(socks[..|socks| - 1]) + One(socks[|socks| - 1])
  }

  /** schedi_job_meta_flag_cas_update with a socket delta and no bans. */
  function Counted(s: State, delta: int): State {
    if delta == 0 then s
    else if !JF.UpdateFits(s.flags, delta, 0, 0) then s.(drift := s.drift + delta)
    else s.(flags := JF.Update(s.flags, delta, 0, 0, false, s.needSock, s.needJobs))
  }

  /** The same through schedi_job_epollsocket_accessjob. */
  function CountedByAccess(s: State, delta: int): State {
    if delta != 0 && JF.AccessRefused(s.flags) then s.(drift := s.drift + delta) else Counted(s, delta)
  }

  ghost predicate Step(s: State, a: Action, s': State) {
    match a
    case Create(rc, wc) =>
      var sock := Sock(SW.Created(s.bufferSize, rc, wc), rc, wc, Registering);
      s' == Counted(s, One(sock)).(socks := s.socks + [sock])
    case RegistrationSucceeds(k) =>
      && k < |s.socks| && s.socks[k].stage == Registering
      && s' == s.(socks := s.socks[k := s.socks[k].(stage := Registered)])
    case RegistrationFails(k) =>
      && k < |s.socks| && s.socks[k].stage == Registering
      && s' == Counted(s, -One(s.socks[k])).(socks := s.socks[k := s.socks[k].(stage := Failed)])
    case Updates(k, u) =>
      && k < |s.socks| && s.socks[k].stage == Registered
      && SW.Applicable(s.socks[k].word, u)
      && var sock := s.socks[k];
         var updated := sock.(word := SW.Apply(sock.word, u, sock.readCondition, sock.writeCondition));
         s' == CountedByAccess(s, One(updated) - One(sock)).(socks := s.socks[k := updated])
    case Require(n) =>
      && JF.InRange(s.flags)
      && s' == s.(needSock := n, flags := JF.Update(s.flags, 0, 0, 0, false, n, s.needJobs))
    case Other(f) =>
      // every other step on the word leaves the socket count and its bit alone
      s' == s.(flags := f) && JF.InRange(f) && f.avSock == s.flags.avSock && f.epollSock == s.flags.epollSock
  }

  /** schedi_job_create */
  ghost predicate Init(s: State) {
    s == State(s.bufferSize, JF.CREATED, 0, 0, [], 0)
  }

  /** A flip of a socket's READY that the owner does not let in. */
  ghost predicate Refuses(s: State, a: Action) {
    && a.Updates? && a.k < |s.socks| && SW.Applicable(s.socks[a.k].word, a.u)
    && JF.AccessRefused(s.flags)
    && var sock := s.socks[a.k];
       SW.Apply(sock.word, a.u, sock.readCondition, sock.writeCondition).ready != sock.word.ready
  }

  ghost predicate Inv(s: State) {
    && JF.InRange(s.flags)
    && s.flags.avSock + s.drift == ReadyCount(s.socks)
    && (s.flags.epollSock <==> s.flags.avSock >= s.needSock)
  }

  // ----------------------------------------------------------------- proofs

  lemma {:induction false} ReadyAppend(socks: seq<Sock>, sock: Sock)
    ensures ReadyCount(socks + [sock]) == ReadyCount(socks) + One(sock)
  {
    assert (socks + [sock])[..|socks|] == socks;
  }

  lemma {:induction false} ReadyReplace(socks: seq<Sock>, k: nat, sock: Sock)
    requires k < |socks|
    ensures ReadyCount(socks[k := sock]) == ReadyCount(socks) - One(socks[k]) + One(sock)
  {
    var n := |socks| - 1;
    if k < n {
      ReadyReplace(socks[..n], k, sock);
      assert socks[k := sock][..n] == socks[..n][k := sock];
    } else {
      assert socks[k := sock][..n] == socks[..n];
    }
  }

  lemma CountedKeeps(s: State, delta: int)
    requires JF.InRange(s.flags) && (s.flags.epollSock <==> s.flags.avSock >= s.needSock)
    ensures var s' := Counted(s, delta);
            && JF.InRange(s'.flags) && s'.flags.avSock + s'.drift == s.flags.avSock + s.drift + delta
            && (s'.flags.epollSock <==> s'.flags.avSock >= s'.needSock)
            && s'.socks == s.socks && s'.needSock == s.needSock
            && (s'.drift == s.drift <==> delta == 0 || 0 <= s.flags.avSock + delta <= 15)
  {
  }

  lemma UpdateStepInv(s: State, k: nat, u: SW.Update, s': State)
    requires Inv(s) && Step(s, Updates(k, u), s')
    ensures Inv(s')
    ensures s.drift == 0 ==> (s'.drift == 0 <==> !Refuses(s, Updates(k, u)) && ReadyCount(s'.socks) <= 15)
  {
    var delta := One(s'.socks[k]) - One(s.socks[k]);
    ReadyReplace(s.socks, k, s'.socks[k]);
    CountedKeeps(s, delta);
    assert delta == 0 <==> s'.socks[k].word.ready == s.socks[k].word.ready;
    assert ReadyCount(s'.socks) == s.flags.avSock + s.drift + delta;
  }

  lemma RegistrationStepInv(s: State, a: Action, s': State)
    requires Inv(s) && Step(s, a, s') && (a.Create? || a.RegistrationSucceeds? || a.RegistrationFails?)
    ensures Inv(s')
    ensures s.drift == 0 ==> (s'.drift == 0 <==> ReadyCount(s'.socks) <= 15)
  {
    match a
    case Create(rc, wc) =>
      var sock := s'.socks[|s.socks|];
      ReadyAppend(s.socks, sock);
      CountedKeeps(s, One(sock));
    case RegistrationSucceeds(k) =>
      ReadyReplace(s.socks, k, s'.socks[k]);
    case RegistrationFails(k) =>
      ReadyReplace(s.socks, k, s'.socks[k]);
      CountedKeeps(s, -One(s.socks[k]));
    case _ =>
  }

  lemma StepInv(s: State, a: Action, s': State)
    requires Inv(s) && Step(s, a, s')
    ensures Inv(s')
    ensures s.drift == 0 ==> (s'.drift == 0 <==> !Refuses(s, a) && ReadyCount(s'.socks) <= 15)
  {
    match a
    case Updates(k, u) => UpdateStepInv(s, k, u, s');
    case Create(_, _) => RegistrationStepInv(s, a, s');
    case RegistrationSucceeds(_) => RegistrationStepInv(s, a, s');
    case RegistrationFails(_) => RegistrationStepInv(s, a, s');
    case Require(_) =>
    case Other(_) =>
  }

  /** A registered socket's word takes every update, and no other socket's word moves. */
  lemma SocketFollows(s: State, k: nat, u: SW.Update) returns (s': State)
    requires k < |s.socks| && s.socks[k].stage == Registered && SW.Applicable(s.socks[k].word, u)
    ensures Step(s, Updates(k, u), s') && |s'.socks| == |s.socks|
    ensures var w, d := s.socks[k].word, s'.socks[k].word;
      && d.count == w.count + SW.CountDelta(u) && d.avail == w.avail + SW.AvailDelta(u)
      && (d.dead <==> w.dead || SW.Is(u, SW.Deaths))
    ensures forall i | 0 <= i < |s.socks| && i != k :: s'.socks[i] == s.socks[i]
  {
    var sock := s.socks[k];
    SW.UpdateFields(sock.word, u, sock.readCondition, sock.writeCondition);
    var updated := sock.(word := SW.Apply(sock.word, u, sock.readCondition, sock.writeCondition));
    s' := CountedByAccess(s, One(updated) - One(sock)).(socks := s.socks[k := updated]);
  }

  /** A socket whose registration is under way can be registered, and it can fail. */
  lemma RegistrationGoesOn(s: State, k: nat) returns (done: State, failed: State)
    requires k < |s.socks| && s.socks[k].stage == Registering
    ensures Step(s, RegistrationSucceeds(k), done) && Step(s, RegistrationFails(k), failed)
  {
    done := s.(socks := s.socks[k := s.socks[k].(stage := Registered)]);
    failed := Counted(s, -One(s.socks[k])).(socks := s.socks[k := s.socks[k].(stage := Failed)]);
  }

  ghost predicate IsRun(run: seq<State>, actions: seq<Action>) {
    && |run| == |actions| + 1 && Init(run[0])
    && forall i | 0 <= i < |actions| :: Step(run[i], actions[i], run[i + 1])
  }

  lemma {:induction false} RunInv(run: seq<State>, actions: seq<Action>, i: nat)
    requires IsRun(run, actions) && i < |run|
    ensures Inv(run[i])
  {
    if i > 0 {
      RunInv(run, actions, i - 1);
      assert Step(run[i - 1], actions[i - 1], run[i - 1 + 1]);
      StepInv(run[i - 1], actions[i - 1], run[i]);
    }
  }

  /** The number of sockets last asked for. */
  function SocksAsked(actions: seq<Action>, n: nat): int
    requires n <= |actions|
  {
    if n == 0 then 0 else if actions[n - 1].Require? then actions[n - 1].n else SocksAsked(actions, n - 1)
  }

  lemma {:induction false} AskedInRun(run: seq<State>, actions: seq<Action>, n: nat)
    requires IsRun(run, actions) && n < |run|
    ensures run[n].needSock == SocksAsked(actions, n)
  {
    if n > 0 {
      AskedInRun(run, actions, n - 1);
      assert Step(run[n - 1], actions[n - 1], run[n - 1 + 1]);
    }
  }

  /** Conservation, refusals included: in every run whatsoever the packed count plus
      the refused changes is the number of sockets whose READY bit is set, and the
      derived bit compares the packed count with the requirement. */
  lemma CountAndDrift(run: seq<State>, actions: seq<Action>, i: nat)
    requires IsRun(run, actions) && i < |run|
    ensures run[i].flags.avSock + run[i].drift == ReadyCount(run[i].socks)
    ensures run[i].flags.avSock <= 15
    ensures run[i].flags.epollSock <==> run[i].flags.avSock >= SocksAsked(actions, i)
  {
    RunInv(run, actions, i);
    AskedInRun(run, actions, i);
  }

  /** No flip among the first n steps is refused. */
  ghost predicate NeverRefused(run: seq<State>, actions: seq<Action>, n: nat)
    requires n <= |actions| <= |run|
  {
    forall i | 0 <= i < n :: !Refuses(run[i], actions[i])
  }

  /** Never more than 15 sockets are READY together. */
  ghost predicate NeverTooMany(run: seq<State>, n: nat)
    requires n < |run|
  {
    forall i | 0 <= i <= n :: ReadyCount(run[i].socks) <= 15
  }

  ghost predicate NeverDrifts(run: seq<State>, n: nat)
    requires n < |run|
  {
    forall i | 0 <= i <= n :: run[i].drift == 0
  }

  lemma DriftStep(run: seq<State>, actions: seq<Action>, n: nat)
    requires IsRun(run, actions) && n < |actions|
    ensures run[n].drift == 0 ==>
              (run[n + 1].drift == 0 <==> !Refuses(run[n], actions[n]) && ReadyCount(run[n + 1].socks) <= 15)
  {
    RunInv(run, actions, n);
    assert Step(run[n], actions[n], run[n + 1]);
    StepInv(run[n], actions[n], run[n + 1]);
  }

  lemma {:induction false} DriftExactlyWhen(run: seq<State>, actions: seq<Action>, n: nat)
    requires |run| == |actions| + 1 && n < |run| && run[0].drift == 0 && ReadyCount(run[0].socks) == 0
    requires forall i | 0 <= i < |actions| && run[i].drift == 0 ::
      run[i + 1].drift == 0 <==> !Refuses(run[i], actions[i]) && ReadyCount(run[i + 1].socks) <= 15
    ensures NeverDrifts(run, n) <==> NeverRefused(run, actions, n) && NeverTooMany(run, n)
  {
    if n > 0 {
      DriftExactlyWhen(run, actions, n - 1);
      assert NeverDrifts(run, n) <==> NeverDrifts(run, n - 1) && run[n - 1 + 1].drift == 0;
      assert NeverTooMany(run, n) <==> NeverTooMany(run, n - 1) && ReadyCount(run[n - 1 + 1].socks) <= 15;
      assert NeverRefused(run, actions, n) <==>
             NeverRefused(run, actions, n - 1) && !Refuses(run[n - 1], actions[n - 1]);
    }
  }

  /** The packed count is never off exactly when no flip is refused and never more than
      15 sockets are READY together, however many the job has had; and then
      READYEPOLLSOCK says whether enough sockets are ready. */
  lemma CountIsExact(run: seq<State>, actions: seq<Action>, n: nat)
    requires IsRun(run, actions) && n < |run|
    ensures NeverDrifts(run, n) <==> NeverRefused(run, actions, n) && NeverTooMany(run, n)
    ensures NeverDrifts(run, n) ==>
              run[n].flags.avSock == ReadyCount(run[n].socks)
              && (run[n].flags.epollSock <==> ReadyCount(run[n].socks) >= SocksAsked(actions, n))
  {
    RunInv(run, actions, n);
    AskedInRun(run, actions, n);
    forall i | 0 <= i < |actions| && run[i].drift == 0
      ensures run[i + 1].drift == 0 <==> !Refuses(run[i], actions[i]) && ReadyCount(run[i + 1].socks) <= 15
    {
      DriftStep(run, actions, i);
    }
    assert ReadyCount(run[0].socks) == 0;
    DriftExactlyWhen(run, actions, n);
  }
}
