/** The circular queue of jobs waiting for destruction.  An ordinary push counts its
    job in; a checker takes a job out with a super-pop that leaves the count alone,
    and either puts it back with a super-push or counts it out when it is gone. */
module DestroyQueue {
  import opened ByteRing
  import opened Options

  type Job = nat

  /** `items` is what lies in the ring, `out` how many jobs are checked out. */
  datatype Queue = Queue(items: seq<Job>, out: nat, count: int, size: nat)

  ghost predicate Counted(q: Queue) {
    q.count == |q.items| + q.out && q.count <= q.size
  }

  // ------------------------------------------------- the operations on values

  function Push(q: Queue, job: Job): Queue {
    if q.count >= q.size then q else q.(items := q.items + [job], count := q.count + 1)
  }

  function SuperPush(q: Queue, job: Job): Queue
    requires q.out > 0
  {
    if q.count >= q.size then q else q.(items := q.items + [job], out := q.out - 1)
  }

  /** NULL on an empty ring, and also on a completely full one, where head has
      caught up with tail. */
  predicate CanPop(q: Queue) {
    0 < |q.items| < q.size
  }

  function SuperPop(q: Queue): Queue {
    if CanPop(q) then q.(items := q.items[1..], out := q.out + 1) else q
  }

  function CountOut(q: Queue): Queue
    requires q.out > 0
  {
    q.(out := q.out - 1, count := q.count - 1)
  }

  /** The jobs whose teardown was refused, in order; busy[k] is the outcome for the
      k-th one. */
  function StillBusy(items: seq<Job>, busy: seq<bool>): (r: seq<Job>)
    requires |items| == |busy|
    ensures |r| <= |items|
    ensures forall x | x in r :: x in items
  {
    if items == [] then []
    else StillBusy(items[..|items| - 1], busy[..|busy| - 1])
         + if busy[|busy| - 1] then [items[|items| - 1]] else []
  }

  /** How many of the first k teardowns were refused. */
  function Refusals(busy: seq<bool>, k: nat): (n: nat)
    requires k <= |busy|
  {
    if k == 0 then 0 else Refusals(busy, k - 1) + if busy[k - 1] then 1 else 0
  }

  lemma {:induction false} RefusalsPrefix(busy: seq<bool>, n: nat, k: nat)
    requires k <= n <= |busy|
    ensures Refusals(busy[..n], k) == Refusals(busy, k)
  {
    if k > 0 {
      RefusalsPrefix(busy, n, k - 1);
    }
  }

  /** All of them are kept, in order, and nothing else is: the k-th job, if its teardown
      was refused, comes right behind the refused ones before it. */
  lemma {:induction false} StillBusyExactly(items: seq<Job>, busy: seq<bool>)
    requires |items| == |busy|
    ensures |StillBusy(items, busy)| == Refusals(busy, |busy|)
    ensures forall k | 0 <= k < |busy| && busy[k] ::
              Refusals(busy, k) < |StillBusy(items, busy)| && StillBusy(items, busy)[Refusals(busy, k)] == items[k]
  {
    if items != [] {
      var n := |items| - 1;
      StillBusyExactly(items[..n], busy[..n]);
      RefusalsPrefix(busy, n, n);
      forall k | 0 <= k < n && busy[k]
        ensures Refusals(busy, k) < |StillBusy(items, busy)| && StillBusy(items, busy)[Refusals(busy, k)] == items[k]
      {
        RefusalsPrefix(busy, n, k);
        assert busy[..n][k] && items[..n][k] == items[k];
      }
    }
  }

  // ------------------------------------------------------------ the ring itself

  /** Is slot i among the `queued` slots from tail on? */
  predicate InWindow(i: nat, tail: nat, queued: nat, n: nat) {
    tail <= i < tail + queued || i + n < tail + queued
  }

  ghost predicate ReadyExactly(ready: seq<bool>, tail: nat, queued: nat) {
    forall i | 0 <= i < |ready| :: ready[i] <==> InWindow(i, tail, queued, |ready|)
  }

  lemma ItemsAppend(buf: seq<Job>, tail: nat, queued: nat, job: Job)
    requires tail < |buf| && queued < |buf|
    ensures Contents(buf[Wrap(tail + queued, |buf|) := job], tail, queued + 1) == Contents(buf, tail, queued) + [job]
  {
  }

  lemma ItemsDrop(buf: seq<Job>, tail: nat, queued: nat)
    requires tail < |buf| && 0 < queued <= |buf|
    ensures Contents(buf, Wrap(tail + 1, |buf|), queued - 1) == Contents(buf, tail, queued)[1..]
    ensures Contents(buf, tail, queued)[0] == buf[tail]
  {
  }

  class Ring {
    const buf: array<Job>
    const ready: array<bool>
    var head: nat
    var tail: nat
    var count: int
    ghost var queued: nat
    ghost var out: nat

    ghost predicate Valid()
      reads this, buf, ready
    {
      && 0 < buf.Length == ready.Length
      && tail < buf.Length && queued <= buf.Length
      && head == Wrap(tail + queued, buf.Length)
      && ReadyExactly(ready[..], tail, queued)
      && count == queued + out && count <= buf.Length
    }

    ghost function Abs(): Queue
      requires Valid()
      reads this, buf, ready
    {
      Queue(Contents(buf[..], tail, queued), out, count, buf.Length)
    }

    constructor (size: nat)
      requires 0 < size
      ensures Valid() && fresh(buf) && fresh(ready)
      ensures Abs() == Queue([], 0, 0, size)
    {
      buf := new Job[size];
      ready := new bool[size](_ => false);
      head, tail, count := 0, 0, 0;
      queued, out := 0, 0;
    }

    /** dq_push: true when it returns 0. */
    method DqPush(job: Job) returns (pushed: bool)
      requires Valid()
      modifies this, buf, ready
      ensures Valid()
      ensures Abs() == Push(old(Abs()), job)
      ensures pushed == (old(count) < buf.Length)
    {
      if count >= buf.Length {
        return false;
      }
      Put(job);
      count := count + 1;
      return true;
    }

    /** The part push and super-push share. */
    method Put(job: Job)
      requires Valid() && queued < buf.Length
      modifies this`head, this`queued, buf, ready
      ensures queued == old(queued) + 1
      ensures head == Wrap(tail + queued, buf.Length)
      ensures ReadyExactly(ready[..], tail, queued)
      ensures Contents(buf[..], tail, queued) == Contents(old(buf[..]), tail, old(queued)) + [job]
    {
      AdvanceIsRemainder(head, 1, buf.Length);
      ItemsAppend(buf[..], tail, queued, job);
      ghost var was := ready[..];
      buf[head] := job;
      ready[head] := true;
      assert buf[..] == old(buf[..])[head := job];
      assert ready[..] == was[head := true];
      head := (head + 1) % buf.Length;
      queued := queued + 1;
    }

    /** dq_super_push, by a checker that holds a job. */
    method DqSuperPush(job: Job) returns (pushed: bool)
      requires Valid() && out > 0
      modifies this, buf, ready
      ensures Valid()
      ensures Abs() == SuperPush(old(Abs()), job)
      ensures pushed == (old(count) < buf.Length)
    {
      if count >= buf.Length {
        return false;
      }
      Put(job);
      out := out - 1;
      return true;
    }

    /** dq_super_pop */
    method DqSuperPop() returns (job: Option<Job>)
      requires Valid()
      modifies this, ready
      ensures Valid()
      ensures Abs() == SuperPop(old(Abs()))
      ensures job == if CanPop(old(Abs())) then Some(old(Abs()).items[0]) else None
      ensures job == None <==> |old(Abs()).items| == 0 || |old(Abs()).items| == buf.Length
    {
      if count == 0 || !ready[tail] {
        assert ready[..][tail] == ready[tail];
        return None;
      }
      if tail == head {
        return None;
      }
      assert ready[..][tail] == ready[tail];
      AdvanceIsRemainder(tail, 1, buf.Length);
      ItemsDrop(buf[..], tail, queued);
      ghost var was := ready[..];
      job := Some(buf[tail]);
      ready[tail] := false;
      assert ready[..] == was[tail := false];
      tail := (tail + 1) % buf.Length;
      queued, out := queued - 1, out + 1;
    }

    /** dq_dec_count, by a checker whose job is gone. */
    method DqDecCount()
      requires Valid() && out > 0
      modifies this`count, this`out
      ensures Valid()
      ensures Abs() == CountOut(old(Abs()))
    {
      count := count - 1;
      out := out - 1;
    }

    /** schedi_job_destroy_queue_check, undisturbed: busy[i] tells whether the i-th
        teardown attempt is refused.  With nothing checked out and room in the ring
        exactly the still-busy jobs remain, in their old order.  A completely full
        ring is left as it is. */
    method QueueCheck(busy: seq<bool>)
      requires Valid() && out == 0 && |busy| == count
      modifies this, buf, ready
      ensures Valid() && out == 0
      ensures Abs().items == if old(count) < buf.Length then StillBusy(old(Abs()).items, busy) else old(Abs()).items
      ensures count == |Abs().items|
    {
      ghost var was := Abs().items;
      var n := count;
      var i := 0;
      assert was[0..] == was;
      while i < n
        invariant 0 <= i <= n == |was|
        invariant Valid() && out == 0 && n <= buf.Length
        invariant n < buf.Length ==> Abs().items == was[i..] + StillBusy(was[..i], busy[..i])
        invariant n == buf.Length ==> Abs().items == was
      {
        ghost var before := Abs();
        var job := DqSuperPop();
        if job.None? {
          assert n == buf.Length;
          break;
        }
        if busy[i] {
          var _ := DqSuperPush(job.value);
        } else {
          DqDecCount();
        }
        if n < buf.Length {
          Cycle(before.items, Abs().items, was, busy, i);
        }
        i := i + 1;
      }
      assert was[..n] == was && busy[..n] == busy;
    }
  }

  /** One round of the check: the front job goes to the back or away. */
  lemma Cycle(before: seq<Job>, after: seq<Job>, was: seq<Job>, busy: seq<bool>, i: nat)
    requires i < |was| == |busy|
    requires before == was[i..] + StillBusy(was[..i], busy[..i])
    requires after == before[1..] + if busy[i] then [before[0]] else []
    ensures after == was[i + 1..] + StillBusy(was[..i + 1], busy[..i + 1])
  {
    assert was[..i + 1][..i] == was[..i] && busy[..i + 1][..i] == busy[..i];
  }

  // ------------------------------------------------- several checkers at once

  /** `held[c]` is the job checker c has checked out; `pushed`, `gone` and `lost`
      are the jobs ever counted in, torn down, and dropped by a refused
      super-push. */
  datatype State = State(
    queue: Queue, held: seq<Option<Job>>,
    pushed: multiset<Job>, gone: multiset<Job>, lost: multiset<Job>)

  datatype Action =
    | Pushes(job: Job)
    | ChecksOut(c: nat)
    | PutsBack(c: nat)
    | TearsDown(c: nat)

  ghost predicate Step(s: State, a: Action, s': State) {
    match a
    case Pushes(job) =>
      s' == s.(queue := Push(s.queue, job),
               pushed := if s.queue.count < s.queue.size then s.pushed + multiset{job} else s.pushed)
    case ChecksOut(c) =>
      && c < |s.held| && s.held[c] == None
      && s' == if CanPop(s.queue)
               then s.(queue := SuperPop(s.queue), held := s.held[c := Some(s.queue.items[0])])
               else s
    case PutsBack(c) =>
      && c < |s.held| && s.held[c].Some? && s.queue.out > 0
      && var job := s.held[c].value;
         s' == if s.queue.count < s.queue.size
               then s.(queue := SuperPush(s.queue, job), held := s.held[c := None])
               else s.(held := s.held[c := None], lost := s.lost + multiset{job})
    case TearsDown(c) =>
      && c < |s.held| && s.held[c].Some? && s.queue.out > 0
      && s' == s.(queue := CountOut(s.queue), held := s.held[c := None],
                  gone := s.gone + multiset{s.held[c].value})
  }

  ghost predicate Init(s: State) {
    && s.queue.items == [] && s.queue.out == 0 && s.queue.count == 0 && s.queue.size > 0
    && (forall c | 0 <= c < |s.held| :: s.held[c] == None)
    && s.pushed == multiset{} && s.gone == multiset{} && s.lost == multiset{}
  }

  function AsBag(h: Option<Job>): multiset<Job> {
    match h
    case None => multiset{}
    case Some(job) => multiset{job}
  }

  /** The jobs checked out. */
  function Held(held: seq<Option<Job>>): multiset<Job> {
    if held == [] then multiset{} else Held(held[..|held| - 1]) + AsBag(held[|held| - 1])
  }

  lemma Regroup(front: multiset<Job>, back: multiset<Job>, loss: multiset<Job>, gain: multiset<Job>, changed: multiset<Job>)
    requires changed + loss == front + gain
    ensures changed + back + loss == front + back + gain
  {
    assert changed + back + loss == (changed + loss) + back;
    assert front + back + gain == (front + gain) + back;
  }

  lemma HeldFront(held: seq<Option<Job>>, c: nat, h: Option<Job>)
    requires c < |held| - 1
    ensures Held(held[c := h]) == Held(held[..|held| - 1][c := h]) + AsBag(held[|held| - 1])
  {
    assert held[c := h][..|held| - 1] == held[..|held| - 1][c := h];
  }

  /** Replacing one holding trades its job for another. */
  lemma {:induction false} HeldUpdate(held: seq<Option<Job>>, c: nat, h: Option<Job>)
    requires c < |held|
    ensures Held(held[c := h]) + AsBag(held[c]) == Held(held) + AsBag(h)
  {
    var n := |held| - 1;
    if c < n {
      var front := held[..n];
      HeldUpdate(front, c, h);
      HeldFront(held, c, h);
      Regroup(Held(front), AsBag(held[n]), AsBag(held[c]), AsBag(h), Held(front[c := h]));
    } else {
      assert held[c := h][..n] == held[..n];
    }
  }

  /** Nothing is lost or duplicated: what was counted in is queued, checked out,
      torn down, or was dropped. */
  ghost predicate Conserved(s: State) {
    && s.pushed == multiset(s.queue.items) + Held(s.held) + s.gone + s.lost
    && s.queue.count == |s.queue.items| + s.queue.out && s.queue.count <= s.queue.size
    && s.queue.out == |Held(s.held)| + |s.lost|
  }

  lemma FrontAndRest(items: seq<Job>)
    requires items != []
    ensures multiset(items) == multiset{items[0]} + multiset(items[1..])
  {
    assert items == [items[0]] + items[1..];
  }

  lemma CheckOutConserved(s: State, c: nat, s': State)
    requires Conserved(s) && Step(s, ChecksOut(c), s') && CanPop(s.queue)
    ensures Conserved(s')
  {
    var job := s.queue.items[0];
    FrontAndRest(s.queue.items);
    HeldUpdate(s.held, c, Some(job));
    assert Held(s'.held) == Held(s.held) + multiset{job};
  }

  lemma PutBackConserved(s: State, c: nat, s': State)
    requires Conserved(s) && Step(s, PutsBack(c), s')
    ensures Conserved(s')
  {
    var job := s.held[c].value;
    HeldUpdate(s.held, c, None);
    assert Held(s'.held) + multiset{job} == Held(s.held);
  }

  lemma TearDownConserved(s: State, c: nat, s': State)
    requires Conserved(s) && Step(s, TearsDown(c), s')
    ensures Conserved(s')
  {
    var job := s.held[c].value;
    HeldUpdate(s.held, c, None);
    assert Held(s'.held) + multiset{job} == Held(s.held);
  }

  lemma StepConserved(s: State, a: Action, s': State)
    requires Conserved(s) && Step(s, a, s')
    ensures Conserved(s')
  {
    match a
    case Pushes(job) =>
    case ChecksOut(c) =>
      if CanPop(s.queue) {
        CheckOutConserved(s, c, s');
      }
    case PutsBack(c) => PutBackConserved(s, c, s');
    case TearsDown(c) => TearDownConserved(s, c, s');
  }

  lemma {:induction false} HeldCounts(held: seq<Option<Job>>, c: nat)
    requires c < |held| && held[c].Some?
    ensures held[c].value in Held(held)
  {
    if c < |held| - 1 {
      HeldCounts(held[..|held| - 1], c);
    }
  }

  /** A checker that holds a job can put it back and can tear it down; one that holds none
      can look for one; and anybody can push. */
  lemma CheckerGoesOn(s: State, c: nat) returns (back: State, gone: State)
    requires Conserved(s) && c < |s.held| && s.held[c].Some?
    ensures Step(s, PutsBack(c), back) && Step(s, TearsDown(c), gone)
  {
    HeldCounts(s.held, c);
    assert |Held(s.held)| > 0;
    var job := s.held[c].value;
    back := if s.queue.count < s.queue.size
            then s.(queue := SuperPush(s.queue, job), held := s.held[c := None])
            else s.(held := s.held[c := None], lost := s.lost + multiset{job});
    gone := s.(queue := CountOut(s.queue), held := s.held[c := None], gone := s.gone + multiset{job});
  }

  lemma CheckerLooks(s: State, c: nat) returns (s': State)
    requires c < |s.held| && s.held[c] == None
    ensures Step(s, ChecksOut(c), s')
    ensures s'.held[c].Some? <==> 0 < |s.queue.items| < s.queue.size
  {
    s' := if CanPop(s.queue) then s.(queue := SuperPop(s.queue), held := s.held[c := Some(s.queue.items[0])]) else s;
  }

  ghost predicate IsRun(run: seq<State>, actions: seq<Action>) {
    && |run| == |actions| + 1 && Init(run[0])
    && forall i | 0 <= i < |actions| :: Step(run[i], actions[i], run[i + 1])
  }

  lemma {:induction false} EmptyHeld(held: seq<Option<Job>>)
    requires forall c | 0 <= c < |held| :: held[c] == None
    ensures Held(held) == multiset{}
  {
    if held != [] {
      EmptyHeld(held[..|held| - 1]);
    }
  }

  /** The queue refines a sequence with checked-out items: at every moment of every
      run of any number of pushers and checkers the count is the jobs queued plus
      those checked out (or dropped), and each job counted in is in exactly one
      place. */
  lemma {:induction false} RunConserved(run: seq<State>, actions: seq<Action>, i: nat)
    requires IsRun(run, actions) && i < |run|
    ensures Conserved(run[i])
  {
    if i == 0 {
      EmptyHeld(run[0].held);
    } else {
      RunConserved(run, actions, i - 1);
      assert Step(run[i - 1], actions[i - 1], run[i - 1 + 1]);
      StepConserved(run[i - 1], actions[i - 1], run[i]);
    }
  }

  /** The jobs that entered the ring so far, and those that left it, in order. */
  function Entered(run: seq<State>, actions: seq<Action>, n: nat): seq<Job>
    requires n <= |actions| && |run| == |actions| + 1
  {
    if n == 0 then []
    else Entered(run, actions, n - 1) + EntersBy(run[n - 1], actions[n - 1])
  }

  function EntersBy(s: State, a: Action): seq<Job> {
    match a
    case Pushes(job) => if s.queue.count < s.queue.size then [job] else []
    case PutsBack(c) =>
      if c < |s.held| && s.held[c].Some? && s.queue.count < s.queue.size then [s.held[c].value] else []
    case _ => []
  }

  function Gone(run: seq<State>, actions: seq<Action>, n: nat): seq<Job>
    requires n <= |actions| && |run| == |actions| + 1
  {
    if n == 0 then [] else Gone(run, actions, n - 1) + LeavesBy(actions[n - 1], run[n - 1], run[n])
  }

  /** A checker comes to hold a job. */
  function LeavesBy(a: Action, s: State, s': State): seq<Job> {
    if a.ChecksOut? && a.c < |s'.held| && s'.held[a.c].Some? then [s'.held[a.c].value] else []
  }

  lemma OrderStep(s: State, a: Action, s': State)
    requires Step(s, a, s')
    ensures s.queue.items + EntersBy(s, a) == LeavesBy(a, s, s') + s'.queue.items
    ensures a.ChecksOut? ==> (LeavesBy(a, s, s') == [] <==> |s.queue.items| == 0 || |s.queue.items| >= s.queue.size)
  {
  }

  lemma StepAt(run: seq<State>, actions: seq<Action>, i: nat)
    requires IsRun(run, actions) && i < |actions|
    ensures Step(run[i], actions[i], run[i + 1])
  {
  }

  lemma Regrouped(gone: seq<Job>, items: seq<Job>, entering: seq<Job>, leaving: seq<Job>, items': seq<Job>)
    requires items + entering == leaving + items'
    ensures gone + items + entering == gone + leaving + items'
  {
    assert gone + items + entering == gone + (items + entering);
    assert gone + leaving + items' == gone + (leaving + items');
  }

  /** First in, first out: in every run of any number of pushers and checkers the jobs
      that entered the ring are those that were checked out, in that order, followed by
      those that lie in it. */
  lemma {:induction false} InOrder(run: seq<State>, actions: seq<Action>, n: nat)
    requires IsRun(run, actions) && n < |run|
    ensures Entered(run, actions, n) == Gone(run, actions, n) + run[n].queue.items
  {
    if n > 0 {
      InOrder(run, actions, n - 1);
      StepAt(run, actions, n - 1);
      OrderStep(run[n - 1], actions[n - 1], run[n]);
      Regrouped(Gone(run, actions, n - 1), run[n - 1].queue.items, EntersBy(run[n - 1], actions[n - 1]),
                LeavesBy(actions[n - 1], run[n - 1], run[n]), run[n].queue.items);
    }
  }

  /** No super-push so far met a count equal to the size of the ring. */
  ghost predicate NoPutBackAtFull(run: seq<State>, actions: seq<Action>, n: nat)
    requires n <= |actions| <= |run|
  {
    forall i | 0 <= i < n && actions[i].PutsBack? :: run[i].queue.count < run[i].queue.size
  }

  /** Jobs are dropped exactly by super-pushes that meet a full count: ordinary
      pushes that fall between a super-pop and its super-push can bring that
      about. */
  lemma {:induction false} LostExactlyAtFull(run: seq<State>, actions: seq<Action>, n: nat)
    requires IsRun(run, actions) && n <= |actions|
    ensures run[n].lost == multiset{} <==> NoPutBackAtFull(run, actions, n)
  {
    if n > 0 {
      LostExactlyAtFull(run, actions, n - 1);
      assert Step(run[n - 1], actions[n - 1], run[n - 1 + 1]);
      LostAt(run[n - 1], actions[n - 1], run[n]);
    }
  }

  lemma LostAt(s: State, a: Action, s': State)
    requires Step(s, a, s')
    ensures s'.lost == multiset{} <==> s.lost == multiset{} && (a.PutsBack? ==> s.queue.count < s.queue.size)
  {
    if a.PutsBack? && s.queue.count >= s.queue.size {
      assert s.held[a.c].value in s'.lost;
    }
  }
}
