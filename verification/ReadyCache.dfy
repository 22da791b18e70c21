/** The ready-job cache: what one push, one pop and one "pop and re-cache" do to
    the slot array and its counters, and how far gaps can open below a job.

    Jobs are named by their index in the job array.  The cache is a value here;
    `ReadyCacheArray` has the loops over the array itself, and `WorkerProtocol`
    has workers and setters stepping on one cache concurrently. */
module ReadyCache {
  import opened Options

  type Job = nat
  type Slot = Option<Job>

  /** `count` and `peak` are the two halves of the packed job_count word,
      `counter` is ready_jobs_cache_reorganize_counter and `full` the
      SCHEDI_JOB_ARRAY_FULL flag. */
  datatype Cache = Cache(slots: seq<Slot>, count: int, peak: nat, counter: nat, full: bool)

  // ---------------------------------------------------------------- counting

  /** How many of the first n slots are empty. */
  function Empties(s: seq<Slot>, n: nat): (e: nat)
    requires n <= |s|
    ensures e <= n
  {
    if n == 0 then 0 else Empties(s, n - 1) + if s[n - 1].None? then 1 else 0
  }

  function Occupied(s: seq<Slot>): (c: nat)
    ensures c <= |s|
  {
    |s| - Empties(s, |s|)
  }

  /** Every cached job has at most k empty slots below it. */
  ghost predicate GapsWithin(s: seq<Slot>, k: nat) {
    forall i | 0 <= i < |s| && s[i].Some? :: Empties(s, i) <= k
  }

  ghost predicate AllBelow(s: seq<Slot>, limit: int) {
    forall i | 0 <= i < |s| && s[i].Some? :: i < limit
  }

  ghost predicate IsEmpty(s: seq<Slot>) {
    forall i | 0 <= i < |s| :: s[i].None?
  }

  /** Occupied slots form a prefix. */
  ghost predicate GapFree(s: seq<Slot>) {
    forall i, j | 0 <= i < j < |s| && s[j].Some? :: s[i].Some?
  }

  lemma {:induction false} EmptiesUpdate(s: seq<Slot>, i: nat, v: Slot, n: nat)
    requires i < |s| && n <= |s|
    ensures Empties(s[i := v], n) ==
            Empties(s, n) + if i >= n || s[i].None? == v.None? then 0 else if v.None? then 1 else -1
  {
    if n > 0 {
      EmptiesUpdate(s, i, v, n - 1);
    }
  }

  lemma {:induction false} EmptiesMonotone(s: seq<Slot>, m: nat, n: nat)
    requires m <= n <= |s|
    ensures Empties(s, m) <= Empties(s, n) <= Empties(s, m) + (n - m)
    ensures Empties(s, m) == Empties(s, n) <==> forall i | m <= i < n :: s[i].Some?
    ensures Empties(s, n) == Empties(s, m) + (n - m) <==> forall i | m <= i < n :: s[i].None?
  {
    if m < n {
      EmptiesMonotone(s, m, n - 1);
    }
  }

  lemma OccupiedZero(s: seq<Slot>)
    ensures Occupied(s) == 0 <==> IsEmpty(s)
    ensures Occupied(s) == |s| <==> forall i | 0 <= i < |s| :: s[i].Some?
  {
    EmptiesMonotone(s, 0, |s|);
  }

  lemma GapsZeroIsGapFree(s: seq<Slot>)
    ensures GapsWithin(s, 0) <==> GapFree(s)
  {
    forall j | 0 <= j < |s| && s[j].Some?
      ensures Empties(s, j) == 0 <==> forall i | 0 <= i < j :: s[i].Some?
    {
      EmptiesMonotone(s, 0, j);
    }
  }

  // -------------------------------------------------------------- operations

  /** The lowest empty slot at or above i, |s| when there is none. */
  function FirstEmpty(s: seq<Slot>, i: nat := 0): (e: nat)
    requires i <= |s|
    ensures i <= e <= |s|
    ensures forall k | i <= k < e :: s[k].Some?
    ensures e < |s| ==> s[e].None?
    decreases |s| - i
  {
    if i == |s| || s[i].None? then i else FirstEmpty(s, i + 1)
  }

  /** The lowest occupied slot among the slots i .. n-1, n when there is none. */
  function FirstJob(s: seq<Slot>, n: nat, i: nat := 0): (f: nat)
    requires i <= n <= |s|
    ensures i <= f <= n
    ensures forall k | i <= k < f :: s[k].None?
    ensures f < n ==> s[f].Some?
    decreases n - i
  {
    if i == n || s[i].Some? then i else FirstJob(s, n, i + 1)
  }

  /** schedi_cache_job_ready: the job goes to the lowest empty slot. */
  function Push(c: Cache, job: Job): Cache {
    var e := FirstEmpty(c.slots);
    if e == |c.slots| then c.(full := true)
    else c.(slots := c.slots[e := Some(job)],
            count := c.count + 1,
            peak := if c.count + 1 > c.peak then c.count + 1 else c.peak,
            counter := c.counter + 1)
  }

  predicate HasRoom(c: Cache) {
    FirstEmpty(c.slots) < |c.slots|
  }

  /** schedi_ready_jobs_cache_pop_specific on an occupied slot. */
  function TakeAt(c: Cache, i: nat): Cache
    requires i < |c.slots| && c.slots[i].Some?
  {
    c.(slots := c.slots[i := None], count := c.count - 1, counter := c.counter + 1)
  }

  /** The slot schedi_cache_job_ready_pop takes its job from: only the first
      `window` slots are looked at, and none when the count is zero. */
  function PopIndex(c: Cache, window: nat): (r: Option<nat>)
    requires window <= |c.slots|
    ensures r.Some? ==> r.value < window && c.slots[r.value].Some?
  {
    var f := FirstJob(c.slots, window);
    if c.count == 0 || f == window then None else Some(f)
  }

  function Pop(c: Cache, window: nat): Cache
    requires window <= |c.slots|
  {
    match PopIndex(c, window)
    case None => c
    case Some(i) => TakeAt(c, i).(full := false)
  }

  function Popped(c: Cache, window: nat): Option<Job>
    requires window <= |c.slots|
  {
    match PopIndex(c, window)
    case None => None
    case Some(i) => c.slots[i]
  }

  /** One round of schedi_ready_jobs_cache_reorganize at index i: the job there,
      if any, is popped and cached again in the lowest empty slot. */
  function Recache(c: Cache, i: nat): Cache
    requires i < |c.slots|
  {
    if c.slots[i].None? then c else Push(TakeAt(c, i), c.slots[i].value)
  }

  // -------------------------------------------------------------- invariants

  /** The counters agree with the slots: `count` counts them, and no job sits at
      or above the recorded peak. */
  ghost predicate Consistent(c: Cache) {
    && c.count == Occupied(c.slots)
    && c.count <= c.peak <= |c.slots|
    && AllBelow(c.slots, c.peak)
  }

  lemma PushConsistent(c: Cache, job: Job)
    requires Consistent(c)
    ensures Consistent(Push(c, job))
    ensures !HasRoom(c) <==> c.count == |c.slots|
  {
    var e := FirstEmpty(c.slots);
    OccupiedZero(c.slots);
    if e < |c.slots| {
      EmptiesUpdate(c.slots, e, Some(job), |c.slots|);
      EmptiesMonotone(c.slots, 0, e);
      EmptiesMonotone(c.slots, e, |c.slots|);
    }
  }

  lemma TakeConsistent(c: Cache, i: nat)
    requires Consistent(c) && i < |c.slots| && c.slots[i].Some?
    ensures c.count > 0 && Consistent(TakeAt(c, i))
  {
    OccupiedZero(c.slots);
    EmptiesUpdate(c.slots, i, None, |c.slots|);
  }

  lemma PopConsistent(c: Cache, window: nat)
    requires Consistent(c) && window <= |c.slots|
    ensures Consistent(Pop(c, window))
  {
    match PopIndex(c, window)
    case None =>
    case Some(i) => TakeConsistent(c, i);
  }

  lemma RecacheConsistent(c: Cache, i: nat)
    requires Consistent(c) && i < |c.slots| && c.slots[i].Some?
    ensures c.count > 0 && Consistent(Recache(c, i))
    ensures Recache(c, i).count == c.count && Recache(c, i).peak == c.peak
    ensures Recache(c, i).counter == c.counter + 2
    ensures !IsEmpty(Recache(c, i).slots)
  {
    TakeConsistent(c, i);
    var t := TakeAt(c, i);
    PushConsistent(t, c.slots[i].value);
    var e := FirstEmpty(t.slots);
    assert t.slots[i].None?;
    assert Recache(c, i).slots[e].Some?;
  }

  // --------------------------------------------------------- gaps under moves

  /** A pop opens at most one gap. */
  lemma TakeGaps(s: seq<Slot>, i: nat, k: nat)
    requires i < |s| && s[i].Some? && GapsWithin(s, k)
    ensures GapsWithin(s[i := None], k + 1)
  {
    var t := s[i := None];
    forall x | 0 <= x < |t| && t[x].Some?
      ensures Empties(t, x) <= k + 1
    {
      EmptiesUpdate(s, i, None, x);
    }
  }

  /** A push into the lowest empty slot opens no gap. */
  lemma PushGaps(s: seq<Slot>, job: Job, k: nat)
    requires GapsWithin(s, k) && FirstEmpty(s) < |s|
    ensures GapsWithin(s[FirstEmpty(s) := Some(job)], k)
  {
    var e := FirstEmpty(s);
    var t := s[e := Some(job)];
    forall x | 0 <= x < |t| && t[x].Some?
      ensures Empties(t, x) <= k
    {
      EmptiesUpdate(s, e, Some(job), x);
      if x <= e {
        EmptiesMonotone(s, 0, x);
      }
    }
  }

  /** Where popping slot i and caching the job again puts it. */
  function RecacheTarget(s: seq<Slot>, i: nat): (e: nat)
    requires i < |s| && s[i].Some?
    ensures e <= i
    ensures s[i := None][e].None?
    ensures forall k | 0 <= k < e :: s[k].Some?
  {
    var t := s[i := None];
    var e := FirstEmpty(t);
    assert t[i].None?;
    assert forall k | 0 <= k < e :: t[k].Some? && t[k] == s[k];
    e
  }

  lemma RecacheSlots(c: Cache, i: nat)
    requires i < |c.slots| && c.slots[i].Some?
    ensures Recache(c, i).slots == c.slots[i := None][RecacheTarget(c.slots, i) := c.slots[i]]
  {
  }

  lemma EmptiesAfterRecache(s: seq<Slot>, i: nat, n: nat)
    requires i < |s| && s[i].Some? && n <= |s|
    ensures var e := RecacheTarget(s, i);
            Empties(s[i := None][e := s[i]], n) ==
            Empties(s, n) + (if i < n then 1 else 0) - (if e < n then 1 else 0)
  {
    var e := RecacheTarget(s, i);
    EmptiesUpdate(s, i, None, n);
    EmptiesUpdate(s[i := None], e, s[i], n);
  }

  /** Popping a job and caching it again, wherever it was, opens no gap. */
  lemma RecacheGaps(s: seq<Slot>, i: nat, k: nat)
    requires i < |s| && s[i].Some? && GapsWithin(s, k)
    ensures GapsWithin(s[i := None][RecacheTarget(s, i) := s[i]], k)
  {
    var e := RecacheTarget(s, i);
    var t := s[i := None][e := s[i]];
    forall x | 0 <= x < |t| && t[x].Some?
      ensures Empties(t, x) <= k
    {
      EmptiesAfterRecache(s, i, x);
      if x <= e {
        EmptiesMonotone(s, 0, x);
      }
    }
  }

  lemma RecacheMultiset(s: seq<Slot>, i: nat)
    requires i < |s| && s[i].Some?
    ensures multiset(s[i := None][RecacheTarget(s, i) := s[i]]) == multiset(s)
  {
    var e := RecacheTarget(s, i);
    var u := s[i := None];
    assert u[e] == None;
    assert multiset(u) == multiset(s) - multiset{s[i]} + multiset{None};
    assert multiset(u[e := s[i]]) == multiset(u) - multiset{None} + multiset{s[i]};
  }

  // ------------------------------------------------------- the sweep downward

  /** What a reorganizing worker relies on when the slots at `limit` and above
      remain to be trusted: either gaps are within k already, or nothing is
      cached at `limit` or above, and of the first `moved` slots (as many as it
      has cached again so far) at most k are empty. */
  ghost predicate Swept(s: seq<Slot>, limit: nat, moved: nat, k: nat) {
    || GapsWithin(s, k)
    || (AllBelow(s, limit) && moved <= |s| && Empties(s, moved) <= k)
  }

  /** The early exit: once as many jobs were moved as slots are left, the gaps
      are within k. */
  lemma SweptDone(s: seq<Slot>, limit: nat, moved: nat, k: nat)
    requires Swept(s, limit, moved, k) && (limit <= moved || limit == 0)
    ensures GapsWithin(s, k)
  {
    if !GapsWithin(s, k) {
      forall x | 0 <= x < |s| && s[x].Some?
        ensures Empties(s, x) <= k
      {
        EmptiesMonotone(s, x, moved);
      }
    }
  }

  lemma SweptSkip(s: seq<Slot>, limit: nat, moved: nat, k: nat)
    requires Swept(s, limit, moved, k) && 0 < limit <= |s| && s[limit - 1].None?
    ensures Swept(s, limit - 1, moved, k)
  {
  }

  /** The sweeping worker's own move at the top of what is left. */
  lemma SweptMove(s: seq<Slot>, limit: nat, moved: nat, k: nat)
    requires Swept(s, limit, moved, k) && 0 < limit <= |s| && s[limit - 1].Some?
    ensures var i := limit - 1;
            Swept(s[i := None][RecacheTarget(s, i) := s[i]], limit - 1, moved + 1, k)
  {
    var i := limit - 1;
    var e := RecacheTarget(s, i);
    var t := s[i := None][e := s[i]];
    if limit <= moved {
      SweptDone(s, limit, moved, k);
    }
    if GapsWithin(s, k) {
      RecacheGaps(s, i, k);
    } else if e == i {
      assert t == s;
      forall x | 0 <= x < |t| && t[x].Some?
        ensures Empties(t, x) <= k
      {
        EmptiesMonotone(t, 0, x);
      }
    } else {
      // moved < limit: the first moved + 1 slots gain slot `moved` and lose e or more
      EmptiesAfterRecache(s, i, moved + 1);
      EmptiesMonotone(s, 0, e);
      EmptiesMonotone(s, moved, moved + 1);
      if e >= moved + 1 {
        EmptiesMonotone(s, 0, moved + 1);
      }
      assert AllBelow(t, limit - 1);
    }
  }

  /** Somebody else's pop during the sweep, charged to k. */
  lemma SweptTake(s: seq<Slot>, limit: nat, moved: nat, k: nat, i: nat)
    requires Swept(s, limit, moved, k) && i < |s| && s[i].Some?
    ensures Swept(s[i := None], limit, moved, k + 1)
  {
    if GapsWithin(s, k) {
      TakeGaps(s, i, k);
    } else {
      EmptiesUpdate(s, i, None, moved);
    }
  }

  /** Somebody else's push during the sweep. */
  lemma SweptPush(s: seq<Slot>, limit: nat, moved: nat, k: nat, job: Job)
    requires Swept(s, limit, moved, k) && FirstEmpty(s) < |s|
    ensures Swept(s[FirstEmpty(s) := Some(job)], limit, moved, k)
  {
    var e := FirstEmpty(s);
    var t := s[e := Some(job)];
    if GapsWithin(s, k) {
      PushGaps(s, job, k);
    } else if e < limit {
      EmptiesUpdate(s, e, Some(job), moved);
    } else {
      // every slot below e is taken and nothing was cached above it
      forall x | 0 <= x < |t| && t[x].Some?
        ensures Empties(t, x) <= k
      {
        EmptiesMonotone(t, 0, x);
      }
    }
  }

  /** Another worker's move during the sweep. */
  lemma SweptRecache(s: seq<Slot>, limit: nat, moved: nat, k: nat, i: nat)
    requires Swept(s, limit, moved, k) && i < |s| && s[i].Some?
    ensures Swept(s[i := None][RecacheTarget(s, i) := s[i]], limit, moved, k)
  {
    if GapsWithin(s, k) {
      RecacheGaps(s, i, k);
    } else {
      EmptiesAfterRecache(s, i, moved);
    }
  }

  // -------------------------------------------------- the window is sufficient

  /** With fewer gaps than the window is wide, the windowed pop finds a job
      exactly when there is one anywhere. */
  lemma WindowSuffices(c: Cache, window: nat)
    requires Consistent(c) && 0 < window <= |c.slots| && GapsWithin(c.slots, window - 1)
    ensures Popped(c, window).Some? <==> !IsEmpty(c.slots)
  {
    OccupiedZero(c.slots);
    var f := FirstJob(c.slots, |c.slots|);
    if f < |c.slots| {
      EmptiesMonotone(c.slots, 0, f);
      assert f < window;
    }
  }
}
