/** The loops over ready_jobs_cache[] as the source runs them, each undisturbed,
    against the specification functions of `ReadyCache`. */
module ReadyCacheArray {
  import opened Options
  import opened ReadyCache

  /** What one moving round of the loop keeps, and how the sweep advances. */
  lemma RecacheRound(c: Cache, i: nat, moved: nat)
    requires Consistent(c) && i < |c.slots| && c.slots[i].Some?
    requires Swept(c.slots, i + 1, moved, 0)
    ensures Consistent(Recache(c, i))
    ensures multiset(Recache(c, i).slots) == multiset(c.slots)
    ensures Recache(c, i).count == c.count && Recache(c, i).peak == c.peak
    ensures Recache(c, i).counter == c.counter + 2
    ensures Swept(Recache(c, i).slots, i, moved + 1, 0)
  {
    RecacheSlots(c, i);
    RecacheConsistent(c, i);
    RecacheMultiset(c.slots, i);
    SweptMove(c.slots, i + 1, moved, 0);
  }

  class ReadyJobsCache {
    const slots: array<Slot>
    const window: nat
    var jobCount: int
    var peakedJobCount: nat
    var reorganizeCounter: nat
    var full: bool

    ghost function Abs(): Cache
      reads this, slots
    {
      Cache(slots[..], jobCount, peakedJobCount, reorganizeCounter, full)
    }

    /** Between operations no job has more empty slots below it than the
        counter says, and no job lies at or above the peak. */
    ghost predicate Valid()
      reads this, slots
    {
      && 0 < window <= slots.Length
      && Consistent(Abs())
      && GapsWithin(slots[..], reorganizeCounter)
    }

    constructor (size: nat, window: nat)
      requires 0 < window <= size
      ensures Valid() && fresh(slots) && slots.Length == size && this.window == window
      ensures IsEmpty(slots[..])
    {
      slots := new Slot[size](_ => None);
      this.window := window;
      jobCount, peakedJobCount, reorganizeCounter, full := 0, 0, 0, false;
      new;
      OccupiedZero(slots[..]);
    }

    /** schedi_cache_job_ready_pop */
    method PopReady() returns (job: Option<Job>)
      requires Valid()
      modifies this, slots
      ensures Valid()
      ensures Abs() == Pop(old(Abs()), window)
      ensures job == Popped(old(Abs()), window)
    {
      if jobCount == 0 {
        return None;
      }
      var i := 0;
      while i < window
        invariant i <= window
        invariant Abs() == old(Abs())
        invariant FirstJob(slots[..], window) == FirstJob(slots[..], window, i)
      {
        job := slots[i];
        if job.Some? {
          TakeConsistent(Abs(), i);
          TakeGaps(slots[..], i, reorganizeCounter);
          slots[i] := None;
          assert slots[..] == old(slots[..])[i := None];
          reorganizeCounter := reorganizeCounter + 1;
          jobCount := jobCount - 1;
          full := false;
          return;
        }
        i := i + 1;
      }
      return None;
    }

    /** schedi_cache_job_ready: true when it returns 0. */
    method CacheReady(job: Job) returns (cached: bool)
      requires 0 < slots.Length && Consistent(Abs())
      modifies this, slots
      ensures Consistent(Abs())
      ensures Abs() == Push(old(Abs()), job)
      ensures cached == HasRoom(old(Abs()))
      ensures old(Valid()) ==> Valid()
    {
      PushConsistent(Abs(), job);
      var i := 0;
      while i < slots.Length
        invariant i <= slots.Length
        invariant Abs() == old(Abs())
        invariant FirstEmpty(slots[..]) == FirstEmpty(slots[..], i)
      {
        if slots[i].None? {
          if GapsWithin(slots[..], reorganizeCounter) {
            PushGaps(slots[..], job, reorganizeCounter);
          }
          slots[i] := Some(job);
          assert slots[..] == old(slots[..])[i := Some(job)];
          reorganizeCounter := reorganizeCounter + 1;
          jobCount := jobCount + 1;
          if jobCount > peakedJobCount {
            peakedJobCount := jobCount;
          }
          return true;
        }
        i := i + 1;
      }
      full := true;
      return false;
    }

    /** schedi_ready_jobs_cache_pop_specific */
    method PopSpecific(i: nat) returns (job: Option<Job>)
      requires i < slots.Length && Consistent(Abs())
      modifies this, slots
      ensures Consistent(Abs())
      ensures job == old(slots[i])
      ensures job.None? ==> Abs() == old(Abs())
      ensures job.Some? ==> Abs() == TakeAt(old(Abs()), i)
    {
      job := slots[i];
      if job.Some? {
        TakeConsistent(Abs(), i);
        slots[i] := None;
        assert slots[..] == old(slots[..])[i := None];
        reorganizeCounter := reorganizeCounter + 1;
        jobCount := jobCount - 1;
      }
    }

    /** One round of the reorganizing loop: true when slot i held a job. */
    method RecacheSlot(i: nat) returns (moved: bool)
      requires i < slots.Length && Consistent(Abs())
      modifies this, slots
      ensures Consistent(Abs())
      ensures moved == old(slots[i]).Some?
      ensures moved ==> Abs() == Recache(old(Abs()), i)
      ensures !moved ==> Abs() == old(Abs())
    {
      var job := PopSpecific(i);
      if job.Some? {
        var _ := CacheReady(job.value);
      }
      return job.Some?;
    }

    /** A round of the reorganizing loop with what it does to the sweep. */
    method SweepSlot(i: nat, ghost moved: nat) returns (found: bool)
      requires i < slots.Length && Consistent(Abs()) && Swept(slots[..], i + 1, moved, 0)
      modifies this, slots
      ensures Consistent(Abs())
      ensures multiset(slots[..]) == old(multiset(slots[..]))
      ensures jobCount == old(jobCount) && peakedJobCount == old(peakedJobCount)
      ensures reorganizeCounter == old(reorganizeCounter) + if found then 2 else 0
      ensures found == old(slots[i]).Some?
      ensures Swept(slots[..], i, if found then moved + 1 else moved, 0)
    {
      ghost var c := Abs();
      found := RecacheSlot(i);
      if found {
        RecacheRound(c, i, moved);
      } else {
        SweptSkip(slots[..], i + 1, moved, 0);
      }
    }

    /** schedi_ready_jobs_cache_reorganize: the same jobs, now without a gap; each job
        moved counts as a pop and a push. */
    method Reorganize() returns (reorganizedJobs: nat)
      requires 0 < slots.Length && Consistent(Abs())
      modifies this, slots
      ensures Consistent(Abs())
      ensures multiset(slots[..]) == old(multiset(slots[..]))
      ensures GapFree(slots[..])
      ensures jobCount == old(jobCount) && peakedJobCount == old(peakedJobCount)
      ensures reorganizedJobs <= peakedJobCount && reorganizeCounter == old(reorganizeCounter) + 2 * reorganizedJobs
    {
      reorganizedJobs := 0;
      var i: int := peakedJobCount - 1;
      while i >= 0
        invariant -1 <= i < peakedJobCount
        invariant Consistent(Abs())
        invariant multiset(slots[..]) == old(multiset(slots[..]))
        invariant jobCount == old(jobCount) && peakedJobCount == old(peakedJobCount)
        invariant reorganizedJobs <= peakedJobCount - 1 - i
        invariant reorganizeCounter == old(reorganizeCounter) + 2 * reorganizedJobs
        invariant Swept(slots[..], i + 1, reorganizedJobs, 0)
      {
        var moved := SweepSlot(i, reorganizedJobs);
        if moved {
          reorganizedJobs := reorganizedJobs + 1;
          if i <= reorganizedJobs {
            break;
          }
        }
        i := i - 1;
      }
      SweptDone(slots[..], if i < 0 then 0 else i, reorganizedJobs, 0);
      GapsZeroIsGapFree(slots[..]);
    }

    /** schedi_ready_jobs_cache_reorganize_tick.  After any tick the windowed pop
        returns a job exactly when the cache holds one. */
    method Tick() returns (moved: nat)
      requires Valid()
      modifies this, slots
      ensures Valid()
      ensures multiset(slots[..]) == old(multiset(slots[..]))
      ensures old(reorganizeCounter) < window ==> Abs() == old(Abs())
      ensures old(reorganizeCounter) >= window ==>
                GapFree(slots[..]) && reorganizeCounter == 2 * moved && moved <= peakedJobCount
      ensures Popped(Abs(), window).Some? <==> !IsEmpty(slots[..])
    {
      moved := 0;
      if reorganizeCounter >= window {
        reorganizeCounter := 0;
        moved := Reorganize();
        GapsZeroIsGapFree(slots[..]);
        assert GapsWithin(slots[..], reorganizeCounter);
      }
      assert GapsWithin(slots[..], window - 1);
      WindowSuffices(Abs(), window);
    }
  }
}
