# schedi in Dafny

schedi is a job scheduler in C. Worker threads take jobs from a ready cache,
one packed atomic word per job decides when it may run and when it may be torn
down, and an epoll thread fills and drains the ring buffers of sockets whose
readiness feeds back into that word. This project models those mechanisms and
proves what they are for, over every run of any number of threads.

`dafny verify dfyconfig.toml` checks everything.

| file | what it is about |
|---|---|
| `ReadyCache`, `ReadyCacheArray` | the slot array, compaction, and why looking at 16 slots is enough; the loops as they run on the array |
| `WorkerProtocol`, `WorkerRuns` | workers, setters and shutdown on one cache under `readyjob_mutex`; runs that strand work |
| `Shutdown`, `CacheTraffic` | how the workers leave; what goes into the cache and out of it, and whom a signal wakes |
| `ByteRing`, `ReadRing`, `WriteRing` | byte rings; job thread and epoll thread interleaving on them |
| `SocketWord`, `Socket` | the state word `htc`, and a whole socket with its reference count |
| `EpollSocket` | the four transfers on the two buffers, each run undisturbed |
| `FlagWord`, `JobFlags`, `WordActs` | `meta_flag` as 32 bits and as a record, and that the first refines the second, call by call and act by act |
| `JobView`, `Lifecycle`, `LifecycleRuns` | one job and all jobs: scheduling, running, teardown and slot reuse; runs that break them |
| `PickOutcomes` | the worker protocol and the job machine together: which picks are refused |
| `DestroyQueue`, `Sections` | the retry queue and the slot allocator |
| `Requests`, `Dependencies`, `AvailableSockets` | the three packed counts of a job and who feeds them |

## How it is modelled

* Sequentially consistent memory. One step is one compare-and-swap, one atomic
  store, one copy, or one `send`/`recv`. In the ready cache one push, one pop and
  one "pop and cache again" are each one step; in the destroy queue one push or
  pop; a socket update and the change of its job's count are one step.
* The build without `SCHEDI_EXT_TIMEOUT` and with the mutex and condition.
* Sizes are parameters: job slots, window, sections, ring and queue sizes.
* `send` and `recv` are arbitrary: any part, would-block, end of stream, error.
* Thresholds are fixed, or change together with the recomputation that follows.
* An agent of `Lifecycle` is any thread. A job whose run calls into the scheduler
  is covered by another agent acting while the worker is inside run.
* The machines do what the code permits. Where that breaks an invariant, the step
  that breaks it has an exact condition (`Harmless`, `Respects`, `Refuses`), proved
  to be one, which the theorems ask of a run; and a run from the start shows what
  happens otherwise.
* `Lifecycle` keeps four accounts of each job: of teardowns, READY tokens, executions
  and accesses. Each rests on one thing that nothing in the word enforces, and the
  last three on that of teardowns; each theorem asks for the accounts it needs and
  no other.

## Where the code and its documentation differ

* `schedi_job_destroy_now` (src/jobs.c:844) goes on when `mark_unstable` reports
  failure; include/schedi/jobs.h documents the opposite, and the other callers
  rely on the documented sense. `Lifecycle` uses the documented guard;
  `GuardsApart` and `CodedGuardOverlapsRun` show what the coded one does.
* A freed slot's word is 0, which bans nothing, and `section_claim` overwrites
  whatever has gathered there. Two ways lead to that, and neither needs a mistake of
  the user:
  * Access: a thread that still knows the slot's earlier generation takes access to
    compare it, the claim overwrites the count, and the thread's `unmark_access` gives
    back somebody else's access. `TeardownCanOverlapAccess` is a run to a teardown
    under a holder's feet, `Requests.OldAnswerReachesNewJob` what an epoll answer
    does then. This concerns the account of accesses: `ValidatedAccessPins`, the last
    clause of `TeardownAlone` and the request counters.
  * READY and EXECUTING: a worker marks its job READYBASIC (src/worker.c:78), which
    completes the readiness (src/jobs.c:687-691), and before it comes to `mark_ready`
    (src/jobs.c:1860) one ordinary destroy frees the slot. The late call marks the
    free slot READY and caches it. `LateSetreadyCachesNewJob` breaches the account of
    tokens alone and ends with a new job that is cached and not READY: it concerns
    `ExactlyOnce`, `NeverForgotten`, `CacheNeverFull`, `DrawnIsStable` and a clause of
    `TeardownAlone`. `LateSetreadyRunsTwice` breaches the account of executions alone
    and ends with two workers inside run of one slot: it concerns `OneRunner` and
    another clause.

  `DestructorOnce`, `FreshIncarnation`, `DestroyQueueNeverFills` and the rest of
  `TeardownAlone` hold whatever claims find.

  `ClaimNeedsCleanWord` has the exact condition on the word and
  `ClaimProperExactlyWhen` the one on the threads and the cache.
* A job may be destroyed twice. include/schedi/jobs.h:1100-1110 lets a user destroy
  a busy job, which is queued; when its run then returns an error, the worker
  destroys it again (src/worker.c:75) and succeeds. The first destroy's queue entry
  stays and later tears down whatever is in the slot: the next job
  (`StaleEntryTearsDownNewJob`) or nothing (`StaleEntryRunsDestructorAgain`).
  These breach the account of teardowns, on which all run theorems of `Lifecycle` rest,
  `StuckForever` only up to the stuck state. `DestroyExactlyOnce` says that a destroy keeps it exactly on a
  live job not marked yet.
* `schedi_job_epollsocket_dead` sets READY even when EPOLLNT is set, against
  include/schedi/jobs.h:254-255. `UpdateCoherent` and `ReadinessInRun` say when.
* `pickready` returns NULL although jobs are cached when the job it drew is marked
  for destruction, and drops it (src/jobs.c:1839-1843), or has a full access count,
  and puts it back without a signal (src/jobs.c:1831-1835); the worker may then
  sleep. Drops at either pick also open gaps that no tick follows.
  `RefusedPickKeeps` says exactly when a refusal is harmless; `DoomedPickStrands`,
  `PutBackStrands` and `FreeDropStrands` are runs with one worker.
  `PickOutcomes.RefusedExactlyWhen` and `WellDrawnNeverStranded` say what users must
  not do: destroy a cached job, or hold all its accesses when it is drawn. The check
  for UNSTABLE (src/jobs.c:1822-1830) never fires then (`DrawnIsStable`).
* A tick that finds the counter low says nothing while another worker compacts
  (`TickDuringCompaction`).
* When `mark_executing` fails, `worker_routine` never gives its access back
  (src/worker.c:53). `JobView` counts such accesses as `leaked`.
* A job that is destroyed while it is cached, or after its pick took access and
  before it cleared READY, is never torn down: the mark refuses the pick that would
  clear READY, and READY refuses the teardown. `DestroyedWhileCached` is a run to
  that state, `StuckForever` says that nothing leaves it, a second destroy included;
  `TokenOk` is an inequality
  for marked jobs.
* A super-push that finds the count at the size of the queue drops its job, and a
  completely full queue is never drained. `LostExactlyAtFull` says when;
  `DestroyQueueNeverFills` why it does not come to that with 256 slots.
* `section_claim` takes the first active entry, not the lowest index, and two
  sections that become adjacent are not joined (`LowestExactlyWhen`).
* A leaf's completion is lost when its parent refuses the access or has 15
  already; `Dependencies` counts these as `missed`. A job whose readiness falls
  while it waits in the cache is picked and run all the same: an `early` pick.

## Model

| member | source | states |
|---|---|---|
| ReadyCache.PushConsistent | src/jobs.c:484-501 | caching a job keeps count == occupied slots and every job below the recorded peak; it fails exactly when all slots are taken |
| ReadyCache.PopConsistent | src/jobs.c:451-481 | a windowed pop keeps count and peak exact |
| ReadyCache.RecacheConsistent | src/jobs.c:524-526 | popping one slot and caching its job again keeps count and peak, raises the reorganize counter by 2 and never empties the cache |
| ReadyCache.TakeGaps | src/jobs.c:503-515 | a pop opens at most one more empty slot below any cached job |
| ReadyCache.PushGaps | src/jobs.c:484-496 | filling the lowest empty slot opens no gap below any cached job |
| ReadyCache.RecacheGaps | src/jobs.c:524-530 | a re-caching move, wherever it happens, opens no gap |
| ReadyCache.RecacheMultiset | src/jobs.c:524-530 | a re-caching move keeps the multiset of cached jobs |
| ReadyCache.SweptDone | src/jobs.c:523-539 | when the sweep has reached index i with at least i jobs moved (the early exit) or has run out of slots, no gap beyond the k disturbances is left: k = 0 means a gap-free prefix |
| ReadyCache.SweptMove | src/jobs.c:523-534 | one moving round of the sweep keeps "the jobs moved so far fill the lowest slots, all slots at or above the index are clear" |
| ReadyCache.WindowSuffices | src/jobs.c:451-481 | with fewer gaps than the window is wide, a pop that looks only at the window returns a job iff any slot holds one |
| ReadyCacheArray.ReadyJobsCache.PopReady | src/jobs.c:451-481 | the loop over the array takes the first job of the window, or nothing, and updates count, counter and FULL as the specification does |
| ReadyCacheArray.ReadyJobsCache.CacheReady | src/jobs.c:484-501 | the loop puts the job into the lowest empty slot, or sets FULL and fails exactly when there is none |
| ReadyCacheArray.ReadyJobsCache.PopSpecific | src/jobs.c:503-515 | takes exactly the job of one slot |
| ReadyCacheArray.ReadyJobsCache.RecacheSlot | src/jobs.c:524-526 | one round of the reorganizing loop equals the specification's move |
| ReadyCacheArray.ReadyJobsCache.Reorganize | src/jobs.c:517-540 | compaction is correct: same multiset of jobs, occupied slots form a gap-free prefix, count and peak unchanged, early exit included; the counter grows by two for each job moved |
| ReadyCacheArray.ReadyJobsCache.Tick | src/jobs.c:543-569 | resets and compacts exactly at the threshold; right after a tick a windowed pop finds a job iff the cache is not empty |
| WorkerProtocol.StepInv | src/worker.c:19-96 | every step of any worker, setter, signal, spurious wake-up or of deinit keeps the whole protocol invariant; a refused pick keeps it iff it is harmless |
| WorkerProtocol.RefusedPickKeeps | src/jobs.c:1821-1843 | for each of the three refusals of mark_access, at the free and at the locked pick: the invariant is kept iff a dropped job leaves the pops below the window (or somebody still owes a tick) and a worker going to sleep leaves the cache empty or somebody awake |
| WorkerProtocol.NullPick | src/worker.c:34-41 | a pick under the mutex that finds nothing means that nothing is cached or that another worker is awake |
| WorkerProtocol.NoStrandedWork | src/worker.c:19-96 | before shutdown no run of any number of workers and setters, refused picks included as long as they are harmless, reaches a state where all workers sleep, a job is cached and no setter is about to signal |
| WorkerProtocol.WindowSufficesInRun | src/jobs.c:451-569 | in every such run, whenever the counter is below the window and the worker that reset it has finished compacting, the 16-slot pop returns a job iff one is cached, whatever the other workers do |
| WorkerProtocol.AfterTick | src/jobs.c:543-569 | so right after any tick, or any compaction that leaves the counter below the window, unless another worker is compacting |
| WorkerProtocol.AfterBroadcast | src/worker.c:144-156 | the phase after the shutdown broadcast is never left |
| WorkerProtocol.ShutdownLeavesNoSleeper | src/worker.c:135-156 | from the broadcast on no worker is in the condition wait or about to enter it, and each has its shutdown flag set, in every run and whatever picks were refused |
| Shutdown.NeverInAgain | src/worker.c:19-19 | a worker whose shutdown flag is set and that is at the loop test, or has left, never does anything but leave |
| Shutdown.OneMoreJob | src/worker.c:19-79 | once its flag is set a worker takes at most one more job |
| Shutdown.LeavesInTime | src/worker.c:135-156 | from the broadcast on each worker makes at most 2n + 9 steps of its own, n being the number of cache slots, and after that many it has left |
| Shutdown.WorkerGoesOn | src/worker.c:19-96 | a worker that neither sleeps nor has left can always go on, unless it needs readyjob_mutex and somebody has it |
| Shutdown.HolderGoesOn | src/jobs.c:298-321 | whoever holds readyjob_mutex can go on |
| CacheTraffic.JobsConserved | src/jobs.c:405-515 | in every run the cache holds the jobs put by setters less those taken by workers and those dropped |
| CacheTraffic.CountersInRun | src/jobs.c:405-445 | the peak is the largest count there has been, and the counter the number of pushes and pops since its last reset |
| CacheTraffic.FullExactlyWhen | src/jobs.c:470-498 | SCHEDI_JOB_ARRAY_FULL is set iff a push has failed and no windowed pop has succeeded since |
| CacheTraffic.PopTakesLowest | src/jobs.c:451-481 | a pop takes the job of the lowest occupied slot of the window; NULL iff the window is empty |
| CacheTraffic.PushFillsLowest | src/jobs.c:484-501 | a push fills the lowest empty slot, and sets only the flag when there is none |
| CacheTraffic.PutsItsJob | src/jobs.c:1853-1868 | what a setter caches is the job it was called for |
| CacheTraffic.PickFindsExactlyWhen | src/worker.c:28-41 | in runs with harmless refusals a worker's pick ends with a job iff one is cached anywhere, while the counter is low and no compaction is pending |
| CacheTraffic.SignalWakes | src/jobs.c:1874-1876 | a signal wakes one waiter iff there is one, and nobody else |
| CacheTraffic.LoopsThroughTick | src/worker.c:81-88 | a worker comes back to its loop test only from a decision on the counter |
| CacheTraffic.TickResetsExactlyWhen | src/jobs.c:543-569 | it resets the counter and compacts iff the counter has reached the window |
| WorkerProtocol.RefusedPickStrands | src/jobs.c:1831-1843 | a refused pick under the mutex, everybody else asleep, strands work two steps later: always when the job is put back, and iff another job was cached when it is dropped |
| WorkerRuns.DoomedPickStrands | src/jobs.c:1839-1843 | a run from the start with one worker and two jobs: the job drawn is marked for destruction and the other one is stranded |
| WorkerRuns.FreeDropStrands | src/jobs.c:1839-1843 | a run from the start with a window of one slot: the drop at the free pick leaves the window empty, and a job beyond it is stranded |
| WorkerRuns.PutBackStrands | src/jobs.c:1831-1835 | a run from the start with one worker and one job: its access count is full, it is put back without a signal and is stranded |
| WorkerRuns.TickDuringCompaction | src/jobs.c:543-569 | a run from the start in which a worker ticks while another has just reset the counter, and the pop right after misses the cached job |
| ByteRing.CopyOutIsContents | src/jobs.c:1564-1574 | the two memcpy calls of the draining side yield the wrapped contents in order |
| ByteRing.CopyInExtends | src/jobs.c:1480-1494 | the two memcpy calls of the filling side append the data to the wrapped contents |
| ByteRing.AdvanceIsRemainder | src/jobs.c:1625-1681 | the wrapped index is the remainder the source computes |
| ReadRing.StepInv | src/jobs.c:1553-1708 | each load, copy, recv, count update or index store of either thread keeps the read-side invariant |
| ReadRing.ReadOrder | src/jobs.c:1553-1708 | at every moment of every interleaving the bytes received are the bytes delivered followed by the ring, in order, and count stays within the buffer |
| ReadRing.NeverOverwritten | src/jobs.c:1650-1708 | no step of the epoll thread changes a byte that is counted and undelivered |
| ReadRing.ReadDelivers | src/jobs.c:1553-1588 | a read of n bytes delivers exactly n if that many were counted when it began, and else all that were, whatever the epoll thread does meanwhile |
| ReadRing.FillTakes | src/jobs.c:1650-1708 | one call of read_return under interleaving: recv is offered all free bytes, by a second call iff the first filled its stretch and there is more; the count grows by what came, and the socket is dead iff the second recv said so |
| ReadRing.FillerGoesOn | src/jobs.c:1650-1708 | in the middle of a call the epoll thread can always go on, whatever recv answers |
| WriteRing.StepInv | src/jobs.c:1467-1648 | each step of the writer (direct send included) or of the flusher keeps the write-side invariant |
| WriteRing.WriteOrder | src/jobs.c:1467-1648 | at every moment of every interleaving the bytes on the wire followed by the unsent part of the ring are exactly the bytes accepted by the write calls |
| WriteRing.DirectSendExclusive | src/jobs.c:1516-1528 | during a direct send the ring is empty, everything accepted is on the wire, and the epoll thread is not sending |
| WriteRing.WritingKept | src/jobs.c:1508-1551 | every step of either thread keeps a write of at most avail bytes on the way to being accepted whole; it ends short only when its direct send fails hard, and then nothing was taken |
| WriteRing.WriteStarts | src/jobs.c:1508-1518 | a write goes straight to send iff nothing is buffered |
| WriteRing.DirectTakes | src/jobs.c:1516-1541 | what the direct send takes is accepted, and the rest goes to the buffer unless the send failed hard |
| WriteRing.BufferTakes | src/jobs.c:1467-1506 | a write that has come to the buffer is accepted whole if there is room when it looks, and else up to that room, whatever the epoll thread does |
| WriteRing.FlushTakes | src/jobs.c:1590-1648 | one call of write_return under interleaving: send is offered everything buffered, by a second call iff the first took its stretch and there is more; avail grows by what was taken, and the socket is dead iff the second send failed |
| WriteRing.FlusherGoesOn | src/jobs.c:1590-1648 | in the middle of a call the epoll thread can always go on, whatever send answers |
| SocketWord.UpdateCoherent | src/jobs.c:1052-1166 | each update keeps READ_READY, WRITE_READY and READY equal to their documented meaning iff it is not a bare death after EPOLLNT and before EPOLLDID |
| SocketWord.HistoryCoherent | include/schedi/jobs.h:252-257 | all words of a history mean what is documented iff no death comes between the two done calls |
| SocketWord.UpdateFields | src/jobs.c:1052-1166 | each update moves the count, avail, death or done field it is about, and no other |
| SocketWord.HistoryFields | src/jobs.c:1052-1166 | a word is dead iff some update so far was a death, each side is done iff it said so, and count and avail are the sums of their changes |
| SocketWord.CountStoredRefines | src/jobs.c:1112-1132 | the 64-bit value count_add computes from the word it loaded, taken apart, is the field-wise update, for every word |
| SocketWord.AvailStoredRefines | src/jobs.c:1058-1078 | the same for avail_add |
| SocketWord.DoneJobSideFields | src/jobs.c:1158-1163 | done_cas_jobside sets EPOLLNT and clears READY unless EPOLLDID, touching no other field |
| SocketWord.DoneJobSideRefines | src/jobs.c:1153-1166 | the 64-bit value stored by done_cas_jobside, taken apart, is the field-wise update |
| SocketWord.DoneEpollSideRefines | src/jobs.c:1140-1151 | the same for done_cas_epollside |
| SocketWord.DeadRefines | src/jobs.c:1090-1103 | the same for epollsocket_dead |
| SocketWord.WideAvailSpills | src/jobs.c:1075-1075 | avail is shifted in without a mask: over any word, any value with bit 29 set sets EPOLLDID |
| Socket.StepInv | src/jobs.c:1467-1777 | the product of both rings, the state word and fall keeps its invariant in every step of either side |
| Socket.StreamsInOrder | src/jobs.c:1467-1708 | both directions stay in order and the word carries the rings' own count and avail, in every run |
| Socket.ReadinessInRun | include/schedi/jobs.h:252-257 | in every run the bits mean what is documented iff no bare death has come after the job side's done with the epoll side's done still to come |
| Socket.DeathInRun | src/jobs.c:1642-1739 | the word is dead whenever the epoll side has stopped serving the socket; and between its calls the epoll side has stopped iff a death was found other than by the job's own direct send |
| Socket.EpollGivesUp | src/jobs.c:1753-1772 | from there the epoll side can always give its reference up, and frees the socket iff the job has |
| Socket.JobGivesUp | src/jobs.c:1753-1777 | so can the job |
| Socket.LifetimeInRun | src/jobs.c:1753-1772 | fall equals the references still held; the socket is freed exactly when both are given up, once |
| Socket.NoUseAfterFree | src/epoll.c:121-132 | no step is taken on a freed socket and only a release frees it |
| Socket.ReadyMeansReadable | README.md:258-264 | a socket READY by its thresholds delivers a read of the threshold size in full |
| Socket.ReadyMeansWritable | README.md:258-264 | a write of at most the threshold size is accepted whole, unless the direct send fails hard: then nothing is accepted and the socket is dead |
| EpollSocket.CopyTo | src/jobs.c:1480-1494 | the one or two copies into a ring and the index after them |
| EpollSocket.CopyFrom | src/jobs.c:1564-1574 | the one or two copies out of a ring and the index after them |
| EpollSocket.SendFrom | src/jobs.c:1609-1640 | the one or two send calls take the front of the ring, in order; how many bytes, the next index and whether the socket broke |
| EpollSocket.ReceiveInto | src/jobs.c:1663-1698 | the one or two recv calls append at the ring's head; how many bytes, the next index and whether the socket broke |
| EpollSocket.ArrivedExactly | src/jobs.c:1663-1698 | by the lengths of the two answers: the first recv that gives less than its offer ends the call, else the buffer is filled; what arrives is what was given, and the call breaks iff the second one was made and met the end or an error |
| EpollSocket.DepartedExactly | src/jobs.c:1609-1640 | the same for the two sends |
| EpollSocket.Socket.constructor | src/jobs.c:1233-1279 | a new socket is empty on both sides, coherent and alive |
| EpollSocket.Socket.Read | src/jobs.c:1553-1588 | returns the oldest min(count, size) unread bytes and keeps the rest; the word is the count_add update |
| EpollSocket.Socket.WriteBufferData | src/jobs.c:1467-1506 | appends the part of the data that fits; the word is the avail_add update |
| EpollSocket.Socket.Write | src/jobs.c:1508-1551 | wire and buffer together grow by exactly the accepted prefix; -1 exactly when nothing was buffered and send failed hard, and then nothing was taken |
| EpollSocket.Socket.WriteReturn | src/jobs.c:1590-1648 | wire followed by buffer is unchanged whatever send answers; the buffer is empty if both calls take all they are offered; -1 iff a call that is made fails hard, and then the word is dead |
| EpollSocket.Socket.ReadReturn | src/jobs.c:1650-1708 | what recv gives is appended to the unread bytes; the buffer is full if both calls give all that was free; -1 iff a call that is made meets the end or an error, and then the word is dead |
| FlagWord.UpdatedCounts | include/schedi/jobs.h:78-92 | the three 4-bit fields of the stored word are the new counts and the access field is kept |
| FlagWord.UpdatedReadiness | src/jobs.c:674-683 | the derived bits of the stored word are the recomputed ones |
| FlagWord.AllReadyBits | src/jobs.c:625-632 | the mask test holds iff each of the four readiness bits is set |
| FlagWord.AccessUnderflow | src/jobs.c:781-800 | unmark_access at zero stores 15 and changes nothing else |
| FlagWord.IssuedIsDisciplined | src/jobs.c:700-829 | every marking call the source makes bans what flag exclusion needs |
| FlagWord.ExclusiveKept | src/jobs.c:574-622 | any such update keeps "UNSTABLE implies access 0, not EXECUTING, not READY" on the 32 bits |
| FlagWord.FlagExclusion | src/jobs.c:574-829 | after any sequence of claims, creations, marks, unmarks, count updates and resets an unstable word is neither executing, ready nor accessed |
| JobFlags.StoredRefinesUpdate | src/jobs.c:661-683 | for every word and every update in range the packed 32-bit update, taken apart, is the record update: fields independent, counts below 16, derived bits recomputed |
| WordActs.CallFollows | src/jobs.c:574-829 | for every word and every marking, unmarking, access and storing call: it is let through iff the record says so, and leaves exactly the record with its bit set or cleared, the access count moved by one, or the stored record |
| WordActs.CallsCovered | src/jobs.c:700-829 | these are all the calls the source makes |
| WordActs.ActRefines | src/jobs.c:574-902 | whatever an act of the job machine leaves of a job's record is the 32-bit word after the source's call, taken apart |
| WordActs.UpdateFollows | src/jobs.c:634-698 | a counter update is let through iff its ban allows it, and stores the updated record |
| WordActs.AccessRefusedExactly | src/jobs.c:758-779 | a job refuses an access exactly when the compare-and-swap loop on its word does |
| WordActs.RerunRefines | src/worker.c:77-79 | the mark of a run that returned 1 is such an update with READYBASIC |
| JobView.ActInv | src/jobs.c:574-858 | each compare-and-swap of any agent on a job keeps each of the four accounts (teardowns with phases and destructor history; READY tokens; executions; accesses) iff it respects that account |
| JobView.RerunIsHeard | src/worker.c:77-79 | a run that returned 1 leaves its job marked READYBASIC, and if all else is met goes on to setready, unless the job is condemned or was completely ready before |
| Lifecycle.StepKeeps | src/jobs.c:574-858 | every step of the global machine keeps each account for all jobs iff it heeds it: a destroy is called on a live job not marked for destruction; a claim finds no READY, no EXECUTING, no access |
| Lifecycle.StepInv | src/jobs.c:802-902 | the accounts of teardowns, tokens and executions together survive a step iff it heeds all three |
| Lifecycle.ExactlyOnce | src/jobs.c:1815-1886 | in runs without a second destroy whose claims find no READY, a job not marked for destruction is READY iff exactly one cache slot or one agent in hand-over carries it |
| Lifecycle.NeverForgotten | src/jobs.c:647-698 | likewise, a live job marked READYBASIC with enough sockets ready, no request out and enough leaves completed is READY, or an agent is about to set it or to clear READYBASIC |
| Lifecycle.ReturnAgainIsHeard | src/worker.c:77-79 | likewise, in particular a job whose run returned 1 |
| Lifecycle.CacheNeverFull | src/jobs.c:1853-1868 | likewise, setready and the put-back of pickready always find an empty slot (pigeonhole) |
| Lifecycle.DrawnIsStable | src/jobs.c:1821-1830 | likewise, a job drawn from the cache is never UNSTABLE, and is marked for destruction iff destroy was called on this incarnation |
| Lifecycle.OneRunner | src/worker.c:51-59 | in runs without a second destroy whose claims find no EXECUTING, no two workers are inside run of the same job |
| Lifecycle.TeardownAlone | src/jobs.c:841-858 | while one agent tears a job down or sets it up, nobody else does, in runs without a second destroy; nobody carries it, runs it or holds access to it, if claims have found no READY, no EXECUTING or no access in turn |
| Lifecycle.DestructorOnce | src/jobs.c:846-854 | in runs without a second destroy the destructor runs exactly once for each incarnation torn down and never for another |
| Lifecycle.FreshIncarnation | src/jobs.c:1779-1813 | likewise, (slot, gen) never names two incarnations |
| Lifecycle.ValidatedAccessPins | src/jobs.c:928-956 | in runs without a second destroy whose claims find no access, a gen compared equal under access stays equal until the access is given back |
| Lifecycle.DestroyQueueNeverFills | src/jobs.c:890-902 | in runs without a second destroy entries of the destroy queue and attempts under way never outnumber the job slots |
| Lifecycle.DestroyExactlyOnce | src/jobs.c:890-902 | a destroy by anybody at any moment keeps the account of teardowns iff the job is live and not marked for destruction |
| Lifecycle.ClaimNeedsCleanWord | src/jobs.c:229-230 | claiming a slot always keeps the account of teardowns, and those of tokens, executions and accesses iff its word shows no READY, no EXECUTING, no access |
| Lifecycle.ClaimProperExactlyWhen | src/jobs.c:216-233 | in terms of threads: no cache slot holds the slot and no agent carries it; no agent executes it; none has access to it or kept one for good |
| Lifecycle.StuckForever | src/jobs.c:735-743 | a job destroyed while it was cached stays live, marked and READY for ever once a worker has drawn it, whatever anybody does then, further destroys included |
| Lifecycle.GoesOn | src/jobs.c:1815-1886 | an agent in the middle of anything can always go on, whatever the others do |
| Lifecycle.StaleAccessBreaksTeardown | src/jobs.c:758-800 | seven steps from a stale access on a freed slot to a teardown under a validated holder |
| LifecycleRuns.GuardsApart | src/jobs.c:841-858 | from every state in which the account of teardowns holds the documented guard of destroy_now keeps it and the coded one breaks it |
| LifecycleRuns.CodedGuardOverlapsRun | src/jobs.c:844-844 | a proper run from the start to a state where a job runs and its destroyer is at the guard: as documented the job is queued, as coded its teardown begins under the run |
| LifecycleRuns.TeardownCanOverlapAccess | src/jobs.c:229-230 | from every initial state with a slot and four threads, a run that heeds all accounts but that of accesses, and that except for one claim, ends with a teardown under way while a thread holds a validated access |
| LifecycleRuns.LateSetreadyCachesNewJob | src/jobs.c:687-691 | a run that breaches only the account of tokens, in one claim: between the rising edge of a worker's mark_readybasic and its mark_ready an ordinary destroy frees the slot, and the job created there ends up cached without READY |
| LifecycleRuns.LateSetreadyRunsTwice | src/worker.c:51-79 | the same late setready lets a worker run the job that is gone; the claim overwrites EXECUTING, the only account breached, and two workers are inside run of the slot |
| LifecycleRuns.DestroyedWhileCached | src/jobs.c:1821-1843 | a run that heeds all accounts to the state of `StuckForever` |
| LifecycleRuns.SocketMakesReady | src/jobs.c:634-698 | a run in which a job marked READYBASIC that asks for one ready socket is handed over and cached by that socket's update, and not before |
| LifecycleRuns.StaleEntryTearsDownNewJob | src/worker.c:61-76 | a run that breaches only the account of teardowns, in the destroy by the worker of a job that a user has destroyed while it ran: the queue entry left over tears down the job created in the slot afterwards, which nobody destroyed |
| LifecycleRuns.StaleEntryRunsDestructorAgain | src/worker.c:61-76 | or, if no job is created meanwhile, runs the destructor for a generation under which nothing was created |
| PickOutcomes.AnswerIsPick | src/jobs.c:1821-1846 | the answer of mark_access on a word decides the same in both machines: go on with access, put back, or drop |
| PickOutcomes.RefusedExactlyWhen | src/jobs.c:758-779 | in runs without a second destroy whose claims find no READY, a pick that draws a job is refused iff destroy was called on this very job or its word counts 15 accesses |
| PickOutcomes.WellDrawnNeverStranded | src/worker.c:19-96 | in such runs no work is stranded as long as no job drawn has been destroyed or has 15 accesses |
| DestroyQueue.Ring.DqPush | src/jobs.c:91-120 | a push appends and counts, or fails exactly when count equals the size |
| DestroyQueue.Ring.DqSuperPush | src/jobs.c:165-181 | a super-push appends a checked-out job without counting it again, or fails exactly when count equals the size |
| DestroyQueue.Ring.DqSuperPop | src/jobs.c:125-163 | a super-pop takes the front job and leaves the count; NULL exactly for an empty or a completely full ring |
| DestroyQueue.Ring.DqDecCount | src/jobs.c:76-86 | counts a checked-out job out |
| DestroyQueue.Ring.QueueCheck | src/jobs.c:872-887 | one undisturbed check leaves exactly the still-busy jobs in their old order; a full ring is left alone |
| DestroyQueue.StillBusyExactly | src/jobs.c:872-887 | each job whose teardown was refused is kept right behind the refused ones before it, and no other job is |
| DestroyQueue.ItemsAppend | src/jobs.c:106-118 | storing at head extends the queue contents through wrap-around |
| DestroyQueue.StepConserved | src/jobs.c:872-902 | one push, check-out, put-back or teardown conserves the jobs |
| DestroyQueue.RunConserved | src/jobs.c:174-191 | in every run of pushers and checkers each job counted in is queued, checked out, torn down or dropped, and the count says how many are |
| DestroyQueue.CheckerGoesOn | src/jobs.c:872-887 | a checker that holds a job can always put it back and can always tear it down |
| DestroyQueue.InOrder | src/jobs.c:91-163 | first in, first out, in every run of pushers and checkers |
| DestroyQueue.LostExactlyAtFull | src/jobs.c:880-883 | a job is dropped iff some super-push met a count equal to the size |
| Sections.SlotAllocator.constructor | src/jobs.c:208-213 | everything starts as one free section |
| Sections.SlotAllocator.Claim | src/jobs.c:216-237 | returns a slot that was free, the start of the first active entry; NULL iff none is free, which without leaks means all are in use |
| Sections.SlotAllocator.Release | src/jobs.c:240-275 | the slot becomes free again, or leaks and raises SECTION_WARN iff neither neighbour is free and no entry is left |
| Sections.TouchesNeighbours | src/jobs.c:245-258 | a slot in use touches a section iff the slot before it or the one after it is free |
| Sections.ShrinkFrees | src/jobs.c:224-227 | a claim removes exactly one index from the free ones and keeps sections non-empty and disjoint |
| Sections.GrowFrees | src/jobs.c:245-271 | extending or opening a section adds exactly the released index and keeps sections disjoint |
| Sections.LowestExactlyWhen | src/jobs.c:215-227 | the claimed slot is the lowest free one iff no active entry starts below the first |
| Requests.StepInv | src/jobs.c:928-1000 | every step of every request of every incarnation keeps the accounts, except exactly a teardown that begins under a call or an answer |
| Requests.GoesOn | src/jobs.c:928-1000 | a request that is not over can always go on, whatever has become of its job |
| Requests.OldAnswerReachesNewJob | src/jobs.c:936-956 | a run in which a teardown begins under a validated answer: its ret_count and its decrement reach the next job, whose own request is still out while waiting_count is 0 |
| Requests.CountersInRun | src/jobs.c:928-1000 | when teardowns begin on quiet jobs, waiting_count of a live job is the number of its own requests out, and total_req is accounted for to the step |
| Requests.TotalsBetweenCalls | include/schedi/jobs.h:147-158 | likewise, between calls total_req == ret_count + err_count + waiting_count + failed registrations |
| Requests.StaleRequestsChangeNothing | src/jobs.c:936-943 | likewise, a request of an earlier generation never changes a counter, and no decrement is ever refused |
| Requests.DroppedExactlyWhen | src/jobs.c:928-943 | likewise, an answer is dropped iff its job is gone, being torn down or being set up, and else goes on with what epoll reported |
| Requests.RefusedExactlyAt15 | src/jobs.c:976-981 | likewise, a new request is refused exactly when 15 of this incarnation are out |
| Dependencies.StepInv | src/jobs.c:647-698 | every completion, return, pick, direct setready call, READYBASIC mark, requirement change or readiness change, from wherever it comes, keeps the parent's accounts |
| Dependencies.OneHandOverPerPick | src/jobs.c:634-698 | hand-overs are balanced by picks and falls of the readiness; a completely ready parent is in the cache; without falls and direct calls it is handed over once per pick, plus once exactly while all four bits are set; completed leaves are counted or were refused |
| Dependencies.FallsExactlyWhen | src/jobs.c:675-686 | a fall is exactly a step other than a pick that takes a complete readiness away |
| Dependencies.HandOverNeedsLeaves | src/worker.c:61-79 | a hand-over happens only after the parent returned 1, or was marked READYBASIC by somebody else, since its last pick, and at least the required number of matching-generation leaves completed, even if completions were refused |
| Dependencies.ReturnIsHeard | src/worker.c:77-79 | a parent that returns 1 with all else met waits in the cache, unless condemned |
| Dependencies.ResumeIsHeard | src/jobs.c:700-706 | so does one that anybody marks READYBASIC |
| Dependencies.SetReadyIsHeard | src/jobs.c:1853-1868 | and so does one on which setready is called directly |
| Dependencies.PickTakes | src/jobs.c:1815-1850 | a waiting parent that grants an access can be picked, and the pick takes it out of the cache and clears READYBASIC |
| Dependencies.ChangeTakes | src/jobs.c:652-666 | changes of the socket and request counts take effect iff both stay within 0 .. 15 |
| Dependencies.AskedInRun | src/jobs.c:904-922 | the requirements are those last set |
| Dependencies.BasicExactlyWhen | src/jobs.c:674-676 | READYBASIC says exactly that the parent has returned 1, or was marked, since its last pick, while not condemned |
| Dependencies.NoneMissedExactlyWhen | src/jobs.c:911-926 | no completion of a leaf is lost iff none of the parent's own is refused the access and at most 15 of them complete |
| Dependencies.HandedOverExactlyWhen | src/jobs.c:911-926 | then a parent that has returned 1 or was marked since its last pick, with enough leaves completed, enough sockets ready and no request out, waits in the cache; and without falls and direct calls only then |
| AvailableSockets.StepInv | src/jobs.c:1021-1048 | each socket update, creation, registration failure or requirement change conserves available_sockets plus the refused changes |
| AvailableSockets.SocketFollows | src/jobs.c:1021-1166 | a registered socket's word takes every update, and no other socket's word moves |
| AvailableSockets.CountAndDrift | src/jobs.c:1021-1166 | in every run available_sockets plus the refused changes is the number of sockets whose READY bit is set, and READYEPOLLSOCK compares the packed count with the requirement |
| AvailableSockets.CountIsExact | src/jobs.c:1021-1048 | the count is exact at every moment iff no flip is refused the access and never more than 15 sockets are READY together; then READYEPOLLSOCK says whether enough are ready |

## Left out

- Lifecycle.ExactlyOnce: for runs without a second destroy and whose claims find no READY. The code ensures neither; each such step breaks exactly one account (`Lifecycle.StepKeeps`), and `LifecycleRuns.StaleEntryTearsDownNewJob` and `LifecycleRuns.LateSetreadyCachesNewJob` show what follows.
- Lifecycle.NeverForgotten: the same proviso.
- Lifecycle.ReturnAgainIsHeard: the same proviso.
- Lifecycle.CacheNeverFull: the same proviso.
- Lifecycle.DrawnIsStable: the same proviso.
- Lifecycle.OneRunner: for runs without a second destroy and whose claims find no EXECUTING; `LifecycleRuns.LateSetreadyRunsTwice` shows why.
- Lifecycle.TeardownAlone: for runs without a second destroy; three clauses ask in addition that claims find no READY, no EXECUTING, no access.
- Lifecycle.DestructorOnce: for runs without a second destroy; `LifecycleRuns.StaleEntryRunsDestructorAgain` shows why.
- Lifecycle.FreshIncarnation: likewise.
- Lifecycle.DestroyQueueNeverFills: likewise.
- Lifecycle.ValidatedAccessPins: for runs without a second destroy and whose claims find no access; `LifecycleRuns.TeardownCanOverlapAccess` shows why.
- WorkerProtocol.NoStrandedWork: for runs whose refused picks are harmless, which is exact by `WorkerProtocol.RefusedPickKeeps`. A pick that is refused, with its put-back, is one step.
- PickOutcomes.WellDrawnNeverStranded: two runs stand for one execution when each pick gets the answer of the word its job has in a state in which it is drawn; the order of the other steps of the two machines is not compared.
- WorkerProtocol.WindowSufficesInRun: the same proviso on refused picks.
- CacheTraffic.PickFindsExactlyWhen: the same proviso on refused picks.
- Shutdown.LeavesInTime: drops of unstable jobs are not counted as steps; `Lifecycle.DrawnIsStable` shows when there are none. That a worker gets the mutex in the end is left to the scheduler.
- WorkerProtocol.AfterTick: likewise, and no other worker may be compacting; `WorkerRuns.TickDuringCompaction` shows why.
- Requests.CountersInRun: for runs whose teardowns begin on a job with no call or answer half done. The code permits others after an unclean claim or a second destroy; exact by `Requests.StepInv`, and `Requests.OldAnswerReachesNewJob` shows one.
- Requests.StaleRequestsChangeNothing: the same proviso.
- Requests.RefusedExactlyAt15: the same proviso.
- Requests.DroppedExactlyWhen: the same proviso.
- Requests.TotalsBetweenCalls: the same proviso.
- Socket.ReadyMeansReadable: for sockets made ready by their thresholds; one that is READY because it died or was given up by the epoll side may hold fewer bytes.
- DestroyQueue.Ring.QueueCheck: one check undisturbed; pushes and other checkers in between are covered by `DestroyQueue.RunConserved`, not by this method.
- EpollSocket.Socket.Read: each transfer of this class runs undisturbed; interleaving is in `ReadRing`, `WriteRing` and `Socket`.
- AvailableSockets.CountIsExact: within one incarnation of the job; a torn-down job's sockets find another generation and change nothing.
- Finer steps of the ready cache: the reorganize counter and the packed count are updated after the slot, and in between they lag.
- The 16-bit label and the packing of the destroy queue's word, whose ABA protection depends on pointer values.
- Wrap-around of the 64-bit generation and of the int reorganize counter.
- Liveness: that a sleeping worker is scheduled, or that a loop of refused accesses ends.
- The `SCHEDI_EXT_TIMEOUT` build, the lockless build, and re-arming by EPOLLONESHOT in `schedi_job_epollsocket_epoll_activator`.
- epoll, eventfd and timerfd descriptors and their system calls; `malloc` failure; thread creation and joining.
- C11 memory orders weaker than sequential consistency.
- The completion indicator of a job, the log ring (src/log.c) and the list (src/list.c).
- `schedi_job_unmark_wlldestroy`, which nothing calls; `FlagWord` has it, `Lifecycle` does not.
