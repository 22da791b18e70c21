/** A job's meta_flag taken apart: the updates on its fields, and the proof that
    the packed 32-bit updates of `FlagWord` do exactly these. */
module JobFlags {
  import FW = FlagWord

  datatype Flags = Flags(
    alive: bool, unstable: bool, executing: bool, willDestroy: bool, destroyNotEnt: bool,
    ready: bool, readyBasic: bool, epollTool: bool, epollSock: bool, readyJob: bool,
    avSock: nat, waiting: nat, avJobs: nat, access: nat)

  const NULL_FLAGS: Flags :=
    Flags(false, false, false, false, false, false, false, false, false, false, 0, 0, 0, 0)

  /** What schedi_job_create stores. */
  const CREATED: Flags := NULL_FLAGS.(alive := true, epollSock := true, epollTool := true, readyJob := true)

  /** What section_claim stores. */
  const CLAIMED: Flags := NULL_FLAGS.(unstable := true)

  predicate AllReady(f: Flags) {
    f.readyBasic && f.epollTool && f.epollSock && f.readyJob
  }

  /** The step that hands a job to schedi_job_setready. */
  predicate RisingEdge(f: Flags, f': Flags) {
    !AllReady(f) && AllReady(f')
  }

  predicate Fits(n: int) {
    0 <= n <= 15
  }

  predicate InRange(f: Flags) {
    f.avSock <= 15 && f.waiting <= 15 && f.avJobs <= 15
  }

  /** schedi_job_mark_access would fail. */
  predicate AccessRefused(f: Flags) {
    f.unstable || f.willDestroy || f.access == 15
  }

  predicate UpdateFits(f: Flags, sock: int, wait: int, jobs: int) {
    Fits(f.avSock + sock) && Fits(f.waiting + wait) && Fits(f.avJobs + jobs)
  }

  /** schedi_job_meta_flag_cas_update past its bans and range check. */
  function Update(f: Flags, sock: int, wait: int, jobs: int, basic: bool, needSock: int, needJobs: int): Flags
    requires UpdateFits(f, sock, wait, jobs)
  {
    f.(avSock := f.avSock + sock, waiting := f.waiting + wait, avJobs := f.avJobs + jobs,
       readyBasic := f.readyBasic || basic,
       epollSock := f.avSock + sock >= needSock,
       epollTool := f.waiting + wait == 0,
       readyJob := f.avJobs + jobs >= needJobs)
  }

  /** The derived bits say what the header promises about the counts. */
  predicate Derived(f: Flags, needSock: int, needJobs: int) {
    && (f.epollTool <==> f.waiting == 0)
    && (f.epollSock <==> f.avSock >= needSock)
    && (f.readyJob <==> f.avJobs >= needJobs)
  }

  // ----------------------------------------------------- marks and accesses

  predicate CanMarkReady(f: Flags) { !f.unstable && !f.willDestroy && !f.ready }
  predicate CanUnmarkReady(f: Flags) { !f.unstable && !f.willDestroy && f.ready }
  predicate CanAccess(f: Flags) { !f.unstable && !f.willDestroy && f.access < 15 }
  predicate CanMarkUnstable(f: Flags) { !f.unstable && !f.executing && !f.ready && f.access == 0 }

  /** The calls on meta_flag that set or clear one bit, move the access count or store a
      whole word. */
  datatype Call =
    | SetAlive | SetReady | ClearReady | ClearBasic | SetExecuting | ClearExecuting
    | SetWillDestroy | ClearWillDestroy | SetNotEntered | SetUnstable
    | AddAccess | SubAccess
    | StoreClaimed | StoreCreated | StoreNull

  /** When a call is let through, and what it leaves then. */
  predicate Lets(f: Flags, call: Call) {
    match call
    case SetReady => CanMarkReady(f)
    case ClearReady => CanUnmarkReady(f)
    case ClearBasic => !f.unstable && !f.willDestroy && f.readyBasic
    case SetExecuting => !f.unstable && !f.executing
    case ClearExecuting => !f.unstable && f.executing
    case ClearWillDestroy => !f.unstable && f.willDestroy
    case SetUnstable => CanMarkUnstable(f)
    case AddAccess => CanAccess(f)
    case StoreClaimed => true
    case StoreCreated => true
    case StoreNull => true
    case _ => !f.unstable
  }

  /** unmark_access at zero wraps to 15. */
  function Leaves(f: Flags, call: Call): Flags {
    match call
    case SetAlive => f.(alive := true)
    case SetReady => f.(ready := true)
    case ClearReady => f.(ready := false)
    case ClearBasic => f.(readyBasic := false)
    case SetExecuting => f.(executing := true)
    case ClearExecuting => f.(executing := false)
    case SetWillDestroy => f.(willDestroy := true)
    case ClearWillDestroy => f.(willDestroy := false)
    case SetNotEntered => f.(destroyNotEnt := true)
    case SetUnstable => f.(unstable := true)
    case AddAccess => f.(access := f.access + 1)
    case SubAccess => f.(access := if f.access == 0 then 15 else f.access - 1)
    case StoreClaimed => CLAIMED
    case StoreCreated => CREATED
    case StoreNull => NULL_FLAGS
  }

  /** The flags after a call, refused or not. */
  function Left(f: Flags, call: Call): Flags {
    if Lets(f, call) then Leaves(f, call) else f
  }

  // ------------------------------------------------------------- refinement

  function Nibble(v: bv32): nat
    requires v <= 15
  {
    v as nat
  }

  function Unpack(w: bv32): Flags {
    Flags(FW.Has(w, FW.ALIVE), FW.Has(w, FW.UNSTABLE), FW.Has(w, FW.EXECUTING), FW.Has(w, FW.WLLDESTROY),
          FW.Has(w, FW.DESTROYNOTENT), FW.Has(w, FW.READY), FW.Has(w, FW.READYBASIC),
          FW.Has(w, FW.READYEPOLLTOOL), FW.Has(w, FW.READYEPOLLSOCK), FW.Has(w, FW.READYJOB),
          Nibble((w >> 9) & 0xF), Nibble((w >> 13) & 0xF), Nibble((w >> 17) & 0xF), Nibble((w >> 28) & 0xF))
  }

  function ToNibble(n: nat): (v: bv32)
    requires n <= 15
  {
    n as bv32
  }

  lemma NibbleSmall(v: bv32)
    requires v <= 15
    ensures Nibble(v) <= 15
  {
  }

  /** Every count in range is some nibble. */
  lemma NibbleRoundTrip(n: nat)
    requires n <= 15
    ensures ToNibble(n) <= 15 && Nibble(ToNibble(n)) == n
  {
  }

  /** A word that differs from w in the updated fields only. */
  predicate DiffersByUpdate(w: bv32, d: bv32, a: bv32, b: bv32, c: bv32, basic: bool, s: bool, t: bool, j: bool) {
    && (d >> 9) & 0xF == a && (d >> 13) & 0xF == b && (d >> 17) & 0xF == c
    && (d >> 28) & 0xF == (w >> 28) & 0xF
    && FW.Has(d, FW.READYEPOLLSOCK) == s && FW.Has(d, FW.READYEPOLLTOOL) == t && FW.Has(d, FW.READYJOB) == j
    && FW.Has(d, FW.READYBASIC) == (FW.Has(w, FW.READYBASIC) || basic)
    && FW.Has(d, FW.ALIVE) == FW.Has(w, FW.ALIVE) && FW.Has(d, FW.UNSTABLE) == FW.Has(w, FW.UNSTABLE)
    && FW.Has(d, FW.EXECUTING) == FW.Has(w, FW.EXECUTING) && FW.Has(d, FW.WLLDESTROY) == FW.Has(w, FW.WLLDESTROY)
    && FW.Has(d, FW.DESTROYNOTENT) == FW.Has(w, FW.DESTROYNOTENT) && FW.Has(d, FW.READY) == FW.Has(w, FW.READY)
  }

  lemma PackedDiffers(w: bv32, a: bv32, b: bv32, c: bv32, basic: bool, s: bool, t: bool, j: bool)
    requires a <= 15 && b <= 15 && c <= 15
    ensures DiffersByUpdate(w, FW.Updated(w, a, b, c, FW.Bit(basic, FW.READYBASIC), s, t, j), a, b, c, basic, s, t, j)
  {
    var flag := FW.Bit(basic, FW.READYBASIC);
    FW.UpdatedCounts(w, a, b, c, flag, s, t, j);
    FW.UpdatedReadiness(w, a, b, c, flag, s, t, j);
    FW.UpdatedStatus(w, a, b, c, flag, s, t, j);
    FW.UpdatedMarks(w, a, b, c, flag, s, t, j);
  }

  /** A word that differs from w by an update whose counts are, as numbers, w's
      plus the deltas, unpacks to the updated fields. */
  lemma UpdateRefines(w: bv32, d: bv32, a: bv32, b: bv32, c: bv32,
                      sock: int, wait: int, jobs: int, basic: bool, needSock: int, needJobs: int)
    requires a <= 15 && b <= 15 && c <= 15
    requires Nibble(a) == Unpack(w).avSock + sock
    requires Nibble(b) == Unpack(w).waiting + wait
    requires Nibble(c) == Unpack(w).avJobs + jobs
    requires DiffersByUpdate(w, d, a, b, c, basic, Nibble(a) >= needSock, Nibble(b) == 0, Nibble(c) >= needJobs)
    ensures UpdateFits(Unpack(w), sock, wait, jobs)
    ensures Unpack(d) == Update(Unpack(w), sock, wait, jobs, basic, needSock, needJobs)
  {
    NibbleSmall(a);
    NibbleSmall(b);
    NibbleSmall(c);
  }

  /** What schedi_job_meta_flag_cas_update stores over w, counts as numbers. */
  function Stored(w: bv32, sock: int, wait: int, jobs: int, basic: bool, needSock: int, needJobs: int): bv32
    requires UpdateFits(Unpack(w), sock, wait, jobs)
  {
    var f := Unpack(w);
    FW.Updated(w, ToNibble(f.avSock + sock), ToNibble(f.waiting + wait), ToNibble(f.avJobs + jobs),
               FW.Bit(basic, FW.READYBASIC),
               f.avSock + sock >= needSock, f.waiting + wait == 0, f.avJobs + jobs >= needJobs)
  }

  /** The refinement: for every word and every update in range, the 32-bit value
      stored is, taken apart, the updated record; so the fields stay apart, the
      status bits and the access count are untouched, and the counts stay below
      16. */
  lemma StoredRefinesUpdate(w: bv32, sock: int, wait: int, jobs: int, basic: bool, needSock: int, needJobs: int)
    requires UpdateFits(Unpack(w), sock, wait, jobs)
    ensures Unpack(Stored(w, sock, wait, jobs, basic, needSock, needJobs))
         == Update(Unpack(w), sock, wait, jobs, basic, needSock, needJobs)
  {
    var f := Unpack(w);
    NibbleRoundTrip(f.avSock + sock);
    NibbleRoundTrip(f.waiting + wait);
    NibbleRoundTrip(f.avJobs + jobs);
    var a, b, c := ToNibble(f.avSock + sock), ToNibble(f.waiting + wait), ToNibble(f.avJobs + jobs);
    var s, t, j := f.avSock + sock >= needSock, f.waiting + wait == 0, f.avJobs + jobs >= needJobs;
    PackedDiffers(w, a, b, c, basic, s, t, j);
    UpdateRefines(w, FW.Updated(w, a, b, c, FW.Bit(basic, FW.READYBASIC), s, t, j), a, b, c,
                  sock, wait, jobs, basic, needSock, needJobs);
  }
}
