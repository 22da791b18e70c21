/** The acts of the job machine on the 32 bits: what an act leaves of a job's record is
    what the source's call on meta_flag leaves of the word, for every word. */
module WordActs {
  import opened JobFlags
  import opened Options
  import FW = FlagWord
  import JV = JobView

  /** The word a call leaves, refused or not. */
  function WordLeft(w: bv32, op: FW.Op): bv32 {
    if FW.Allowed(w, op) then FW.Applied(w, op) else w
  }

  /** With the flags and bans that the source passes. */
  function OpOf(call: Call): FW.Op {
    match call
    case SetAlive => FW.MarkOr(FW.ALIVE, FW.UNSTABLE, false)
    case SetReady => FW.MarkOr(FW.READY, FW.UNSTABLE | FW.WLLDESTROY | FW.READY, false)
    case ClearReady => FW.UnmarkOr(FW.READY, FW.UNSTABLE | FW.WLLDESTROY)
    case ClearBasic => FW.UnmarkOr(FW.READYBASIC, FW.UNSTABLE | FW.WLLDESTROY)
    case SetExecuting => FW.MarkOr(FW.EXECUTING, FW.UNSTABLE | FW.EXECUTING, false)
    case ClearExecuting => FW.UnmarkOr(FW.EXECUTING, FW.UNSTABLE)
    case SetWillDestroy => FW.MarkOr(FW.WLLDESTROY, FW.UNSTABLE, false)
    case ClearWillDestroy => FW.UnmarkOr(FW.WLLDESTROY, FW.UNSTABLE)
    case SetNotEntered => FW.MarkOr(FW.DESTROYNOTENT, FW.UNSTABLE, false)
    case SetUnstable => FW.MarkOr(FW.UNSTABLE, FW.UNSTABLE | FW.EXECUTING | FW.READY, true)
    case AddAccess => FW.MarkAccess
    case SubAccess => FW.UnmarkAccess
    case StoreClaimed => FW.Store(FW.UNSTABLE)
    case StoreCreated => FW.Store(FW.ALIVE | FW.READYEPOLLSOCK | FW.READYEPOLLTOOL | FW.READYJOB)
    case StoreNull => FW.Store(0)
  }

  // ------------------------------------------------- the word taken apart

  /** The single bits; the counts are seen to apart. */
  datatype Bits = Bits(
    alive: bool, unstable: bool, executing: bool, willDestroy: bool, destroyNotEnt: bool,
    ready: bool, readyBasic: bool, epollTool: bool, epollSock: bool, readyJob: bool)

  function BitsOf(w: bv32): Bits {
    Bits(FW.Has(w, FW.ALIVE), FW.Has(w, FW.UNSTABLE), FW.Has(w, FW.EXECUTING), FW.Has(w, FW.WLLDESTROY),
         FW.Has(w, FW.DESTROYNOTENT), FW.Has(w, FW.READY), FW.Has(w, FW.READYBASIC),
         FW.Has(w, FW.READYEPOLLTOOL), FW.Has(w, FW.READYEPOLLSOCK), FW.Has(w, FW.READYJOB))
  }

  predicate SameCounts(w: bv32, d: bv32) {
    (d >> 9) & 0xF == (w >> 9) & 0xF && (d >> 13) & 0xF == (w >> 13) & 0xF && (d >> 17) & 0xF == (w >> 17) & 0xF
  }

  predicate SameAccess(w: bv32, d: bv32) {
    (d >> 28) & 0xF == (w >> 28) & 0xF
  }

  function WithBits(f: Flags, b: Bits): Flags {
    f.(alive := b.alive, unstable := b.unstable, executing := b.executing, willDestroy := b.willDestroy,
       destroyNotEnt := b.destroyNotEnt, ready := b.ready, readyBasic := b.readyBasic,
       epollTool := b.epollTool, epollSock := b.epollSock, readyJob := b.readyJob)
  }

  lemma BitsDiffer(w: bv32, d: bv32)
    requires SameCounts(w, d) && SameAccess(w, d)
    ensures Unpack(d) == WithBits(Unpack(w), BitsOf(d))
  {
  }

  /** A mask of single bits leaves the counts alone. */
  lemma CountsKept(w: bv32, flag: bv32)
    requires flag & !MARKS == 0
    ensures SameCounts(w, w | flag) && SameAccess(w, w | flag)
    ensures SameCounts(w, w & !flag) && SameAccess(w, w & !flag)
  {
  }

  const MARKS: bv32 :=
    FW.ALIVE | FW.UNSTABLE | FW.EXECUTING | FW.WLLDESTROY | FW.DESTROYNOTENT
    | FW.READY | FW.READYBASIC | FW.READYEPOLLTOOL | FW.READYEPOLLSOCK | FW.READYJOB

  const NO_BITS: Bits := Bits(false, false, false, false, false, false, false, false, false, false)

  function Or(b: Bits, c: Bits): Bits {
    Bits(b.alive || c.alive, b.unstable || c.unstable, b.executing || c.executing,
         b.willDestroy || c.willDestroy, b.destroyNotEnt || c.destroyNotEnt, b.ready || c.ready,
         b.readyBasic || c.readyBasic, b.epollTool || c.epollTool, b.epollSock || c.epollSock,
         b.readyJob || c.readyJob)
  }

  function Without(b: Bits, c: Bits): Bits {
    Bits(b.alive && !c.alive, b.unstable && !c.unstable, b.executing && !c.executing,
         b.willDestroy && !c.willDestroy, b.destroyNotEnt && !c.destroyNotEnt, b.ready && !c.ready,
         b.readyBasic && !c.readyBasic, b.epollTool && !c.epollTool, b.epollSock && !c.epollSock,
         b.readyJob && !c.readyJob)
  }

  predicate Apart(b: Bits, c: Bits) {
    && !(b.alive && c.alive) && !(b.unstable && c.unstable) && !(b.executing && c.executing) && !(b.willDestroy && c.willDestroy)
    && !(b.destroyNotEnt && c.destroyNotEnt) && !(b.ready && c.ready) && !(b.readyBasic && c.readyBasic) && !(b.epollTool && c.epollTool)
    && !(b.epollSock && c.epollSock) && !(b.readyJob && c.readyJob)
  }

  // The three operations on words are the three on bits.

  lemma OrBits(w: bv32, m: bv32)
    ensures BitsOf(w | m) == Or(BitsOf(w), BitsOf(m))
  {
  }

  lemma WithoutBits(w: bv32, m: bv32)
    ensures BitsOf(w & !m) == Without(BitsOf(w), BitsOf(m))
  {
  }

  lemma ApartBits(w: bv32, m: bv32)
    requires m & !MARKS == 0
    ensures w & m == 0 <==> Apart(BitsOf(w), BitsOf(m))
  {
  }
  // ------------------------------------------------------- the access count

  lemma AccessSet(w: bv32, a: bv32)
    requires a <= 15
    ensures SameCounts(w, FW.SetAccess(w, a)) && (FW.SetAccess(w, a) >> 28) & 0xF == a
  {
  }

  lemma AccessBits(w: bv32, a: bv32)
    ensures BitsOf(FW.SetAccess(w, a)) == BitsOf(w)
  {
  }

  lemma AccessDiffers(w: bv32, d: bv32)
    requires SameCounts(w, d) && BitsOf(d) == BitsOf(w)
    ensures Unpack(d) == Unpack(w).(access := Nibble((d >> 28) & 0xF))
  {
  }

  lemma AccessField(w: bv32, a: bv32)
    requires a <= 15
    ensures Unpack(FW.SetAccess(w, a)) == Unpack(w).(access := Nibble(a))
  {
    AccessSet(w, a);
    AccessBits(w, a);
    AccessDiffers(w, FW.SetAccess(w, a));
  }

  lemma SetAccessLow(w: bv32, a: bv32)
    ensures FW.SetAccess(w, a) == FW.SetAccess(w, a & 0xF)
  {
  }

  lemma NibbleUp(v: bv32)
    requires v < 15
    ensures v + 1 <= 15 && Nibble(v + 1) == Nibble(v) + 1
  {
  }

  lemma NibbleDown(v: bv32)
    requires v <= 15
    ensures (v - 1) & 0xF <= 15 && Nibble((v - 1) & 0xF) == if v == 0 then 15 else Nibble(v) - 1
  {
    if v != 0 {
      assert (v - 1) & 0xF == v - 1;
    }
  }

  lemma NibbleFull(v: bv32)
    requires v <= 15
    ensures Nibble(v) < 15 <==> v != 15
    ensures Nibble(v) == 0 <==> v == 0
  {
  }

  lemma NoAccess(w: bv32)
    ensures w & FW.ACCESS_MASK == 0 <==> (w >> 28) & 0xF == 0
  {
  }

  // The access count as a number.

  lemma NoneTaken(w: bv32)
    ensures Unpack(w).access == 0 <==> w & FW.ACCESS_MASK == 0
  {
    NoAccess(w);
    NibbleFull((w >> 28) & 0xF);
  }

  lemma RoomLeft(w: bv32)
    ensures Unpack(w).access < 15 <==> (w >> 28) & 0xF != 15
  {
    NibbleFull((w >> 28) & 0xF);
  }

  // --------------------------------------------------- what each call leaves

  /** A call is let through exactly when the record says so, and leaves what it says. */
  predicate Follows(w: bv32, call: Call) {
    && (FW.Allowed(w, OpOf(call)) <==> Lets(Unpack(w), call))
    && (FW.Allowed(w, OpOf(call)) ==> Unpack(FW.Applied(w, OpOf(call))) == Leaves(Unpack(w), call))
  }

  predicate IsMark(call: Call) {
    call.SetAlive? || call.SetReady? || call.SetExecuting? || call.SetWillDestroy? || call.SetNotEntered?
    || call.SetUnstable?
  }

  predicate IsUnmark(call: Call) {
    call.ClearReady? || call.ClearBasic? || call.ClearExecuting? || call.ClearWillDestroy?
  }

  /** The bit a mark sets or an unmark clears. */
  function FlagOf(call: Call): Bits {
    match call
    case SetAlive => NO_BITS.(alive := true)
    case SetReady => NO_BITS.(ready := true)
    case ClearReady => NO_BITS.(ready := true)
    case ClearBasic => NO_BITS.(readyBasic := true)
    case SetExecuting => NO_BITS.(executing := true)
    case ClearExecuting => NO_BITS.(executing := true)
    case SetWillDestroy => NO_BITS.(willDestroy := true)
    case ClearWillDestroy => NO_BITS.(willDestroy := true)
    case SetNotEntered => NO_BITS.(destroyNotEnt := true)
    case SetUnstable => NO_BITS.(unstable := true)
    case _ => NO_BITS
  }

  /** The bits that ban it. */
  function BansOf(call: Call): Bits {
    var u := NO_BITS.(unstable := true);
    match call
    case SetReady => u.(willDestroy := true, ready := true)
    case ClearReady => u.(willDestroy := true)
    case ClearBasic => u.(willDestroy := true)
    case SetExecuting => u.(executing := true)
    case SetUnstable => u.(executing := true, ready := true)
    case _ => u
  }

  lemma MarkFlags(call: Call)
    requires IsMark(call)
    ensures BitsOf(OpOf(call).flag) == FlagOf(call) && OpOf(call).flag & !MARKS == 0
  {
  }

  lemma MarkBans(call: Call)
    requires IsMark(call)
    ensures BitsOf(OpOf(call).banned) == BansOf(call)
  {
  }

  lemma MarkBansMarks(call: Call)
    requires IsMark(call)
    ensures OpOf(call).banned & !MARKS == 0 && (OpOf(call).banAccess <==> call.SetUnstable?)
  {
  }

  lemma UnmarkFlags(call: Call)
    requires IsUnmark(call)
    ensures BitsOf(OpOf(call).flag) == FlagOf(call) && OpOf(call).flag & !MARKS == 0
  {
  }

  lemma UnmarkBans(call: Call)
    requires IsUnmark(call)
    ensures BitsOf(OpOf(call).banned) == BansOf(call) && OpOf(call).banned & !MARKS == 0
  {
  }

  // In terms of the bits alone.

  lemma MarkAllowed(w: bv32, flag: bv32, banned: bv32, banAccess: bool)
    requires banned & !MARKS == 0
    ensures FW.Allowed(w, FW.MarkOr(flag, banned, banAccess)) <==>
            Apart(BitsOf(w), BitsOf(banned)) && (banAccess ==> w & FW.ACCESS_MASK == 0)
  {
    ApartBits(w, banned);
  }

  lemma UnmarkAllowed(w: bv32, flag: bv32, banned: bv32)
    requires flag & !MARKS == 0 && banned & !MARKS == 0
    ensures FW.Allowed(w, FW.UnmarkOr(flag, banned)) <==>
            Apart(BitsOf(w), BitsOf(banned)) && !Apart(BitsOf(w), BitsOf(flag))
  {
    ApartBits(w, banned);
    ApartBits(w, flag);
  }

  lemma MarkApplied(w: bv32, flag: bv32, banned: bv32, banAccess: bool)
    requires flag & !MARKS == 0
    ensures Unpack(FW.Applied(w, FW.MarkOr(flag, banned, banAccess))) == WithBits(Unpack(w), Or(BitsOf(w), BitsOf(flag)))
  {
    OrBits(w, flag);
    CountsKept(w, flag);
    BitsDiffer(w, w | flag);
  }

  lemma UnmarkApplied(w: bv32, flag: bv32, banned: bv32)
    requires flag & !MARKS == 0
    ensures Unpack(FW.Applied(w, FW.UnmarkOr(flag, banned))) == WithBits(Unpack(w), Without(BitsOf(w), BitsOf(flag)))
  {
    WithoutBits(w, flag);
    CountsKept(w, flag);
    BitsDiffer(w, w & !flag);
  }

  lemma MarkRecord(f: Flags, b: Bits, call: Call)
    requires IsMark(call) && WithBits(f, b) == f
    ensures Lets(f, call) <==> Apart(b, BansOf(call)) && (call.SetUnstable? ==> f.access == 0)
    ensures Leaves(f, call) == WithBits(f, Or(b, FlagOf(call)))
  {
  }

  lemma UnmarkRecord(f: Flags, b: Bits, call: Call)
    requires IsUnmark(call) && WithBits(f, b) == f
    ensures Lets(f, call) <==> Apart(b, BansOf(call)) && !Apart(b, FlagOf(call))
    ensures Leaves(f, call) == WithBits(f, Without(b, FlagOf(call)))
  {
  }

  // The operation is a parameter of its own here, so that its masks stay folded.

  /** With the access count as a number. */
  lemma MarkAllowedNumber(w: bv32, op: FW.Op)
    requires op.MarkOr? && op.banned & !MARKS == 0
    ensures FW.Allowed(w, op) <==> Apart(BitsOf(w), BitsOf(op.banned)) && (op.banAccess ==> Unpack(w).access == 0)
  {
    MarkAllowed(w, op.flag, op.banned, op.banAccess);
    NoneTaken(w);
  }

  lemma MarkLets(w: bv32, op: FW.Op, call: Call)
    requires IsMark(call) && op.MarkOr? && op.banned & !MARKS == 0
    requires BitsOf(op.banned) == BansOf(call) && (op.banAccess <==> call.SetUnstable?)
    ensures FW.Allowed(w, op) <==> Lets(Unpack(w), call)
  {
    MarkAllowedNumber(w, op);
    BitsDiffer(w, w);
    MarkRecord(Unpack(w), BitsOf(w), call);
  }

  lemma MarkLeaves(w: bv32, op: FW.Op, call: Call)
    requires IsMark(call) && op.MarkOr? && op.flag & !MARKS == 0 && BitsOf(op.flag) == FlagOf(call)
    ensures Unpack(FW.Applied(w, op)) == Leaves(Unpack(w), call)
  {
    MarkApplied(w, op.flag, op.banned, op.banAccess);
    BitsDiffer(w, w);
    MarkRecord(Unpack(w), BitsOf(w), call);
  }

  lemma UnmarkDoes(w: bv32, op: FW.Op, call: Call)
    requires IsUnmark(call) && op.UnmarkOr? && op.flag & !MARKS == 0 && op.banned & !MARKS == 0
    requires BitsOf(op.flag) == FlagOf(call) && BitsOf(op.banned) == BansOf(call)
    ensures FW.Allowed(w, op) <==> Lets(Unpack(w), call)
    ensures Unpack(FW.Applied(w, op)) == Leaves(Unpack(w), call)
  {
    UnmarkAllowed(w, op.flag, op.banned);
    UnmarkApplied(w, op.flag, op.banned);
    BitsDiffer(w, w);
    UnmarkRecord(Unpack(w), BitsOf(w), call);
  }

  lemma MarkFollows(w: bv32, call: Call)
    requires IsMark(call)
    ensures Follows(w, call)
  {
    MarkFlags(call);
    MarkBans(call);
    MarkBansMarks(call);
    MarkLets(w, OpOf(call), call);
    MarkLeaves(w, OpOf(call), call);
  }

  lemma UnmarkFollows(w: bv32, call: Call)
    requires IsUnmark(call)
    ensures Follows(w, call)
  {
    UnmarkFlags(call);
    UnmarkBans(call);
    UnmarkDoes(w, OpOf(call), call);
  }

  lemma AddAccessLeaves(w: bv32)
    requires (w >> 28) & 0xF < 15
    ensures Unpack(FW.Applied(w, FW.MarkAccess)) == Leaves(Unpack(w), AddAccess)
  {
    var v := (w >> 28) & 0xF;
    NibbleUp(v);
    AccessField(w, v + 1);
  }

  lemma AccessBans(w: bv32)
    ensures FW.Has(w, FW.UNSTABLE | FW.WLLDESTROY) <==> FW.Has(w, FW.UNSTABLE) || FW.Has(w, FW.WLLDESTROY)
  {
  }

  lemma AccessLets(w: bv32)
    ensures FW.Allowed(w, FW.MarkAccess) <==> Lets(Unpack(w), AddAccess)
    ensures FW.Allowed(w, FW.UnmarkAccess) <==> Lets(Unpack(w), SubAccess)
  {
    RoomLeft(w);
    AccessBans(w);
  }

  lemma SubAccessLeaves(w: bv32)
    ensures Unpack(FW.Applied(w, FW.UnmarkAccess)) == Leaves(Unpack(w), SubAccess)
  {
    var v := (w >> 28) & 0xF;
    NibbleDown(v);
    NibbleFull(v);
    SetAccessLow(w, v - 1);
    AccessField(w, (v - 1) & 0xF);
  }

  lemma StoreFollows(w: bv32, call: Call)
    requires call == StoreClaimed || call == StoreCreated || call == StoreNull
    ensures Follows(w, call)
  {
  }

  /** For every word and every call. */
  lemma CallFollows(w: bv32, call: Call)
    ensures Follows(w, call)
  {
    if IsMark(call) {
      MarkFollows(w, call);
    } else if IsUnmark(call) {
      UnmarkFollows(w, call);
    } else if call == AddAccess {
      AccessLets(w);
      if FW.Allowed(w, FW.MarkAccess) {
        AddAccessLeaves(w);
      }
    } else if call == SubAccess {
      AccessLets(w);
      SubAccessLeaves(w);
    } else {
      StoreFollows(w, call);
    }
  }

  /** Every call of the source is one of these. */
  lemma CallsCovered(op: FW.Op) returns (call: Call)
    requires op in FW.Calls()
    ensures OpOf(call) == op
  {
    call :| OpOf(call) == op;
  }

  // ----------------------------------------------------------- the refinement

  /** The call an act makes on the word, if it makes one other than a counter update. */
  function CallOf(a: JV.Act): Option<Call> {
    match a
    case MarkReady => Some(SetReady)
    case Cache(kept) => if kept then None else Some(ClearReady)
    case PickAccess(_) => Some(AddAccess)
    case PickUnready => Some(ClearReady)
    case PickUnbasic => Some(ClearBasic)
    case MarkExecuting => Some(SetExecuting)
    case DropAccess => Some(SubAccess)
    case RunReturns => Some(ClearExecuting)
    case TakeAccess(_) => Some(AddAccess)
    case Give => Some(SubAccess)
    case Destroy => Some(SetWillDestroy)
    case TryDestroy => Some(SetUnstable)
    case ClearFlags => Some(StoreNull)
    case Claim => Some(StoreClaimed)
    case Create => Some(StoreCreated)
    case _ => None
  }

  lemma CachingFollows(v: JV.Job, cached: int, j: nat, p: JV.Pc, a: JV.Act)
    requires (a.MarkReady? || a.Cache?) && JV.Enabled(v, cached, j, p, a) && CallOf(a).Some?
    ensures JV.Do(v, cached, j, p, a).job.flags == Left(v.flags, CallOf(a).value)
  {
  }

  lemma AccessingFollows(v: JV.Job, cached: int, j: nat, p: JV.Pc, a: JV.Act)
    requires (a.PickAccess? || a.TakeAccess?) && JV.Enabled(v, cached, j, p, a) && CallOf(a).Some?
    ensures JV.Do(v, cached, j, p, a).job.flags == Left(v.flags, CallOf(a).value)
  {
  }

  lemma UnreadyFollows(v: JV.Job, cached: int, j: nat, p: JV.Pc, a: JV.Act)
    requires a.PickUnready? && JV.Enabled(v, cached, j, p, a)
    ensures JV.Do(v, cached, j, p, a).job.flags == Left(v.flags, ClearReady)
  {
  }

  lemma UnbasicFollows(v: JV.Job, cached: int, j: nat, p: JV.Pc, a: JV.Act)
    requires a.PickUnbasic? && JV.Enabled(v, cached, j, p, a)
    ensures JV.Do(v, cached, j, p, a).job.flags == Left(v.flags, ClearBasic)
  {
  }

  lemma ExecutingFollows(v: JV.Job, cached: int, j: nat, p: JV.Pc, a: JV.Act)
    requires (a.MarkExecuting? || a.RunReturns?) && JV.Enabled(v, cached, j, p, a) && CallOf(a).Some?
    ensures JV.Do(v, cached, j, p, a).job.flags == Left(v.flags, CallOf(a).value)
  {
  }

  lemma GivingFollows(v: JV.Job, cached: int, j: nat, p: JV.Pc, a: JV.Act)
    requires (a.DropAccess? || a.Give?) && JV.Enabled(v, cached, j, p, a) && CallOf(a).Some?
    ensures JV.Do(v, cached, j, p, a).job.flags == Left(v.flags, CallOf(a).value)
  {
  }

  lemma DestroyingFollows(v: JV.Job, cached: int, j: nat, p: JV.Pc, a: JV.Act)
    requires (a.Destroy? || a.TryDestroy?) && JV.Enabled(v, cached, j, p, a) && CallOf(a).Some?
    ensures JV.Do(v, cached, j, p, a).job.flags == Left(v.flags, CallOf(a).value)
  {
  }

  lemma StoringFollows(v: JV.Job, cached: int, j: nat, p: JV.Pc, a: JV.Act)
    requires (a.ClearFlags? || a.Claim? || a.Create?) && JV.Enabled(v, cached, j, p, a) && CallOf(a).Some?
    ensures JV.Do(v, cached, j, p, a).job.flags == Left(v.flags, CallOf(a).value)
  {
  }

  lemma RecordFollows(v: JV.Job, cached: int, j: nat, p: JV.Pc, a: JV.Act)
    requires JV.Enabled(v, cached, j, p, a) && CallOf(a).Some?
    ensures JV.Do(v, cached, j, p, a).job.flags == Left(v.flags, CallOf(a).value)
  {
    if a.MarkReady? || a.Cache? {
      CachingFollows(v, cached, j, p, a);
    } else if a.PickAccess? || a.TakeAccess? {
      AccessingFollows(v, cached, j, p, a);
    } else if a.PickUnready? {
      UnreadyFollows(v, cached, j, p, a);
    } else if a.PickUnbasic? {
      UnbasicFollows(v, cached, j, p, a);
    } else if a.MarkExecuting? || a.RunReturns? {
      ExecutingFollows(v, cached, j, p, a);
    } else if a.DropAccess? || a.Give? {
      GivingFollows(v, cached, j, p, a);
    } else if a.Destroy? || a.TryDestroy? {
      DestroyingFollows(v, cached, j, p, a);
    } else {
      StoringFollows(v, cached, j, p, a);
    }
  }

  lemma CallLeft(w: bv32, call: Call)
    ensures Unpack(WordLeft(w, OpOf(call))) == Left(Unpack(w), call)
  {
    CallFollows(w, call);
  }

  /** The refinement, for every word: a job's record after an act is the word after the
      source's call, taken apart. */
  lemma ActRefines(w: bv32, v: JV.Job, cached: int, j: nat, p: JV.Pc, a: JV.Act)
    requires v.flags == Unpack(w) && JV.Enabled(v, cached, j, p, a) && CallOf(a).Some?
    ensures JV.Do(v, cached, j, p, a).job.flags == Unpack(WordLeft(w, OpOf(CallOf(a).value)))
  {
    RecordFollows(v, cached, j, p, a);
    CallLeft(w, CallOf(a).value);
  }

  // Acts without a call leave the word alone, but for the counter updates.

  lemma OthersOnPath(v: JV.Job, cached: int, j: nat, p: JV.Pc, a: JV.Act)
    requires JV.Enabled(v, cached, j, p, a) && CallOf(a).None? && JV.OnCachePath(a)
    ensures JV.Do(v, cached, j, p, a).job.flags == v.flags
  {
  }

  lemma OthersOffPath(v: JV.Job, cached: int, j: nat, p: JV.Pc, a: JV.Act)
    requires JV.Enabled(v, cached, j, p, a) && CallOf(a).None? && !JV.OnCachePath(a) && !a.Update? && !a.ReturnAgain?
    ensures JV.Do(v, cached, j, p, a).job.flags == v.flags
  {
  }

  /** A job refuses an access exactly when the word does. */
  lemma AccessRefusedExactly(w: bv32)
    ensures AccessRefused(Unpack(w)) <==> !FW.Allowed(w, FW.MarkAccess)
  {
    AccessLets(w);
    AccessSmall(w);
    RefusedRecord(Unpack(w));
  }

  lemma AccessSmall(w: bv32)
    ensures Unpack(w).access <= 15
  {
    NibbleSmall((w >> 28) & 0xF);
  }

  lemma RefusedRecord(f: Flags)
    requires f.access <= 15
    ensures AccessRefused(f) <==> !Lets(f, AddAccess)
  {
  }

  /** A counter update as an operation: the counts as nibbles and the three derived bits
      that schedi_job_meta_flag_cas_update computes. */
  function UpdateOp(w: bv32, sock: int, wait: int, jobs: int, basic: bool, needSock: int, needJobs: int): FW.Op
    requires UpdateFits(Unpack(w), sock, wait, jobs)
  {
    var f := Unpack(w);
    FW.Update(ToNibble(f.avSock + sock), ToNibble(f.waiting + wait), ToNibble(f.avJobs + jobs), basic,
              f.avSock + sock >= needSock, f.waiting + wait == 0, f.avJobs + jobs >= needJobs)
  }

  lemma UpdateFollows(w: bv32, sock: int, wait: int, jobs: int, basic: bool, needSock: int, needJobs: int)
    requires UpdateFits(Unpack(w), sock, wait, jobs)
    ensures var op := UpdateOp(w, sock, wait, jobs, basic, needSock, needJobs);
      && (FW.Allowed(w, op) <==> (basic ==> !Unpack(w).unstable && !Unpack(w).willDestroy))
      && Unpack(FW.Applied(w, op)) == Update(Unpack(w), sock, wait, jobs, basic, needSock, needJobs)
  {
    AccessBans(w);
    StoredRefinesUpdate(w, sock, wait, jobs, basic, needSock, needJobs);
  }

  lemma UpdateActRefines(w: bv32, v: JV.Job, cached: int, j: nat, p: JV.Pc, a: JV.Act)
    requires v.flags == Unpack(w) && a.Update? && JV.Enabled(v, cached, j, p, a)
    ensures JV.Do(v, cached, j, p, a).job.flags
         == Unpack(WordLeft(w, UpdateOp(w, a.sock, a.wait, a.jobs, a.basic, a.needSock, a.needJobs)))
  {
    UpdateFollows(w, a.sock, a.wait, a.jobs, a.basic, a.needSock, a.needJobs);
  }

  lemma InRange(w: bv32)
    ensures UpdateFits(Unpack(w), 0, 0, 0)
  {
    NibbleSmall((w >> 9) & 0xF);
    NibbleSmall((w >> 13) & 0xF);
    NibbleSmall((w >> 17) & 0xF);
  }

  /** And so is the mark of a run that returned 1. */
  lemma RerunRefines(w: bv32, v: JV.Job, j: nat)
    requires v.flags == Unpack(w)
    ensures UpdateFits(Unpack(w), 0, 0, 0)
    ensures JV.Rerun(v, j).job.flags
         == Unpack(WordLeft(w, UpdateOp(w, 0, 0, 0, true, v.needSock, v.needJobs)))
  {
    InRange(w);
    UpdateFollows(w, 0, 0, 0, true, v.needSock, v.needJobs);
  }
}
