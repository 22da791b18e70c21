/** The layout of a job's 32-bit meta_flag and the word updates on it, with the
    source's masks and shifts.  `JobFlags` has the same updates on the fields. */
module FlagWord {

  const ALIVE: bv32 := 1 << 0
  const UNSTABLE: bv32 := 1 << 1
  const EXECUTING: bv32 := 1 << 2
  const WLLDESTROY: bv32 := 1 << 3
  const DESTROYNOTENT: bv32 := 1 << 4
  const READY: bv32 := 1 << 5
  const READYBASIC: bv32 := 1 << 6
  const READYEPOLLTOOL: bv32 := 1 << 7
  const READYEPOLLSOCK: bv32 := 1 << 8
  const READYJOB: bv32 := 1 << 21
  const AVSOCK_MASK: bv32 := 0xF << 9
  const WAIT_MASK: bv32 := 0xF << 13
  const AVJOBS_MASK: bv32 := 0xF << 17
  const ACCESS_MASK: bv32 := 0xF << 28

  function Bit(b: bool, mask: bv32): bv32 { if b then mask else 0 }

  function Has(w: bv32, mask: bv32): bool { w & mask != 0 }

  // -------------------------------------------------- SET macros and updates

  function SetAvSock(w: bv32, a: bv32): bv32 { (a << 9) | (w & !AVSOCK_MASK) }
  function SetWait(w: bv32, a: bv32): bv32 { (a << 13) | (w & !WAIT_MASK) }
  function SetAvJobs(w: bv32, a: bv32): bv32 { (a << 17) | (w & !AVJOBS_MASK) }
  function SetAccess(w: bv32, a: bv32): bv32 { (a << 28) | (w & !ACCESS_MASK) }

  /** The value schedi_job_meta_flag_cas_update stores: counts a, b, c in range,
      `flag` or-ed in, derived bits s, t, j recomputed. */
  function Updated(w: bv32, a: bv32, b: bv32, c: bv32, flag: bv32, s: bool, t: bool, j: bool): bv32 {
    var d := SetAvJobs(SetWait(SetAvSock(w, a), b), c) | flag;
    (d & !(READYEPOLLSOCK | READYEPOLLTOOL | READYJOB))
    | Bit(s, READYEPOLLSOCK) | Bit(t, READYEPOLLTOOL) | Bit(j, READYJOB)
  }

  predicate AllReady(w: bv32) {
    var req := READYBASIC | READYEPOLLTOOL | READYEPOLLSOCK | READYJOB;
    w & req == req
  }

  // --------------------------------------------------------- field lemmas

  /** The counts come out as put in, whatever the flags. */
  lemma UpdatedCounts(w: bv32, a: bv32, b: bv32, c: bv32, flag: bv32, s: bool, t: bool, j: bool)
    requires a <= 15 && b <= 15 && c <= 15 && (flag == 0 || flag == READYBASIC)
    ensures var d := Updated(w, a, b, c, flag, s, t, j);
            && (d >> 9) & 0xF == a && (d >> 13) & 0xF == b && (d >> 17) & 0xF == c
            && (d >> 28) & 0xF == (w >> 28) & 0xF
  {
  }

  /** The derived bits come out as computed, and READYBASIC or-ed in. */
  lemma UpdatedReadiness(w: bv32, a: bv32, b: bv32, c: bv32, flag: bv32, s: bool, t: bool, j: bool)
    requires a <= 15 && b <= 15 && c <= 15 && (flag == 0 || flag == READYBASIC)
    ensures var d := Updated(w, a, b, c, flag, s, t, j);
            && Has(d, READYEPOLLSOCK) == s && Has(d, READYEPOLLTOOL) == t && Has(d, READYJOB) == j
            && Has(d, READYBASIC) == (Has(w, READYBASIC) || flag == READYBASIC)
  {
  }

  /** Every other bit stays: the status bits here, the marks in the next lemma. */
  lemma UpdatedStatus(w: bv32, a: bv32, b: bv32, c: bv32, flag: bv32, s: bool, t: bool, j: bool)
    requires a <= 15 && b <= 15 && c <= 15 && (flag == 0 || flag == READYBASIC)
    ensures var d := Updated(w, a, b, c, flag, s, t, j);
            && Has(d, ALIVE) == Has(w, ALIVE) && Has(d, UNSTABLE) == Has(w, UNSTABLE)
            && Has(d, EXECUTING) == Has(w, EXECUTING)
  {
  }

  lemma UpdatedMarks(w: bv32, a: bv32, b: bv32, c: bv32, flag: bv32, s: bool, t: bool, j: bool)
    requires a <= 15 && b <= 15 && c <= 15 && (flag == 0 || flag == READYBASIC)
    ensures var d := Updated(w, a, b, c, flag, s, t, j);
            && Has(d, WLLDESTROY) == Has(w, WLLDESTROY)
            && Has(d, DESTROYNOTENT) == Has(w, DESTROYNOTENT) && Has(d, READY) == Has(w, READY)
  {
  }

  lemma AllReadyBits(w: bv32)
    ensures AllReady(w) <==>
            Has(w, READYBASIC) && Has(w, READYEPOLLTOOL) && Has(w, READYEPOLLSOCK) && Has(w, READYJOB)
  {
  }

  /** unmark_access at zero stores the four low bits of -1: the count wraps. */
  lemma AccessUnderflow(w: bv32)
    requires (w >> 28) & 0xF == 0
    ensures (SetAccess(w, ((w >> 28) & 0xF) - 1) >> 28) & 0xF == 15
    ensures SetAccess(w, ((w >> 28) & 0xF) - 1) & !ACCESS_MASK == w & !ACCESS_MASK
  {
  }

  // ------------------------------------------------------------- exclusion

  /** One word update: a plain store, mark_or and unmark_or with their bans, the
      access count up or down, or a counter update (which has no ban of its own
      unless it marks READYBASIC). */
  datatype Op =
    | Store(value: bv32)
    | MarkOr(flag: bv32, banned: bv32, banAccess: bool)
    | UnmarkOr(flag: bv32, banned: bv32)
    | MarkAccess
    | UnmarkAccess
    | Update(a: bv32, b: bv32, c: bv32, basic: bool, s: bool, t: bool, j: bool)

  function Calls(): set<Op> {
    { Store(UNSTABLE),                                                        // section_claim
      Store(ALIVE | READYEPOLLSOCK | READYEPOLLTOOL | READYJOB),              // create
      Store(0),                                                               // destroy_now
      MarkOr(ALIVE, UNSTABLE, false),
      MarkOr(EXECUTING, UNSTABLE | EXECUTING, false),
      MarkOr(UNSTABLE, UNSTABLE | EXECUTING | READY, true),
      MarkOr(WLLDESTROY, UNSTABLE, false),
      MarkOr(DESTROYNOTENT, UNSTABLE, false),
      MarkOr(READY, UNSTABLE | WLLDESTROY | READY, false),
      UnmarkOr(EXECUTING, UNSTABLE),
      UnmarkOr(WLLDESTROY, UNSTABLE),
      UnmarkOr(READY, UNSTABLE | WLLDESTROY),
      UnmarkOr(READYBASIC, UNSTABLE | WLLDESTROY),
      MarkAccess,
      UnmarkAccess }
  }

  /** The updates the source makes on a job's word. */
  predicate Issued(op: Op) {
    if op.Update? then op.a <= 15 && op.b <= 15 && op.c <= 15 else op in Calls()
  }

  /** Is the update let through on w? */
  predicate Allowed(w: bv32, op: Op) {
    match op
    case Store(_) => true
    case MarkOr(_, banned, banAccess) => w & banned == 0 && (banAccess ==> w & ACCESS_MASK == 0)
    case UnmarkOr(flag, banned) => w & banned == 0 && w & flag != 0
    case MarkAccess => !Has(w, UNSTABLE | WLLDESTROY) && (w >> 28) & 0xF != 15
    case UnmarkAccess => !Has(w, UNSTABLE)
    case Update(_, _, _, basic, _, _, _) => basic ==> !Has(w, UNSTABLE | WLLDESTROY)
  }

  function Applied(w: bv32, op: Op): bv32 {
    match op
    case Store(value) => value
    case MarkOr(flag, _, _) => w | flag
    case UnmarkOr(flag, _) => w & !flag
    case MarkAccess => SetAccess(w, ((w >> 28) & 0xF) + 1)
    case UnmarkAccess => SetAccess(w, ((w >> 28) & 0xF) - 1)
    case Update(a, b, c, basic, s, t, j) => Updated(w, a, b, c, Bit(basic, READYBASIC), s, t, j)
  }

  /** An unstable slot is not executing, not ready and not accessed. */
  predicate Exclusive(w: bv32) {
    w & UNSTABLE != 0 ==> w & EXECUTING == 0 && w & READY == 0 && w & ACCESS_MASK == 0
  }

  /** What a marking call needs for exclusion: it is refused on an unstable word,
      and if it makes the word unstable, also on an executing, ready or accessed
      one. */
  predicate MarksSafely(flag: bv32, banned: bv32, banAccess: bool) {
    && banned & UNSTABLE != 0
    && (flag & UNSTABLE != 0 ==>
          flag == UNSTABLE && banned & EXECUTING != 0 && banned & READY != 0 && banAccess)
  }

  lemma MarkExclusive(w: bv32, flag: bv32, banned: bv32, banAccess: bool)
    requires Exclusive(w) && MarksSafely(flag, banned, banAccess)
    requires w & banned == 0 && (banAccess ==> w & ACCESS_MASK == 0)
    ensures Exclusive(w | flag)
  {
  }

  lemma UnmarkExclusive(w: bv32, flag: bv32)
    requires Exclusive(w)
    ensures Exclusive(w & !flag)
  {
  }

  lemma UpdateExclusive(w: bv32, a: bv32, b: bv32, c: bv32, flag: bv32, s: bool, t: bool, j: bool)
    requires Exclusive(w) && a <= 15 && b <= 15 && c <= 15 && (flag == 0 || flag == READYBASIC)
    ensures Exclusive(Updated(w, a, b, c, flag, s, t, j))
  {
  }

  lemma AccessExclusive(w: bv32, a: bv32)
    requires !Has(w, UNSTABLE)
    ensures Exclusive(SetAccess(w, a))
  {
  }

  /** What exclusion asks of an update. */
  predicate Disciplined(op: Op) {
    match op
    case Store(value) => Exclusive(value)
    case MarkOr(flag, banned, banAccess) => MarksSafely(flag, banned, banAccess)
    case Update(a, b, c, _, _, _, _) => a <= 15 && b <= 15 && c <= 15
    case _ => true
  }

  lemma IssuedIsDisciplined(op: Op)
    requires Issued(op)
    ensures Disciplined(op)
  {
  }

  lemma MarkKept(w: bv32, flag: bv32, banned: bv32, banAccess: bool)
    requires Exclusive(w) && MarksSafely(flag, banned, banAccess)
    ensures Allowed(w, MarkOr(flag, banned, banAccess)) ==> Exclusive(Applied(w, MarkOr(flag, banned, banAccess)))
  {
    if w & banned == 0 && (banAccess ==> w & ACCESS_MASK == 0) {
      MarkExclusive(w, flag, banned, banAccess);
    }
  }

  lemma UnmarkKept(w: bv32, op: Op)
    requires op.UnmarkOr? && Exclusive(w)
    ensures Exclusive(Applied(w, op))
  {
    UnmarkExclusive(w, op.flag);
  }

  lemma AccessKept(w: bv32, op: Op)
    requires (op.MarkAccess? || op.UnmarkAccess?) && Allowed(w, op)
    ensures Exclusive(Applied(w, op))
  {
    AccessExclusive(w, ((w >> 28) & 0xF) + 1);
    AccessExclusive(w, ((w >> 28) & 0xF) - 1);
  }

  lemma UpdateKept(w: bv32, op: Op)
    requires op.Update? && Exclusive(w) && Disciplined(op)
    ensures Exclusive(Applied(w, op))
  {
    UpdateExclusive(w, op.a, op.b, op.c, Bit(op.basic, READYBASIC), op.s, op.t, op.j);
  }

  lemma ExclusiveKept(w: bv32, op: Op)
    requires Exclusive(w) && Disciplined(op) && Allowed(w, op)
    ensures Exclusive(Applied(w, op))
  {
    match op
    case Store(_) =>
    case MarkOr(flag, banned, banAccess) => MarkKept(w, flag, banned, banAccess);
    case UnmarkOr(_, _) => UnmarkKept(w, op);
    case MarkAccess => AccessKept(w, op);
    case UnmarkAccess => AccessKept(w, op);
    case Update(_, _, _, _, _, _, _) => UpdateKept(w, op);
  }

  /** Flag exclusion: whatever updates the source makes, in whatever order, an
      unstable job is never executing, ready or accessed. */
  lemma {:induction false} FlagExclusion(ops: seq<Op>, words: seq<bv32>, i: nat)
    requires |words| == |ops| + 1 && words[0] == 0
    requires forall k | 0 <= k < |ops| ::
               Issued(ops[k]) && Allowed(words[k], ops[k]) && words[k + 1] == Applied(words[k], ops[k])
    requires i < |words|
    ensures Exclusive(words[i])
  {
    if i > 0 {
      FlagExclusion(ops, words, i - 1);
      IssuedIsDisciplined(ops[i - 1]);
      ExclusiveKept(words[i - 1], ops[i - 1]);
      assert words[i - 1 + 1] == Applied(words[i - 1], ops[i - 1]);
    }
  }
}
