/** The socket state word htc: count, avail, and the readiness, death and done
    bits committed with them in one compare-and-swap.

    `Word` is the word taken apart; the second half of the module has the same
    updates on the 64 bits and shows that they do the same. */
module SocketWord {

  datatype Word = Word(
    count: nat, avail: nat,
    epollDid: bool, epollNt: bool,
    readReady: bool, writeReady: bool, ready: bool, dead: bool)

  /** The word schedi_job_epollsocket_count_add stores: the new count, the bits
      recomputed from it. */
  function CountTo(w: Word, count: nat, readReady: bool, dead: bool): Word {
    var isDead := dead || w.dead;
    w.(count := count,
       readReady := readReady,
       ready := (if !w.epollNt then (readReady && w.writeReady) || isDead else false) || w.epollDid,
       dead := isDead)
  }

  /** The word schedi_job_epollsocket_avail_add stores. */
  function AvailTo(w: Word, avail: nat, writeReady: bool, dead: bool): Word {
    var isDead := dead || w.dead;
    w.(avail := avail,
       writeReady := writeReady,
       ready := (if !w.epollNt then (w.readReady && writeReady) || isDead else false) || w.epollDid,
       dead := isDead)
  }

  function CountAdd(w: Word, delta: int, dead: bool, readCondition: nat): Word
    requires w.count + delta >= 0
  {
    CountTo(w, w.count + delta, w.count + delta >= readCondition, dead)
  }

  function AvailAdd(w: Word, delta: int, dead: bool, writeCondition: nat): Word
    requires w.avail + delta >= 0
  {
    AvailTo(w, w.avail + delta, w.avail + delta >= writeCondition, dead)
  }

  /** schedi_job_epollsocket_dead */
  function MarkDead(w: Word): Word {
    w.(dead := true, ready := true)
  }

  /** schedi_job_epollsocket_done_cas_epollside */
  function DoneEpollSide(w: Word): Word {
    w.(epollDid := true, ready := true)
  }

  /** schedi_job_epollsocket_done_cas_jobside */
  function DoneJobSide(w: Word): Word {
    w.(epollNt := true, ready := w.epollDid && w.ready)
  }

  /** The word schedi_job_tool_epollsocket stores. */
  function Created(size: nat, readCondition: nat, writeCondition: nat): Word {
    var r := 0 >= readCondition;
    var v := size >= writeCondition;
    Word(0, size, false, false, r, v, r && v, false)
  }

  // ---------------------------------------------------- what readiness means

  predicate ReadyMeans(w: Word) {
    w.ready <==> w.epollDid || (!w.epollNt && (w.dead || (w.readReady && w.writeReady)))
  }

  predicate Coherent(w: Word, readCondition: nat, writeCondition: nat) {
    && (w.readReady <==> w.count >= readCondition)
    && (w.writeReady <==> w.avail >= writeCondition)
    && ReadyMeans(w)
  }

  datatype Update =
    | Count(delta: int, dead: bool)
    | Avail(delta: int, dead: bool)
    | Dead
    | EpollDone
    | JobDone

  predicate Applicable(w: Word, u: Update) {
    match u
    case Count(delta, _) => w.count + delta >= 0
    case Avail(delta, _) => w.avail + delta >= 0
    case _ => true
  }

  function Apply(w: Word, u: Update, readCondition: nat, writeCondition: nat): Word
    requires Applicable(w, u)
  {
    match u
    case Count(delta, dead) => CountAdd(w, delta, dead, readCondition)
    case Avail(delta, dead) => AvailAdd(w, delta, dead, writeCondition)
    case Dead => MarkDead(w)
    case EpollDone => DoneEpollSide(w)
    case JobDone => DoneJobSide(w)
  }

  /** Every update keeps the documented meaning of the bits with one exception: a
      bare death after the job side is done and before the epoll side is. */
  lemma UpdateCoherent(w: Word, u: Update, rc: nat, wc: nat)
    requires Coherent(w, rc, wc) && Applicable(w, u)
    ensures Coherent(Apply(w, u, rc, wc), rc, wc) <==> !(u.Dead? && w.epollNt && !w.epollDid)
  {
  }

  /** Runs of updates, thresholds fixed. */
  ghost predicate IsHistory(words: seq<Word>, updates: seq<Update>, size: nat, rc: nat, wc: nat) {
    && |words| == |updates| + 1
    && words[0] == Created(size, rc, wc)
    && forall i | 0 <= i < |updates| ::
         Applicable(words[i], updates[i]) && words[i + 1] == Apply(words[i], updates[i], rc, wc)
  }

  /** No bare death between the job side's done and the epoll side's. */
  ghost predicate NoLateDeath(words: seq<Word>, updates: seq<Update>)
    requires |words| == |updates| + 1
  {
    forall i | 0 <= i < |updates| && updates[i].Dead? :: words[i].epollNt ==> words[i].epollDid
  }

  /** A word is coherent at every moment of a history exactly when no death comes
      late. */
  lemma {:induction false} HistoryCoherent(words: seq<Word>, updates: seq<Update>, size: nat, rc: nat, wc: nat)
    requires IsHistory(words, updates, size, rc, wc)
    ensures (forall i | 0 <= i < |words| :: Coherent(words[i], rc, wc)) <==> NoLateDeath(words, updates)
  {
    if updates != [] {
      var n := |updates| - 1;
      var ws, us := words[..n + 1], updates[..n];
      HistoryCoherent(ws, us, size, rc, wc);
      assert words[n] == ws[n] && words[n + 1] == Apply(words[n], updates[n], rc, wc);
      assert forall i | 0 <= i < n :: us[i] == updates[i] && ws[i] == words[i];
      if NoLateDeath(ws, us) {
        assert Coherent(ws[n], rc, wc);
        UpdateCoherent(words[n], updates[n], rc, wc);
        if NoLateDeath(words, updates) {
          forall i | 0 <= i < |words|
            ensures Coherent(words[i], rc, wc)
          {
            if i <= n {
              assert Coherent(ws[i], rc, wc);
            }
          }
        } else {
          assert !Coherent(words[n + 1], rc, wc);
        }
      } else {
        var i :| 0 <= i < |ws| && !Coherent(ws[i], rc, wc);
        assert !Coherent(words[i], rc, wc);
        var j :| 0 <= j < |us| && us[j].Dead? && ws[j].epollNt && !ws[j].epollDid;
        assert updates[j].Dead? && words[j].epollNt && !words[j].epollDid;
      }
    }
  }

  // What a word's history says of it, field by field.

  datatype Kind = Deaths | EpollDones | JobDones

  predicate Is(u: Update, kind: Kind) {
    match kind
    case Deaths => u.Dead? || (u.Count? && u.dead) || (u.Avail? && u.dead)
    case EpollDones => u.EpollDone?
    case JobDones => u.JobDone?
  }

  function CountDelta(u: Update): int { if u.Count? then u.delta else 0 }

  function AvailDelta(u: Update): int { if u.Avail? then u.delta else 0 }

  /** One update moves the fields it is about and no other. */
  lemma UpdateFields(w: Word, u: Update, rc: nat, wc: nat)
    requires Applicable(w, u)
    ensures var d := Apply(w, u, rc, wc);
      && d.count == w.count + CountDelta(u) && d.avail == w.avail + AvailDelta(u)
      && (d.dead <==> w.dead || Is(u, Deaths))
      && (d.epollDid <==> w.epollDid || Is(u, EpollDones))
      && (d.epollNt <==> w.epollNt || Is(u, JobDones))
  {
    match u
    case Count(_, _) =>
    case Avail(_, _) =>
    case _ =>
  }

  /** Was one of the first n updates of that kind? */
  ghost predicate Among(updates: seq<Update>, n: nat, kind: Kind)
    requires n <= |updates|
  {
    exists k :: 0 <= k < n && Is(updates[k], kind)
  }

  lemma AmongNext(updates: seq<Update>, n: nat, kind: Kind)
    requires n < |updates|
    ensures Among(updates, n + 1, kind) <==> Among(updates, n, kind) || Is(updates[n], kind)
  {
  }

  function CountSum(updates: seq<Update>, n: nat): int
    requires n <= |updates|
  {
    if n == 0 then 0 else CountSum(updates, n - 1) + CountDelta(updates[n - 1])
  }

  function AvailSum(updates: seq<Update>, n: nat): int
    requires n <= |updates|
  {
    if n == 0 then 0 else AvailSum(updates, n - 1) + AvailDelta(updates[n - 1])
  }

  /** At every moment of a history the word is dead exactly when some update so far was
      a death, each side is done exactly when it said so, and the two counts are the
      sums of their changes. */
  lemma {:induction false} HistoryFields(words: seq<Word>, updates: seq<Update>, size: nat, rc: nat, wc: nat, n: nat)
    requires IsHistory(words, updates, size, rc, wc) && n < |words|
    ensures words[n].dead <==> Among(updates, n, Deaths)
    ensures words[n].epollDid <==> Among(updates, n, EpollDones)
    ensures words[n].epollNt <==> Among(updates, n, JobDones)
    ensures words[n].count == CountSum(updates, n)
    ensures words[n].avail == size + AvailSum(updates, n)
  {
    if n > 0 {
      HistoryFields(words, updates, size, rc, wc, n - 1);
      UpdateFields(words[n - 1], updates[n - 1], rc, wc);
      assert words[n - 1 + 1] == Apply(words[n - 1], updates[n - 1], rc, wc);
      AmongNext(updates, n - 1, Deaths);
      AmongNext(updates, n - 1, EpollDones);
      AmongNext(updates, n - 1, JobDones);
    }
  }

  // -------------------------------------------------------------- the layout

  const COUNT_MASK: bv64 := 0x1FFF_FFFF
  const AVAIL_MASK: bv64 := 0x1FFF_FFFF << 29
  const EPOLLDID: bv64 := 1 << 58
  const EPOLLNT: bv64 := 1 << 59
  const READ_READY: bv64 := 1 << 60
  const WRITE_READY: bv64 := 1 << 61
  const READY: bv64 := 1 << 62
  const DEAD: bv64 := 1 << 63

  function Bit(b: bool, mask: bv64): bv64 { if b then mask else 0 }

  /** The value count_add stores over h, with the source's masks: `v` is the new
      count and the booleans are the ones `CountTo` computes. */
  function CountStored(h: bv64, v: bv64, readReady: bool, ready: bool, isDead: bool): bv64 {
    (h & !(COUNT_MASK | READ_READY | READY))
    | (v & COUNT_MASK)
    | Bit(readReady, READ_READY) | Bit(ready, READY) | Bit(isDead, DEAD)
  }

  /** The value avail_add stores; avail is shifted in without a mask. */
  function AvailStored(h: bv64, v: bv64, writeReady: bool, ready: bool, isDead: bool): bv64 {
    (h & !(AVAIL_MASK | WRITE_READY | READY))
    | (v << 29)
    | Bit(writeReady, WRITE_READY) | Bit(ready, READY) | Bit(isDead, DEAD)
  }

  function DoneJobSideBits(h: bv64): bv64 {
    var d := h | EPOLLNT;
    if d & EPOLLDID == 0 then d & !READY else d
  }

  /** Exactly the fields count_add means to change change: nothing spills into
      avail or another bit. */
  lemma CountStoredFields(h: bv64, v: bv64, r: bool, ready: bool, dead: bool)
    requires v <= COUNT_MASK && (h & DEAD != 0 ==> dead)
    ensures var d := CountStored(h, v, r, ready, dead);
            && d & COUNT_MASK == v && d & AVAIL_MASK == h & AVAIL_MASK
            && d & EPOLLDID == h & EPOLLDID && d & EPOLLNT == h & EPOLLNT
            && d & WRITE_READY == h & WRITE_READY
            && (d & READ_READY != 0 <==> r) && (d & READY != 0 <==> ready) && (d & DEAD != 0 <==> dead)
  {
  }

  lemma AvailStoredFields(h: bv64, v: bv64, r: bool, ready: bool, dead: bool)
    requires v <= COUNT_MASK && (h & DEAD != 0 ==> dead)
    ensures var d := AvailStored(h, v, r, ready, dead);
            && d & COUNT_MASK == h & COUNT_MASK && (d & AVAIL_MASK) >> 29 == v
            && d & EPOLLDID == h & EPOLLDID && d & EPOLLNT == h & EPOLLNT
            && d & READ_READY == h & READ_READY
            && (d & WRITE_READY != 0 <==> r) && (d & READY != 0 <==> ready) && (d & DEAD != 0 <==> dead)
  {
  }

  function Number(v: bv64): nat
    requires v <= COUNT_MASK
  {
    v as nat
  }

  function CountField(h: bv64): (v: bv64)
    ensures v <= COUNT_MASK
  {
    h & COUNT_MASK
  }

  function AvailField(h: bv64): (v: bv64)
    ensures v <= COUNT_MASK
  {
    (h & AVAIL_MASK) >> 29
  }

  function Unpack(h: bv64): Word {
    Word(Number(CountField(h)), Number(AvailField(h)),
         h & EPOLLDID != 0, h & EPOLLNT != 0,
         h & READ_READY != 0, h & WRITE_READY != 0, h & READY != 0, h & DEAD != 0)
  }

  /** Word d is word h with the fields of a count update replaced. */
  predicate CountChanged(h: bv64, d: bv64, v: bv64, r: bool, ready: bool, dead: bool) {
    && d & COUNT_MASK == v && d & AVAIL_MASK == h & AVAIL_MASK
    && d & EPOLLDID == h & EPOLLDID && d & EPOLLNT == h & EPOLLNT && d & WRITE_READY == h & WRITE_READY
    && (d & READ_READY != 0 <==> r) && (d & READY != 0 <==> ready) && (d & DEAD != 0 <==> dead)
  }

  predicate AvailChanged(h: bv64, d: bv64, v: bv64, r: bool, ready: bool, dead: bool) {
    && d & COUNT_MASK == h & COUNT_MASK && (d & AVAIL_MASK) >> 29 == v
    && d & EPOLLDID == h & EPOLLDID && d & EPOLLNT == h & EPOLLNT && d & READ_READY == h & READ_READY
    && (d & WRITE_READY != 0 <==> r) && (d & READY != 0 <==> ready) && (d & DEAD != 0 <==> dead)
  }

  // The bit facts above, folded into the predicates without looking at the bits again.

  lemma CountFolds(h: bv64, d: bv64, v: bv64, r: bool, ready: bool, dead: bool)
    requires d & COUNT_MASK == v && d & AVAIL_MASK == h & AVAIL_MASK
    requires d & EPOLLDID == h & EPOLLDID && d & EPOLLNT == h & EPOLLNT && d & WRITE_READY == h & WRITE_READY
    requires (d & READ_READY != 0 <==> r) && (d & READY != 0 <==> ready) && (d & DEAD != 0 <==> dead)
    ensures CountChanged(h, d, v, r, ready, dead)
  {
  }

  lemma AvailFolds(h: bv64, d: bv64, v: bv64, r: bool, ready: bool, dead: bool)
    requires d & COUNT_MASK == h & COUNT_MASK && (d & AVAIL_MASK) >> 29 == v
    requires d & EPOLLDID == h & EPOLLDID && d & EPOLLNT == h & EPOLLNT && d & READ_READY == h & READ_READY
    requires (d & WRITE_READY != 0 <==> r) && (d & READY != 0 <==> ready) && (d & DEAD != 0 <==> dead)
    ensures AvailChanged(h, d, v, r, ready, dead)
  {
  }

  lemma CountStoredChanged(h: bv64, v: bv64, r: bool, ready: bool, dead: bool)
    requires v <= COUNT_MASK && (h & DEAD != 0 ==> dead)
    ensures CountChanged(h, CountStored(h, v, r, ready, dead), v, r, ready, dead)
  {
    CountStoredFields(h, v, r, ready, dead);
    CountFolds(h, CountStored(h, v, r, ready, dead), v, r, ready, dead);
  }

  lemma AvailStoredChanged(h: bv64, v: bv64, r: bool, ready: bool, dead: bool)
    requires v <= COUNT_MASK && (h & DEAD != 0 ==> dead)
    ensures AvailChanged(h, AvailStored(h, v, r, ready, dead), v, r, ready, dead)
  {
    AvailStoredFields(h, v, r, ready, dead);
    AvailFolds(h, AvailStored(h, v, r, ready, dead), v, r, ready, dead);
  }

  lemma CountRefines(h: bv64, d: bv64, v: bv64, readReady: bool, dead: bool)
    requires v <= COUNT_MASK
    requires var w := CountTo(Unpack(h), Number(v), readReady, dead);
             CountChanged(h, d, v, readReady, w.ready, w.dead)
    ensures Unpack(d) == CountTo(Unpack(h), Number(v), readReady, dead)
  {
    assert CountField(d) == v && AvailField(d) == AvailField(h);
  }

  lemma AvailRefines(h: bv64, d: bv64, v: bv64, writeReady: bool, dead: bool)
    requires v <= COUNT_MASK
    requires var w := AvailTo(Unpack(h), Number(v), writeReady, dead);
             AvailChanged(h, d, v, writeReady, w.ready, w.dead)
    ensures Unpack(d) == AvailTo(Unpack(h), Number(v), writeReady, dead)
  {
    assert AvailField(d) == v && CountField(d) == CountField(h);
  }

  /** The value count_add computes from the word it loaded. */
  function CountAddBits(h: bv64, v: bv64, readReady: bool, dead: bool): bv64 {
    var writeReady := h & WRITE_READY != 0;
    var isDead := dead || h & DEAD != 0;
    var ready := (if h & EPOLLNT == 0 then (readReady && writeReady) || isDead else false) || h & EPOLLDID != 0;
    CountStored(h, v, readReady, ready, isDead)
  }

  function AvailAddBits(h: bv64, v: bv64, writeReady: bool, dead: bool): bv64 {
    var readReady := h & READ_READY != 0;
    var isDead := dead || h & DEAD != 0;
    var ready := (if h & EPOLLNT == 0 then (readReady && writeReady) || isDead else false) || h & EPOLLDID != 0;
    AvailStored(h, v, writeReady, ready, isDead)
  }

  lemma CountAddComputes(h: bv64, v: bv64, readReady: bool, dead: bool, n: nat)
    ensures var w := CountTo(Unpack(h), n, readReady, dead);
            CountAddBits(h, v, readReady, dead) == CountStored(h, v, readReady, w.ready, w.dead)
  {
  }

  /** The refinement: for every word, the 64 bits count_add stores are, taken apart,
      the word `CountTo` computes. */
  lemma CountStoredRefines(h: bv64, v: bv64, readReady: bool, dead: bool)
    requires v <= COUNT_MASK
    ensures Unpack(CountAddBits(h, v, readReady, dead)) == CountTo(Unpack(h), Number(v), readReady, dead)
  {
    var w := CountTo(Unpack(h), Number(v), readReady, dead);
    CountAddComputes(h, v, readReady, dead, Number(v));
    CountStoredChanged(h, v, readReady, w.ready, w.dead);
    CountRefines(h, CountAddBits(h, v, readReady, dead), v, readReady, dead);
  }

  lemma AvailAddComputes(h: bv64, v: bv64, writeReady: bool, dead: bool, n: nat)
    ensures var w := AvailTo(Unpack(h), n, writeReady, dead);
            AvailAddBits(h, v, writeReady, dead) == AvailStored(h, v, writeReady, w.ready, w.dead)
  {
  }

  /** Likewise for avail_add and `AvailTo`. */
  lemma AvailStoredRefines(h: bv64, v: bv64, writeReady: bool, dead: bool)
    requires v <= COUNT_MASK
    ensures Unpack(AvailAddBits(h, v, writeReady, dead)) == AvailTo(Unpack(h), Number(v), writeReady, dead)
  {
    var w := AvailTo(Unpack(h), Number(v), writeReady, dead);
    AvailAddComputes(h, v, writeReady, dead, Number(v));
    AvailStoredChanged(h, v, writeReady, w.ready, w.dead);
    AvailRefines(h, AvailAddBits(h, v, writeReady, dead), v, writeReady, dead);
  }

  lemma DoneJobSideNumbers(h: bv64)
    ensures var d := DoneJobSideBits(h);
            d & COUNT_MASK == h & COUNT_MASK && d & AVAIL_MASK == h & AVAIL_MASK
  {
    if (h | EPOLLNT) & EPOLLDID == 0 {
      assert DoneJobSideBits(h) == (h | EPOLLNT) & !READY;
    } else {
      assert DoneJobSideBits(h) == h | EPOLLNT;
    }
  }

  lemma DoneJobSideMarks(h: bv64)
    ensures var d := DoneJobSideBits(h);
            && d & EPOLLNT != 0 && d & EPOLLDID == h & EPOLLDID
            && (d & READY != 0 <==> h & EPOLLDID != 0 && h & READY != 0)
  {
  }

  lemma DoneJobSideRest(h: bv64)
    ensures var d := DoneJobSideBits(h);
            d & READ_READY == h & READ_READY && d & WRITE_READY == h & WRITE_READY && d & DEAD == h & DEAD
  {
  }

  lemma DoneJobSideFields(h: bv64)
    ensures var d := DoneJobSideBits(h);
            && d & EPOLLNT != 0 && d & EPOLLDID == h & EPOLLDID
            && d & COUNT_MASK == h & COUNT_MASK && d & AVAIL_MASK == h & AVAIL_MASK
            && d & READ_READY == h & READ_READY && d & WRITE_READY == h & WRITE_READY && d & DEAD == h & DEAD
            && (d & READY != 0 <==> h & EPOLLDID != 0 && h & READY != 0)
  {
    DoneJobSideNumbers(h);
    DoneJobSideMarks(h);
    DoneJobSideRest(h);
  }

  /** schedi_job_epollsocket_dead and schedi_job_epollsocket_done_cas_epollside. */
  function DeadBits(h: bv64): bv64 { h | DEAD | READY }

  function DoneEpollSideBits(h: bv64): bv64 { h | EPOLLDID | READY }

  lemma DeadFields(h: bv64)
    ensures var d := DeadBits(h);
            && d & DEAD != 0 && d & READY != 0
            && d & COUNT_MASK == h & COUNT_MASK && d & AVAIL_MASK == h & AVAIL_MASK
            && d & READ_READY == h & READ_READY && d & WRITE_READY == h & WRITE_READY
            && d & EPOLLDID == h & EPOLLDID && d & EPOLLNT == h & EPOLLNT
  {
  }

  lemma DoneEpollSideFields(h: bv64)
    ensures var d := DoneEpollSideBits(h);
            && d & EPOLLDID != 0 && d & READY != 0
            && d & COUNT_MASK == h & COUNT_MASK && d & AVAIL_MASK == h & AVAIL_MASK
            && d & READ_READY == h & READ_READY && d & WRITE_READY == h & WRITE_READY
            && d & EPOLLNT == h & EPOLLNT && d & DEAD == h & DEAD
  {
  }

  /** Two words that agree in count, avail and the two threshold bits. */
  lemma SameParts(h: bv64, d: bv64)
    requires d & COUNT_MASK == h & COUNT_MASK && d & AVAIL_MASK == h & AVAIL_MASK
    requires d & READ_READY == h & READ_READY && d & WRITE_READY == h & WRITE_READY
    ensures var v, w := Unpack(h), Unpack(d);
      w == v.(epollDid := w.epollDid, epollNt := w.epollNt, ready := w.ready, dead := w.dead)
  {
    assert CountField(d) == CountField(h) && AvailField(d) == AvailField(h);
  }

  /** The three updates that set bits are, on the 64 bits, what they are on the word
      taken apart. */
  lemma DeadRefines(h: bv64)
    ensures Unpack(DeadBits(h)) == MarkDead(Unpack(h))
  {
    DeadFields(h);
    SameParts(h, DeadBits(h));
  }

  lemma DoneEpollSideRefines(h: bv64)
    ensures Unpack(DoneEpollSideBits(h)) == DoneEpollSide(Unpack(h))
  {
    DoneEpollSideFields(h);
    SameParts(h, DoneEpollSideBits(h));
  }

  lemma JobDoneUnpacks(h: bv64, d: bv64)
    requires d & COUNT_MASK == h & COUNT_MASK && d & AVAIL_MASK == h & AVAIL_MASK
    requires d & READ_READY == h & READ_READY && d & WRITE_READY == h & WRITE_READY && d & DEAD == h & DEAD
    requires d & EPOLLNT != 0 && d & EPOLLDID == h & EPOLLDID
    requires d & READY != 0 <==> h & EPOLLDID != 0 && h & READY != 0
    ensures Unpack(d) == DoneJobSide(Unpack(h))
  {
    SameParts(h, d);
  }

  lemma DoneJobSideRefines(h: bv64)
    ensures Unpack(DoneJobSideBits(h)) == DoneJobSide(Unpack(h))
  {
    DoneJobSideFields(h);
    JobDoneUnpacks(h, DoneJobSideBits(h));
  }

  /** Any value too wide for the 29-bit field by its lowest bit sets EPOLLDID. */
  lemma WideAvailSpills(h: bv64, v: bv64, writeReady: bool, ready: bool, dead: bool)
    requires v & (COUNT_MASK + 1) != 0
    ensures AvailStored(h, v, writeReady, ready, dead) & EPOLLDID != 0
  {
  }
}
