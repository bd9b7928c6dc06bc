/** modules/cache.sv: the 8-way write-through cache with its posted-write
    queue, as configured by the top level (8 KB, 4-word lines, 4 queued writes,
    prefetch off). `Step` is one clock edge over the register values;
    `CacheUnit` is the same machine with its RAMs and ring buffer in place. */
module Cache {
  import opened Machine

  const WAYS := 8
  const SETS := 128
  const LINE_WORDS := 4
  const DEPTH := 4
  const CPU_WORDS := 0x8_0000       // the CPU's 1 MB, in words
  const CPU_BYTES := 0x10_0000

  // ---- the address split -------------------------------------------------

  function OffOf(w: nat): (o: nat) ensures o < LINE_WORDS { w % 4 }

  function SetOf(w: nat): (s: nat) ensures s < SETS { (w / 4) % 128 }

  function TagOf(w: nat): nat { w / 512 }

  function LineOf(w: nat): nat { w / 4 }

  /** The data RAM's address: set and offset together. */
  function SaOf(w: nat): (a: nat) ensures a < SETS * LINE_WORDS { w % 512 }

  function WordOf(tag: nat, s: nat, o: nat): nat { tag * 512 + s * 4 + o }

  /** Splitting an address loses nothing. */
  lemma SplitWord(w: nat)
    ensures WordOf(TagOf(w), SetOf(w), OffOf(w)) == w
    ensures SaOf(w) == SetOf(w) * 4 + OffOf(w)
    ensures LineOf(w) == TagOf(w) * 128 + SetOf(w)
  {
    assert w == 4 * (w / 4) + w % 4;
    assert w / 4 == 128 * (w / 4 / 128) + (w / 4) % 128;
    assert w / 512 == w / 4 / 128;
    assert w == 512 * (w / 512) + w % 512;
  }

  /** ... and every split address is somebody's. */
  lemma JoinWord(tag: nat, s: nat, o: nat)
    requires s < SETS && o < LINE_WORDS
    ensures TagOf(WordOf(tag, s, o)) == tag
    ensures SetOf(WordOf(tag, s, o)) == s
    ensures OffOf(WordOf(tag, s, o)) == o
    ensures LineOf(WordOf(tag, s, o)) == tag * 128 + s
  {
    var w := WordOf(tag, s, o);
    assert w / 4 == tag * 128 + s;
    assert (tag * 128 + s) % 128 == s;
    assert w / 512 == tag;
  }

  lemma SameWord(tag: nat, s: nat, o: nat, w: nat)
    requires s < SETS && o < LINE_WORDS
    ensures WordOf(tag, s, o) == w <==> TagOf(w) == tag && SetOf(w) == s && SaOf(w) == s * 4 + o
    ensures SaOf(w) == s * 4 + o ==> SetOf(w) == s
  {
    SplitWord(w);
    JoinWord(tag, s, o);
  }

  // ---- registers ---------------------------------------------------------

  datatype Fsm = Idle | Fill | Drain

  /** One posted write; `addr` is the CPU's byte address. */
  datatype Entry = Entry(addr: nat, data: Word, be: Lanes)

  datatype Regs = Regs(
    tags: seq<seq<nat>>,        // [way][set]
    data: seq<seq<Word>>,       // [way][set and offset]
    valid: seq<seq<bool>>,      // [set][way]
    plru: seq<seq<bool>>,       // [set][tree node]
    rTags: seq<nat>,            // the registered lookup, one per way
    rData: seq<Word>,
    rWord: nat,                 // the word address that lookup was for
    arrayWritten: bool,         // arr_wr_d
    fsm: Fsm,
    fTag: nat, fSet: nat, fWay: nat, fOff: nat, fCnt: nat,
    fPoison: bool,
    gap: bool,
    queue: seq<Entry>,          // oldest first
    hitAck: bool,
    hold: Word)

  datatype In = In(
    cAddr: nat, cWdata: Word, cRd: bool, cWr: bool, cBe: Lanes,
    mRdata: Word, mReady: bool,
    snoopWr: bool, snoopAddr: nat)

  datatype Out = Out(
    cRdata: Word, cReady: bool,
    mAddr: nat, mWdata: Word, mRd: bool, mWr: bool, mBe: Lanes)

  ghost predicate Shape(r: Regs) {
    && |r.tags| == WAYS && |r.data| == WAYS
    && |r.rTags| == WAYS && |r.rData| == WAYS
    && |r.valid| == SETS && |r.plru| == SETS
    && (forall k :: 0 <= k < WAYS ==> |r.tags[k]| == SETS)
    && (forall k :: 0 <= k < WAYS ==> |r.data[k]| == SETS * LINE_WORDS)
    && (forall s :: 0 <= s < SETS ==> |r.valid[s]| == WAYS)
    && (forall s :: 0 <= s < SETS ==> |r.plru[s]| == WAYS - 1)
    && r.rWord < CPU_WORDS
    && r.fSet < SETS && r.fWay < WAYS && r.fOff < LINE_WORDS && r.fCnt < 8
    && r.fTag < CPU_WORDS / 512
    && |r.queue| <= DEPTH
  }

  predicate InOk(i: In) { i.cAddr < CPU_BYTES }

  function Reset(): (r: Regs)
    ensures Shape(r)
  {
    Regs(seq(WAYS, k => seq(SETS, s => 0)), seq(WAYS, k => seq(SETS * LINE_WORDS, a => ZERO)),
         seq(SETS, s => seq(WAYS, k => false)), seq(SETS, s => seq(WAYS - 1, n => false)),
         seq(WAYS, k => 0), seq(WAYS, k => ZERO), 0, false,
         Idle, 0, 0, 0, 0, 0, false, false, [], false, ZERO)
  }

  // ---- lookup ------------------------------------------------------------

  /** way_hit: valid bits are read live, tags as they were registered. */
  predicate WayHit(r: Regs, k: nat)
    requires Shape(r) && k < WAYS
  {
    r.valid[SetOf(r.rWord)][k] && r.rTags[k] == TagOf(r.rWord)
  }

  function HitVector(r: Regs): (h: seq<bool>)
    requires Shape(r)
    ensures |h| == WAYS && forall k :: 0 <= k < WAYS ==> h[k] == WayHit(r, k)
  {
    seq(WAYS, k requires 0 <= k < WAYS => WayHit(r, k))
  }

  predicate HitAny(r: Regs)
    requires Shape(r)
  {
    exists k :: 0 <= k < WAYS && WayHit(r, k)
  }

  /** The ways' words, each masked by its own hit bit, OR-ed together. */
  function OrWays(hits: seq<bool>, words: seq<Word>): Word
    requires |hits| == |words|
  {
    if hits == [] then ZERO else
      var rest := OrWays(hits[1..], words[1..]);
      if hits[0] then Word(rest.lo | words[0].lo, rest.hi | words[0].hi) else rest
  }

  function HitData(r: Regs): Word
    requires Shape(r)
  {
    OrWays(HitVector(r), r.rData)
  }

  /** hit_way: the way numbers OR-ed the same way, one bit at a time. */
  function HitWay(r: Regs): (k: nat)
    requires Shape(r)
    ensures k < WAYS
  {
    var h := HitVector(r);
    (if h[4] || h[5] || h[6] || h[7] then 4 else 0)
    + (if h[2] || h[3] || h[6] || h[7] then 2 else 0)
    + (if h[1] || h[3] || h[5] || h[7] then 1 else 0)
  }

  // ---- replacement -------------------------------------------------------

  function FirstInvalid(valid: seq<bool>): (k: nat)
    requires |valid| == WAYS && exists j :: 0 <= j < WAYS && !valid[j]
    ensures k < WAYS && !valid[k] && forall j :: 0 <= j < k ==> valid[j]
  {
    if !valid[0] then 0 else if !valid[1] then 1 else if !valid[2] then 2
    else if !valid[3] then 3 else if !valid[4] then 4 else if !valid[5] then 5
    else if !valid[6] then 6 else 7
  }

  /** Follow the tree: each node points at the side to replace. */
  function PlruWay(p: seq<bool>): (k: nat)
    requires |p| == WAYS - 1
    ensures k < WAYS
  {
    var b2 := p[0];
    var b1 := if b2 then p[2] else p[1];
    var b0 := if !b2 && !b1 then p[3] else if !b2 then p[4] else if !b1 then p[5] else p[6];
    (if b2 then 4 else 0) + (if b1 then 2 else 0) + (if b0 then 1 else 0)
  }

  /** Point the tree away from way `k`. */
  function PlruTouch(p: seq<bool>, k: nat): (q: seq<bool>)
    requires |p| == WAYS - 1 && k < WAYS
    ensures |q| == WAYS - 1
  {
    var b2, b1, b0 := k / 4 == 1, (k / 2) % 2 == 1, k % 2 == 1;
    var q0 := p[0 := !b2];
    var q1 := if b2 then q0[2 := !b1] else q0[1 := !b1];
    var leaf := if !b2 && !b1 then 3 else if !b2 then 4 else if !b1 then 5 else 6;
    q1[leaf := !b0]
  }

  /** An invalid way always wins over the tree's choice. */
  function Victim(valid: seq<bool>, p: seq<bool>): (k: nat)
    requires |valid| == WAYS && |p| == WAYS - 1
    ensures k < WAYS
    ensures (exists j :: 0 <= j < WAYS && !valid[j]) ==> !valid[k]
  {
    if exists j :: 0 <= j < WAYS && !valid[j] then FirstInvalid(valid) else PlruWay(p)
  }

  /** The tree never offers the way used most recently, nor, once a second way
      has been used, that way's predecessor in the same half. */
  lemma PlruSparesRecentlyUsed(p: seq<bool>, k: nat, j: nat)
    requires |p| == WAYS - 1 && k < WAYS && j < WAYS
    ensures PlruWay(PlruTouch(p, k)) != k
    ensures PlruWay(PlruTouch(PlruTouch(p, j), k)) != j || j / 4 != k / 4
    ensures PlruWay(PlruTouch(p, k)) / 4 != k / 4
  {
  }

  // ---- what the cycle does -----------------------------------------------

  predicate Covers(e: Entry, line: nat) { LineOf(e.addr / 2) == line }

  /** wb_hazard: some queued write lies in the line the CPU is addressing. */
  predicate Hazard(r: Regs, i: In) {
    exists n :: 0 <= n < |r.queue| && Covers(r.queue[n], LineOf(i.cAddr / 2))
  }

  predicate HitNow(r: Regs, i: In)
    requires Shape(r)
  {
    r.fsm == Idle && !r.arrayWritten && i.cRd && !i.cWr && HitAny(r)
  }

  predicate MissNow(r: Regs, i: In)
    requires Shape(r)
  {
    r.fsm == Idle && !r.arrayWritten && i.cRd && !i.cWr && !HitAny(r) && !Hazard(r, i)
  }

  predicate Push(r: Regs, i: In) {
    r.fsm == Idle && !r.arrayWritten && i.cWr && |r.queue| < DEPTH
  }

  predicate Pop(r: Regs, i: In) { r.fsm == Drain && i.mReady }

  predicate FillAck(r: Regs, i: In) { r.fsm == Fill && i.mReady && r.fCnt == 0 }

  predicate FillLast(r: Regs, i: In) { r.fsm == Fill && i.mReady && r.fCnt == LINE_WORDS - 1 }

  predicate SnoopFlush(i: In) { i.snoopWr && i.snoopAddr < CPU_BYTES }

  function Outputs(r: Regs, i: In): Out
    requires Shape(r)
  {
    var ack := FillAck(r, i);
    var ready := r.hitAck || ack || Push(r, i);
    var rdata := if ack then i.mRdata else r.hold;
    match r.fsm
    case Fill => Out(rdata, ready, 2 * WordOf(r.fTag, r.fSet, r.fOff), ZERO, !r.gap, false, BOTH)
    case Drain =>
      // A drain always has an entry to send; the ring's slot is undefined otherwise.
      var e := if |r.queue| > 0 then r.queue[0] else Entry(0, ZERO, BOTH);
      Out(rdata, ready, e.addr, e.data, false, !r.gap, e.be)
    case Idle => Out(rdata, ready, i.cAddr, i.cWdata, false, false, i.cBe)
  }

  /** The data RAMs' one write port. */
  datatype ArrayWrite = ArrayWrite(way: nat, sa: nat, data: Word, be: Lanes)

  function ArrayPort(r: Regs, i: In): (w: ArrayWrite)
    requires Shape(r)
    ensures w.way < WAYS && w.sa < SETS * LINE_WORDS
  {
    if r.fsm == Fill && i.mReady then
      ArrayWrite(r.fWay, r.fSet * 4 + r.fOff, i.mRdata, BOTH)
    else if Push(r, i) && HitAny(r) then
      ArrayWrite(HitWay(r), SaOf(r.rWord), i.cWdata, i.cBe)
    else
      ArrayWrite(r.fWay, r.fSet * 4 + r.fOff, i.mRdata, Lanes(false, false))
  }

  function StepData(r: Regs, i: In): (d: seq<seq<Word>>)
    requires Shape(r)
    ensures |d| == WAYS && forall k :: 0 <= k < WAYS ==> |d[k]| == SETS * LINE_WORDS
  {
    var w := ArrayPort(r, i);
    r.data[w.way := r.data[w.way][w.sa := Merge(r.data[w.way][w.sa], w.data, w.be)]]
  }

  function StepTags(r: Regs, i: In): (d: seq<seq<nat>>)
    requires Shape(r)
    ensures |d| == WAYS && forall k :: 0 <= k < WAYS ==> |d[k]| == SETS
  {
    if FillLast(r, i) && !r.fPoison && !SnoopFlush(i) then
      var way: seq<nat> := r.tags[r.fWay][r.fSet := r.fTag];
      r.tags[r.fWay := way]
    else r.tags
  }

  function StepValid(r: Regs, i: In): (d: seq<seq<bool>>)
    requires Shape(r)
    ensures |d| == SETS && forall t :: 0 <= t < SETS ==> |d[t]| == WAYS
  {
    var s := SetOf(r.rWord);
    if SnoopFlush(i) then seq(SETS, _ => seq(WAYS, _ => false))
    else if MissNow(r, i) then r.valid[s := r.valid[s][Victim(r.valid[s], r.plru[s]) := false]]
    else if FillLast(r, i) && !r.fPoison then r.valid[r.fSet := r.valid[r.fSet][r.fWay := true]]
    else r.valid
  }

  function StepPlru(r: Regs, i: In): (d: seq<seq<bool>>)
    requires Shape(r)
    ensures |d| == SETS && forall t :: 0 <= t < SETS ==> |d[t]| == WAYS - 1
  {
    var s := SetOf(r.rWord);
    if SnoopFlush(i) then r.plru
    else if HitNow(r, i) || (Push(r, i) && HitAny(r)) then
      r.plru[s := PlruTouch(r.plru[s], HitWay(r))]
    else if FillLast(r, i) && !r.fPoison then
      r.plru[r.fSet := PlruTouch(r.plru[r.fSet], r.fWay)]
    else r.plru
  }

  function StepQueue(r: Regs, i: In): seq<Entry> {
    var kept := if Pop(r, i) && |r.queue| > 0 then r.queue[1..] else r.queue;
    if Push(r, i) then kept + [Entry(i.cAddr, i.cWdata, i.cBe)] else kept
  }

  function StepFsm(r: Regs, i: In): Fsm
    requires Shape(r)
  {
    match r.fsm
    case Idle =>
      if MissNow(r, i) then Fill
      else if |r.queue| > 0 && (Hazard(r, i) || !i.cRd || r.arrayWritten) then Drain
      else Idle
    case Fill => if FillLast(r, i) then Idle else Fill
    case Drain => if i.mReady then Idle else Drain
  }

  function StepPoison(r: Regs, i: In): bool
    requires Shape(r)
  {
    if MissNow(r, i) then SnoopFlush(i)
    else if FillLast(r, i) then false
    else r.fPoison || (SnoopFlush(i) && r.fsm == Fill)
  }

  /** One rising edge. */
  function Step(r: Regs, i: In): (n: Regs)
    requires Shape(r) && InOk(i)
    ensures Shape(n)
  {
    var miss := MissNow(r, i);
    var s := SetOf(r.rWord);
    var landed := r.fsm == Fill && i.mReady;
    var be := ArrayPort(r, i).be;
    var c := i.cAddr / 2;
    TagBound(r.rWord);
    Regs(StepTags(r, i), StepData(r, i), StepValid(r, i), StepPlru(r, i),
         seq(WAYS, k requires 0 <= k < WAYS => r.tags[k][SetOf(c)]),
         seq(WAYS, k requires 0 <= k < WAYS => r.data[k][SaOf(c)]),
         c,
         be.lo || be.hi,
         StepFsm(r, i),
         if miss then TagOf(r.rWord) else r.fTag,
         if miss then s else r.fSet,
         if miss then Victim(r.valid[s], r.plru[s]) else r.fWay,
         if miss then OffOf(r.rWord) else if landed then (r.fOff + 1) % 4 else r.fOff,
         if miss then 0 else if landed then (r.fCnt + 1) % 8 else r.fCnt,
         StepPoison(r, i),
         i.mReady,
         StepQueue(r, i),
         HitNow(r, i),
         if HitNow(r, i) then HitData(r) else if FillAck(r, i) then i.mRdata else r.hold)
  }

  lemma TagBound(w: nat)
    requires w < CPU_WORDS
    ensures TagOf(w) < CPU_WORDS / 512
  {
  }

  /** THE LINE LAST USED IS SPARED: a hit, by a read or by a store, points the next
      replacement in that set at some other way, so long as nothing flushes the cache. */
  lemma LastUsedIsSpared(r: Regs, i: In)
    requires Shape(r) && InOk(i) && !SnoopFlush(i)
    requires HitNow(r, i) || (Push(r, i) && HitAny(r))
    ensures var n, t := Step(r, i), SetOf(r.rWord);
      n.valid[t][HitWay(r)] ==> Victim(n.valid[t], n.plru[t]) != HitWay(r)
  {
    hide StepData, StepTags, StepQueue, StepFsm, StepPoison, HitData, HitWay, HitAny, FirstInvalid, PlruWay, PlruTouch;
    PlruSparesRecentlyUsed(r.plru[SetOf(r.rWord)], HitWay(r), 0);
  }

  /** ... and so does filling it. */
  lemma FilledIsSpared(r: Regs, i: In)
    requires Shape(r) && InOk(i) && !SnoopFlush(i) && FillLast(r, i) && !r.fPoison
    ensures var n := Step(r, i);
      n.valid[r.fSet][r.fWay] && Victim(n.valid[r.fSet], n.plru[r.fSet]) != r.fWay
  {
    hide StepData, StepTags, StepQueue, StepPoison, HitData, HitWay, HitAny, FirstInvalid, PlruWay, PlruTouch;
    PlruSparesRecentlyUsed(r.plru[r.fSet], r.fWay, 0);
  }
}
