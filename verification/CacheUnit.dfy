/** modules/cache.sv as the hardware has it: tag and data RAMs written in
    place, valid and PLRU flops, and the posted writes in a four-slot ring with
    head, tail and count. `Tick` refines `Cache.Step`, whose queue is a sequence. */
module CacheUnit {
  import opened Machine
  import opened Cache

  /** The combinational signals of one clock. */
  datatype Wires = Wires(
    hits: seq<bool>, hitAny: bool, hitWay: nat, hitWord: Word,
    hazard: bool, victim: nat,
    hitNow: bool, missNow: bool, push: bool, pop: bool, last: bool, flush: bool,
    port: ArrayWrite)

  ghost function WiresOf(r: Regs, i: In): Wires
    requires Shape(r)
  {
    var s := SetOf(r.rWord);
    Wires(HitVector(r), HitAny(r), HitWay(r), HitData(r),
          Hazard(r, i), Victim(r.valid[s], r.plru[s]),
          HitNow(r, i), MissNow(r, i), Push(r, i), Pop(r, i), FillLast(r, i), SnoopFlush(i),
          ArrayPort(r, i))
  }

  class CacheUnit {
    // RAMs
    const tagMem: array2<nat>       // [way, set]
    const dat: array2<Word>         // [way, set and offset]
    const wb: array<Entry>
    // flops
    var valid: seq<seq<bool>>
    var plru: seq<seq<bool>>
    var rTags: seq<nat>
    var rData: seq<Word>
    var rTag: nat
    var rSet: nat
    var rOff: nat
    var rSa: nat
    var arrWrD: bool
    var state: Fsm
    var fTag: nat
    var fSet: nat
    var fWay: nat
    var fOff: nat
    var fCnt: nat
    var fPoison: bool
    var gap: bool
    var wbHead: nat
    var wbTail: nat
    var wbCnt: nat
    var hitAck: bool
    var hold: Word

    /** The register values `Cache.Step` works on. */
    ghost var view: Regs

    ghost predicate Sized() {
      && tagMem.Length0 == WAYS && tagMem.Length1 == SETS
      && dat.Length0 == WAYS && dat.Length1 == SETS * LINE_WORDS
      && wb.Length == DEPTH
      && tagMem as object != dat
    }

    ghost predicate TagsTied(r: Regs)
      requires Sized() && Shape(r)
      reads tagMem
    {
      forall k, s :: 0 <= k < WAYS && 0 <= s < SETS ==> tagMem[k, s] == r.tags[k][s]
    }

    ghost predicate DataTied(r: Regs)
      requires Sized() && Shape(r)
      reads dat
    {
      forall k, a :: 0 <= k < WAYS && 0 <= a < SETS * LINE_WORDS ==> dat[k, a] == r.data[k][a]
    }

    /** The ring read from its head is the queue. */
    ghost predicate RingTied(q: seq<Entry>)
      requires Sized()
      reads `wbHead, `wbTail, `wbCnt, wb
    {
      && wbHead < DEPTH && wbCnt == |q| <= DEPTH && wbTail == (wbHead + wbCnt) % DEPTH
      && forall n :: 0 <= n < wbCnt ==> q[n] == wb[(wbHead + n) % DEPTH]
    }

    ghost predicate LookupTied(r: Regs)
      reads `rTags, `rData, `rTag, `rSet, `rOff, `rSa
    {
      && rTags == r.rTags && rData == r.rData
      && rTag == TagOf(r.rWord) && rSet == SetOf(r.rWord)
      && rOff == OffOf(r.rWord) && rSa == SaOf(r.rWord)
    }

    ghost predicate FsmTied(r: Regs)
      reads `state, `fTag, `fSet, `fWay, `fOff, `fCnt, `fPoison
    {
      && state == r.fsm && fTag == r.fTag && fSet == r.fSet && fWay == r.fWay
      && fOff == r.fOff && fCnt == r.fCnt && fPoison == r.fPoison
    }

    ghost predicate FlopsTied(r: Regs)
      reads `valid, `plru, `arrWrD, `gap, `hitAck, `hold
    {
      && valid == r.valid && plru == r.plru
      && arrWrD == r.arrayWritten && gap == r.gap && hitAck == r.hitAck && hold == r.hold
    }

    ghost predicate Valid()
      reads this, tagMem, dat, wb
    {
      && Sized() && Shape(view) && TagsTied(view) && DataTied(view) && RingTied(view.queue)
      && LookupTied(view) && FsmTied(view) && FlopsTied(view)
    }

    /** Power-on reset. */
    constructor ()
      ensures Valid() && view == Reset() && fresh(tagMem) && fresh(dat) && fresh(wb)
    {
      var t := new nat[WAYS, SETS]((k, s) => 0);
      var d := new Word[WAYS, SETS * LINE_WORDS]((k, a) => ZERO);
      tagMem, dat := t, d;
      wb := new Entry[DEPTH](n => Entry(0, ZERO, BOTH));
      var r := Reset();
      valid, plru, rTags, rData := r.valid, r.plru, r.rTags, r.rData;
      rTag, rSet, rOff, rSa, arrWrD := 0, 0, 0, 0, false;
      state, fTag, fSet, fWay, fOff, fCnt, fPoison, gap := Idle, 0, 0, 0, 0, 0, false, false;
      wbHead, wbTail, wbCnt, hitAck, hold := 0, 0, 0, false, ZERO;
      view := r;
    }

    // ---- combinational logic ---------------------------------------------

    method WayHits() returns (hits: seq<bool>)
      requires Valid()
      ensures hits == HitVector(view)
    {
      hits := [];
      for k := 0 to WAYS
        invariant |hits| == k
        invariant forall j :: 0 <= j < k ==> hits[j] == WayHit(view, j)
      {
        hits := hits + [valid[rSet][k] && rTags[k] == rTag];
      }
    }

    method AnyHit(hits: seq<bool>) returns (any: bool)
      requires Valid() && hits == HitVector(view)
      ensures any == HitAny(view)
    {
      any := false;
      for k := 0 to WAYS
        invariant any == exists j :: 0 <= j < k && WayHit(view, j)
      {
        if hits[k] { any := true; }
      }
    }

    /** The OR of every way's word under its own hit bit. */
    method HitWord(hits: seq<bool>) returns (w: Word)
      requires Valid() && hits == HitVector(view)
      ensures w == HitData(view)
    {
      w := ZERO;
      var k := WAYS;
      while k > 0
        invariant 0 <= k <= WAYS
        invariant w == OrWays(hits[k..], view.rData[k..])
      {
        k := k - 1;
        assert hits[k..][1..] == hits[k + 1..] && view.rData[k..][1..] == view.rData[k + 1..];
        if hits[k] { w := Word(w.lo | rData[k].lo, w.hi | rData[k].hi); }
      }
      assert hits[0..] == hits && view.rData[0..] == view.rData;
    }

    /** Scan the ring for a write to the CPU's line. */
    method RingHazard(i: In) returns (hazard: bool)
      requires Valid()
      ensures hazard == Hazard(view, i)
    {
      hazard := false;
      for n := 0 to wbCnt
        invariant hazard == exists j :: 0 <= j < n && Covers(view.queue[j], LineOf(i.cAddr / 2))
      {
        assert view.queue[n] == wb[(wbHead + n) % DEPTH];
        if LineOf(wb[(wbHead + n) % DEPTH].addr / 2) == LineOf(i.cAddr / 2) {
          assert Covers(view.queue[n], LineOf(i.cAddr / 2));
          hazard := true;
        }
      }
    }

    /** An invalid way if there is one -- the lowest, as the scan runs down. */
    method PickVictim() returns (way: nat)
      requires Valid()
      ensures way == Victim(view.valid[rSet], view.plru[rSet])
    {
      var row, found := valid[rSet], false;
      way := 0;
      var k := WAYS;
      while k > 0
        invariant 0 <= k <= WAYS
        invariant found == exists j :: k <= j < WAYS && !row[j]
        invariant found ==> k <= way < WAYS && !row[way] && forall j :: k <= j < way ==> row[j]
      {
        k := k - 1;
        if !row[k] { found, way := true, k; }
      }
      if !found { way := PlruWay(plru[rSet]); }
    }

    method HitIndex(hits: seq<bool>) returns (k: nat)
      requires Valid() && hits == HitVector(view)
      ensures k == HitWay(view)
    {
      k := (if hits[4] || hits[5] || hits[6] || hits[7] then 4 else 0)
         + (if hits[2] || hits[3] || hits[6] || hits[7] then 2 else 0)
         + (if hits[1] || hits[3] || hits[5] || hits[7] then 1 else 0);
    }

    method PortOf(i: In, push: bool, any: bool, hitWay: nat) returns (p: ArrayWrite)
      requires Valid() && push == Push(view, i) && any == HitAny(view) && hitWay == HitWay(view)
      ensures p == ArrayPort(view, i)
    {
      hide HitAny, HitWay, TagOf, SetOf, OffOf, SaOf, TagsTied, DataTied;
      p := if state == Fill && i.mReady then ArrayWrite(fWay, fSet * 4 + fOff, i.mRdata, BOTH)
        else if push && any then ArrayWrite(hitWay, rSa, i.cWdata, i.cBe)
        else ArrayWrite(fWay, fSet * 4 + fOff, i.mRdata, Lanes(false, false));
    }

    method Strobes(i: In, any: bool, hazard: bool)
      returns (hitNow: bool, missNow: bool, push: bool, pop: bool, last: bool, flush: bool)
      requires Valid() && InOk(i) && any == HitAny(view) && hazard == Hazard(view, i)
      ensures hitNow == HitNow(view, i) && missNow == MissNow(view, i) && push == Push(view, i)
      ensures pop == Pop(view, i) && last == FillLast(view, i) && flush == SnoopFlush(i)
    {
      hide HitAny, Hazard, TagsTied, DataTied, LookupTied;
      var ready := state == Idle && !arrWrD;
      hitNow := ready && i.cRd && !i.cWr && any;
      missNow := ready && i.cRd && !i.cWr && !any && !hazard;
      push := ready && i.cWr && wbCnt < DEPTH;
      pop := state == Drain && i.mReady;
      last := state == Fill && i.mReady && fCnt == LINE_WORDS - 1;
      flush := i.snoopWr && i.snoopAddr < CPU_BYTES;
    }

    method VictimHere() returns (way: nat)
      requires Valid()
      ensures way == Victim(view.valid[SetOf(view.rWord)], view.plru[SetOf(view.rWord)])
    {
      way := PickVictim();
    }

    method Settle(i: In) returns (w: Wires)
      requires Valid() && InOk(i)
      ensures w == WiresOf(view, i)
    {
      hide HitData, Victim, Hazard, HitAny, HitVector, HitWay, ArrayPort, SetOf;
      hide HitNow, MissNow, Push, Pop, FillLast, SnoopFlush;
      hide TagsTied, DataTied, LookupTied, FsmTied, FlopsTied, RingTied;
      var hits := WayHits();
      var any := AnyHit(hits);
      var hitWord := HitWord(hits);
      var hazard := RingHazard(i);
      var victim := VictimHere();
      var hitWay := HitIndex(hits);
      var hitNow, missNow, push, pop, last, flush := Strobes(i, any, hazard);
      var port := PortOf(i, push, any, hitWay);
      w := Wires(hits, any, hitWay, hitWord, hazard, victim, hitNow, missNow, push, pop, last, flush, port);
    }

    method Present(i: In, w: Wires) returns (o: Out)
      requires Valid() && InOk(i) && w == WiresOf(view, i)
      ensures o == Outputs(view, i)
    {
      var ack := state == Fill && i.mReady && fCnt == 0;
      o := Out(if ack then i.mRdata else hold, hitAck || ack || w.push,
               i.cAddr, i.cWdata, false, false, i.cBe);
      if state == Fill {
        o := o.(mAddr := 2 * WordOf(fTag, fSet, fOff), mWdata := ZERO, mRd := !gap, mBe := BOTH);
      } else if state == Drain {
        o := o.(mAddr := 0, mWdata := ZERO, mWr := !gap, mBe := BOTH);
        if wbCnt > 0 {
          assert (wbHead + 0) % DEPTH == wbHead;
          o := o.(mAddr := wb[wbHead].addr, mWdata := wb[wbHead].data, mBe := wb[wbHead].be);
        }
      }
    }

    // ---- the RAMs --------------------------------------------------------

    /** Read every way's tag and word for the address now on the bus. */
    method LatchLookup(i: In)
      requires Sized() && Shape(view) && InOk(i) && TagsTied(view) && DataTied(view)
      modifies `rTags, `rData, `rTag, `rSet, `rOff, `rSa
      ensures LookupTied(Step(view, i))
    {
      hide StepTags, StepData, StepValid, StepPlru, StepQueue, StepFsm, StepPoison, TagOf, SetOf, SaOf, OffOf;
      var c := i.cAddr / 2;
      var s, sa := SetOf(c), SaOf(c);
      rTag, rSet, rOff, rSa := TagOf(c), s, OffOf(c), sa;
      var tags, words := [], [];
      for k := 0 to WAYS
        invariant |tags| == |words| == k
        invariant forall j :: 0 <= j < k ==> tags[j] == view.tags[j][s] && words[j] == view.data[j][sa]
      {
        tags, words := tags + [tagMem[k, s]], words + [dat[k, sa]];
      }
      rTags, rData := tags, words;
    }

    /** The data RAMs' write port: a byte-wide bank a lane, one way. */
    method WriteData(i: In, w: Wires)
      requires Sized() && Shape(view) && InOk(i) && DataTied(view) && w == WiresOf(view, i)
      modifies dat
      ensures DataTied(Step(view, i))
    {
      hide StepTags, StepValid, StepPlru, StepQueue, StepFsm, StepPoison;
      hide ArrayPort, HitVector, HitAny, HitWay, HitData, Hazard, Victim, TagOf, SetOf, OffOf, SaOf;
      var p := w.port;
      if p.be.lo { dat[p.way, p.sa] := Word(p.data.lo, dat[p.way, p.sa].hi); }
      if p.be.hi { dat[p.way, p.sa] := Word(dat[p.way, p.sa].lo, p.data.hi); }
    }

    method WriteTag(i: In, w: Wires)
      requires Sized() && Shape(view) && InOk(i) && TagsTied(view) && FsmTied(view)
      requires w == WiresOf(view, i)
      modifies tagMem
      ensures TagsTied(Step(view, i))
    {
      hide StepData, StepValid, StepPlru, StepQueue, StepFsm, StepPoison;
      if w.last && !fPoison && !w.flush { tagMem[fWay, fSet] := fTag; }
    }

    method PushRing(e: Entry, ghost q: seq<Entry>)
      requires Sized() && RingTied(q) && wbCnt < DEPTH
      modifies wb, `wbTail, `wbCnt
      ensures RingTied(q + [e])
    {
      wb[wbTail] := e;
      wbTail := if wbTail == DEPTH - 1 then 0 else wbTail + 1;
      wbCnt := wbCnt + 1;
      assert (wbHead + |q|) % DEPTH == old(wbTail);
    }

    method PopRing(ghost q: seq<Entry>)
      requires Sized() && RingTied(q) && wbCnt > 0
      modifies `wbHead, `wbCnt
      ensures RingTied(q[1..])
    {
      wbHead := if wbHead == DEPTH - 1 then 0 else wbHead + 1;
      wbCnt := wbCnt - 1;
      forall n | 0 <= n < wbCnt
        ensures q[1..][n] == wb[(wbHead + n) % DEPTH]
      {
        assert (old(wbHead) + (n + 1)) % DEPTH == (wbHead + n) % DEPTH;
        assert q[n + 1] == q[1..][n];
      }
    }

    method ClockRing(i: In, w: Wires)
      requires Sized() && Shape(view) && InOk(i) && RingTied(view.queue) && w == WiresOf(view, i)
      requires w.pop ==> wbCnt > 0
      modifies wb, `wbHead, `wbTail, `wbCnt
      ensures RingTied(Step(view, i).queue)
    {
      hide StepData, StepTags, StepValid, StepPlru, StepFsm, StepPoison, Victim;
      hide HitAny, HitVector, HitWay, HitData, Hazard, ArrayPort, TagOf, SetOf, OffOf, SaOf;
      ghost var q := view.queue;
      if w.pop {
        PopRing(q);
        q := q[1..];
      }
      if w.push {
        PushRing(Entry(i.cAddr, i.cWdata, i.cBe), q);
      }
    }

    // ---- the flops -------------------------------------------------------

    /** Valid bits: all dropped at once by a foreign write to CPU memory. */
    method ClockValid(i: In, w: Wires, s: nat)
      requires Shape(view) && InOk(i) && valid == view.valid && FsmTied(view)
      requires w == WiresOf(view, i) && s == SetOf(view.rWord)
      modifies `valid
      ensures valid == Step(view, i).valid
    {
      hide StepData, StepTags, StepPlru, StepQueue, StepFsm, StepPoison, Victim;
      hide HitVector, HitAny, HitWay, HitData, Hazard, ArrayPort, SetOf;
      if w.flush {
        valid := seq(SETS, _ => seq(WAYS, _ => false));
      } else {
        if w.missNow { valid := valid[s := valid[s][w.victim := false]]; }
        if w.last && !fPoison { valid := valid[fSet := valid[fSet][fWay := true]]; }
      }
    }

    method ClockPlru(i: In, w: Wires, s: nat)
      requires Shape(view) && InOk(i) && plru == view.plru && FsmTied(view)
      requires w == WiresOf(view, i) && s == SetOf(view.rWord)
      modifies `plru
      ensures plru == Step(view, i).plru
    {
      hide StepData, StepTags, StepValid, StepQueue, StepFsm, StepPoison, PlruTouch, SetOf;
      hide HitVector, HitAny, HitWay, HitData, Hazard, ArrayPort, Victim;
      if !w.flush {
        if w.hitNow { plru := plru[s := PlruTouch(plru[s], w.hitWay)]; }
        if w.push && w.hitAny { plru := plru[s := PlruTouch(plru[s], w.hitWay)]; }
        if w.last && !fPoison { plru := plru[fSet := PlruTouch(plru[fSet], fWay)]; }
      }
    }

    method ClockHold(i: In, w: Wires)
      requires Shape(view) && InOk(i) && FsmTied(view) && hold == view.hold && w == WiresOf(view, i)
      modifies `hold
      ensures hold == Step(view, i).hold
    {
      hide StepData, StepTags, StepValid, StepPlru, StepQueue, StepFsm, StepPoison, Victim;
      hide HitAny, HitVector, HitWay, HitData, Hazard, ArrayPort, TagOf, SetOf, OffOf, SaOf;
      if w.hitNow { hold := w.hitWord; }
      else if state == Fill && i.mReady && fCnt == 0 { hold := i.mRdata; }
    }

    method ClockAcks(i: In, w: Wires)
      requires Shape(view) && InOk(i) && w == WiresOf(view, i)
      modifies `arrWrD, `gap, `hitAck
      ensures arrWrD == Step(view, i).arrayWritten && gap == Step(view, i).gap
      ensures hitAck == Step(view, i).hitAck
    {
      hide StepData, StepTags, StepValid, StepPlru, StepQueue, StepFsm, StepPoison, Victim, HitNow;
      hide HitAny, HitVector, HitWay, HitData, Hazard, ArrayPort, TagOf, SetOf, OffOf, SaOf;
      arrWrD := w.port.be.lo || w.port.be.hi;
      gap := i.mReady;
      hitAck := w.hitNow;
    }

    method ClockFsm(i: In, w: Wires, tag: nat, s: nat, off: nat, pending: nat, wasWritten: bool)
      requires Shape(view) && InOk(i) && FsmTied(view) && w == WiresOf(view, i)
      requires tag == TagOf(view.rWord) && s == SetOf(view.rWord) && off == OffOf(view.rWord)
      requires pending == |view.queue| && wasWritten == view.arrayWritten
      modifies `state, `fTag, `fSet, `fWay, `fOff, `fCnt, `fPoison
      ensures FsmTied(Step(view, i))
    {
      hide StepData, StepTags, StepValid, StepPlru, StepQueue, Victim;
      hide HitAny, HitVector, HitWay, HitData, Hazard, ArrayPort, TagOf, SetOf, OffOf, SaOf;
      hide HitNow, Push, Pop, SnoopFlush;
      if w.flush && state == Fill { fPoison := true; }
      match state {
        case Idle =>
          if w.missNow {
            fSet, fTag, fWay, fOff, fCnt, fPoison := s, tag, w.victim, off, 0, w.flush;
            state := Fill;
          } else if pending > 0 && (w.hazard || !i.cRd || wasWritten) {
            state := Drain;
          }
        case Fill =>
          if i.mReady {
            fOff := (fOff + 1) % LINE_WORDS;
            fCnt := (fCnt + 1) % 8;
            if w.last { fPoison := false; state := Idle; }
          }
        case Drain =>
          if i.mReady { state := Idle; }
      }
    }

    // ---- one clock -------------------------------------------------------

    method ClockMemories(i: In, w: Wires)
      requires Valid() && InOk(i) && w == WiresOf(view, i)
      requires w.pop ==> wbCnt > 0
      modifies tagMem, dat, wb
      modifies `rTags, `rData, `rTag, `rSet, `rOff, `rSa, `wbHead, `wbTail, `wbCnt
      ensures TagsTied(Step(view, i)) && DataTied(Step(view, i)) && LookupTied(Step(view, i))
      ensures RingTied(Step(view, i).queue)
    {
      hide Step, WiresOf, Shape, TagsTied, DataTied, LookupTied, RingTied, FsmTied;
      LatchLookup(i);
      WriteData(i, w);
      WriteTag(i, w);
      ClockRing(i, w);
    }

    method ClockFlops(i: In, w: Wires, tag: nat, s: nat, off: nat, pending: nat)
      requires Shape(view) && InOk(i) && FsmTied(view) && FlopsTied(view) && w == WiresOf(view, i)
      requires tag == TagOf(view.rWord) && s == SetOf(view.rWord) && off == OffOf(view.rWord)
      requires pending == |view.queue|
      modifies `valid, `plru, `arrWrD, `gap, `hitAck, `hold
      modifies `state, `fTag, `fSet, `fWay, `fOff, `fCnt, `fPoison
      ensures FsmTied(Step(view, i)) && FlopsTied(Step(view, i))
    {
      hide Step, WiresOf, Shape, FsmTied, TagOf, SetOf, OffOf;
      var written := arrWrD;
      ClockValid(i, w, s);
      ClockPlru(i, w, s);
      ClockHold(i, w);
      ClockAcks(i, w);
      ClockFsm(i, w, tag, s, off, pending, written);
    }

    /** Registers the state machine needs as they were before the edge. */
    method Sample() returns (tag: nat, s: nat, off: nat, pending: nat)
      requires Valid()
      ensures tag == TagOf(view.rWord) && s == SetOf(view.rWord) && off == OffOf(view.rWord)
      ensures pending == |view.queue|
    {
      tag, s, off, pending := rTag, rSet, rOff, wbCnt;
    }

    method Advance(i: In, w: Wires)
      requires Valid() && InOk(i) && w == WiresOf(view, i)
      requires w.pop ==> wbCnt > 0
      modifies this, tagMem, dat, wb
      ensures Valid() && view == Step(old(view), i)
    {
      hide Step, WiresOf, TagsTied, DataTied, TagOf, SetOf, OffOf, SaOf;
      hide LookupTied, RingTied, FsmTied, FlopsTied, Shape;
      var tag, s, off, pending := Sample();
      ClockMemories(i, w);
      ClockFlops(i, w, tag, s, off, pending);
      view := Step(view, i);
    }

    /** One rising edge: the outputs of the clock that ends, and the registers
        and RAMs `Cache.Step` says follow. A drain with nothing to drain does
        not arise; see `CacheMemory.Inv`. */
    method Tick(i: In) returns (o: Out)
      requires Valid() && InOk(i)
      requires state == Drain ==> wbCnt > 0
      modifies this, tagMem, dat, wb
      ensures Valid() && view == Step(old(view), i)
      ensures o == Outputs(old(view), i)
    {
      hide HitVector, HitAny, HitWay, HitData, Hazard, ArrayPort, Victim, Step, TagsTied, DataTied, Outputs;
      hide LookupTied, RingTied, FlopsTied, Shape, TagOf, SetOf, OffOf, SaOf;
      var w := Settle(i);
      o := Present(i, w);
      Advance(i, w);
    }
  }
}
