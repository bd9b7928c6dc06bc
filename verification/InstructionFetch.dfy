/** modules/execUnit.sv, S_FETCH_OP to S_IMM: an instruction is read whole when
    decode_len says it is in the queue, and byte by byte otherwise. */
module InstructionFetch {
  import opened Machine
  import opened Decode
  import opened DecodeLen

  const IP: nat := 0x1_0000

  /** `Ea` and `Prep` have the instruction in hand; `IntPrep` took an interrupt. */
  datatype State = FetchOp | ModrmByte | Disp | Imm | Ea | Prep | IntPrep

  datatype Regs = Regs(
    state: State, op: Byte, modrm: Byte, disp: Word, imm: Word, imm2: Word,
    immIdx: nat, second: bool,
    ipNext: nat, startIp: nat,
    prefixSeen: bool, segEn: bool, seg: nat, repEn: bool, repZ: bool)

  /** The queue, and what may keep the sequencer from committing to it. */
  datatype In = In(peek: seq<Byte>, count: nat, blockOnce: bool, hwInt: bool)

  predicate InOk(i: In) { |i.peek| == QUEUE && i.count <= QUEUE }

  /** fast_here: the whole instruction is there and nothing else has a claim. */
  predicate FastHere(r: Regs, i: In)
    requires InOk(i)
  {
    Look(i.peek, i.count).valid && !r.prefixSeen && !i.blockOnce && !i.hwInt
  }

  predicate FastTake(r: Regs, i: In)
    requires InOk(i)
  {
    r.state == FetchOp && FastHere(r, i)
  }

  function Decoded(r: Regs): Control { ControlWord(r.op, r.modrm) }

  predicate RmMem(r: Regs) { Decoded(r).hasModrm && RmIsMem(r.modrm) }

  /** imm_take2: a two-byte immediate with both bytes in the queue. */
  predicate TakesTwo(r: Regs, i: In) {
    r.state == Imm && r.immIdx == 0 && Decoded(r).immBytes == 2 && i.count >= 2
  }

  function ImmLast(n: nat): nat { if n == 4 then 3 else if n == 3 then 2 else if n == 2 then 1 else 0 }

  /** fetch_pop_n. */
  function Pops(r: Regs, i: In): nat
    requires InOk(i)
  {
    if FastTake(r, i) then Look(i.peek, i.count).fields.len
    else if TakesTwo(r, i) then 2
    else if i.count == 0 then 0
    else match r.state
      case FetchOp => 1
      case ModrmByte => if Decoded(r).hasModrm then 1 else 0
      case Disp => if DispBytes(r.modrm) != 0 then 1 else 0
      case Imm => 1
      case _ => 0
  }

  function Bump(ip: nat, n: nat): (next: nat)
    ensures next < IP
  {
    (ip + n) % IP
  }

  /** START_INSTR: every field at once. */
  function Start(r: Regs, o: Sight): Regs {
    var f := o.fields;
    Regs(if o.rmIsMem then Ea else Prep, f.op, f.modrm, f.disp, f.imm, f.imm2, 0, false,
         Bump(r.ipNext, f.len), r.ipNext, false,
         f.segEn, f.seg, f.repEn, f.repZ)
  }

  /** What S_FETCH_OP clears in every clock it is in. */
  function Clear(r: Regs): Regs {
    var c := r.(disp := ZERO, imm := ZERO, second := false, immIdx := 0);
    if r.prefixSeen then c else c.(segEn := false, repEn := false, startIp := r.ipNext)
  }

  function TakePrefix(c: Regs, b: Byte): Regs {
    var n := c.(ipNext := Bump(c.ipNext, 1), prefixSeen := true);
    if IsSeg(b) then n.(segEn := true, seg := SegCode(b))
    else if IsRep(b) then n.(repEn := true, repZ := b == 0xF3)
    else n
  }

  function TakeOp(c: Regs, b: Byte): Regs { c.(op := b, ipNext := Bump(c.ipNext, 1)) }

  function StepFetchOp(r: Regs, i: In): Regs
    requires InOk(i)
  {
    var c := Clear(r);
    var b := i.peek[0];
    var o := Look(i.peek, i.count);
    if FastHere(r, i) then Start(r, o)
    else if i.count > 0 && IsPrefix(b) then TakePrefix(c, b)
    else if i.blockOnce || r.prefixSeen then
      if i.count > 0 then TakeOp(c, b).(state := ModrmByte) else c
    else if i.hwInt then c.(state := IntPrep)
    else if i.count > 0 then
      if o.hasModrm then TakeOp(c, b).(state := ModrmByte)
      else TakeOp(c, b).(prefixSeen := false, state := if o.immBytes != 0 then Imm else Prep)
    else c
  }

  function StepModrm(r: Regs, i: In): Regs
    requires InOk(i)
  {
    var c := r.(prefixSeen := false);
    if !Decoded(r).hasModrm then c.(state := if Decoded(r).immBytes != 0 then Imm else Prep)
    else if i.count > 0 then c.(modrm := i.peek[0], ipNext := Bump(r.ipNext, 1), state := Disp)
    else c
  }

  function AfterDisp(r: Regs): State {
    if Decoded(r).immBytes != 0 then Imm else if RmMem(r) then Ea else Prep
  }

  function StepDisp(r: Regs, i: In): Regs
    requires InOk(i)
  {
    var b := i.peek[0];
    var n := r.(ipNext := Bump(r.ipNext, 1));
    if DispBytes(r.modrm) == 0 then r.(state := AfterDisp(r))
    else if i.count == 0 then r
    else if r.second then n.(disp := Word(r.disp.lo, b), second := false, state := AfterDisp(r))
    else if DispBytes(r.modrm) == 1 then n.(disp := Word(b, SignFill(b)), state := AfterDisp(r))
    else n.(disp := Word(b, 0), second := true)
  }

  /** The immediate registers with the next byte in place. */
  function NextImm(r: Regs, b: Byte): Word {
    if r.immIdx == 0 then Word(b, if Decoded(r).immSext then SignFill(b) else 0)
    else if r.immIdx == 1 then Word(r.imm.lo, b)
    else r.imm
  }

  function NextImm2(r: Regs, b: Byte): Word {
    if r.immIdx == 2 then Word(b, r.imm2.hi)
    else if r.immIdx == 3 then Word(r.imm2.lo, b)
    else r.imm2
  }

  function StepImm(r: Regs, i: In): Regs
    requires InOk(i)
  {
    var b := i.peek[0];
    var done := if RmMem(r) then Ea else Prep;
    if TakesTwo(r, i) then
      r.(imm := Word(b, i.peek[1]), ipNext := Bump(r.ipNext, 2), immIdx := 0, state := done)
    else if i.count == 0 then r
    else
      var last := r.immIdx == ImmLast(Decoded(r).immBytes);
      r.(imm := NextImm(r, b), imm2 := NextImm2(r, b), ipNext := Bump(r.ipNext, 1),
         immIdx := if last then 0 else r.immIdx + 1, state := if last then done else Imm)
  }

  function Step(r: Regs, i: In): Regs
    requires InOk(i)
  {
    match r.state
    case FetchOp => StepFetchOp(r, i)
    case ModrmByte => StepModrm(r, i)
    case Disp => StepDisp(r, i)
    case Imm => StepImm(r, i)
    case _ => r
  }

  // ---- correctness ---------------------------------------------------------

  function FieldsOf(r: Regs, len: nat): Fields {
    Fields(r.op, r.modrm, r.disp, r.imm, r.imm2, r.segEn, r.seg, r.repEn, r.repZ, len)
  }

  /** The prefixes scanned so far. */
  ghost predicate PrefixesHeld(r: Regs, s: Stream, n: nat) {
    && (if SegOf(s, n).Some? then r.segEn && r.seg == SegOf(s, n).value else !r.segEn)
    && (if RepOf(s, n).Some? then r.repEn && r.repZ == RepOf(s, n).value else !r.repEn)
  }

  /** `pos` bytes of the instruction that is the head of `s` have been consumed,
      and are where the state says they are. */
  ghost predicate Reading(r: Regs, s: Stream, p: nat, pos: nat) {
    && Prefixed(s, p)
    && r.startIp < IP && r.ipNext < IP
    && match r.state
       case FetchOp =>
         if r.prefixSeen then 0 < pos <= p && PrefixesHeld(r, s, pos) && r.ipNext == Bump(r.startIp, pos)
         else pos == 0
       case ModrmByte =>
         pos == p + 1 && r.op == s(p) && PrefixesHeld(r, s, p) && r.ipNext == Bump(r.startIp, pos)
         && r.disp == ZERO && r.imm == ZERO && !r.second && r.immIdx == 0
       case Disp =>
         r.op == s(p) && r.modrm == s(p + 1) && ControlOf(s, p).hasModrm && PrefixesHeld(r, s, p)
         && r.ipNext == Bump(r.startIp, pos) && r.imm == ZERO && r.immIdx == 0
         && pos == p + 2 + (if r.second then 1 else 0)
         && (if r.second then DispLen(s, p) == 2 && r.disp == Word(s(p + 2), 0) else r.disp == ZERO)
       case Imm =>
         r.op == s(p) && Decoded(r) == ControlOf(s, p) && (Decoded(r).hasModrm ==> r.modrm == s(p + 1))
         && PrefixesHeld(r, s, p) && r.ipNext == Bump(r.startIp, pos)
         && r.disp == DispOf(s, p) && ImmHeld(r, s, p, pos)
       case IntPrep => true
       case _ =>
         Describes(FieldsOf(r, pos), s, p) && r.ipNext == Bump(r.startIp, pos)
         && (ControlOf(s, p).hasModrm ==> (r.state == Ea <==> RmIsMem(s(p + 1))))
  }

  ghost predicate ImmHeld(r: Regs, s: Stream, p: nat, pos: nat) {
    var at := ImmAt(s, p);
    && r.immIdx < ControlOf(s, p).immBytes
    && pos == at + r.immIdx
    && ImmPart(r.imm, r.imm2, r.immIdx, s, at)
  }

  /** `n` of the immediate's bytes have landed. */
  ghost predicate ImmPart(imm: Word, imm2: Word, n: nat, s: Stream, at: nat) {
    && (n == 0 ==> imm == ZERO)
    && (n == 1 ==> imm.lo == s(at))
    && (n >= 2 ==> imm == Word(s(at), s(at + 1)))
    && (n >= 3 ==> imm2.lo == s(at + 2))
  }

  lemma BumpTwice(ip: nat, m: nat, n: nat)
    ensures Bump(Bump(ip, m), n) == Bump(ip, m + n)
  {
  }

  /** The whole instruction in one clock. */
  lemma FastStep(r: Regs, i: In, s: Stream, p: nat)
    requires InOk(i) && FastTake(r, i) && Shows(i.peek, i.count, s, 0)
    requires Reading(r, s, p, 0) && p <= MAX_PREFIXES && EnterOfNothing(s, p)
    ensures Reading(Step(r, i), s, p, Pops(r, i))
  {
    hide ControlWord, PrefixesHeld, Bump, TakesTwo;
    CapturesExactly(i.peek, i.count, s, p);
    LayoutAgrees(i.peek, i.count, s, p);
    FastFields(r, i, s, p);
  }

  lemma FastFields(r: Regs, i: In, s: Stream, p: nat)
    requires InOk(i) && FastTake(r, i)
    ensures var o := Look(i.peek, i.count);
      && Step(r, i) == Start(r, o) && Pops(r, i) == o.fields.len
      && FieldsOf(Step(r, i), o.fields.len) == o.fields
  {
    hide Look, ControlWord;
  }

  lemma PrefixStep(r: Regs, i: In, s: Stream, p: nat, pos: nat)
    requires InOk(i) && r.state == FetchOp && !FastHere(r, i) && i.count > 0 && IsPrefix(i.peek[0])
    requires Shows(i.peek, i.count, s, pos) && Reading(r, s, p, pos)
    ensures Reading(Step(r, i), s, p, pos + Pops(r, i))
  {
    hide FastHere, Look, ControlWord, ControlOf, Bump;
    assert IsPrefix(s(pos));
    BumpTwice(r.startIp, pos, 1);
  }

  /** Nothing usable in the queue, or an interrupt instead. */
  lemma IdleStep(r: Regs, i: In, s: Stream, p: nat, pos: nat)
    requires InOk(i) && r.state == FetchOp && !FastHere(r, i)
    requires i.count == 0 || (!IsPrefix(i.peek[0]) && !i.blockOnce && !r.prefixSeen && i.hwInt)
    requires Reading(r, s, p, pos)
    ensures Reading(Step(r, i), s, p, pos + Pops(r, i))
  {
    hide FastHere, ControlWord, Bump, Look, SegOf, RepOf, ControlOf;
  }

  /** After a prefix, or right after a segment load, through S_MODRM always. */
  lemma OpcodeStep(r: Regs, i: In, s: Stream, p: nat, pos: nat)
    requires InOk(i) && r.state == FetchOp && !FastHere(r, i) && i.count > 0 && !IsPrefix(i.peek[0])
    requires i.blockOnce || r.prefixSeen
    requires Shows(i.peek, i.count, s, pos) && Reading(r, s, p, pos)
    ensures Reading(Step(r, i), s, p, pos + Pops(r, i))
  {
    hide FastHere, ControlWord, Bump, Look, ControlOf;
    assert pos == p;
    BumpTwice(r.startIp, pos, 1);
  }

  /** Otherwise the queue already tells whether a ModR/M byte follows. */
  lemma PlainOpcodeStep(r: Regs, i: In, s: Stream, p: nat)
    requires InOk(i) && r.state == FetchOp && !FastHere(r, i) && i.count > 0 && !IsPrefix(i.peek[0])
    requires !i.blockOnce && !r.prefixSeen && !i.hwInt
    requires Shows(i.peek, i.count, s, 0) && Reading(r, s, p, 0)
    ensures Reading(Step(r, i), s, p, Pops(r, i))
  {
    hide FastHere, ControlWord, Bump, Look, SignFill, DispBytes, RmIsMem;
    assert p == 0;
    HeadShape(i);
    ShapeFollows(s(p), r.modrm, s(p + 1));
    ShapeFollows(s(p), i.peek[1], s(p + 1));
  }

  lemma HeadShape(i: In)
    requires InOk(i) && !IsPrefix(i.peek[0])
    ensures var o := Look(i.peek, i.count); var c := ControlWord(i.peek[0], i.peek[1]);
      o.hasModrm == c.hasModrm && o.immBytes == c.immBytes
  {
    hide ControlWord;
  }

  lemma ModrmStep(r: Regs, i: In, s: Stream, p: nat, pos: nat)
    requires InOk(i) && r.state == ModrmByte && Shows(i.peek, i.count, s, pos) && Reading(r, s, p, pos)
    ensures Reading(Step(r, i), s, p, pos + Pops(r, i))
  {
    hide ControlWord, Bump, Look, SegOf, RepOf, SignFill, DispBytes, RmIsMem;
    BumpTwice(r.startIp, pos, 1);
    ShapeFollows(s(p), r.modrm, s(p + 1));
  }

  /** The displacement is in hand: on to the immediate, or done. */
  lemma AfterDispReads(r: Regs, s: Stream, p: nat)
    requires Prefixed(s, p) && r.startIp < IP && r.ipNext == Bump(r.startIp, ImmAt(s, p))
    requires r.op == s(p) && r.modrm == s(p + 1) && ControlOf(s, p).hasModrm && PrefixesHeld(r, s, p)
    requires r.disp == DispOf(s, p) && r.imm == ZERO && r.immIdx == 0 && r.state == AfterDisp(r)
    ensures Reading(r, s, p, ImmAt(s, p))
  {
    hide ControlWord, Bump, SegOf, RepOf, SignFill, DispBytes, RmIsMem, DispOf, DispAt, DispLen, ImmAt;
    ShapeFollows(s(p), r.modrm, s(p + 1));
  }

  lemma OnlyDispPops(r: Regs, i: In)
    requires InOk(i) && r.state == Disp
    ensures Pops(r, i) == if i.count > 0 && DispBytes(r.modrm) != 0 then 1 else 0
  {
  }

  lemma DispStep(r: Regs, i: In, s: Stream, p: nat, pos: nat)
    requires InOk(i) && r.state == Disp && Shows(i.peek, i.count, s, pos) && Reading(r, s, p, pos)
    ensures Reading(Step(r, i), s, p, pos + Pops(r, i))
  {
    hide ControlWord, Bump, Look, SegOf, RepOf, SignFill, DispBytes, RmIsMem, ImmOfStream, Describes, ImmHeld;
    hide FastTake, TakesTwo, LenOf;
    BumpTwice(r.startIp, pos, 1);
    OnlyDispPops(r, i);
    if Step(r, i).state != Disp { AfterDispReads(Step(r, i), s, p); }
  }

  lemma ImmTwoStep(r: Regs, i: In, s: Stream, p: nat, pos: nat)
    requires InOk(i) && TakesTwo(r, i) && Shows(i.peek, i.count, s, pos) && Reading(r, s, p, pos)
    ensures Reading(Step(r, i), s, p, pos + Pops(r, i))
  {
    hide ControlWord, Bump, Look, SegOf, RepOf, SignFill, DispBytes, RmIsMem, ImmAt, DispOf;
    BumpTwice(r.startIp, pos, 2);
    ShapeFollows(s(p), r.modrm, s(p + 1));
  }

  /** The immediate registers hold the whole immediate. */
  ghost predicate ImmDone(imm: Word, imm2: Word, s: Stream, p: nat) {
    var c := ControlOf(s, p);
    var at := ImmAt(s, p);
    && imm == ImmOfStream(s, p)
    && (c.immBytes == 4 ==> imm2 == Word(s(at + 2), s(at + 3)))
    && (c.immBytes == 3 ==> imm2.lo == s(at + 2))
  }

  lemma ImmByteLands(r: Regs, s: Stream, p: nat, pos: nat)
    requires Decoded(r) == ControlOf(s, p) && ImmHeld(r, s, p, pos)
    ensures if r.immIdx == ImmLast(Decoded(r).immBytes)
      then ImmDone(NextImm(r, s(pos)), NextImm2(r, s(pos)), s, p) && pos + 1 == LenOf(s, p)
      else r.immIdx + 1 < ControlOf(s, p).immBytes
           && ImmPart(NextImm(r, s(pos)), NextImm2(r, s(pos)), r.immIdx + 1, s, ImmAt(s, p))
  {
    hide ControlOf, Decoded, SignFill, ImmAt;
    ShapeOf(s, p);
  }

  lemma ShapeOf(s: Stream, p: nat)
    ensures ControlOf(s, p).immBytes <= 4
    ensures ControlOf(s, p).immSext ==> ControlOf(s, p).immBytes == 1
  {
    hide ControlWord;
    ShapeFollows(s(p), s(p + 1), s(p + 1));
  }

  lemma ImmByteStep(r: Regs, i: In, s: Stream, p: nat, pos: nat)
    requires InOk(i) && r.state == Imm && !TakesTwo(r, i)
    requires Shows(i.peek, i.count, s, pos) && Reading(r, s, p, pos)
    ensures Reading(Step(r, i), s, p, pos + Pops(r, i))
  {
    hide ControlWord, Bump, SegOf, RepOf, RmIsMem, ImmAt, DispOf, ImmPart, ImmOfStream, LenOf, ImmLast;
    hide NextImm, NextImm2, Look, PrefixCount;
    BumpTwice(r.startIp, pos, 1);
    ImmByteLands(r, s, p, pos);
  }

  /** Every clock, by either road. */
  lemma ReadingStep(r: Regs, i: In, s: Stream, p: nat, pos: nat)
    requires InOk(i) && Shows(i.peek, i.count, s, pos) && Reading(r, s, p, pos)
    requires FastTake(r, i) ==> p <= MAX_PREFIXES && EnterOfNothing(s, p)
    ensures Reading(Step(r, i), s, p, pos + Pops(r, i))
  {
    hide FastHere, Look, StepFetchOp, StepModrm, StepDisp, StepImm, Pops, IsPrefix;
    hide Prefixed, Describes, PrefixesHeld, ImmHeld;
    match r.state {
      case FetchOp =>
        if FastHere(r, i) { NotYet(r, i, s, p, pos); FastStep(r, i, s, p); }
        else if i.count > 0 && IsPrefix(i.peek[0]) { PrefixStep(r, i, s, p, pos); }
        else { HeadStep(r, i, s, p, pos); }
      case ModrmByte => ModrmStep(r, i, s, p, pos);
      case Disp => DispStep(r, i, s, p, pos);
      case Imm => if TakesTwo(r, i) { ImmTwoStep(r, i, s, p, pos); } else { ImmByteStep(r, i, s, p, pos); }
      case _ => StaysDone(r, i);
    }
  }

  lemma HeadStep(r: Regs, i: In, s: Stream, p: nat, pos: nat)
    requires InOk(i) && r.state == FetchOp && !FastHere(r, i) && !(i.count > 0 && IsPrefix(i.peek[0]))
    requires Shows(i.peek, i.count, s, pos) && Reading(r, s, p, pos)
    ensures Reading(Step(r, i), s, p, pos + Pops(r, i))
  {
    hide FastHere, Look, Step, Pops, IsPrefix, Prefixed, PrefixesHeld, Bump;
    if i.count > 0 && (i.blockOnce || r.prefixSeen) {
      OpcodeStep(r, i, s, p, pos);
    } else if i.count > 0 && !i.hwInt {
      PlainOpcodeStep(r, i, s, p);
    } else {
      IdleStep(r, i, s, p, pos);
    }
  }

  lemma NotYet(r: Regs, i: In, s: Stream, p: nat, pos: nat)
    requires InOk(i) && FastTake(r, i) && Reading(r, s, p, pos)
    ensures pos == 0
  {
  }

  lemma StaysDone(r: Regs, i: In)
    requires InOk(i) && r.state in {Ea, Prep, IntPrep}
    ensures Step(r, i) == r && Pops(r, i) == 0
  {
  }

  // ---- whole instructions --------------------------------------------------

  /** An instruction boundary at the head of `s`, then any schedule of arriving
      bytes, segment-load shadows and interrupt requests. `pos` counts bytes. */
  ghost predicate IsRun(states: seq<Regs>, ins: seq<In>, pos: seq<nat>, s: Stream, p: nat) {
    && |states| == |pos| == |ins| + 1
    && Prefixed(s, p)
    && states[0].state == FetchOp && !states[0].prefixSeen && pos[0] == 0
    && states[0].startIp < IP && states[0].ipNext < IP
    && (forall k :: 0 <= k < |ins| ==>
          && InOk(ins[k]) && Shows(ins[k].peek, ins[k].count, s, pos[k])
          && states[k + 1] == Step(states[k], ins[k])
          && pos[k + 1] == pos[k] + Pops(states[k], ins[k]))
  }

  /** The whole-instruction road was taken at some clock. */
  ghost predicate WentFast(states: seq<Regs>, ins: seq<In>)
    requires |states| == |ins| + 1 && forall k :: 0 <= k < |ins| ==> InOk(ins[k])
  {
    exists k :: 0 <= k < |ins| && FastTake(states[k], ins[k])
  }

  lemma {:induction false} RunReads(states: seq<Regs>, ins: seq<In>, pos: seq<nat>, s: Stream, p: nat, k: nat)
    requires IsRun(states, ins, pos, s, p) && k < |states|
    requires WentFast(states, ins) ==> p <= MAX_PREFIXES && EnterOfNothing(s, p)
    ensures Reading(states[k], s, p, pos[k])
  {
    hide Step, Pops, Reading, FastTake, Shows, Prefixed;
    if k == 0 {
      StartReads(states[0], s, p);
    } else {
      RunReads(states, ins, pos, s, p, k - 1);
      ReadingStep(states[k - 1], ins[k - 1], s, p, pos[k - 1]);
    }
  }

  lemma StartReads(r: Regs, s: Stream, p: nat)
    requires r.state == FetchOp && !r.prefixSeen && r.startIp < IP && r.ipNext < IP && Prefixed(s, p)
    ensures Reading(r, s, p, 0)
  {
  }

  predicate Captured(r: Regs) { r.state == Ea || r.state == Prep }

  /** ONE INSTRUCTION, WHICHEVER WAY. However its bytes arrive, what is captured
      is the instruction at the head of the stream, with the next IP just past
      it; the short cut needs at most three prefixes and no ENTER operand. */
  lemma CapturesTheInstruction(states: seq<Regs>, ins: seq<In>, pos: seq<nat>, s: Stream, p: nat, k: nat)
    requires IsRun(states, ins, pos, s, p) && k < |states| && Captured(states[k])
    requires WentFast(states, ins) ==> p <= MAX_PREFIXES && EnterOfNothing(s, p)
    ensures Describes(FieldsOf(states[k], pos[k]), s, p)
    ensures states[k].ipNext == Bump(states[k].startIp, LenOf(s, p))
  {
    hide Step, Pops, FastTake, Shows, Prefixed;
    RunReads(states, ins, pos, s, p, k);
  }

  /** Which instruction this is, wherever its capture has got to. */
  predicate StartedAt(r: Regs, ip: nat) {
    if r.state == FetchOp && !r.prefixSeen then r.ipNext == ip
    else r.startIp == ip && (r.state == IntPrep ==> r.ipNext == ip && !r.prefixSeen)
  }

  lemma ModrmKeepsStart(r: Regs, i: In)
    requires InOk(i) && r.state == ModrmByte
    ensures var n := StepModrm(r, i); n.startIp == r.startIp && n.state !in {FetchOp, IntPrep}
  {
    hide Look, Decoded, Bump, SignFill, NextImm, NextImm2, ImmLast, RmMem, TakesTwo, DispBytes;
  }

  lemma DispKeepsStart(r: Regs, i: In)
    requires InOk(i) && r.state == Disp
    ensures var n := StepDisp(r, i); n.startIp == r.startIp && n.state !in {FetchOp, IntPrep}
  {
    hide Look, Decoded, Bump, SignFill, NextImm, NextImm2, ImmLast, RmMem, TakesTwo, DispBytes;
  }

  lemma ImmKeepsStart(r: Regs, i: In)
    requires InOk(i) && r.state == Imm
    ensures var n := StepImm(r, i); n.startIp == r.startIp && n.state !in {FetchOp, IntPrep}
  {
    hide ControlWord, NextImm, NextImm2, ImmLast, RmIsMem;
    if !TakesTwo(r, i) && i.count > 0 {
      var last := r.immIdx == ImmLast(Decoded(r).immBytes);
    }
  }

  lemma StartedAtStep(r: Regs, i: In, ip: nat)
    requires InOk(i) && StartedAt(r, ip)
    ensures StartedAt(Step(r, i), ip)
  {
    hide StepFetchOp, StepModrm, StepDisp, StepImm;
    match r.state {
      case FetchOp => StartedAtHead(r, i, ip);
      case ModrmByte => ModrmKeepsStart(r, i);
      case Disp => DispKeepsStart(r, i);
      case Imm => ImmKeepsStart(r, i);
      case _ =>
    }
  }

  lemma StartedAtHead(r: Regs, i: In, ip: nat)
    requires InOk(i) && StartedAt(r, ip) && r.state == FetchOp
    ensures StartedAt(StepFetchOp(r, i), ip)
  {
    hide Look, Bump, IsPrefix, IsSeg, IsRep;
  }

  lemma {:induction false} RunStartedAt(states: seq<Regs>, ins: seq<In>, pos: seq<nat>, s: Stream, p: nat, k: nat)
    requires IsRun(states, ins, pos, s, p) && k < |states|
    ensures StartedAt(states[k], states[0].ipNext)
  {
    hide Step, Pops, Shows, Prefixed, StartedAt;
    if k == 0 {
      assert StartedAt(states[0], states[0].ipNext) by { StartsAtItsStart(states[0]); }
    } else {
      RunStartedAt(states, ins, pos, s, p, k - 1);
      StartedAtStep(states[k - 1], ins[k - 1], states[0].ipNext);
    }
  }

  lemma StartsAtItsStart(r: Regs)
    requires r.state == FetchOp && !r.prefixSeen
    ensures StartedAt(r, r.ipNext)
  {
  }

  /** INTERRUPTS COME BETWEEN INSTRUCTIONS: one taken at a boundary returns to that
      boundary, never behind a prefix; and what is captured starts there too. */
  lemma InterruptsBetween(states: seq<Regs>, ins: seq<In>, pos: seq<nat>, s: Stream, p: nat, k: nat)
    requires IsRun(states, ins, pos, s, p) && k < |states|
    ensures states[k].state == IntPrep ==> states[k].ipNext == states[0].ipNext && !states[k].prefixSeen
    ensures Captured(states[k]) ==> states[k].startIp == states[0].ipNext
  {
    hide Step, Pops, Shows, Prefixed;
    RunStartedAt(states, ins, pos, s, p, k);
  }

  /** block_int_once, set by a segment load: the first clock of S_FETCH_OP that gets
      past the prefixes clears it, opcode or no opcode. */
  function StepShadow(r: Regs, i: In): bool {
    i.blockOnce && (r.state != FetchOp || (i.count > 0 && i.peek != [] && IsPrefix(i.peek[0])))
  }

  ghost predicate Shadowed(states: seq<Regs>, ins: seq<In>)
    requires |states| >= |ins|
  {
    && |ins| > 0 && ins[0].blockOnce
    && forall k :: 0 <= k < |ins| - 1 ==> ins[k + 1].blockOnce == StepShadow(states[k], ins[k])
  }

  lemma {:induction false} NoInterruptBehindAByte(states: seq<Regs>, ins: seq<In>, pos: seq<nat>, s: Stream, p: nat,
                                                  k: nat)
    requires IsRun(states, ins, pos, s, p) && Shadowed(states, ins) && ins[0].count > 0 && 0 < k < |states|
    ensures states[k].state != IntPrep && (states[k].state == FetchOp ==> states[k].prefixSeen)
  {
    hide Look, Decoded, Bump, SignFill, IsPrefix, NextImm, NextImm2, ImmLast, RmMem, TakesTwo, DispBytes, Shows;
    hide Prefixed, Pops;
    if k > 1 { NoInterruptBehindAByte(states, ins, pos, s, p, k - 1); }
    var r, i := states[k - 1], ins[k - 1];
    if r.state == FetchOp { StaysBehind(r, i); }
  }

  lemma StaysBehind(r: Regs, i: In)
    requires InOk(i) && r.state == FetchOp && (r.prefixSeen || (i.blockOnce && i.count > 0))
    ensures var n := StepFetchOp(r, i); n.state != IntPrep && (n.state == FetchOp ==> n.prefixSeen)
  {
    hide Look, Bump, IsPrefix, IsSeg, IsRep, Start;
    assert !FastHere(r, i);
    if !(i.count > 0 && IsPrefix(i.peek[0])) {
      var c := Clear(r);
    }
  }

  /** THE SEGMENT LOAD'S SHADOW covers the instruction behind it exactly if a byte of it
      is in the queue when the capture begins. With the queue empty in that one clock
      an interrupt request standing in the next is taken between the two. */
  lemma ShadowHoldsExactly(states: seq<Regs>, ins: seq<In>, pos: seq<nat>, s: Stream, p: nat)
    requires IsRun(states, ins, pos, s, p) && Shadowed(states, ins) && |ins| >= 2
    ensures ins[0].count > 0 ==> forall k :: 0 <= k < |states| ==> states[k].state != IntPrep
    ensures ins[0].count == 0 && ins[1].count == 0 ==> (states[2].state == IntPrep <==> ins[1].hwInt)
  {
    hide Look, Bump, IsPrefix, Shows, Prefixed, Pops;
    if ins[0].count > 0 {
      forall k | 0 < k < |states|
        ensures states[k].state != IntPrep
      {
        NoInterruptBehindAByte(states, ins, pos, s, p, k);
      }
    } else if ins[1].count == 0 {
      assert ins[1].blockOnce == StepShadow(states[0], ins[0]);
      EmptyHead(states[0], ins[0]);
      EmptyHead(states[1], ins[1]);
    }
  }

  lemma EmptyHead(r: Regs, i: In)
    requires InOk(i) && r.state == FetchOp && !r.prefixSeen && i.count == 0
    ensures var n := Step(r, i);
      !n.prefixSeen && n.state == if !i.blockOnce && i.hwInt then IntPrep else FetchOp
  {
    hide ControlWord, Bump, ScanSeg, ScanRep, TakeDisp, TakeImm;
  }

  /** The clocks in which the queue was empty. */
  ghost function Dry(ins: seq<In>, k: nat): (clocks: nat)
    requires k <= |ins|
    ensures clocks <= k
  {
    if k == 0 then 0 else Dry(ins, k - 1) + if ins[k - 1].count == 0 then 1 else 0
  }

  /** Only one clock of any instruction can go by without a byte: the one that finds
      no ModR/M byte, or no displacement, to wait for. */
  function Slack(r: Regs): nat { if r.state in {FetchOp, ModrmByte, Disp} then 0 else 1 }

  lemma ClockPops(r: Regs, i: In)
    requires InOk(i) && r.state in {FetchOp, ModrmByte, Disp, Imm}
    ensures var n := Step(r, i);
      n.state != IntPrep ==>
        1 + Slack(r) <= Pops(r, i) + Slack(n) + (if i.count == 0 then 1 else 0)
  {
    hide Look, ControlWord, Bump, SignFill, IsPrefix, NextImm, NextImm2, ImmLast, Clear, TakePrefix;
    HeadHasLength(i);
  }

  lemma HeadHasLength(i: In)
    requires InOk(i)
    ensures Look(i.peek, i.count).fields.len > 0
  {
    hide ControlWord, TakeDisp, TakeImm, ScanSeg, ScanRep;
  }

  lemma {:induction false} PopsKeepUp(states: seq<Regs>, ins: seq<In>, pos: seq<nat>, s: Stream, p: nat, k: nat)
    requires IsRun(states, ins, pos, s, p) && k < |states|
    requires forall j :: 0 <= j <= k ==> states[j].state != IntPrep
    requires forall j :: 0 <= j < k ==> !Captured(states[j])
    ensures k <= pos[k] + Slack(states[k]) + Dry(ins, k)
  {
    hide Step, Pops, Reading, FastTake, Shows, Prefixed, Slack;
    if k == 0 {
    } else {
      PopsKeepUp(states, ins, pos, s, p, k - 1);
      assert !Captured(states[k - 1]);
      ClockPops(states[k - 1], ins[k - 1]);
    }
  }

  lemma NotPastTheEnd(r: Regs, s: Stream, p: nat, pos: nat)
    requires Reading(r, s, p, pos) && !Captured(r) && r.state != IntPrep
    ensures pos <= LenOf(s, p)
  {
    hide ControlWord, Prefixed, Describes, PrefixesHeld, Bump, DispOf, ImmPart;
  }

  /** EVERY INSTRUCTION IS TAKEN IN, a byte a clock at least: with no interrupt, it
      is in hand after its own length in clocks and one more, besides those in which
      the queue was empty. */
  lemma InstructionsArrive(states: seq<Regs>, ins: seq<In>, pos: seq<nat>, s: Stream, p: nat, k: nat)
    requires IsRun(states, ins, pos, s, p) && k < |states| && k > LenOf(s, p) + 1 + Dry(ins, k)
    requires WentFast(states, ins) ==> p <= MAX_PREFIXES && EnterOfNothing(s, p)
    requires forall j :: 0 <= j <= k ==> states[j].state != IntPrep
    ensures exists j :: 0 <= j < k && Captured(states[j]) && Describes(FieldsOf(states[j], pos[j]), s, p)
  {
    hide Step, Pops, FastTake, Shows, Prefixed, Reading, Describes, LenOf, WentFast;
    if j :| 0 <= j < k && Captured(states[j]) {
      CapturesTheInstruction(states, ins, pos, s, p, j);
    } else {
      PopsKeepUp(states, ins, pos, s, p, k);
      RunReads(states, ins, pos, s, p, k);
      if !Captured(states[k]) {
        NotPastTheEnd(states[k], s, p, pos[k]);
      } else {
        CapturesTheInstruction(states, ins, pos, s, p, k);
        LengthIsPos(states[k], pos[k], s, p);
      }
      assert false;
    }
  }

  lemma LengthIsPos(r: Regs, pos: nat, s: Stream, p: nat)
    requires Describes(FieldsOf(r, pos), s, p)
    ensures pos == LenOf(s, p)
  {
  }

  /** ... so the short cut and the long way round agree. */
  lemma FastEqualsSlow(a: seq<Regs>, ia: seq<In>, pa: seq<nat>, b: seq<Regs>, ib: seq<In>, pb: seq<nat>,
                       s: Stream, p: nat, j: nat, k: nat)
    requires IsRun(a, ia, pa, s, p) && j < |a| && Captured(a[j])
    requires IsRun(b, ib, pb, s, p) && k < |b| && Captured(b[k])
    requires p <= MAX_PREFIXES && EnterOfNothing(s, p)
    ensures a[j].op == b[k].op && a[j].disp == b[k].disp && a[j].imm == b[k].imm && pa[j] == pb[k]
    ensures Decoded(a[j]) == Decoded(b[k])
    ensures Decoded(a[j]).hasModrm ==> a[j].modrm == b[k].modrm
    ensures Decoded(a[j]).immBytes == 4 ==> a[j].imm2 == b[k].imm2
    ensures a[j].segEn == b[k].segEn && (a[j].segEn ==> a[j].seg == b[k].seg)
    ensures a[j].repEn == b[k].repEn && (a[j].repEn ==> a[j].repZ == b[k].repZ)
    ensures a[j].startIp == b[k].startIp ==> a[j].ipNext == b[k].ipNext
  {
    hide IsRun, ControlWord, WentFast, SegOf, RepOf, ImmOfStream, DispOf, LenOf, ImmAt;
    CapturesTheInstruction(a, ia, pa, s, p, j);
    CapturesTheInstruction(b, ib, pb, s, p, k);
    ShapeFollows(s(p), a[j].modrm, s(p + 1));
    ShapeFollows(s(p), b[k].modrm, s(p + 1));
  }

  // ---- the sequencer's registers --------------------------------------------

  class Sequencer {
    var state: State
    var op: Byte
    var modrm: Byte
    var disp: Word
    var imm: Word
    var imm2: Word
    var immIdx: nat
    var second: bool
    var ipNext: nat
    var startIp: nat
    var prefixSeen: bool
    var segEn: bool
    var seg: nat
    var repEn: bool
    var repZ: bool

    ghost function View(): Regs
      reads this
    {
      Regs(state, op, modrm, disp, imm, imm2, immIdx, second, ipNext, startIp, prefixSeen, segEn, seg, repEn, repZ)
    }

    constructor (ip: nat)
      ensures View() == Regs(FetchOp, 0, 0, ZERO, ZERO, ZERO, 0, false, ip, 0, false, false, 3, false, false)
    {
      state, op, modrm, disp, imm, imm2 := FetchOp, 0, 0, ZERO, ZERO, ZERO;
      immIdx, second, ipNext, startIp := 0, false, ip, 0;
      prefixSeen, segEn, seg, repEn, repZ := false, false, 3, false, false;
    }

    method Reset()
      modifies `disp, `imm, `second, `immIdx, `segEn, `repEn, `startIp
      ensures View() == Clear(old(View()))
    {
      disp, imm, second, immIdx := ZERO, ZERO, false, 0;
      if !prefixSeen {
        segEn, repEn, startIp := false, false, ipNext;
      }
    }

    method StartBytes(o: Sight)
      modifies `op, `modrm, `disp, `imm, `imm2
      ensures View() == old(View()).(op := o.fields.op, modrm := o.fields.modrm,
        disp := o.fields.disp, imm := o.fields.imm, imm2 := o.fields.imm2)
    {
      op, modrm, disp, imm, imm2 := o.fields.op, o.fields.modrm, o.fields.disp, o.fields.imm, o.fields.imm2;
    }

    method StartPrefixes(o: Sight)
      modifies `segEn, `seg, `repEn, `repZ, `prefixSeen
      ensures View() == old(View()).(segEn := o.fields.segEn, seg := o.fields.seg,
        repEn := o.fields.repEn, repZ := o.fields.repZ, prefixSeen := false)
    {
      segEn, seg, repEn, repZ := o.fields.segEn, o.fields.seg, o.fields.repEn, o.fields.repZ;
      prefixSeen := false;
    }

    method StartWhole(o: Sight)
      modifies this
      ensures View() == Start(old(View()), o)
    {
      hide Bump;
      StartBytes(o);
      StartPrefixes(o);
      immIdx, second := 0, false;
      startIp := ipNext;
      ipNext := Bump(ipNext, o.fields.len);
      state := if o.rmIsMem then Ea else Prep;
    }

    method PrefixByte(b: Byte)
      modifies `ipNext, `prefixSeen, `segEn, `seg, `repEn, `repZ
      ensures View() == TakePrefix(old(View()), b)
    {
      ipNext, prefixSeen := Bump(ipNext, 1), true;
      if IsSeg(b) {
        segEn, seg := true, SegCode(b);
      } else if IsRep(b) {
        repEn, repZ := true, b == 0xF3;
      }
    }

    method OpcodeByte(b: Byte, next: State)
      modifies `op, `ipNext, `state
      ensures View() == TakeOp(old(View()), b).(state := next)
    {
      op, ipNext, state := b, Bump(ipNext, 1), next;
    }

    method TickFetchOp(i: In)
      requires InOk(i)
      modifies this
      ensures View() == StepFetchOp(old(View()), i)
    {
      hide Look, Clear, Start, TakePrefix, Bump, IsPrefix;
      var o := Look(i.peek, i.count);
      var fast := o.valid && !prefixSeen && !i.blockOnce && !i.hwInt;
      if fast {
        StartWhole(o);
      } else {
        Slow(i, o);
      }
    }

    method Slow(i: In, o: Sight)
      requires InOk(i) && o == Look(i.peek, i.count) && !FastHere(View(), i)
      modifies this
      ensures View() == StepFetchOp(old(View()), i)
    {
      hide Look, TakePrefix, Bump, IsPrefix, FastHere, Start;
      Reset();
      var b := i.peek[0];
      if i.count > 0 && IsPrefix(b) {
        PrefixByte(b);
      } else if i.blockOnce || prefixSeen {
        if i.count > 0 { OpcodeByte(b, ModrmByte); }
      } else if i.hwInt {
        state := IntPrep;
      } else if i.count > 0 {
        if o.hasModrm {
          OpcodeByte(b, ModrmByte);
        } else {
          prefixSeen := false;
          OpcodeByte(b, if o.immBytes != 0 then Imm else Prep);
        }
      }
    }

    method TickModrm(i: In)
      requires InOk(i)
      modifies `prefixSeen, `state, `modrm, `ipNext
      ensures View() == StepModrm(old(View()), i)
    {
      hide ControlWord, Bump;
      prefixSeen := false;
      var c := ControlWord(op, modrm);
      if !c.hasModrm {
        state := if c.immBytes != 0 then Imm else Prep;
      } else if i.count > 0 {
        modrm, ipNext, state := i.peek[0], Bump(ipNext, 1), Disp;
      }
    }

    function Next(): State
      reads this
    {
      var c := ControlWord(op, modrm);
      if c.immBytes != 0 then Imm else if c.hasModrm && RmIsMem(modrm) then Ea else Prep
    }

    method TickDisp(i: In)
      requires InOk(i)
      modifies `state, `disp, `second, `ipNext
      ensures View() == StepDisp(old(View()), i)
    {
      hide ControlWord, Bump, DispBytes, SignFill, RmIsMem;
      var n, b, after := DispBytes(modrm), i.peek[0], Next();
      if n == 0 {
        state := after;
      } else if i.count > 0 {
        ipNext := Bump(ipNext, 1);
        if second {
          disp, second, state := Word(disp.lo, b), false, after;
        } else if n == 1 {
          disp, state := Word(b, SignFill(b)), after;
        } else {
          disp, second := Word(b, 0), true;
        }
      }
    }

    method LandImm(b: Byte)
      modifies `imm, `imm2
      ensures imm == NextImm(old(View()), b) && imm2 == NextImm2(old(View()), b)
    {
      hide ControlWord, SignFill;
      if immIdx == 0 {
        imm := Word(b, if ControlWord(op, modrm).immSext then SignFill(b) else 0);
      } else if immIdx == 1 {
        imm := Word(imm.lo, b);
      } else if immIdx == 2 {
        imm2 := Word(b, imm2.hi);
      } else if immIdx == 3 {
        imm2 := Word(imm2.lo, b);
      }
    }

    method AdvanceImm(done: State)
      modifies `immIdx, `state
      ensures var last := old(immIdx) == ImmLast(Decoded(old(View())).immBytes);
        && immIdx == (if last then 0 else old(immIdx) + 1)
        && state == if last then done else old(state)
    {
      hide ControlWord;
      if immIdx == ImmLast(ControlWord(op, modrm).immBytes) {
        immIdx, state := 0, done;
      } else {
        immIdx := immIdx + 1;
      }
    }

    method TickImm(i: In)
      requires InOk(i) && state == Imm
      modifies `state, `imm, `imm2, `immIdx, `ipNext
      ensures View() == StepImm(old(View()), i)
    {
      hide ControlWord, Bump, SignFill, RmIsMem, ImmLast, NextImm, NextImm2;
      var c, b := ControlWord(op, modrm), i.peek[0];
      var done := if c.hasModrm && RmIsMem(modrm) then Ea else Prep;
      if immIdx == 0 && c.immBytes == 2 && i.count >= 2 {
        imm, ipNext, immIdx, state := Word(b, i.peek[1]), Bump(ipNext, 2), 0, done;
      } else if i.count > 0 {
        LandImm(b);
        ipNext := Bump(ipNext, 1);
        AdvanceImm(done);
      }
    }

    method Tick(i: In)
      requires InOk(i)
      modifies this
      ensures View() == Step(old(View()), i)
    {
      hide StepFetchOp, StepModrm, StepDisp, StepImm;
      match state {
        case FetchOp => TickFetchOp(i);
        case ModrmByte => TickModrm(i);
        case Disp => TickDisp(i);
        case Imm => TickImm(i);
        case _ =>
      }
    }
  }
}
