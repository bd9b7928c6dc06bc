/** The rest of tools/asm86.py's operand forms, and its relative jumps with the
    references that resolve() fills in, against the hardware's decoder. */
module Asm86Forms {
  import opened Machine
  import opened Decode
  import opened DecodeLen
  import opened Asm86
  import opened AsmFixups
  import SE = StringEngine

  datatype Unary = IncOp | DecOp | NegOp | MulOp | DivOp

  datatype Form =
    | One(op: Unary, rm: Operand)
    | TestImm(rm: Operand, value: int)
    | TestReg(rm: Operand, r: Reg)
    | Swap(a: Reg, rm: Operand)
    | LoadAddress(r: Reg, rm: Operand)
    | Push(r: Reg)
    | PopTo(r: Reg)
    | PushSeg(sreg: Byte)
    | PopSeg(sreg: Byte)

  predicate FormOk(f: Form) {
    match f
    case One(_, rm) => OperandOk(rm)
    case TestImm(rm, _) => OperandOk(rm)
    case TestReg(rm, r) => OperandOk(rm) && r.num < 8
    case Swap(a, rm) => a.num < 8 && OperandOk(rm)
    case LoadAddress(r, rm) => r.num < 8 && OperandOk(rm)
    case Push(r) => r.num < 8
    case PopTo(r) => r.num < 8
    case PushSeg(sreg) => sreg < 4
    case PopSeg(sreg) => sreg < 4
  }

  // ---- encodings -----------------------------------------------------------------------

  /** INC and DEC of a word register have one-byte forms. */
  predicate ShortStep(op: Unary, rm: Operand) { (op == IncOp || op == DecOp) && rm.InReg? && rm.reg.wide }

  /** XCHG of AX with a register has one, whichever comes first. */
  function ShortSwap(a: Reg, rm: Operand): Option<Byte> {
    if !rm.InReg? || !a.wide then None
    else if a.num == 0 then Some(rm.reg.num)
    else if rm.reg == Reg(0, true) then Some(a.num)
    else None
  }

  /** TEST of AL or AX with an immediate has one too. */
  predicate ShortTest(rm: Operand) { rm.InReg? && rm.reg.num == 0 }

  function SubCode(op: Unary): Byte {
    match op
    case IncOp => 0 case DecOp => 1 case NegOp => 3 case MulOp => 4 case DivOp => 6
  }

  function FormPrefix(f: Form): Operand {
    match f
    case One(op, rm) => if ShortStep(op, rm) then NOWHERE else rm
    case TestImm(rm, _) => if ShortTest(rm) then NOWHERE else rm
    case TestReg(rm, _) => rm
    case _ => NOWHERE
  }

  function FormOpcode(f: Form): Byte {
    match f
    case One(op, rm) =>
      if ShortStep(op, rm) then (if op == IncOp then 0x40 else 0x48) | rm.reg.num
      else if op == IncOp || op == DecOp then 0xFE | W(Wide(rm)) else 0xF6 | W(Wide(rm))
    case TestImm(rm, _) => if ShortTest(rm) then 0xA8 | W(rm.reg.wide) else 0xF6 | W(Wide(rm))
    case TestReg(_, r) => 0x84 | W(r.wide)
    case Swap(a, rm) => if ShortSwap(a, rm).Some? then 0x90 | ShortSwap(a, rm).value else 0x86 | W(a.wide)
    case LoadAddress(_, _) => 0x8D
    case Push(r) => 0x50 | r.num
    case PopTo(r) => 0x58 | r.num
    case PushSeg(sreg) => 0x06 | (sreg << 3)
    case PopSeg(sreg) => 0x07 | (sreg << 3)
  }

  function FormRest(f: Form): Option<seq<Byte>> {
    match f
    case One(op, rm) => if ShortStep(op, rm) then Some([]) else Modrm(SubCode(op), rm)
    case TestImm(rm, v) =>
      if ShortTest(rm) then Some(Immediate(rm.reg.wide, v)) else Then(Modrm(0, rm), Immediate(Wide(rm), v))
    case TestReg(rm, r) => Modrm(r.num, rm)
    case Swap(a, rm) => if ShortSwap(a, rm).Some? then Some([]) else Modrm(a.num, rm)
    case LoadAddress(r, rm) => Modrm(r.num, rm)
    case _ => Some([])
  }

  function Encode(f: Form): Option<seq<Byte>> {
    if FormRest(f).None? then None else Some(SegBytes(FormPrefix(f)) + [FormOpcode(f)] + FormRest(f).value)
  }

  // ---- what the hardware does with them -----------------------------------------------------

  function AluOf(op: Unary): Alu {
    match op
    case IncOp => Inc case DecOp => Dec case NegOp => Neg case MulOp => Mul case DivOp => Div
  }

  ghost predicate DoesOne(regs: RegFile, s: Stream, p: nat, op: Unary, rm: Operand) {
    var c := ControlOf(s, p);
    && c.alu == AluOf(op)
    && match c.iclass
       case IncDecR => rm == InReg(Reg(c.opReg, c.wordOp))
       case Grp5 => (op == IncOp || op == DecOp) && RmIs(regs, s, p, rm)
       case Grp3 => op != IncOp && op != DecOp && RmIs(regs, s, p, rm)
       case _ => false
  }

  ghost predicate DoesTest(regs: RegFile, s: Stream, p: nat, rm: Operand, v: int) {
    var c := ControlOf(s, p);
    && c.alu == Test && ImmIs(s, p, c.wordOp, v)
    && (if c.iclass == TestAcc then rm == InReg(Reg(0, c.wordOp)) else c.iclass == Grp3 && RmIs(regs, s, p, rm))
  }

  /** XCHG with AX is by opcode; with itself it is the no-operation it amounts to. */
  ghost predicate DoesSwap(regs: RegFile, s: Stream, p: nat, a: Reg, rm: Operand) {
    var c := ControlOf(s, p);
    var ax := InReg(Reg(0, true));
    match c.iclass
    case NoOp => a == ax.reg && rm == ax
    case XchgR => {InReg(a), rm} == {ax, InReg(Reg(c.opReg, c.wordOp))}
    case XchgRm => RegIs(s, p, a) && RmIs(regs, s, p, rm)
    case _ => false
  }

  ghost predicate FormDoes(regs: RegFile, s: Stream, p: nat, f: Form) {
    var c := ControlOf(s, p);
    match f
    case One(op, rm) => DoesOne(regs, s, p, op, rm)
    case TestImm(rm, v) => DoesTest(regs, s, p, rm, v)
    case TestReg(rm, r) => c.iclass == TestRm && c.alu == Test && RegIs(s, p, r) && RmIs(regs, s, p, rm)
    case Swap(a, rm) => DoesSwap(regs, s, p, a, rm)
    case LoadAddress(r, rm) => c.iclass == Lea && RegIs(s, p, r) && RmIsMem(s(p + 1)) && RmFits(regs, s, p, rm)
    case Push(r) => c.iclass == PushR && r == Reg(c.opReg, c.wordOp)
    case PopTo(r) => c.iclass == PopR && r == Reg(c.opReg, c.wordOp)
    case PushSeg(sreg) => c.iclass == SregStk && !c.dirToReg && c.opReg == sreg
    case PopSeg(sreg) => c.iclass == SregStk && c.dirToReg && c.opReg == sreg
  }

  /** Register operands of one width, a word register where there is no choice, no
      override on an exchange, and no POP CS. */
  predicate FormFaithful(f: Form) {
    match f
    case One(_, _) => true
    case TestImm(_, _) => true
    case TestReg(rm, r) => rm.InReg? ==> rm.reg.wide == r.wide
    case Swap(a, rm) => if rm.InReg? then rm.reg.wide == a.wide else rm.seg.None?
    case LoadAddress(r, rm) => r.wide && rm.InMem?
    case Push(r) => r.wide
    case PopTo(r) => r.wide
    case PushSeg(_) => true
    case PopSeg(sreg) => sreg != 1
  }

  // ---- opcodes --------------------------------------------------------------------------------

  lemma StepOpcode(down: bool, num: Byte, m: Byte)
    requires num < 8
    ensures var op: Byte := (if down then 0x48 else 0x40) | num; var c := ControlWord(op, m);
      && !IsPrefix(op) && !c.hasModrm && c.immBytes == 0
      && c.iclass == IncDecR && c.alu == (if down then Dec else Inc) && c.wordOp && c.opReg == num
  {
    hide DecodeAlu, DecodeMid, DecodeHigh, DecodeTop;
  }

  lemma StackOpcode(pop: bool, num: Byte, m: Byte)
    requires num < 8
    ensures var op: Byte := (if pop then 0x58 else 0x50) | num; var c := ControlWord(op, m);
      && !IsPrefix(op) && !c.hasModrm && c.immBytes == 0
      && c.iclass == (if pop then PopR else PushR) && c.wordOp && c.opReg == num
  {
    hide DecodeAlu, DecodeMid, DecodeHigh, DecodeTop;
  }

  lemma SegStackOpcode(pop: bool, sreg: Byte, m: Byte)
    requires sreg < 4
    ensures var op: Byte := (if pop then 0x07 else 0x06) | (sreg << 3); var c := ControlWord(op, m);
      && !IsPrefix(op) && !c.hasModrm && c.immBytes == 0
      && (if pop && sreg == 1 then c.iclass == Illegal
          else c.iclass == SregStk && c.dirToReg == pop && c.opReg == sreg)
  {
    hide DecodeLow, DecodeMid, DecodeHigh, DecodeTop, AluFrom;
  }

  lemma Grp5Opcode(w: bool, down: bool, m: Byte)
    requires RegField(m) == if down then 1 else 0
    ensures var op: Byte := 0xFE | W(w); var c := ControlWord(op, m);
      && !IsPrefix(op) && c.hasModrm && c.immBytes == 0
      && c.iclass == Grp5 && c.alu == (if down then Dec else Inc) && c.wordOp == w
  {
    hide DecodeAlu, DecodeLow, DecodeMid, DecodeHigh, RegField, ShiftFrom, DecodeGroup3;
  }

  lemma Grp3Opcode(w: bool, m: Byte)
    requires RegField(m) in {0, 3, 4, 6}
    ensures var op: Byte := 0xF6 | W(w); var c := ControlWord(op, m); var sel := RegField(m);
      && !IsPrefix(op) && c.hasModrm && c.iclass == Grp3 && c.wordOp == w && !c.immSext
      && c.alu == (if sel == 0 then Test else if sel == 3 then Neg else if sel == 4 then Mul else Div)
      && c.immBytes == (if sel != 0 then 0 else if w then 2 else 1)
  {
    hide DecodeAlu, DecodeLow, DecodeMid, DecodeHigh, RegField, ShiftFrom, DecodeGroup5;
  }

  lemma ShapeOfGroup(op: Byte, m: Byte)
    requires op in {0xF6, 0xF7, 0xFE, 0xFF}
    ensures !IsPrefix(op) && ControlWord(op, m).hasModrm
  {
    hide DecodeAlu, DecodeLow, DecodeMid, DecodeHigh, RegField, ShiftFrom;
  }

  lemma MidOpcode(op: Byte, m: Byte)
    requires op in {0x84, 0x85, 0x86, 0x87, 0x8D}
    ensures var c := ControlWord(op, m);
      && !IsPrefix(op) && c.hasModrm && c.immBytes == 0 && c.wordOp == (op !in {0x84, 0x86})
      && c.iclass == (if op == 0x8D then Lea else if op in {0x84, 0x85} then TestRm else XchgRm)
      && (op in {0x84, 0x85} ==> c.alu == Test)
  {
    hide DecodeAlu, DecodeLow, DecodeHigh, DecodeTop, AluFrom, RegField;
  }

  lemma SwapOpcode(num: Byte, m: Byte)
    requires num < 8
    ensures var op: Byte := 0x90 | num; var c := ControlWord(op, m);
      && !IsPrefix(op) && !c.hasModrm && c.immBytes == 0
      && (if num == 0 then c.iclass == NoOp else c.iclass == XchgR && c.wordOp && c.opReg == num)
  {
    hide DecodeAlu, DecodeLow, DecodeHigh, DecodeTop, AluFrom, RegField;
  }

  lemma TestAccOpcode(w: bool, m: Byte)
    ensures var op: Byte := 0xA8 | W(w); var c := ControlWord(op, m);
      && !IsPrefix(op) && !c.hasModrm && !c.immSext
      && c.iclass == TestAcc && c.alu == Test && c.wordOp == w && c.immBytes == (if w then 2 else 1)
  {
    hide DecodeAlu, DecodeLow, DecodeMid, DecodeTop, ShiftFrom, RegField;
  }

  lemma WidthBits(w: bool)
    ensures 0x84 | W(w) == (if w then 0x85 else 0x84) && 0x86 | W(w) == (if w then 0x87 else 0x86)
    ensures 0xF6 | W(w) == (if w then 0xF7 else 0xF6) && 0xFE | W(w) == (if w then 0xFF else 0xFE)
  {
  }

  // ---- the theorem, form by form ------------------------------------------------------------------

  ghost predicate FormRight(regs: RegFile, f: Form, s: Stream) {
    var p := |SegBytes(FormPrefix(f))|;
    && Prefixed(s, p) && Encode(f).Some? && LenOf(s, p) == |Encode(f).value|
    && (FormDoes(regs, s, p, f) <==> FormFaithful(f))
  }

  /** One byte and nothing else. */
  lemma OneByte(s: Stream, op: Byte, c: Control)
    requires Holds(s, 0, [op]) && !IsPrefix(op)
    requires c == ControlWord(op, s(1)) && !c.hasModrm && c.immBytes == 0
    ensures Prefixed(s, 0) && s(0) == op && ControlOf(s, 0) == c && LenOf(s, 0) == 1
  {
    hide ControlWord, IsPrefix;
    assert s(0 + 0) == [op][0];
  }

  lemma StepRight(regs: RegFile, f: Form, s: Stream)
    requires FormOk(f) && f.One? && ShortStep(f.op, f.rm) && Holds(s, 0, Encode(f).value)
    ensures FormRight(regs, f, s)
  {
    hide ControlWord, RmIs, Holds, Prefixed, LenOf, IsPrefix, ControlOf;
    StepOpcode(f.op == DecOp, f.rm.reg.num, s(1));
    assert Encode(f).value == [FormOpcode(f)];
    OneByte(s, FormOpcode(f), ControlWord(FormOpcode(f), s(1)));
  }

  lemma SwapRight(regs: RegFile, f: Form, s: Stream)
    requires FormOk(f) && f.Swap? && ShortSwap(f.a, f.rm).Some? && Holds(s, 0, Encode(f).value)
    ensures FormRight(regs, f, s)
  {
    hide ControlWord, RmIs, RegIs, Holds, Prefixed, LenOf, IsPrefix, ControlOf;
    SwapOpcode(ShortSwap(f.a, f.rm).value, s(1));
    assert Encode(f).value == [FormOpcode(f)];
    OneByte(s, FormOpcode(f), ControlWord(FormOpcode(f), s(1)));
  }

  lemma StackRight(regs: RegFile, f: Form, s: Stream)
    requires FormOk(f) && (f.Push? || f.PopTo? || f.PushSeg? || f.PopSeg?) && Holds(s, 0, Encode(f).value)
    ensures FormRight(regs, f, s)
  {
    hide ControlWord, RmIs, RegIs, Holds, Prefixed, LenOf, IsPrefix, ControlOf;
    match f {
      case Push(r) => StackOpcode(false, r.num, s(1));
      case PopTo(r) => StackOpcode(true, r.num, s(1));
      case PushSeg(sreg) => SegStackOpcode(false, sreg, s(1));
      case PopSeg(sreg) => SegStackOpcode(true, sreg, s(1));
    }
    assert Encode(f).value == [FormOpcode(f)];
    OneByte(s, FormOpcode(f), ControlWord(FormOpcode(f), s(1)));
  }

  lemma GroupRight(regs: RegFile, f: Form, s: Stream)
    requires FormOk(f) && f.One? && !ShortStep(f.op, f.rm) && Encode(f).Some? && Holds(s, 0, Encode(f).value)
    ensures FormRight(regs, f, s)
  {
    hide ControlWord, RmFits, Modrm, SegBytes, RegField, RmField, Holds, RmIsMem;
    hide Prefixed, SegOf, DispBytes, IsPrefix, W;
    var p := |SegBytes(f.rm)|;
    WidthBits(Wide(f.rm));
    ShapeOfGroup(FormOpcode(f), s(p + 1));
    Layout(s, f.rm, FormOpcode(f), FormRest(f).value);
    ModrmMeans(regs, SubCode(f.op), f.rm, s, p);
    if f.op == IncOp || f.op == DecOp {
      Grp5Opcode(Wide(f.rm), f.op == DecOp, s(p + 1));
    } else {
      Grp3Opcode(Wide(f.rm), s(p + 1));
    }
  }

  lemma TestAccRight(regs: RegFile, f: Form, s: Stream)
    requires FormOk(f) && f.TestImm? && ShortTest(f.rm) && Holds(s, 0, Encode(f).value)
    ensures FormRight(regs, f, s)
  {
    hide ControlWord, RmIs, Holds, Prefixed, SegOf, ImmIs, IsPrefix, Immediate, W;
    TestAccOpcode(f.rm.reg.wide, s(1));
    Layout(s, NOWHERE, FormOpcode(f), FormRest(f).value);
    assert !ControlOf(s, 0).hasModrm && ImmAt(s, 0) == 1;
    ImmReads(s, 0, f.rm.reg.wide, f.value);
  }

  lemma TestImmRight(regs: RegFile, f: Form, s: Stream)
    requires FormOk(f) && f.TestImm? && !ShortTest(f.rm) && Encode(f).Some? && Holds(s, 0, Encode(f).value)
    ensures FormRight(regs, f, s)
  {
    hide ControlWord, RmFits, Modrm, SegBytes, RegField, RmField, Holds, RmIsMem, Prefixed, SegOf, DispBytes, ImmIs;
    hide IsPrefix, Immediate, DispLen, W;
    var p := |SegBytes(f.rm)|;
    WidthBits(Wide(f.rm));
    ShapeOfGroup(FormOpcode(f), s(p + 1));
    Layout(s, f.rm, FormOpcode(f), FormRest(f).value);
    var m := Modrm(0, f.rm).value;
    RestOf(s, p + 1, m, Immediate(Wide(f.rm), f.value));
    ModrmMeans(regs, 0, f.rm, s, p);
    Grp3Opcode(Wide(f.rm), s(p + 1));
    assert p + 1 + |m| == ImmAt(s, p);
    ImmReads(s, p, Wide(f.rm), f.value);
  }

  lemma TestRegRight(regs: RegFile, f: Form, s: Stream)
    requires FormOk(f) && f.TestReg? && Encode(f).Some? && Holds(s, 0, Encode(f).value)
    ensures FormRight(regs, f, s)
  {
    hide ControlWord, RmFits, Modrm, SegBytes, RegField, RmField, Holds, RmIsMem;
    hide Prefixed, SegOf, DispBytes, IsPrefix, W;
    var p := |SegBytes(f.rm)|;
    WidthBits(f.r.wide);
    MidOpcode(FormOpcode(f), s(p + 1));
    Layout(s, f.rm, FormOpcode(f), FormRest(f).value);
    ModrmMeans(regs, f.r.num, f.rm, s, p);
  }

  lemma SwapRmRight(regs: RegFile, f: Form, s: Stream)
    requires FormOk(f) && f.Swap? && ShortSwap(f.a, f.rm).None? && Encode(f).Some? && Holds(s, 0, Encode(f).value)
    ensures FormRight(regs, f, s)
  {
    hide ControlWord, RmFits, Modrm, RegField, RmField, Holds, RmIsMem, Prefixed, SegOf, DispBytes, IsPrefix, W;
    WidthBits(f.a.wide);
    MidOpcode(FormOpcode(f), s(1));
    Layout(s, NOWHERE, FormOpcode(f), FormRest(f).value);
    ModrmMeans(regs, f.a.num, f.rm, s, 0);
  }

  lemma LeaRight(regs: RegFile, f: Form, s: Stream)
    requires FormOk(f) && f.LoadAddress? && Encode(f).Some? && Holds(s, 0, Encode(f).value)
    ensures FormRight(regs, f, s)
  {
    hide ControlWord, Modrm, RegField, RmField, Holds, RmIsMem, Prefixed, SegOf;
    hide DispBytes, IsPrefix, W, Address, Wanted;
    MidOpcode(FormOpcode(f), s(1));
    Layout(s, NOWHERE, FormOpcode(f), FormRest(f).value);
    ModrmMeans(regs, f.r.num, f.rm, s, 0);
  }

  /** THE OTHER FORMS, EXACTLY. Each decodes to just its own bytes, and to what was
      asked for but for mixed widths, byte registers where there are none, overrides
      that XCHG drops, LEA of a register, and POP CS. */
  lemma FormsDecode(regs: RegFile, f: Form, s: Stream)
    requires FormOk(f) && Encode(f).Some? && Holds(s, 0, Encode(f).value)
    ensures var p := |SegBytes(FormPrefix(f))|;
      Prefixed(s, p) && LenOf(s, p) == |Encode(f).value| && (FormDoes(regs, s, p, f) <==> FormFaithful(f))
  {
    hide FormDoes, FormFaithful, Encode, Holds, Prefixed, LenOf, SegBytes, FormOk;
    match f {
      case One(op, rm) => if ShortStep(op, rm) { StepRight(regs, f, s); } else { GroupRight(regs, f, s); }
      case TestImm(rm, _) => if ShortTest(rm) { TestAccRight(regs, f, s); } else { TestImmRight(regs, f, s); }
      case TestReg(_, _) => TestRegRight(regs, f, s);
      case Swap(a, rm) => if ShortSwap(a, rm).Some? { SwapRight(regs, f, s); } else { SwapRmRight(regs, f, s); }
      case LoadAddress(_, _) => LeaRight(regs, f, s);
      case _ => StackRight(regs, f, s);
    }
  }

  /** TWO THAT FAIL: `xchg bx, es:[si]` is assembled with no sign of the ES, and so
      exchanges with DS's word; and POP CS is a byte the decoder refuses. */
  lemma LostAndRefused(regs: RegFile, s: Stream, m: Byte)
    requires Holds(s, 0, [0x87, 0x1C])
    ensures var f := Swap(Reg(3, true), InMem(Some(SI), None, 0, Some(0)));
      FormOk(f) && Encode(f) == Some([0x87, 0x1C]) && SegOf(s, 0) == None && !FormDoes(regs, s, 0, f)
    ensures Encode(PopSeg(1)) == Some([0x0F]) && ControlWord(0x0F, m).iclass == Illegal
  {
    hide FormDoes, ControlWord, Holds;
    var f := Swap(Reg(3, true), InMem(Some(SI), None, 0, Some(0)));
    assert ModrmByte(0, 3, 4) == 0x1C;
    assert Encode(f).value == [0x87, 0x1C];
    FormsDecode(regs, f, s);
    SegStackOpcode(true, 1, m);
    assert FormOpcode(PopSeg(1)) == 0x0F;
    assert Encode(PopSeg(1)).value == [0x0F];
  }

  // ---- relative jumps ------------------------------------------------------------------------------

  /** The conditions, in the order of the assembler's table. */
  datatype Cc = CcO | CcNo | CcC | CcNc | CcZ | CcNz | CcBe | CcA | CcS | CcNs | CcP | CcNp | CcL | CcGe | CcLe | CcG

  datatype Jump = JumpIf(cc: Cc) | JumpShort | LoopBack | JumpNear | Call

  function CcCode(cc: Cc): Byte {
    match cc
    case CcO => 0 case CcNo => 1 case CcC => 2 case CcNc => 3 case CcZ => 4 case CcNz => 5 case CcBe => 6
    case CcA => 7 case CcS => 8 case CcNs => 9 case CcP => 10 case CcNp => 11 case CcL => 12 case CcGe => 13
    case CcLe => 14 case CcG => 15
  }

  /** What each condition says of the flags. */
  predicate CcMeans(cc: Cc, f: SE.Flags) {
    match cc
    case CcO => f.of case CcNo => !f.of
    case CcC => f.cf case CcNc => !f.cf
    case CcZ => f.zf case CcNz => !f.zf
    case CcBe => f.cf || f.zf case CcA => !f.cf && !f.zf
    case CcS => f.sf case CcNs => !f.sf
    case CcP => f.pf case CcNp => !f.pf
    case CcL => f.sf != f.of case CcGe => f.sf == f.of
    case CcLe => f.zf || f.sf != f.of case CcG => !f.zf && f.sf == f.of
  }

  /** cond_true: the condition's upper bits pick the flags, its lowest negates. */
  predicate CondTrue(cond: Byte, f: SE.Flags) {
    var sel := (cond >> 1) & 7;
    var on :=
      if sel == 0 then f.of else if sel == 1 then f.cf else if sel == 2 then f.zf else if sel == 3 then f.cf || f.zf
      else if sel == 4 then f.sf else if sel == 5 then f.pf else if sel == 6 then f.sf != f.of
      else f.sf != f.of || f.zf;
    if cond & 1 == 1 then !on else on
  }

  lemma ConditionsMeanWhatTheySay(cc: Cc, f: SE.Flags)
    ensures CondTrue(CcCode(cc), f) == CcMeans(cc, f)
  {
  }

  function JumpByte(j: Jump): Byte {
    match j
    case JumpIf(cc) => 0x70 | CcCode(cc)
    case JumpShort => 0xEB case LoopBack => 0xE2 case JumpNear => 0xE9 case Call => 0xE8
  }

  function JumpKind(j: Jump): Kind { if j.JumpNear? || j.Call? then Rel16 else Rel8 }

  /** The decoder's idea of the jump: its class, and the condition it waits for. */
  ghost predicate JumpIs(c: Control, j: Jump) {
    match j
    case JumpIf(cc) => c.iclass == Jcc && forall f: SE.Flags :: CondTrue(c.cond, f) == CcMeans(cc, f)
    case JumpShort => c.iclass == JmpShort
    case LoopBack => c.iclass == Loop && c.cond & 3 == 2
    case JumpNear => c.iclass == JmpNear
    case Call => c.iclass == CallNear
  }

  lemma JccOpcode(code: Byte, m: Byte)
    requires code < 16
    ensures var op: Byte := 0x70 | code; var c := ControlWord(op, m);
      && !IsPrefix(op) && !c.hasModrm && c.immBytes == 1 && c.immSext
      && c.iclass == Jcc && c.cond == code
  {
    hide DecodeAlu, DecodeMid, DecodeHigh, DecodeTop;
  }

  lemma OtherJumpOpcode(op: Byte, m: Byte)
    requires op in {0xEB, 0xE2, 0xE9, 0xE8}
    ensures var c := ControlWord(op, m);
      && !IsPrefix(op) && !c.hasModrm && (op == 0xE2 ==> c.cond & 3 == 2)
      && c.iclass == (if op == 0xEB then JmpShort else if op == 0xE2 then Loop
                      else if op == 0xE9 then JmpNear else CallNear)
      && c.immBytes == (if op in {0xEB, 0xE2} then 1 else 2) && c.immSext == (op in {0xEB, 0xE2})
  {
    hide DecodeAlu, DecodeLow, DecodeMid, DecodeHigh, DecodeGroup3, DecodeGroup5, ShiftFrom;
  }

  lemma JumpOpcode(j: Jump, m: Byte)
    ensures var op, c := JumpByte(j), ControlWord(JumpByte(j), m);
      && !IsPrefix(op) && !c.hasModrm && JumpIs(c, j)
      && c.immBytes == Size(JumpKind(j)) && c.immSext == (JumpKind(j) == Rel8)
  {
    hide ControlWord, IsPrefix, CondTrue, CcMeans;
    match j
    case JumpIf(cc) =>
      JccOpcode(CcCode(cc), m);
      forall f: SE.Flags
        ensures CondTrue(CcCode(cc), f) == CcMeans(cc, f)
      {
        ConditionsMeanWhatTheySay(cc, f);
      }
    case _ => OtherJumpOpcode(JumpByte(j), m);
  }

  /** THE JUMP LANDS ON ITS LABEL. In an image whose first byte is at IP `origin`, a
      relative jump whose reference is resolved is one instruction, the IP just past
      it is the one the reference was resolved against, and that IP plus the
      immediate, as the hardware extends it, is the label, mod 64K. */
  lemma JumpLandsOnLabel(b: seq<Byte>, f: Fixup, j: Jump, target: int, origin: nat, s: Stream)
    requires f.at > 0 && Recorded(f, origin, |b|) && Lands(b, f, target)
    requires f.kind == JumpKind(j) && b[f.at - 1] == JumpByte(j)
    requires forall k :: 0 <= k <= Size(f.kind) ==> s(k) == b[f.at - 1 + k]
    ensures Prefixed(s, 0) && JumpIs(ControlOf(s, 0), j)
    ensures var nextIp := origin + f.at - 1 + LenOf(s, 0);
      nextIp == f.end && (nextIp + Value(ImmOfStream(s, 0))) % 0x1_0000 == target % 0x1_0000
  {
    hide ControlWord, IsPrefix, JumpByte, Value, SignFill, JumpIs;
    JumpOpcode(j, s(1));
    assert s(0) == b[f.at - 1 + 0] && s(1) == b[f.at - 1 + 1];
    assert ControlOf(s, 0) == ControlWord(s(0), s(1));
    assert ImmAt(s, 0) == 1;
    assert f.kind != Rel8 ==> s(2) == b[f.at - 1 + 2];
  }
}
