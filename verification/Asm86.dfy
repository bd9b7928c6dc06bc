/** tools/asm86.py's encoder against the hardware's decoder: what is asked for is
    what modules/decode.sv and modules/microcode.sv make of the bytes. */
module Asm86 {
  import opened Machine
  import opened Decode
  import opened DecodeLen

  const BX: Byte := 3
  const BP: Byte := 5
  const SI: Byte := 6
  const DI: Byte := 7

  datatype Reg = Reg(num: Byte, wide: bool)

  datatype Operand =
    | InReg(reg: Reg)
    | InMem(base: Option<Byte>, index: Option<Byte>, disp: int, seg: Option<nat>)

  predicate OperandOk(o: Operand) {
    if o.InReg? then o.reg.num < 8 else o.seg.Some? ==> o.seg.value < 4
  }

  // ---- numbers as bytes -------------------------------------------------------------

  function B(n: int): Byte { (n % 0x100) as bv8 }
  function Dw(n: int): (w: seq<Byte>)
    ensures |w| == 2
  {
    [B(n), B(n / 0x100)]
  }

  function ByteValue(b: Byte): (v: nat)
    ensures v < 0x100
  {
    b as nat
  }

  function Value(w: Word): nat { ByteValue(w.lo) + 0x100 * ByteValue(w.hi) }

  lemma Narrow(r: nat)
    requires r < 0x100
    ensures ByteValue(r as bv8) == r
  {
  }

  lemma ByteReads(n: int)
    ensures ByteValue(B(n)) == n % 0x100
  {
    hide ByteValue;
    Narrow(n % 0x100);
  }

  lemma WordReads(n: int)
    ensures Value(Word(B(n), B(n / 0x100))) == n % 0x1_0000
  {
    hide B, ByteValue;
    ByteReads(n);
    ByteReads(n / 0x100);
  }

  lemma TopBit(b: Byte)
    ensures b & 0x80 != 0 <==> b >= 0x80
  {
  }

  lemma TopValue(b: Byte)
    ensures b >= 0x80 <==> ByteValue(b) >= 0x80
  {
  }

  lemma FillValue(b: Byte)
    ensures ByteValue(SignFill(b)) == if ByteValue(b) >= 0x80 then 0xFF else 0
  {
    hide ByteValue;
    TopBit(b);
    TopValue(b);
    Ends();
  }

  lemma Ends()
    ensures ByteValue(0xFF) == 0xFF && ByteValue(0) == 0
  {
  }

  /** A displacement or immediate in one byte, sign-extended by the hardware. */
  lemma SignedByteReads(n: int)
    requires -128 <= n <= 127
    ensures Value(Word(B(n), SignFill(B(n)))) == n % 0x1_0000
  {
    hide B, ByteValue, SignFill;
    ByteReads(n);
    FillValue(B(n));
  }

  // ---- ModR/M -----------------------------------------------------------------------------

  /** The 16-bit table, by the numbers of base and index. */
  function RmCode(base: Option<Byte>, index: Option<Byte>): (r: Option<Byte>)
    ensures r.Some? ==> r.value < 8
  {
    if base == Some(BX) && index == Some(SI) then Some(0)
    else if base == Some(BX) && index == Some(DI) then Some(1)
    else if base == Some(BP) && index == Some(SI) then Some(2)
    else if base == Some(BP) && index == Some(DI) then Some(3)
    else if base == Some(SI) && index == None then Some(4)
    else if base == Some(DI) && index == None then Some(5)
    else if base == Some(BP) && index == None then Some(6)
    else if base == Some(BX) && index == None then Some(7)
    else None
  }

  function ModrmByte(mod: Byte, reg: Byte, rm: Byte): Byte { (mod << 6) | (reg << 3) | rm }

  /** None where the assembler raises an error. */
  function Modrm(reg: Byte, o: Operand): (r: Option<seq<Byte>>)
    ensures r.Some? ==> |r.value| > 0
  {
    match o
    case InReg(r) => Some([ModrmByte(3, reg, r.num)])
    case InMem(base, index, d, _) =>
      if base.None? && index.None? then Some([ModrmByte(0, reg, 6)] + Dw(d))
      else
        match RmCode(base, index)
        case None => None
        case Some(rm) =>
          if d == 0 && rm != 6 then Some([ModrmByte(0, reg, rm)])
          else if -128 <= d <= 127 then Some([ModrmByte(1, reg, rm), B(d)])
          else Some([ModrmByte(2, reg, rm)] + Dw(d))
  }

  lemma FieldsOf(mod: Byte, reg: Byte, rm: Byte)
    requires mod < 4 && reg < 8 && rm < 8
    ensures var m := ModrmByte(mod, reg, rm); ModField(m) == mod && RegField(m) == reg && RmField(m) == rm
  {
  }

  /** modules/microcode.sv: what an addressing mode adds up, and whether it is stack
      relative. */
  datatype Mode = Mode(base: Option<Byte>, index: Option<Byte>, stack: bool)

  function ModeOf(m: Byte): Mode {
    var rm := RmField(m);
    if rm == 0 then Mode(Some(BX), Some(SI), false)
    else if rm == 1 then Mode(Some(BX), Some(DI), false)
    else if rm == 2 then Mode(Some(BP), Some(SI), true)
    else if rm == 3 then Mode(Some(BP), Some(DI), true)
    else if rm == 4 then Mode(None, Some(SI), false)
    else if rm == 5 then Mode(None, Some(DI), false)
    else if rm == 6 then (if ModField(m) == 0 then Mode(None, None, false) else Mode(Some(BP), None, true))
    else Mode(Some(BX), None, false)
  }

  type RegFile = Byte -> nat

  function RegPart(regs: RegFile, r: Option<Byte>): nat { if r.Some? then regs(r.value) else 0 }

  /** The effective address, mod 64K. */
  function Address(regs: RegFile, m: Byte, disp: Word): nat {
    (RegPart(regs, ModeOf(m).base) + RegPart(regs, ModeOf(m).index) + Value(disp)) % 0x1_0000
  }

  function Wanted(regs: RegFile, o: Operand): nat
    requires o.InMem?
  {
    (RegPart(regs, o.base) + RegPart(regs, o.index) + o.disp) % 0x1_0000
  }

  /** The hardware's r/m operand at position `p` is the one asked for, but for its
      segment. */
  ghost predicate RmFits(regs: RegFile, s: Stream, p: nat, o: Operand) {
    var m := s(p + 1);
    match o
    case InReg(r) => !RmIsMem(m) && RmField(m) == r.num
    case InMem(base, _, _, _) =>
      && RmIsMem(m)
      && Address(regs, m, DispOf(s, p)) == Wanted(regs, o)
      && (ModeOf(m).stack <==> base == Some(BP))
  }

  ghost predicate Holds(s: Stream, at: nat, code: seq<Byte>) { forall k :: 0 <= k < |code| ==> s(at + k) == code[k] }

  lemma SumMod(a: nat, d: int, e: nat)
    requires e == d % 0x1_0000
    ensures (a + e) % 0x1_0000 == (a + d) % 0x1_0000
  {
  }

  lemma ModeOfCode(base: Option<Byte>, index: Option<Byte>, mod: Byte, m: Byte)
    requires RmCode(base, index).Some? && RmField(m) == RmCode(base, index).value && ModField(m) == mod
    requires mod == 0 ==> RmField(m) != 6
    ensures ModeOf(m).stack <==> base == Some(BP)
    ensures forall regs: RegFile :: RegPart(regs, ModeOf(m).base) + RegPart(regs, ModeOf(m).index)
                                 == RegPart(regs, base) + RegPart(regs, index)
  {
  }

  /** Bytes of displacement the mode calls for, and their value: the operand's, mod
      64K. */
  lemma DispReads(o: Operand, reg: Byte, s: Stream, p: nat)
    requires o.InMem? && reg < 8 && Modrm(reg, o).Some? && Holds(s, p + 1, Modrm(reg, o).value)
    requires ControlOf(s, p).hasModrm
    ensures RegField(s(p + 1)) == reg && RmIsMem(s(p + 1))
    ensures DispLen(s, p) == |Modrm(reg, o).value| - 1
    ensures Value(DispOf(s, p)) == o.disp % 0x1_0000
    ensures if o.base.None? && o.index.None? then ModField(s(p + 1)) == 0 && RmField(s(p + 1)) == 6
            else RmCode(o.base, o.index) == Some(RmField(s(p + 1)))
                 && (ModField(s(p + 1)) == 0 ==> RmField(s(p + 1)) != 6)
  {
    hide ControlWord, RmCode, B, ModField, RegField, RmField, ModrmByte, SignFill, Value;
    var code := Modrm(reg, o).value;
    assert s(p + 1 + 0) == code[0];
    var mod: Byte, rm: Byte :=
      if |code| == 2 then 1 else if |code| == 3 && (o.base.Some? || o.index.Some?) then 2 else 0,
      if o.base.None? && o.index.None? then 6 else RmCode(o.base, o.index).value;
    FieldsOf(mod, reg, rm);
    if |code| == 2 {
      assert s(p + 1 + 1) == code[1];
      SignedByteReads(o.disp);
    } else if |code| == 3 {
      assert s(p + 1 + 1) == code[1] && s(p + 1 + 2) == code[2];
      WordReads(o.disp);
    } else {
      ZeroValue();
    }
  }

  lemma ZeroValue()
    ensures Value(ZERO) == 0
  {
  }

  /** MODR/M ROUND TRIP: for every register field and operand the assembler takes, the
      decoder finds that field, as many displacement bytes as were written, and the
      register asked for or the address asked for, mod 64K. */
  lemma ModrmMeans(regs: RegFile, reg: Byte, o: Operand, s: Stream, p: nat)
    requires reg < 8 && OperandOk(o) && Modrm(reg, o).Some? && Holds(s, p + 1, Modrm(reg, o).value)
    requires ControlOf(s, p).hasModrm
    ensures RegField(s(p + 1)) == reg && DispLen(s, p) == |Modrm(reg, o).value| - 1
    ensures RmFits(regs, s, p, o)
  {
    hide ControlWord, RmCode, B, ModField, RegField, RmField, ModrmByte, Value, DispOf, ModeOf, RegPart;
    var m := s(p + 1);
    match o
    case InReg(r) =>
      assert s(p + 1 + 0) == Modrm(reg, o).value[0];
      FieldsOf(3, reg, r.num);
    case InMem(base, index, d, _) =>
      DispReads(o, reg, s, p);
      if base.None? && index.None? {
        DirectMode(regs, m);
      } else {
        ModeOfCode(base, index, ModField(m), m);
      }
      SumMod(RegPart(regs, base) + RegPart(regs, index), d, Value(DispOf(s, p)));
      var sum := RegPart(regs, ModeOf(m).base) + RegPart(regs, ModeOf(m).index);
      assert sum == RegPart(regs, base) + RegPart(regs, index);
  }

  lemma DirectMode(regs: RegFile, m: Byte)
    requires ModField(m) == 0 && RmField(m) == 6
    ensures RegPart(regs, ModeOf(m).base) == 0 && RegPart(regs, ModeOf(m).index) == 0 && !ModeOf(m).stack
    ensures RegPart(regs, None) == 0
  {
  }

  // ---- whole instructions ----------------------------------------------------------------

  function SegByte(n: nat): Byte { if n == 0 then 0x26 else if n == 1 then 0x2E else if n == 2 then 0x36 else 0x3E }

  /** The override prefix of an operand, if it has one. */
  function SegBytes(o: Operand): (b: seq<Byte>)
    ensures |b| <= 1
  {
    if o.InMem? && o.seg.Some? then [SegByte(o.seg.value)] else []
  }

  function SegAsked(o: Operand): Option<nat> { if o.InMem? then o.seg else None }

  /** Prefix, opcode, and the rest, in the stream. */
  lemma Layout(s: Stream, o: Operand, op: Byte, rest: seq<Byte>)
    requires OperandOk(o) && Holds(s, 0, SegBytes(o) + [op] + rest) && !IsPrefix(op)
    ensures var p := |SegBytes(o)|;
      Prefixed(s, p) && s(p) == op && Holds(s, p + 1, rest) && SegOf(s, p) == SegAsked(o)
  {
    hide IsRep;
    var pre := SegBytes(o);
    var code := pre + [op] + rest;
    assert s(0 + |pre|) == code[|pre|] == op;
    assert |pre| == 1 ==> s(0 + 0) == code[0] == pre[0] && IsSeg(pre[0]);
    assert |pre| == 1 ==> SegCode(pre[0]) == o.seg.value;
    assert SegOf(s, 0) == None;
    forall k | 0 <= k < |rest|
      ensures s(|pre| + 1 + k) == rest[k]
    {
      assert s(0 + (|pre| + 1 + k)) == code[|pre| + 1 + k];
    }
  }

  function W(wide: bool): Byte { if wide then 1 else 0 }
  function Immediate(wide: bool, v: int): (b: seq<Byte>)
    ensures |b| == if wide then 2 else 1
  {
    if wide then Dw(v) else [B(v)]
  }

  /** The immediate the hardware reads is the number asked for, mod the width. */
  ghost predicate ImmIs(s: Stream, p: nat, wide: bool, v: int) {
    if wide then Value(ImmOfStream(s, p)) == v % 0x1_0000 else ByteValue(ImmOfStream(s, p).lo) == v % 0x100
  }

  lemma ImmReads(s: Stream, p: nat, wide: bool, v: int)
    requires ControlOf(s, p).immBytes == (if wide then 2 else 1) && Holds(s, ImmAt(s, p), Immediate(wide, v))
    ensures ImmIs(s, p, wide, v)
  {
    hide ControlWord, B, ByteValue, Value, SignFill, DispLen;
    var at := ImmAt(s, p);
    assert s(at + 0) == Immediate(wide, v)[0];
    if wide {
      assert s(at + 1) == Immediate(wide, v)[1];
      WordReads(v);
    } else {
      ByteReads(v);
    }
  }

  lemma SignedImmReads(s: Stream, p: nat, v: int)
    requires ControlOf(s, p).immBytes == 1 && ControlOf(s, p).immSext && -128 <= v <= 127
    requires Holds(s, ImmAt(s, p), [B(v)])
    ensures ImmIs(s, p, true, v)
  {
    hide ControlWord, B, ByteValue, Value, SignFill, DispLen;
    assert s(ImmAt(s, p) + 0) == [B(v)][0];
    SignedByteReads(v);
  }

  /** The r/m operand, its width and its segment are those asked for. */
  ghost predicate RmIs(regs: RegFile, s: Stream, p: nat, o: Operand) {
    RmFits(regs, s, p, o) && SegOf(s, p) == SegAsked(o) && (o.InReg? ==> o.reg.wide == ControlOf(s, p).wordOp)
  }

  ghost predicate RegIs(s: Stream, p: nat, r: Reg) {
    RegField(s(p + 1)) == r.num && r.wide == ControlOf(s, p).wordOp
  }

  // ---- the instructions -----------------------------------------------------------------------

  datatype Source = Imm(value: int) | From(o: Operand)
  datatype Count = Times(n: int) | ByCl

  datatype AluName = AddOp | OrOp | AdcOp | SbbOp | AndOp | SubOp | XorOp | CmpOp
  datatype ShiftName = ShlOp | ShrOp | SarOp

  /** The assembler's numbers for them, and what each name means to the ALU. */
  function AluCode(op: AluName): (c: Byte)
    ensures c < 8
  {
    match op
    case AddOp => 0 case OrOp => 1 case AdcOp => 2 case SbbOp => 3
    case AndOp => 4 case SubOp => 5 case XorOp => 6 case CmpOp => 7
  }

  function AluMeant(op: AluName): Alu {
    match op
    case AddOp => Add case OrOp => Or case AdcOp => Adc case SbbOp => Sbb
    case AndOp => And case SubOp => Sub case XorOp => Xor case CmpOp => Cmp
  }

  function ShiftCode(op: ShiftName): (c: Byte)
    ensures c < 8
  {
    match op case ShlOp => 4 case ShrOp => 5 case SarOp => 7
  }

  function ShiftMeant(op: ShiftName): Alu {
    match op case ShlOp => Shl case ShrOp => Shr case SarOp => Sar
  }

  lemma NamesMeanWhatTheySay(a: AluName, b: ShiftName)
    ensures AluFrom(AluCode(a)) == AluMeant(a) && ShiftFrom(ShiftCode(b)) == ShiftMeant(b)
  {
  }

  datatype Ins =
    | AluIns(op: AluName, dst: Operand, src: Source)
    | MovImm(r: Reg, value: int)
    | MovSeg(toSeg: bool, sreg: Byte, rm: Operand)
    | Mov(to: Operand, fro: Operand)
    | MovMem(wide: bool, rm: Operand, value: int)
    | Shift(shift: ShiftName, rm: Operand, count: Count)

  predicate InsOk(i: Ins) {
    match i
    case AluIns(_, dst, src) => OperandOk(dst) && (src.From? ==> OperandOk(src.o))
    case MovImm(r, _) => r.num < 8
    case MovSeg(_, sreg, rm) => sreg < 4 && OperandOk(rm)
    case Mov(to, fro) => OperandOk(to) && OperandOk(fro)
    case MovMem(_, rm, _) => OperandOk(rm)
    case Shift(_, rm, _) => OperandOk(rm)
  }

  predicate Wide(o: Operand) { o.InMem? || o.reg.wide }

  /** AL or AX with an immediate has a form of its own. */
  predicate Short(dst: Operand, src: Source) { src.Imm? && dst.InReg? && dst.reg.num == 0 }

  predicate Tiny(dst: Operand, v: int) { Wide(dst) && -128 <= v <= 127 }

  /** The operand that may be memory, when the other is a register; None if both are. */
  function RmOf(dst: Operand, o: Operand): Option<(Byte, Operand)> {
    if dst.InReg? then Some((dst.reg.num, o)) else if o.InReg? then Some((o.reg.num, dst)) else None
  }

  const NOWHERE := InReg(Reg(0, true))

  /** The operand whose override is put in front. */
  function Prefixing(i: Ins): Operand {
    match i
    case AluIns(_, dst, src) => if src.From? && dst.InReg? then src.o else dst
    case MovImm(_, _) => NOWHERE
    case MovSeg(_, _, rm) => rm
    case Mov(to, fro) => if to.InReg? then fro else to
    case MovMem(_, rm, _) => rm
    case Shift(_, _, _) => NOWHERE
  }

  function Opcode(i: Ins): Byte {
    match i
    case AluIns(op, dst, Imm(v)) =>
      if Short(dst, Imm(v)) then (AluCode(op) << 3) | 4 | W(dst.reg.wide)
      else if Tiny(dst, v) then 0x83 else if Wide(dst) then 0x81 else 0x80
    case AluIns(op, dst, From(o)) =>
      if dst.InReg? then (AluCode(op) << 3) | 2 | W(dst.reg.wide) else (AluCode(op) << 3) | 0 | W(Wide(o))
    case MovImm(r, _) => (if r.wide then 0xB8 else 0xB0) + r.num
    case MovSeg(toSeg, _, _) => if toSeg then 0x8E else 0x8C
    case Mov(to, fro) => if to.InReg? then 0x8A | W(to.reg.wide) else 0x88 | W(Wide(fro))
    case MovMem(wide, _, _) => 0xC6 | W(wide)
    case Shift(_, rm, count) => (if count == Times(1) then 0xD0 else if count == ByCl then 0xD2 else 0xC0) | W(Wide(rm))
  }

  function Then(m: Option<seq<Byte>>, rest: seq<Byte>): Option<seq<Byte>> {
    if m.None? then None else Some(m.value + rest)
  }

  /** What follows the opcode; None where the assembler raises an error. */
  function Rest(i: Ins): Option<seq<Byte>> {
    match i
    case AluIns(op, dst, Imm(v)) =>
      if Short(dst, Imm(v)) then Some(Immediate(dst.reg.wide, v))
      else Then(Modrm(AluCode(op), dst), if Tiny(dst, v) then [B(v)] else Immediate(Wide(dst), v))
    case AluIns(_, dst, From(o)) =>
      if RmOf(dst, o).None? then None else Modrm(RmOf(dst, o).value.0, RmOf(dst, o).value.1)
    case MovImm(r, v) => Some(Immediate(r.wide, v))
    case MovSeg(_, sreg, rm) => Modrm(sreg, rm)
    case Mov(to, fro) => if RmOf(to, fro).None? then None else Modrm(RmOf(to, fro).value.0, RmOf(to, fro).value.1)
    case MovMem(wide, rm, v) => Then(Modrm(0, rm), Immediate(wide, v))
    case Shift(op, rm, count) =>
      Then(Modrm(ShiftCode(op), rm), if count.Times? && count.n != 1 then [B(count.n)] else [])
  }

  function Assemble(i: Ins): Option<seq<Byte>> {
    if Rest(i).None? then None else Some(SegBytes(Prefixing(i)) + [Opcode(i)] + Rest(i).value)
  }

  // ---- what the hardware does with them ---------------------------------------------------------

  /** Operands of an ALU or move form, by the direction bit. */
  ghost predicate PairIs(regs: RegFile, s: Stream, p: nat, dst: Operand, o: Operand) {
    if ControlOf(s, p).dirToReg then dst.InReg? && RegIs(s, p, dst.reg) && RmIs(regs, s, p, o)
    else o.InReg? && RegIs(s, p, o.reg) && RmIs(regs, s, p, dst)
  }

  ghost predicate DoesAluImm(regs: RegFile, s: Stream, p: nat, op: AluName, dst: Operand, v: int) {
    var c := ControlOf(s, p);
    && c.alu == AluMeant(op) && ImmIs(s, p, c.wordOp, v)
    && (if c.iclass == AluAcc then dst == InReg(Reg(0, c.wordOp)) else c.iclass == Grp1 && RmIs(regs, s, p, dst))
  }

  ghost predicate DoesMovImm(s: Stream, p: nat, r: Reg, v: int) {
    var c := ControlOf(s, p);
    c.iclass == MovImmR && r == Reg(c.opReg, c.wordOp) && ImmIs(s, p, c.wordOp, v)
  }

  ghost predicate DoesShift(regs: RegFile, s: Stream, p: nat, op: ShiftName, rm: Operand, count: Count) {
    var c := ControlOf(s, p);
    && c.iclass == Grp2 && c.alu == ShiftMeant(op) && RmIs(regs, s, p, rm)
    && c.cond == (if count == Times(1) then 0 else if count == ByCl then 1 else 2)
    && (count.Times? && c.cond == 2 ==> ImmIs(s, p, false, count.n))
  }

  /** The instruction at `p` is the one asked for: operation, operands, widths,
      segment and immediate. */
  ghost predicate Does(regs: RegFile, s: Stream, p: nat, i: Ins) {
    match i
    case AluIns(op, dst, Imm(v)) => DoesAluImm(regs, s, p, op, dst, v)
    case AluIns(op, dst, From(o)) =>
      ControlOf(s, p).iclass == AluRm && ControlOf(s, p).alu == AluMeant(op) && PairIs(regs, s, p, dst, o)
    case MovImm(r, v) => DoesMovImm(s, p, r, v)
    case MovSeg(toSeg, sreg, rm) =>
      && ControlOf(s, p).iclass == MovSreg && ControlOf(s, p).dirToReg == toSeg
      && RegField(s(p + 1)) == sreg && RmIs(regs, s, p, rm)
    case Mov(to, fro) => ControlOf(s, p).iclass == MovRm && PairIs(regs, s, p, to, fro)
    case MovMem(wide, rm, v) =>
      && ControlOf(s, p).iclass == MovRmI && ControlOf(s, p).wordOp == wide
      && RmIs(regs, s, p, rm) && ImmIs(s, p, wide, v)
    case Shift(op, rm, count) => DoesShift(regs, s, p, op, rm, count)
  }

  predicate SameWidth(dst: Operand, o: Operand) { dst.InReg? && o.InReg? ==> dst.reg.wide == o.reg.wide }

  /** The asked-for widths fit the form, and its override is one the form writes. */
  predicate Faithful(i: Ins) {
    match i
    case AluIns(_, dst, src) => src.From? ==> SameWidth(dst, src.o)
    case MovImm(_, _) => true
    case MovSeg(_, _, rm) => Wide(rm)
    case Mov(to, fro) => SameWidth(to, fro)
    case MovMem(wide, rm, _) => rm.InReg? ==> rm.reg.wide == wide
    case Shift(_, rm, _) => rm.InMem? ==> rm.seg.None?
  }

  // ---- opcodes ------------------------------------------------------------------------------------

  lemma AluRmOpcode(code: Byte, d: bool, w: bool, m: Byte)
    requires code < 8
    ensures var op := (code << 3) | (if d then 2 else 0) | W(w); var c := ControlWord(op, m);
      && !IsPrefix(op)
      && c.iclass == AluRm && c.hasModrm && c.immBytes == 0
      && c.alu == AluFrom(code) && c.dirToReg == d && c.wordOp == w
  {
    hide AluFrom, DecodeLow, DecodeMid, DecodeHigh, DecodeTop;
  }

  lemma AluAccOpcode(code: Byte, w: bool, m: Byte)
    requires code < 8
    ensures var op := (code << 3) | 4 | W(w); var c := ControlWord(op, m);
      && !IsPrefix(op)
      && c.iclass == AluAcc && !c.hasModrm && c.alu == AluFrom(code) && c.wordOp == w && !c.immSext
      && c.immBytes == (if w then 2 else 1)
  {
    hide AluFrom, DecodeLow, DecodeMid, DecodeHigh, DecodeTop;
  }

  lemma Grp1Opcode(op: Byte, m: Byte)
    requires op in {0x80, 0x81, 0x83}
    ensures var c := ControlWord(op, m);
      && !IsPrefix(op)
      && c.iclass == Grp1 && c.hasModrm && c.alu == AluFrom(RegField(m)) && c.wordOp == (op != 0x80)
      && c.immBytes == (if op == 0x81 then 2 else 1) && c.immSext == (op == 0x83)
  {
    hide AluFrom, RegField, DecodeLow, DecodeAlu, DecodeHigh, DecodeTop;
  }

  lemma MovImmOpcode(r: Reg, m: Byte)
    requires r.num < 8
    ensures var op: Byte := (if r.wide then 0xB8 else 0xB0) + r.num; var c := ControlWord(op, m);
      && !IsPrefix(op)
      && c.iclass == MovImmR && !c.hasModrm && c.opReg == r.num && c.wordOp == r.wide && !c.immSext
      && c.immBytes == (if r.wide then 2 else 1)
  {
    hide AluFrom, DecodeLow, DecodeMid, DecodeAlu, DecodeTop, ShiftFrom;
  }

  lemma MovOpcode(op: Byte, m: Byte)
    requires op in {0x88, 0x89, 0x8A, 0x8B, 0x8C, 0x8E}
    ensures var c := ControlWord(op, m);
      && !IsPrefix(op) && c.hasModrm && c.immBytes == 0
      && c.iclass == (if op in {0x8C, 0x8E} then MovSreg else MovRm)
      && c.dirToReg == (op in {0x8A, 0x8B, 0x8E}) && c.wordOp == (op !in {0x88, 0x8A})
  {
    hide AluFrom, DecodeLow, DecodeHigh, DecodeAlu, DecodeTop;
  }

  lemma MovMemOpcode(wide: bool, m: Byte)
    ensures var op: Byte := 0xC6 | W(wide); var c := ControlWord(op, m);
      && !IsPrefix(op)
      && c.iclass == MovRmI && c.hasModrm && c.wordOp == wide && !c.immSext && c.immBytes == (if wide then 2 else 1)
  {
    hide AluFrom, DecodeLow, DecodeMid, DecodeAlu, DecodeTop, ShiftFrom;
  }

  lemma ShiftOpcode(base: Byte, w: bool, m: Byte)
    requires base in {0xC0, 0xD0, 0xD2}
    ensures var op: Byte := base | W(w); var c := ControlWord(op, m);
      && !IsPrefix(op)
      && c.iclass == Grp2 && c.hasModrm && c.alu == ShiftFrom(RegField(m)) && c.wordOp == w && !c.immSext
      && c.immBytes == (if base == 0xC0 then 1 else 0)
      && c.cond == (if base == 0xD0 then 0 else if base == 0xD2 then 1 else 2)
  {
    hide AluFrom, DecodeLow, DecodeMid, DecodeAlu, ShiftFrom, RegField, DecodeGroup3, DecodeGroup5;
  }

  lemma WidthBit(w: bool)
    ensures 0x8A | W(w) == (if w then 0x8B else 0x8A) && 0x88 | W(w) == (if w then 0x89 else 0x88)
  {
  }

  // ---- the theorem, form by form ----------------------------------------------------------------

  /** ModR/M, then whatever immediate is left. */
  lemma RestOf(s: Stream, at: nat, m: seq<Byte>, imm: seq<Byte>)
    requires Holds(s, at, m + imm)
    ensures Holds(s, at, m) && Holds(s, at + |m|, imm)
  {
    forall k | 0 <= k < |m|
      ensures s(at + k) == m[k]
    {
      assert s(at + k) == (m + imm)[k];
    }
    forall k | 0 <= k < |imm|
      ensures s(at + |m| + k) == imm[k]
    {
      assert s(at + (|m| + k)) == (m + imm)[|m| + k];
    }
  }

  ghost predicate Right(regs: RegFile, i: Ins, s: Stream) {
    var p := |SegBytes(Prefixing(i))|;
    && Prefixed(s, p) && Assemble(i).Some? && LenOf(s, p) == |Assemble(i).value|
    && (Does(regs, s, p, i) <==> Faithful(i))
  }

  lemma AluFromRight(regs: RegFile, i: Ins, s: Stream)
    requires InsOk(i) && i.AluIns? && i.src.From? && Assemble(i).Some? && Holds(s, 0, Assemble(i).value)
    ensures Right(regs, i, s)
  {
    hide AluCode, AluMeant, ShiftCode, ShiftMeant;
    hide ControlWord, RmFits, Modrm, SegBytes, ModField, RegField, RmField, AluFrom;
    hide Holds, RmIsMem, Prefixed, SegOf, DispBytes;
    var p := |SegBytes(Prefixing(i))|;
    var d, w := i.dst.InReg?, if i.dst.InReg? then i.dst.reg.wide else Wide(i.src.o);
    AluRmOpcode(AluCode(i.op), d, w, s(p + 1));
    NamesMeanWhatTheySay(i.op, ShlOp);
    Layout(s, Prefixing(i), Opcode(i), Rest(i).value);
    var (reg, rm) := RmOf(i.dst, i.src.o).value;
    ModrmMeans(regs, reg, rm, s, p);
  }

  lemma MovRight(regs: RegFile, i: Ins, s: Stream)
    requires InsOk(i) && i.Mov? && Assemble(i).Some? && Holds(s, 0, Assemble(i).value)
    ensures Right(regs, i, s)
  {
    hide ControlWord, RmFits, Modrm, SegBytes, ModField, RegField, RmField, AluFrom;
    hide Holds, RmIsMem, Prefixed, SegOf, DispBytes;
    hide W, IsPrefix;
    var p := |SegBytes(Prefixing(i))|;
    WidthBit(if i.to.InReg? then i.to.reg.wide else Wide(i.fro));
    MovOpcode(Opcode(i), s(p + 1));
    Layout(s, Prefixing(i), Opcode(i), Rest(i).value);
    var (reg, rm) := RmOf(i.to, i.fro).value;
    ModrmMeans(regs, reg, rm, s, p);
  }

  lemma MovSegRight(regs: RegFile, i: Ins, s: Stream)
    requires InsOk(i) && i.MovSeg? && Assemble(i).Some? && Holds(s, 0, Assemble(i).value)
    ensures Right(regs, i, s)
  {
    hide ControlWord, RmFits, Modrm, SegBytes, ModField, RegField, RmField, AluFrom;
    hide Holds, RmIsMem, Prefixed, SegOf, DispBytes;
    hide IsPrefix;
    var p := |SegBytes(i.rm)|;
    MovOpcode(Opcode(i), s(p + 1));
    Layout(s, i.rm, Opcode(i), Rest(i).value);
    ModrmMeans(regs, i.sreg, i.rm, s, p);
  }

  lemma AluAccRight(regs: RegFile, i: Ins, s: Stream)
    requires InsOk(i) && i.AluIns? && Short(i.dst, i.src) && Assemble(i).Some? && Holds(s, 0, Assemble(i).value)
    ensures Right(regs, i, s)
  {
    hide AluCode, AluMeant, ShiftCode, ShiftMeant;
    hide ControlWord, RmFits, Modrm, ModField, RegField, RmField, AluFrom, Holds;
    hide RmIsMem, Prefixed, SegOf, DispBytes, ImmIs;
    hide IsPrefix, Immediate, W, RmIs, PairIs, DoesMovImm, DoesShift;
    AluAccOpcode(AluCode(i.op), i.dst.reg.wide, s(1));
    NamesMeanWhatTheySay(i.op, ShlOp);
    Layout(s, i.dst, Opcode(i), Rest(i).value);
    assert !ControlOf(s, 0).hasModrm && ImmAt(s, 0) == 1;
    ImmReads(s, 0, i.dst.reg.wide, i.src.value);
  }

  lemma Grp1Right(regs: RegFile, i: Ins, s: Stream)
    requires InsOk(i) && i.AluIns? && i.src.Imm? && !Short(i.dst, i.src)
    requires Assemble(i).Some? && Holds(s, 0, Assemble(i).value)
    ensures Right(regs, i, s)
  {
    hide AluCode, AluMeant, ShiftCode, ShiftMeant;
    hide ControlWord, RmFits, Modrm, SegBytes, ModField, RegField, RmField, AluFrom, Holds, RmIsMem, Prefixed, SegOf;
    hide DispBytes, ImmIs, IsPrefix, Immediate, B, DispLen;
    var p := |SegBytes(i.dst)|;
    Grp1Opcode(Opcode(i), s(p + 1));
    Layout(s, i.dst, Opcode(i), Rest(i).value);
    var m, v := Modrm(AluCode(i.op), i.dst).value, i.src.value;
    NamesMeanWhatTheySay(i.op, ShlOp);
    var imm := if Tiny(i.dst, v) then [B(v)] else Immediate(Wide(i.dst), v);
    RestOf(s, p + 1, m, imm);
    ModrmMeans(regs, AluCode(i.op), i.dst, s, p);
    assert p + 1 + |m| == ImmAt(s, p);
    if Tiny(i.dst, v) {
      SignedImmReads(s, p, v);
    } else {
      ImmReads(s, p, Wide(i.dst), v);
    }
  }

  lemma MovImmRight(regs: RegFile, i: Ins, s: Stream)
    requires InsOk(i) && i.MovImm? && Assemble(i).Some? && Holds(s, 0, Assemble(i).value)
    ensures Right(regs, i, s)
  {
    hide ControlWord, RmFits, Modrm, ModField, RegField, RmField, AluFrom, Holds;
    hide RmIsMem, Prefixed, SegOf, DispBytes, ImmIs;
    hide IsPrefix, Immediate;
    MovImmOpcode(i.r, s(1));
    Layout(s, NOWHERE, Opcode(i), Rest(i).value);
    ImmReads(s, 0, i.r.wide, i.value);
  }

  lemma MovMemRight(regs: RegFile, i: Ins, s: Stream)
    requires InsOk(i) && i.MovMem? && Assemble(i).Some? && Holds(s, 0, Assemble(i).value)
    ensures Right(regs, i, s)
  {
    hide ControlWord, RmFits, Modrm, SegBytes, ModField, RegField, RmField, AluFrom, Holds, RmIsMem, Prefixed, SegOf;
    hide DispBytes, ImmIs, IsPrefix, Immediate, DispLen, W;
    var p := |SegBytes(i.rm)|;
    MovMemOpcode(i.wide, s(p + 1));
    Layout(s, i.rm, Opcode(i), Rest(i).value);
    var m := Modrm(0, i.rm).value;
    RestOf(s, p + 1, m, Immediate(i.wide, i.value));
    ModrmMeans(regs, 0, i.rm, s, p);
    assert p + 1 + |m| == ImmAt(s, p);
    ImmReads(s, p, i.wide, i.value);
  }

  lemma ShiftRight(regs: RegFile, i: Ins, s: Stream)
    requires InsOk(i) && i.Shift? && Assemble(i).Some? && Holds(s, 0, Assemble(i).value)
    ensures Right(regs, i, s)
  {
    hide AluCode, AluMeant, ShiftCode, ShiftMeant;
    hide ControlWord, RmFits, Modrm, ModField, RegField, RmField, ShiftFrom, Holds, RmIsMem, Prefixed, SegOf;
    hide DispBytes, ImmIs, IsPrefix, DispLen, W, B;
    var base: Byte := if i.count == Times(1) then 0xD0 else if i.count == ByCl then 0xD2 else 0xC0;
    ShiftOpcode(base, Wide(i.rm), s(1));
    Layout(s, NOWHERE, Opcode(i), Rest(i).value);
    var m := Modrm(ShiftCode(i.shift), i.rm).value;
    NamesMeanWhatTheySay(AddOp, i.shift);
    var imm := if i.count.Times? && i.count.n != 1 then [B(i.count.n)] else [];
    RestOf(s, 1, m, imm);
    ModrmMeans(regs, ShiftCode(i.shift), i.rm, s, 0);
    assert 0 + 1 + |m| == ImmAt(s, 0);
    if base == 0xC0 {
      assert Immediate(false, i.count.n) == imm;
      ImmReads(s, 0, false, i.count.n);
    }
  }

  /** ASSEMBLER AND DECODER, EXACTLY. Whatever follows it, an assembled instruction
      decodes to just its own bytes, and to the operation, operands, widths, segment
      and immediate asked for if and only if two register operands are equally wide
      and, for a shift, no segment override was asked for. */
  lemma DecodesAsAssembled(regs: RegFile, i: Ins, s: Stream)
    requires InsOk(i) && Assemble(i).Some? && Holds(s, 0, Assemble(i).value)
    ensures var p := |SegBytes(Prefixing(i))|;
      Prefixed(s, p) && LenOf(s, p) == |Assemble(i).value| && (Does(regs, s, p, i) <==> Faithful(i))
  {
    hide Does, Faithful, Assemble, Holds, Prefixed, LenOf, SegBytes, InsOk, Short;
    match i
    case AluIns(_, dst, src) =>
      if src.From? { AluFromRight(regs, i, s); } else if Short(dst, src) { AluAccRight(regs, i, s); }
      else { Grp1Right(regs, i, s); }
    case MovImm(_, _) => MovImmRight(regs, i, s);
    case MovSeg(_, _, _) => MovSegRight(regs, i, s);
    case Mov(_, _) => MovRight(regs, i, s);
    case MovMem(_, _, _) => MovMemRight(regs, i, s);
    case Shift(_, _, _) => ShiftRight(regs, i, s);
  }

  /** A mode in the table. */
  predicate ModeOk(o: Operand) { o.InMem? && (o.base.Some? || o.index.Some?) ==> RmCode(o.base, o.index).Some? }

  predicate Pairable(dst: Operand, o: Operand) { (dst.InReg? || o.InReg?) && ModeOk(dst) && ModeOk(o) }

  /** The assembler takes everything but two memory operands and modes outside the
      table. An index on its own is outside it. */
  lemma TakesExactly(i: Ins)
    ensures Assemble(i).Some? <==>
      match i
      case AluIns(_, dst, Imm(v)) => ModeOk(dst)
      case AluIns(_, dst, From(o)) => Pairable(dst, o)
      case MovImm(_, _) => true
      case MovSeg(_, _, rm) => ModeOk(rm)
      case Mov(to, fro) => Pairable(to, fro)
      case MovMem(_, rm, _) => ModeOk(rm)
      case Shift(_, rm, _) => ModeOk(rm)
  {
    hide RmCode, ModrmByte, B, Opcode, SegBytes, Immediate;
  }
}
