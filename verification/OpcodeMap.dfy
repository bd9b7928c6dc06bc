/** The 80186's opcode map, told by opcodes alone, and modules/decode.sv against it: what
    follows each of the 256, which instruction it is, and what that works on. */
module OpcodeMap {
  import opened Machine
  import opened Decode

  // ---- what follows an opcode ----------------------------------------------------------

  /** A ModR/M byte. */
  predicate TakesModrm(op: Byte) {
    if op < 0x40 then
      op in {0x00, 0x01, 0x02, 0x03, 0x08, 0x09, 0x0A, 0x0B, 0x10, 0x11, 0x12, 0x13, 0x18, 0x19, 0x1A, 0x1B,
             0x20, 0x21, 0x22, 0x23, 0x28, 0x29, 0x2A, 0x2B, 0x30, 0x31, 0x32, 0x33, 0x38, 0x39, 0x3A, 0x3B}
    else if op < 0x80 then op in {0x62, 0x69, 0x6B}
    else if op < 0xC0 then
      op in {0x80, 0x81, 0x83, 0x84, 0x85, 0x86, 0x87, 0x88, 0x89, 0x8A, 0x8B, 0x8C, 0x8D, 0x8E, 0x8F}
    else op in {0xC0, 0xC1, 0xC4, 0xC5, 0xC6, 0xC7, 0xD0, 0xD1, 0xD2, 0xD3, 0xF6, 0xF7, 0xFE, 0xFF}
  }

  /** One byte of immediate, jump distance or port number. */
  predicate TakesByte(op: Byte) {
    if op < 0x40 then op in {0x04, 0x0C, 0x14, 0x1C, 0x24, 0x2C, 0x34, 0x3C}
    else if op < 0x80 then
      op in {0x6A, 0x6B, 0x70, 0x71, 0x72, 0x73, 0x74, 0x75, 0x76, 0x77, 0x78, 0x79, 0x7A, 0x7B, 0x7C, 0x7D,
             0x7E, 0x7F}
    else if op < 0xC0 then op in {0x80, 0x83, 0xA8, 0xB0, 0xB1, 0xB2, 0xB3, 0xB4, 0xB5, 0xB6, 0xB7}
    else op in {0xC0, 0xC1, 0xC6, 0xCD, 0xD4, 0xD5, 0xE0, 0xE1, 0xE2, 0xE3, 0xE4, 0xE5, 0xE6, 0xE7, 0xEB}
  }

  /** Two bytes: an immediate, a distance, a stack adjustment, or a direct address. */
  predicate TakesWord(op: Byte) {
    if op < 0x40 then op in {0x05, 0x0D, 0x15, 0x1D, 0x25, 0x2D, 0x35, 0x3D}
    else if op < 0x80 then op in {0x68, 0x69}
    else if op < 0xC0 then op in {0x81, 0xA0, 0xA1, 0xA2, 0xA3, 0xA9, 0xB8, 0xB9, 0xBA, 0xBB, 0xBC, 0xBD, 0xBE, 0xBF}
    else op in {0xC2, 0xC7, 0xCA, 0xE8, 0xE9}
  }

  /** That byte counts as a signed word. */
  predicate SignExtends(op: Byte) {
    if op < 0x40 then false
    else if op < 0x80 then
      op in {0x6A, 0x6B, 0x70, 0x71, 0x72, 0x73, 0x74, 0x75, 0x76, 0x77, 0x78, 0x79, 0x7A, 0x7B, 0x7C, 0x7D,
             0x7E, 0x7F}
    else if op < 0xC0 then op in {0x83}
    else op in {0xE0, 0xE1, 0xE2, 0xE3, 0xEB}
  }

  /** /n of the ModR/M byte. */
  predicate Slash(m: Byte, n: Byte) { m & 0x38 == n << 3 }

  /** A far pointer has four bytes and ENTER's operands three; of the group F6 and F7
      only TEST has an immediate. */
  function Following(op: Byte, m: Byte): nat {
    if TakesByte(op) then 1 else if TakesWord(op) then 2
    else if op == 0x9A || op == 0xEA then 4
    else if op == 0xC8 then 3
    else if (op == 0xF6 || op == 0xF7) && (Slash(m, 0) || Slash(m, 1)) then (if op == 0xF6 then 1 else 2)
    else 0
  }

  /** Bytes of displacement, by mode, and for the direct addresses. */
  function Displacement(m: Byte): nat {
    if m < 0x40 then (if m in {0x06, 0x0E, 0x16, 0x1E, 0x26, 0x2E, 0x36, 0x3E} then 2 else 0)
    else if m < 0x80 then 1 else if m < 0xC0 then 2 else 0
  }

  // ---- which instruction it is ------------------------------------------------------------

  /** One place in the map: the instruction, and where it has them its operation, width,
      direction, register number and variant. */
  datatype Place = Place(k: Class, alu: Option<Alu>, word: Option<bool>, toReg: Option<bool>,
                         reg: Option<Byte>, variant: Option<Byte>)

  function Just(k: Class): Place { Place(k, None, None, None, None, None) }
  function Sized(k: Class, word: bool): Place { Place(k, None, Some(word), None, None, None) }
  function Doing(k: Class, a: Alu, word: bool): Place { Place(k, Some(a), Some(word), None, None, None) }
  function Moving(k: Class, word: bool, toReg: bool): Place { Place(k, None, Some(word), Some(toReg), None, None) }
  function On(k: Class, word: bool, reg: Byte): Place { Place(k, None, Some(word), None, Some(reg), None) }
  function As(k: Class, variant: Byte): Place { Place(k, None, None, None, None, Some(variant)) }
  function Port(k: Class, word: bool, variant: Byte): Place { Place(k, None, Some(word), None, None, Some(variant)) }

  /** The first six opcodes of each eight up to 3F. */
  function Block(form: Byte, a: Alu): Place {
    match form
    case 0 => Doing(AluRm, a, false).(toReg := Some(false))
    case 1 => Doing(AluRm, a, true).(toReg := Some(false))
    case 2 => Doing(AluRm, a, false).(toReg := Some(true))
    case 3 => Doing(AluRm, a, true).(toReg := Some(true))
    case 4 => Doing(AluAcc, a, false)
    case _ => Doing(AluAcc, a, true)
  }

  function Stack(sreg: Byte, pop: bool): Place { Place(SregStk, None, Some(true), Some(pop), Some(sreg), None) }

  /** 00-3F. */
  function Row0(op: Byte): Place {
    if op <= 0x05 then Block(op, Add) else if op == 0x06 then Stack(0, false) else if op == 0x07 then Stack(0, true)
    else if op <= 0x0D then Block(op - 0x08, Or) else if op == 0x0E then Stack(1, false) else Just(Illegal)
  }

  function Row1(op: Byte): Place {
    if op <= 0x15 then Block(op - 0x10, Adc)
    else if op == 0x16 then Stack(2, false) else if op == 0x17 then Stack(2, true)
    else if op <= 0x1D then Block(op - 0x18, Sbb) else if op == 0x1E then Stack(3, false) else Stack(3, true)
  }

  function Row2(op: Byte): Place {
    if op <= 0x25 then Block(op - 0x20, And) else if op == 0x27 then As(Bcd, 4)
    else if op <= 0x2D then Block(op - 0x28, Sub) else As(Bcd, 5)
  }

  function Row3(op: Byte): Place {
    if op <= 0x35 then Block(op - 0x30, Xor) else if op == 0x37 then As(Bcd, 6)
    else if op <= 0x3D then Block(op - 0x38, Cmp) else As(Bcd, 7)
  }

  /** INC and DEC, PUSH and POP, of the register the opcode names. */
  function Row4(op: Byte): Place {
    if op <= 0x47 then On(IncDecR, true, op - 0x40).(alu := Some(Inc))
    else On(IncDecR, true, op - 0x48).(alu := Some(Dec))
  }

  function Row5(op: Byte): Place {
    if op <= 0x57 then On(PushR, true, op - 0x50) else On(PopR, true, op - 0x58)
  }

  function Row6(op: Byte): Place {
    match op
    case 0x60 => Sized(Pusha, true)
    case 0x61 => Sized(Popa, true)
    case 0x62 => Sized(Bound, true)
    case 0x68 => Sized(PushImm, true)
    case 0x69 => Doing(ImulImm, Imul, true)
    case 0x6A => Sized(PushImm, true)
    case 0x6B => Doing(ImulImm, Imul, true)
    case 0x6C => Sized(Ins, false)
    case 0x6D => Sized(Ins, true)
    case 0x6E => Sized(Outs, false)
    case 0x6F => Sized(Outs, true)
    case _ => Just(Illegal)
  }

  /** The sixteen conditions. */
  function Row7(op: Byte): Place { As(Jcc, op - 0x70) }

  /** The operation a ModR/M byte picks. */
  function AluOfGroup1(m: Byte): Alu {
    if Slash(m, 0) then Add else if Slash(m, 1) then Or else if Slash(m, 2) then Adc else if Slash(m, 3) then Sbb
    else if Slash(m, 4) then And else if Slash(m, 5) then Sub else if Slash(m, 6) then Xor else Cmp
  }

  function AluOfShifts(m: Byte): Alu {
    if Slash(m, 0) then Rol else if Slash(m, 1) then Ror else if Slash(m, 2) then Rcl else if Slash(m, 3) then Rcr
    else if Slash(m, 5) then Shr else if Slash(m, 7) then Sar else Shl
  }

  function AluOfGroup3(m: Byte): Alu {
    if Slash(m, 2) then Not else if Slash(m, 3) then Neg else if Slash(m, 4) then Mul else if Slash(m, 5) then Imul
    else if Slash(m, 6) then Div else if Slash(m, 7) then Idiv else Test
  }

  function Row8(op: Byte, m: Byte): Place {
    match op
    case 0x80 => Doing(Grp1, AluOfGroup1(m), false)
    case 0x81 => Doing(Grp1, AluOfGroup1(m), true)
    case 0x82 => Just(Illegal)
    case 0x83 => Doing(Grp1, AluOfGroup1(m), true)
    case 0x84 => Doing(TestRm, Test, false)
    case 0x85 => Doing(TestRm, Test, true)
    case 0x86 => Sized(XchgRm, false)
    case 0x87 => Sized(XchgRm, true)
    case 0x88 => Moving(MovRm, false, false)
    case 0x89 => Moving(MovRm, true, false)
    case 0x8A => Moving(MovRm, false, true)
    case 0x8B => Moving(MovRm, true, true)
    case 0x8C => Moving(MovSreg, true, false)
    case 0x8D => Sized(Lea, true)
    case 0x8E => Moving(MovSreg, true, true)
    case _ => Sized(PopRm, true)
  }

  function Row9(op: Byte): Place {
    if op == 0x90 then Just(NoOp) else if op <= 0x97 then On(XchgR, true, op - 0x90)
    else match op
      case 0x98 => As(SignExt, 0)
      case 0x99 => As(SignExt, 1)
      case 0x9A => Just(CallFar)
      case 0x9B => Just(NoOp)
      case 0x9C => Moving(FlagStk, true, false)
      case 0x9D => Moving(FlagStk, true, true)
      case 0x9E => As(AhFlags, 0)
      case _ => As(AhFlags, 1)
  }

  /** Moves between AL or AX and a direct address, TEST, and the string operations. */
  function RowA(op: Byte): Place {
    match op
    case 0xA0 => Moving(MovAcc, false, true)
    case 0xA1 => Moving(MovAcc, true, true)
    case 0xA2 => Moving(MovAcc, false, false)
    case 0xA3 => Moving(MovAcc, true, false)
    case 0xA4 => Sized(Movs, false)
    case 0xA5 => Sized(Movs, true)
    case 0xA6 => Doing(Cmps, Cmp, false)
    case 0xA7 => Doing(Cmps, Cmp, true)
    case 0xA8 => Doing(TestAcc, Test, false)
    case 0xA9 => Doing(TestAcc, Test, true)
    case 0xAA => Sized(Stos, false)
    case 0xAB => Sized(Stos, true)
    case 0xAC => Sized(Lods, false)
    case 0xAD => Sized(Lods, true)
    case 0xAE => Doing(Scas, Cmp, false)
    case _ => Doing(Scas, Cmp, true)
  }

  function RowB(op: Byte): Place {
    if op <= 0xB7 then On(MovImmR, false, op - 0xB0) else On(MovImmR, true, op - 0xB8)
  }

  function RowC(op: Byte, m: Byte): Place {
    match op
    case 0xC0 => Doing(Grp2, AluOfShifts(m), false).(variant := Some(2))
    case 0xC1 => Doing(Grp2, AluOfShifts(m), true).(variant := Some(2))
    case 0xC2 => Just(RetNear)
    case 0xC3 => Just(RetNear)
    case 0xC4 => On(LesLds, true, 0)
    case 0xC5 => On(LesLds, true, 3)
    case 0xC6 => Sized(MovRmI, false)
    case 0xC7 => Sized(MovRmI, true)
    case 0xC8 => Sized(Enter, true)
    case 0xC9 => Sized(Leave, true)
    case 0xCA => Just(Retf)
    case 0xCB => Just(Retf)
    case 0xCC => Just(Int3)
    case 0xCD => Just(IntImm)
    case 0xCE => Just(Into)
    case _ => Just(Iret)
  }

  /** Shifts by one and by CL; there is no coprocessor to escape to. */
  function RowD(op: Byte, m: Byte): Place {
    match op
    case 0xD0 => Doing(Grp2, AluOfShifts(m), false).(variant := Some(0))
    case 0xD1 => Doing(Grp2, AluOfShifts(m), true).(variant := Some(0))
    case 0xD2 => Doing(Grp2, AluOfShifts(m), false).(variant := Some(1))
    case 0xD3 => Doing(Grp2, AluOfShifts(m), true).(variant := Some(1))
    case 0xD4 => As(Ascii, 0)
    case 0xD5 => As(Ascii, 1)
    case 0xD7 => Sized(Xlat, false)
    case _ => Just(Illegal)
  }

  /** Loops; ports from the instruction, and from DX; calls and jumps. */
  function RowE(op: Byte): Place {
    match op
    case 0xE4 => Port(In, false, 0)
    case 0xE5 => Port(In, true, 0)
    case 0xE6 => Port(Out, false, 0)
    case 0xE7 => Port(Out, true, 0)
    case 0xE8 => Just(CallNear)
    case 0xE9 => Just(JmpNear)
    case 0xEA => Just(JmpFar)
    case 0xEB => Just(JmpShort)
    case 0xEC => Port(In, false, 1)
    case 0xED => Port(In, true, 1)
    case 0xEE => Port(Out, false, 1)
    case 0xEF => Port(Out, true, 1)
    case _ => As(Loop, op - 0xE0)
  }

  function RowF(op: Byte, m: Byte): Place {
    match op
    case 0xF4 => Just(Hlt)
    case 0xF5 => As(FlagOp, 0)
    case 0xF6 => Doing(Grp3, AluOfGroup3(m), false)
    case 0xF7 => Doing(Grp3, AluOfGroup3(m), true)
    case 0xF8 => As(FlagOp, 1)
    case 0xF9 => As(FlagOp, 2)
    case 0xFA => As(FlagOp, 3)
    case 0xFB => As(FlagOp, 4)
    case 0xFC => As(FlagOp, 5)
    case 0xFD => As(FlagOp, 6)
    case 0xFE =>
      if Slash(m, 0) then Doing(Grp5, Inc, false) else if Slash(m, 1) then Doing(Grp5, Dec, false) else Just(Illegal)
    case 0xFF =>
      if Slash(m, 0) then Doing(Grp5, Inc, true) else if Slash(m, 1) then Doing(Grp5, Dec, true)
      else if Slash(m, 7) then Just(Illegal) else Sized(Grp5, true)
    case _ => Just(Illegal)
  }

  /** The whole map. */
  function PlaceOf(op: Byte, m: Byte): Place {
    match op >> 4
    case 0 => Row0(op) case 1 => Row1(op) case 2 => Row2(op) case 3 => Row3(op)
    case 4 => Row4(op) case 5 => Row5(op) case 6 => Row6(op) case 7 => Row7(op)
    case 8 => Row8(op, m) case 9 => Row9(op) case 10 => RowA(op) case 11 => RowB(op)
    case 12 => RowC(op, m) case 13 => RowD(op, m) case 14 => RowE(op) case _ => RowF(op, m)
  }

  // ---- the decoder is the map ----------------------------------------------------------------

  predicate ShapeFits(c: Control, op: Byte, m: Byte) {
    (c.hasModrm <==> TakesModrm(op)) && c.immBytes == Following(op, m) && (c.immSext <==> SignExtends(op))
  }

  predicate Fits(c: Control, p: Place) {
    && c.iclass == p.k
    && (p.alu.Some? ==> c.alu == p.alu.value) && (p.word.Some? ==> c.wordOp == p.word.value)
    && (p.toReg.Some? ==> c.dirToReg == p.toReg.value) && (p.reg.Some? ==> c.opReg == p.reg.value)
    && (p.variant.Some? ==> c.cond == p.variant.value)
  }

  /** Segment overrides are never decoded as opcodes. */
  predicate IsOverride(op: Byte) { op in {0x26, 0x2E, 0x36, 0x3E} }

  lemma GroupsAgree(m: Byte)
    ensures AluOfGroup1(m) == AluFrom(RegField(m)) && AluOfShifts(m) == ShiftFrom(RegField(m))
  {
  }

  lemma Decodes0(op: Byte)
    requires op >> 4 == 0
    ensures Fits(DecodeAlu(op), Row0(op))
  {
  }

  lemma Decodes1(op: Byte)
    requires op >> 4 == 1
    ensures Fits(DecodeAlu(op), Row1(op))
  {
  }

  lemma Decodes2(op: Byte)
    requires op >> 4 == 2 && !IsOverride(op)
    ensures Fits(DecodeAlu(op), Row2(op))
  {
  }

  lemma Decodes3(op: Byte)
    requires op >> 4 == 3 && !IsOverride(op)
    ensures Fits(DecodeAlu(op), Row3(op))
  {
  }

  lemma Decodes4(op: Byte)
    requires op >> 4 == 4
    ensures Fits(DecodeLow(op), Row4(op))
  {
  }

  lemma Decodes5(op: Byte)
    requires op >> 4 == 5
    ensures Fits(DecodeLow(op), Row5(op))
  {
  }

  lemma Decodes6Low(op: Byte)
    requires op >> 4 == 6 && op < 0x68
    ensures Fits(DecodeLow(op), Row6(op))
  {
  }

  lemma Decodes6High(op: Byte)
    requires op >> 4 == 6 && op >= 0x68
    ensures Fits(DecodeLow(op), Row6(op))
  {
  }

  lemma Decodes6(op: Byte)
    requires op >> 4 == 6
    ensures Fits(DecodeLow(op), Row6(op))
  {
    hide Fits, DecodeLow, Row6;
    if op < 0x68 { Decodes6Low(op); } else { Decodes6High(op); }
  }

  lemma Decodes7(op: Byte)
    requires op >> 4 == 7
    ensures Fits(DecodeLow(op), Row7(op))
  {
  }

  lemma Decodes8(op: Byte, m: Byte)
    requires op >> 4 == 8
    ensures Fits(DecodeMid(op, m), Row8(op, m))
  {
    hide AluOfGroup1, AluFrom, RegField;
    GroupsAgree(m);
  }

  lemma Decodes9(op: Byte, m: Byte)
    requires op >> 4 == 9
    ensures Fits(DecodeMid(op, m), Row9(op))
  {
  }

  lemma DecodesALow(op: Byte, m: Byte)
    requires op >> 4 == 10 && op < 0xA8
    ensures Fits(DecodeHigh(op, m), RowA(op))
  {
    hide ShiftFrom, RegField, ImmOf;
  }

  lemma DecodesAHigh(op: Byte, m: Byte)
    requires op >> 4 == 10 && op >= 0xA8
    ensures Fits(DecodeHigh(op, m), RowA(op))
  {
    hide ShiftFrom, RegField, ImmOf;
  }

  lemma DecodesA(op: Byte, m: Byte)
    requires op >> 4 == 10
    ensures Fits(DecodeHigh(op, m), RowA(op))
  {
    hide Fits, DecodeHigh, RowA;
    if op < 0xA8 { DecodesALow(op, m); } else { DecodesAHigh(op, m); }
  }

  lemma DecodesB(op: Byte, m: Byte)
    requires op >> 4 == 11
    ensures Fits(DecodeHigh(op, m), RowB(op))
  {
    hide ShiftFrom, RegField, ImmOf;
  }

  lemma DecodesCLow(op: Byte, m: Byte)
    requires op >> 4 == 12 && op < 0xC8
    ensures Fits(DecodeHigh(op, m), RowC(op, m))
  {
    hide AluOfShifts, ShiftFrom, RegField;
    GroupsAgree(m);
  }

  lemma DecodesCHigh(op: Byte, m: Byte)
    requires op >> 4 == 12 && op >= 0xC8
    ensures Fits(DecodeHigh(op, m), RowC(op, m))
  {
    hide AluOfShifts, ShiftFrom, RegField;
    GroupsAgree(m);
  }

  lemma DecodesC(op: Byte, m: Byte)
    requires op >> 4 == 12
    ensures Fits(DecodeHigh(op, m), RowC(op, m))
  {
    hide Fits, DecodeHigh, RowC;
    if op < 0xC8 { DecodesCLow(op, m); } else { DecodesCHigh(op, m); }
  }

  lemma DecodesD(op: Byte, m: Byte)
    requires op >> 4 == 13
    ensures Fits(DecodeTop(op, m), RowD(op, m))
  {
    hide AluOfShifts, ShiftFrom, RegField, DecodeGroup3, DecodeGroup5;
    GroupsAgree(m);
  }

  lemma DecodesE(op: Byte, m: Byte)
    requires op >> 4 == 14
    ensures Fits(DecodeTop(op, m), RowE(op))
  {
    hide DecodeGroup3, DecodeGroup5;
  }

  lemma DecodesF0(op: Byte, m: Byte)
    requires op >> 4 == 15 && op < 0xF8 && op < 0xF6
    ensures Fits(DecodeTop(op, m), RowF(op, m))
  {
    hide ShiftFrom, RegField, DecodeGroup3, DecodeGroup5, AluOfGroup3, Slash;
  }

  lemma DecodesF6(op: Byte, m: Byte)
    requires op >> 4 == 15 && op < 0xF8 && op >= 0xF6
    ensures Fits(DecodeTop(op, m), RowF(op, m))
  {
    hide ShiftFrom, DecodeGroup5;
  }

  lemma DecodesFLow(op: Byte, m: Byte)
    requires op >> 4 == 15 && op < 0xF8
    ensures Fits(DecodeTop(op, m), RowF(op, m))
  {
    hide Fits, DecodeTop, RowF;
    if op < 0xF6 { DecodesF0(op, m); } else { DecodesF6(op, m); }
  }

  lemma DecodesF8(op: Byte, m: Byte)
    requires op >> 4 == 15 && op >= 0xF8 && op < 0xFC
    ensures Fits(DecodeTop(op, m), RowF(op, m))
  {
    hide ShiftFrom, RegField, DecodeGroup3, DecodeGroup5, AluOfGroup3, Slash;
  }

  lemma DecodesFC(op: Byte, m: Byte)
    requires op >> 4 == 15 && op >= 0xF8 && op >= 0xFC
    ensures Fits(DecodeTop(op, m), RowF(op, m))
  {
    hide ShiftFrom, DecodeGroup3, AluOfGroup3;
  }

  lemma DecodesFHigh(op: Byte, m: Byte)
    requires op >> 4 == 15 && op >= 0xF8
    ensures Fits(DecodeTop(op, m), RowF(op, m))
  {
    hide Fits, DecodeTop, RowF;
    if op < 0xFC { DecodesF8(op, m); } else { DecodesFC(op, m); }
  }

  lemma DecodesF(op: Byte, m: Byte)
    requires op >> 4 == 15
    ensures Fits(DecodeTop(op, m), RowF(op, m))
  {
    hide Fits, DecodeTop, RowF;
    if op < 0xF8 { DecodesFLow(op, m); } else { DecodesFHigh(op, m); }
  }

  lemma AluFollows0(op: Byte, m: Byte)
    requires op < 0x40 && op < 0x20 && op < 0x10
    ensures ShapeFits(DecodeAlu(op), op, m)
  {
    hide AluFrom;
  }

  lemma AluFollows1(op: Byte, m: Byte)
    requires op < 0x40 && op < 0x20 && op >= 0x10
    ensures ShapeFits(DecodeAlu(op), op, m)
  {
    hide AluFrom;
  }

  lemma AluFollowsLow(op: Byte, m: Byte)
    requires op < 0x40 && op < 0x20
    ensures ShapeFits(DecodeAlu(op), op, m)
  {
    hide ShapeFits, DecodeAlu;
    if op < 0x10 { AluFollows0(op, m); } else { AluFollows1(op, m); }
  }

  lemma AluFollows2(op: Byte, m: Byte)
    requires op < 0x40 && op >= 0x20 && op < 0x30
    ensures ShapeFits(DecodeAlu(op), op, m)
  {
    hide AluFrom;
  }

  lemma AluFollows3(op: Byte, m: Byte)
    requires op < 0x40 && op >= 0x20 && op >= 0x30
    ensures ShapeFits(DecodeAlu(op), op, m)
  {
    hide AluFrom;
  }

  lemma AluFollowsHigh(op: Byte, m: Byte)
    requires op < 0x40 && op >= 0x20
    ensures ShapeFits(DecodeAlu(op), op, m)
  {
    hide ShapeFits, DecodeAlu;
    if op < 0x30 { AluFollows2(op, m); } else { AluFollows3(op, m); }
  }

  lemma AluFollows(op: Byte, m: Byte)
    requires op < 0x40
    ensures ShapeFits(DecodeAlu(op), op, m)
  {
    hide ShapeFits, DecodeAlu;
    if op < 0x20 { AluFollowsLow(op, m); } else { AluFollowsHigh(op, m); }
  }

  lemma LowFollowsLow(op: Byte, m: Byte)
    requires 0x40 <= op < 0x80 && op < 0x60
    ensures ShapeFits(DecodeLow(op), op, m)
  {
  }

  lemma LowFollowsHigh(op: Byte, m: Byte)
    requires 0x40 <= op < 0x80 && op >= 0x60
    ensures ShapeFits(DecodeLow(op), op, m)
  {
  }

  lemma LowFollows(op: Byte, m: Byte)
    requires 0x40 <= op < 0x80
    ensures ShapeFits(DecodeLow(op), op, m)
  {
    hide ShapeFits, DecodeLow;
    if op < 0x60 { LowFollowsLow(op, m); } else { LowFollowsHigh(op, m); }
  }

  lemma MidFollows80(op: Byte, m: Byte)
    requires 0x80 <= op < 0xA0 && op < 0x90 && op < 0x88
    ensures ShapeFits(DecodeMid(op, m), op, m)
  {
    hide AluFrom, RegField, Slash;
  }

  lemma MidFollows88(op: Byte, m: Byte)
    requires 0x80 <= op < 0xA0 && op < 0x90 && op >= 0x88
    ensures ShapeFits(DecodeMid(op, m), op, m)
  {
    hide AluFrom, RegField, Slash;
  }

  lemma MidFollowsLow(op: Byte, m: Byte)
    requires 0x80 <= op < 0xA0 && op < 0x90
    ensures ShapeFits(DecodeMid(op, m), op, m)
  {
    hide ShapeFits, DecodeMid;
    if op < 0x88 { MidFollows80(op, m); } else { MidFollows88(op, m); }
  }

  lemma MidFollowsHigh(op: Byte, m: Byte)
    requires 0x80 <= op < 0xA0 && op >= 0x90
    ensures ShapeFits(DecodeMid(op, m), op, m)
  {
    hide AluFrom, RegField, Slash;
  }

  lemma MidFollows(op: Byte, m: Byte)
    requires 0x80 <= op < 0xA0
    ensures ShapeFits(DecodeMid(op, m), op, m)
  {
    hide ShapeFits, DecodeMid;
    if op < 0x90 { MidFollowsLow(op, m); } else { MidFollowsHigh(op, m); }
  }

  lemma HighFollowsA0(op: Byte, m: Byte)
    requires 0xA0 <= op < 0xC0 && op < 0xB0 && op < 0xA8
    ensures ShapeFits(DecodeHigh(op, m), op, m)
  {
    hide ShiftFrom, RegField, Slash;
  }

  lemma HighFollowsA8(op: Byte, m: Byte)
    requires 0xA0 <= op < 0xC0 && op < 0xB0 && op >= 0xA8
    ensures ShapeFits(DecodeHigh(op, m), op, m)
  {
    hide ShiftFrom, RegField, Slash;
  }

  lemma HighFollowsLow(op: Byte, m: Byte)
    requires 0xA0 <= op < 0xC0 && op < 0xB0
    ensures ShapeFits(DecodeHigh(op, m), op, m)
  {
    hide ShapeFits, DecodeHigh;
    if op < 0xA8 { HighFollowsA0(op, m); } else { HighFollowsA8(op, m); }
  }

  lemma HighFollowsHigh(op: Byte, m: Byte)
    requires 0xA0 <= op < 0xC0 && op >= 0xB0
    ensures ShapeFits(DecodeHigh(op, m), op, m)
  {
    hide ShiftFrom, RegField, Slash;
  }

  lemma HighFollows(op: Byte, m: Byte)
    requires 0xA0 <= op < 0xC0
    ensures ShapeFits(DecodeHigh(op, m), op, m)
  {
    hide ShapeFits, DecodeHigh;
    if op < 0xB0 { HighFollowsLow(op, m); } else { HighFollowsHigh(op, m); }
  }

  lemma ReturnFollowsLow(op: Byte, m: Byte)
    requires 0xC0 <= op < 0xD0 && op < 0xC8
    ensures ShapeFits(DecodeHigh(op, m), op, m)
  {
    hide ShiftFrom, RegField, Slash;
  }

  lemma ReturnFollowsHigh(op: Byte, m: Byte)
    requires 0xC0 <= op < 0xD0 && op >= 0xC8
    ensures ShapeFits(DecodeHigh(op, m), op, m)
  {
    hide ShiftFrom, RegField, Slash;
  }

  lemma ReturnFollows(op: Byte, m: Byte)
    requires 0xC0 <= op < 0xD0
    ensures ShapeFits(DecodeHigh(op, m), op, m)
  {
    hide ShapeFits, DecodeHigh;
    if op < 0xC8 { ReturnFollowsLow(op, m); } else { ReturnFollowsHigh(op, m); }
  }

  lemma PortFollowsLow(op: Byte, m: Byte)
    requires 0xD0 <= op < 0xF0 && op < 0xE0
    ensures ShapeFits(DecodeTop(op, m), op, m)
  {
    hide ShiftFrom, RegField, Slash, DecodeGroup3, DecodeGroup5;
  }

  lemma PortFollowsHigh(op: Byte, m: Byte)
    requires 0xD0 <= op < 0xF0 && op >= 0xE0
    ensures ShapeFits(DecodeTop(op, m), op, m)
  {
    hide ShiftFrom, RegField, Slash, DecodeGroup3, DecodeGroup5;
  }

  lemma PortFollows(op: Byte, m: Byte)
    requires 0xD0 <= op < 0xF0
    ensures ShapeFits(DecodeTop(op, m), op, m)
  {
    hide ShapeFits, DecodeTop;
    if op < 0xE0 { PortFollowsLow(op, m); } else { PortFollowsHigh(op, m); }
  }

  lemma GroupFollowsLow(op: Byte, m: Byte)
    requires 0xF0 <= op && op < 0xF8
    ensures ShapeFits(DecodeTop(op, m), op, m)
  {
    hide ShiftFrom;
  }

  lemma GroupFollowsHigh(op: Byte, m: Byte)
    requires 0xF0 <= op && op >= 0xF8
    ensures ShapeFits(DecodeTop(op, m), op, m)
  {
    hide ShiftFrom;
  }

  lemma GroupFollows(op: Byte, m: Byte)
    requires 0xF0 <= op
    ensures ShapeFits(DecodeTop(op, m), op, m)
  {
    hide ShapeFits, DecodeTop;
    if op < 0xF8 { GroupFollowsLow(op, m); } else { GroupFollowsHigh(op, m); }
  }

  /** WHAT FOLLOWS EACH OPCODE, for all 256 and every ModR/M byte. */
  lemma ShapeIsMap(op: Byte, m: Byte)
    ensures ShapeFits(ControlWord(op, m), op, m)
  {
    hide ShapeFits, DecodeAlu, DecodeLow, DecodeMid, DecodeHigh, DecodeTop;
    if op < 0x40 { AluFollows(op, m); }
    else if op < 0x80 { LowFollows(op, m); }
    else if op < 0xA0 { MidFollows(op, m); }
    else if op < 0xC0 { HighFollows(op, m); }
    else if op < 0xD0 { ReturnFollows(op, m); }
    else if op < 0xF0 { PortFollows(op, m); }
    else { GroupFollows(op, m); }
  }

  lemma LowRows(op: Byte, m: Byte)
    requires op < 0x80 && !IsOverride(op)
    ensures Fits(ControlWord(op, m), PlaceOf(op, m))
  {
    hide Fits, DecodeAlu, DecodeLow, DecodeMid, DecodeHigh, DecodeTop, Row0, Row1, Row2, Row3, Row4, Row5, Row6, Row7;
    match op >> 4 {
      case 0 => Decodes0(op);
      case 1 => Decodes1(op);
      case 2 => Decodes2(op);
      case 3 => Decodes3(op);
      case 4 => Decodes4(op);
      case 5 => Decodes5(op);
      case 6 => Decodes6(op);
      case _ => Decodes7(op);
    }
  }

  lemma HighRows(op: Byte, m: Byte)
    requires 0x80 <= op
    ensures Fits(ControlWord(op, m), PlaceOf(op, m))
  {
    hide Fits, DecodeAlu, DecodeLow, DecodeMid, DecodeHigh, DecodeTop, Row8, Row9, RowA, RowB, RowC, RowD, RowE, RowF;
    match op >> 4 {
      case 8 => Decodes8(op, m);
      case 9 => Decodes9(op, m);
      case 10 => DecodesA(op, m);
      case 11 => DecodesB(op, m);
      case 12 => DecodesC(op, m);
      case 13 => DecodesD(op, m);
      case 14 => DecodesE(op, m);
      case _ => DecodesF(op, m);
    }
  }

  /** WHICH INSTRUCTION EACH OPCODE IS, and what it works on: its place in the map. What
      has no place is refused. */
  lemma InstructionIsMap(op: Byte, m: Byte)
    requires !IsOverride(op)
    ensures Fits(ControlWord(op, m), PlaceOf(op, m))
  {
    hide Fits, ControlWord, PlaceOf;
    if op < 0x80 { LowRows(op, m); } else { HighRows(op, m); }
  }
}
