/** modules/decode.sv: an opcode and its ModR/M byte to a control word. */
module Decode {
  import opened Machine

  datatype Class =
    | Illegal | AluRm | AluAcc | Grp1 | MovRm | MovImmR | MovRmI | MovAcc | IncDecR | PushR | PopR
    | Jcc | JmpShort | JmpNear | CallNear | RetNear | Loop | Grp2 | Grp3 | Grp5 | FlagOp | XchgR
    | NoOp | Hlt | Lea | TestRm | TestAcc | XchgRm | IntImm | Int3 | Into | Iret | In | Out
    | MovSreg | JmpFar | CallFar | Retf | Movs | Cmps | Stos | Lods | Scas | Ins | Outs
    | SregStk | FlagStk | AhFlags | SignExt | Bcd | Ascii | Xlat | LesLds | PopRm | PushImm
    | Pusha | Popa | Enter | Leave | Bound | ImulImm

  datatype Alu =
    | Add | Sub | Cmp | Inc | Dec | Neg | And | Or | Xor | Not | Test | Shl | Shr | Sar
    | Rol | Ror | Rcl | Rcr | Mul | Imul | Div | Idiv | Adc | Sbb

  /** `immBytes` is 0 to 4; `opReg` and `cond` are the fields they are cut from. */
  datatype Control = Control(
    iclass: Class, hasModrm: bool, wordOp: bool, dirToReg: bool, alu: Alu,
    immBytes: nat, immSext: bool, opReg: Byte, cond: Byte)

  function ModField(m: Byte): Byte { m >> 6 }
  function RegField(m: Byte): Byte { (m >> 3) & 7 }
  function RmField(m: Byte): Byte { m & 7 }

  predicate RmIsMem(m: Byte) { ModField(m) != 3 }

  function DispBytes(m: Byte): (n: nat)
    ensures n <= 2
  {
    if ModField(m) == 0 then (if RmField(m) == 6 then 2 else 0)
    else if ModField(m) == 1 then 1
    else if ModField(m) == 2 then 2
    else 0
  }

  function AluFrom(sel: Byte): Alu {
    if sel == 0 then Add else if sel == 1 then Or else if sel == 2 then Adc else if sel == 3 then Sbb
    else if sel == 4 then And else if sel == 5 then Sub else if sel == 6 then Xor else Cmp
  }

  function ShiftFrom(sel: Byte): Alu {
    if sel == 0 then Rol else if sel == 1 then Ror else if sel == 2 then Rcl else if sel == 3 then Rcr
    else if sel == 4 then Shl else if sel == 5 then Shr else if sel == 6 then Shl else Sar
  }

  /** The defaults every opcode starts from. */
  function Base(op: Byte): Control {
    Control(Illegal, false, op & 1 == 1, op & 2 == 2, Add, 0, false, op & 7, op & 15)
  }

  function ImmOf(op: Byte): nat { if op & 1 == 1 then 2 else 1 }

  /** 00-3F: the ALU block, segment register stack forms and decimal adjust. */
  function DecodeAlu(op: Byte): Control {
    var c := Base(op).(alu := AluFrom((op >> 3) & 7));
    if op & 7 <= 3 then c.(iclass := AluRm, hasModrm := true)
    else if op & 7 <= 5 then c.(iclass := AluAcc, immBytes := ImmOf(op))
    else if op & 7 == 6 then c.(iclass := SregStk, wordOp := true, dirToReg := false, opReg := (op >> 3) & 3)
    else if op & 0x20 != 0 then c.(iclass := Bcd, cond := (op >> 3) & 7)
    else if (op >> 3) & 3 != 1 then c.(iclass := SregStk, wordOp := true, dirToReg := true, opReg := (op >> 3) & 3)
    else c
  }

  /** 40-7F. */
  function DecodeLow(op: Byte): Control {
    var c := Base(op);
    if op & 0xF0 == 0x40 then c.(iclass := IncDecR, wordOp := true, alu := if op & 8 != 0 then Dec else Inc)
    else if op & 0xF8 == 0x50 then c.(iclass := PushR, wordOp := true)
    else if op & 0xF8 == 0x58 then c.(iclass := PopR, wordOp := true)
    else if op & 0xF0 == 0x70 then c.(iclass := Jcc, immBytes := 1, immSext := true)
    else if op == 0x60 then c.(iclass := Pusha, wordOp := true)
    else if op == 0x61 then c.(iclass := Popa, wordOp := true)
    else if op == 0x62 then c.(iclass := Bound, hasModrm := true, wordOp := true)
    else if op == 0x68 then c.(iclass := PushImm, wordOp := true, immBytes := 2)
    else if op == 0x6A then c.(iclass := PushImm, wordOp := true, immBytes := 1, immSext := true)
    else if op == 0x69 then c.(iclass := ImulImm, hasModrm := true, wordOp := true, alu := Imul, immBytes := 2)
    else if op == 0x6B then
      c.(iclass := ImulImm, hasModrm := true, wordOp := true, alu := Imul, immBytes := 1, immSext := true)
    else if op & 0xFE == 0x6C then c.(iclass := Ins)
    else if op & 0xFE == 0x6E then c.(iclass := Outs)
    else c
  }

  /** 80-9F. */
  function DecodeMid(op: Byte, m: Byte): Control {
    var c := Base(op);
    if op & 0xFC == 0x80 then
      if op & 3 == 2 then c
      else c.(iclass := Grp1, hasModrm := true, alu := AluFrom(RegField(m)),
              immBytes := if op & 3 == 1 then 2 else 1, immSext := op & 3 == 3)
    else if op & 0xFE == 0x84 then c.(iclass := TestRm, hasModrm := true, alu := Test)
    else if op & 0xFE == 0x86 then c.(iclass := XchgRm, hasModrm := true)
    else if op & 0xFC == 0x88 then c.(iclass := MovRm, hasModrm := true)
    else if op & 0xFD == 0x8C then c.(iclass := MovSreg, hasModrm := true, wordOp := true)
    else if op == 0x8D then c.(iclass := Lea, hasModrm := true, wordOp := true)
    else if op == 0x8F then c.(iclass := PopRm, hasModrm := true, wordOp := true)
    else if op == 0x98 then c.(iclass := SignExt, cond := 0)
    else if op == 0x99 then c.(iclass := SignExt, cond := 1)
    else if op == 0x9A then c.(iclass := CallFar, immBytes := 4)
    else if op == 0x9B then c.(iclass := NoOp)
    else if op == 0x9C then c.(iclass := FlagStk, dirToReg := false, wordOp := true)
    else if op == 0x9D then c.(iclass := FlagStk, dirToReg := true, wordOp := true)
    else if op == 0x9E then c.(iclass := AhFlags, cond := 0)
    else if op == 0x9F then c.(iclass := AhFlags, cond := 1)
    else if op == 0x90 then c.(iclass := NoOp)
    else c.(iclass := XchgR, wordOp := true)
  }

  /** A0-CF. */
  function DecodeHigh(op: Byte, m: Byte): Control {
    var c := Base(op);
    if op & 0xFC == 0xA0 then c.(iclass := MovAcc, dirToReg := op & 2 == 0, immBytes := 2)
    else if op & 0xFE == 0xA4 then c.(iclass := Movs)
    else if op & 0xFE == 0xA6 then c.(iclass := Cmps, alu := Cmp)
    else if op & 0xFE == 0xA8 then c.(iclass := TestAcc, alu := Test, immBytes := ImmOf(op))
    else if op & 0xFE == 0xAA then c.(iclass := Stos)
    else if op & 0xFE == 0xAC then c.(iclass := Lods)
    else if op & 0xFE == 0xAE then c.(iclass := Scas, alu := Cmp)
    else if op & 0xF0 == 0xB0 then
      c.(iclass := MovImmR, wordOp := op & 8 != 0, immBytes := if op & 8 != 0 then 2 else 1)
    else if op & 0xFE == 0xC0 then
      c.(iclass := Grp2, hasModrm := true, alu := ShiftFrom(RegField(m)), immBytes := 1, cond := 2)
    else if op == 0xC2 then c.(iclass := RetNear, immBytes := 2)
    else if op == 0xC3 then c.(iclass := RetNear)
    else if op == 0xC4 then c.(iclass := LesLds, hasModrm := true, wordOp := true, opReg := 0)
    else if op == 0xC5 then c.(iclass := LesLds, hasModrm := true, wordOp := true, opReg := 3)
    else if op & 0xFE == 0xC6 then c.(iclass := MovRmI, hasModrm := true, immBytes := ImmOf(op))
    else if op == 0xC8 then c.(iclass := Enter, wordOp := true, immBytes := 3)
    else if op == 0xC9 then c.(iclass := Leave, wordOp := true)
    else if op == 0xCA then c.(iclass := Retf, immBytes := 2)
    else if op == 0xCB then c.(iclass := Retf)
    else if op == 0xCC then c.(iclass := Int3)
    else if op == 0xCD then c.(iclass := IntImm, immBytes := 1)
    else if op == 0xCE then c.(iclass := Into)
    else c.(iclass := Iret)
  }

  /** D0-FF. */
  function DecodeTop(op: Byte, m: Byte): Control {
    var c := Base(op);
    if op & 0xFC == 0xD0 then
      c.(iclass := Grp2, hasModrm := true, alu := ShiftFrom(RegField(m)), cond := if op & 2 != 0 then 1 else 0)
    else if op == 0xD4 then c.(iclass := Ascii, cond := 0, immBytes := 1)
    else if op == 0xD5 then c.(iclass := Ascii, cond := 1, immBytes := 1)
    else if op == 0xD7 then c.(iclass := Xlat, wordOp := false)
    else if op & 0xFC == 0xE0 then c.(iclass := Loop, immBytes := 1, immSext := true, cond := op & 3)
    else if op & 0xFC == 0xE4 then c.(iclass := if op & 2 != 0 then Out else In, immBytes := 1, cond := 0)
    else if op == 0xE8 then c.(iclass := CallNear, immBytes := 2)
    else if op == 0xE9 then c.(iclass := JmpNear, immBytes := 2)
    else if op == 0xEA then c.(iclass := JmpFar, immBytes := 4)
    else if op == 0xEB then c.(iclass := JmpShort, immBytes := 1, immSext := true)
    else if op & 0xFC == 0xEC then c.(iclass := if op & 2 != 0 then Out else In, cond := 1)
    else if op == 0xF4 then c.(iclass := Hlt)
    else if op == 0xF5 then c.(iclass := FlagOp, cond := 0)
    else if op & 0xFE == 0xF6 then DecodeGroup3(op, m)
    else if op == 0xF8 then c.(iclass := FlagOp, cond := 1)
    else if op == 0xF9 then c.(iclass := FlagOp, cond := 2)
    else if op == 0xFA then c.(iclass := FlagOp, cond := 3)
    else if op == 0xFB then c.(iclass := FlagOp, cond := 4)
    else if op == 0xFC then c.(iclass := FlagOp, cond := 5)
    else if op == 0xFD then c.(iclass := FlagOp, cond := 6)
    else if op & 0xFE == 0xFE then DecodeGroup5(op, m)
    else c
  }

  function DecodeGroup3(op: Byte, m: Byte): Control {
    var c := Base(op).(iclass := Grp3, hasModrm := true);
    var sel := RegField(m);
    if sel <= 1 then c.(alu := Test, immBytes := ImmOf(op))
    else c.(alu := if sel == 2 then Not else if sel == 3 then Neg else if sel == 4 then Mul
                   else if sel == 5 then Imul else if sel == 6 then Div else Idiv)
  }

  function DecodeGroup5(op: Byte, m: Byte): Control {
    var c := Base(op).(hasModrm := true);
    var sel := RegField(m);
    if sel == 7 || (op & 1 == 0 && sel > 1) then c
    else c.(iclass := Grp5, alu := if sel == 0 then Inc else if sel == 1 then Dec else Add,
            wordOp := c.wordOp || sel > 1)
  }

  function ControlWord(op: Byte, m: Byte): Control {
    if op < 0x40 then DecodeAlu(op)
    else if op < 0x80 then DecodeLow(op)
    else if op < 0xA0 then DecodeMid(op, m)
    else if op < 0xD0 then DecodeHigh(op, m)
    else DecodeTop(op, m)
  }

  /** Two readings of one opcode agree on its shape as far as they must. */
  predicate SameShape(op: Byte, c: Control, d: Control) {
    && c.hasModrm == d.hasModrm
    && (!c.hasModrm ==> c == d)
    && c.immBytes <= 4
    && (c.immBytes == 3 <==> op == 0xC8)
    && (op == 0xC8 ==> !c.hasModrm)
    && (c.immSext ==> c.immBytes == 1)
  }

  lemma AluShape(op: Byte)
    requires op < 0x40
    ensures SameShape(op, DecodeAlu(op), DecodeAlu(op))
  {
    hide AluFrom;
  }

  lemma LowShape(op: Byte)
    requires 0x40 <= op < 0x80
    ensures SameShape(op, DecodeLow(op), DecodeLow(op))
  {
  }

  lemma MidShape(op: Byte, m: Byte, other: Byte)
    requires 0x80 <= op < 0xA0
    ensures SameShape(op, DecodeMid(op, m), DecodeMid(op, other))
  {
    hide AluFrom, RegField;
  }

  lemma HighShape(op: Byte, m: Byte, other: Byte)
    requires 0xA0 <= op < 0xD0
    ensures SameShape(op, DecodeHigh(op, m), DecodeHigh(op, other))
  {
    hide ShiftFrom, RegField;
  }

  lemma TopShape(op: Byte, m: Byte, other: Byte)
    requires 0xD0 <= op
    ensures SameShape(op, DecodeTop(op, m), DecodeTop(op, other))
  {
    hide ShiftFrom, RegField;
  }

  /** Only a ModR/M byte the opcode asks for can change its decoding, and whether
      it asks for one, never. ENTER alone carries three immediate bytes. */
  lemma ModrmMattersOnlyIfThere(op: Byte, m: Byte, other: Byte)
    ensures SameShape(op, ControlWord(op, m), ControlWord(op, other))
  {
    hide SameShape, DecodeAlu, DecodeLow, DecodeMid, DecodeHigh, DecodeTop;
    if op < 0x40 { AluShape(op); }
    else if op < 0x80 { LowShape(op); }
    else if op < 0xA0 { MidShape(op, m, other); }
    else if op < 0xD0 { HighShape(op, m, other); }
    else { TopShape(op, m, other); }
  }
}
