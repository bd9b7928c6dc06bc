/** The opcode map carried to what is captured: lengths, extensions and kinds in a
    stream of bytes. */
module OpcodeLengths {
  import opened Machine
  import opened Decode
  import opened DecodeLen
  import opened OpcodeMap
  import A = Asm86
  import FP = FetchPath
  import S = Speculation

  /** The rest of what a length depends on. */
  lemma ModrmIsMap(m: Byte)
    ensures DispBytes(m) == Displacement(m) && (RmIsMem(m) <==> m < 0xC0)
  {
  }

  lemma ExtensionIsSign(b: Byte)
    ensures SignFill(b) == if b < 0x80 then 0 else 0xFF
  {
  }

  /** The prefixes: four overrides, eight apart in the order ES, CS, SS, DS; LOCK; and the
      two repeats. None takes anything with it. */
  lemma PrefixesAreMap(b: Byte)
    ensures IsPrefix(b) <==> b in {0x26, 0x2E, 0x36, 0x3E, 0xF0, 0xF2, 0xF3}
    ensures IsRep(b) <==> b in {0xF2, 0xF3}
    ensures IsSeg(b) <==> b in {0x26, 0x2E, 0x36, 0x3E}
    ensures IsSeg(b) ==> b as nat == 0x26 + 8 * SegCode(b)
    ensures IsPrefix(b) ==> !TakesModrm(b) && Following(b, 0) == 0
  {
  }

  // ---- in a stream of bytes ------------------------------------------------------------------

  /** The bytes of an instruction behind `p` prefixes, by the map. */
  ghost function Bytes(s: Stream, p: nat): nat {
    p + 1 + (if TakesModrm(s(p)) then 1 + Displacement(s(p + 1)) else 0) + Following(s(p), s(p + 1))
  }

  /** THE LENGTH OF EVERY INSTRUCTION is the map's: prefixes, opcode and what follows it.
      The capture theorems' length is this one. */
  lemma LengthIsMap(s: Stream, p: nat)
    ensures LenOf(s, p) == Bytes(s, p)
  {
    hide ControlWord, DispBytes, Displacement, Following, TakesModrm, SignExtends;
    ShapeIsMap(s(p), s(p + 1));
    ModrmIsMap(s(p + 1));
  }

  /** A WHOLE CAPTURE, BY THE MAP: what decode_len takes out of the queue, when it says an
      instruction of at most three prefixes is there, is just that many bytes. */
  lemma CapturesByMap(peek: seq<Byte>, count: nat, s: Stream, p: nat)
    requires Shows(peek, count, s, 0) && Prefixed(s, p) && p <= MAX_PREFIXES && Look(peek, count).valid
    ensures Look(peek, count).fields.len == Bytes(s, p) <= count
  {
    hide Look, Bytes, LenOf, Prefixed, ControlOf;
    LayoutAgrees(peek, count, s, p);
    LengthIsMap(s, p);
  }

  /** What the fetch control acts on: branches it predicts, and jumps it follows early. */
  lemma KindIsMap(s: Stream, p: nat)
    requires !IsOverride(s(p))
    ensures var k := FP.InsnOfStream(s, p).kind;
      && (k == S.Conditional <==> PlaceOf(s(p), s(p + 1)).k in {Jcc, Loop})
      && (k == S.EarlyJump <==> PlaceOf(s(p), s(p + 1)).k in {CallNear, JmpNear, JmpShort})
  {
    hide ControlWord, LenOf, ImmOfStream, PlaceOf;
    InstructionIsMap(s(p), s(p + 1));
  }

  /** Of the last repeat prefix, F3 asks for ZF set and F2 for ZF clear. */
  lemma RepeatIsNamed(s: Stream, p: nat)
    ensures s(p) == 0xF3 ==> RepOf(s, p + 1) == Some(true)
    ensures s(p) == 0xF2 ==> RepOf(s, p + 1) == Some(false)
    ensures s(p) != 0xF3 && s(p) != 0xF2 ==> RepOf(s, p + 1) == RepOf(s, p)
    ensures RepOf(s, 0) == None
  {
  }

  lemma SignedByte(b: Byte)
    ensures A.Value(Word(b, SignFill(b))) == if b < 0x80 then b as nat else b as nat + 0xFF00
  {
    ExtensionIsSign(b);
  }

  predicate ByteBranch(op: Byte) { 0x70 <= op <= 0x7F || op in {0xE0, 0xE1, 0xE2, 0xE3, 0xEB} }

  lemma ByteBranchTakes(op: Byte)
    requires ByteBranch(op)
    ensures TakesByte(op) && SignExtends(op) && !TakesModrm(op)
  {
  }

  /** How far a relative branch jumps, as the fetch control has it: the byte behind the
      opcode as a signed number, or the word. */
  lemma DistanceIsMap(s: Stream, p: nat)
    ensures var rel, d, e := FP.InsnOfStream(s, p).rel, s(p + 1) as nat, s(p + 2) as nat;
      && (ByteBranch(s(p)) ==> rel == if d < 0x80 then d else d + 0xFF00)
      && (s(p) == 0xE8 || s(p) == 0xE9 ==> rel == d + 0x100 * e)
  {
    hide ControlWord, DispBytes, Displacement, SignFill, ByteBranch;
    ShapeIsMap(s(p), s(p + 1));
    if ByteBranch(s(p)) {
      ByteBranchTakes(s(p));
      hide TakesByte, TakesWord, TakesModrm, SignExtends;
      assert ImmOfStream(s, p) == Word(s(p + 1), SignFill(s(p + 1)));
      SignedByte(s(p + 1));
    } else if s(p) == 0xE8 || s(p) == 0xE9 {
      assert ImmOfStream(s, p) == Word(s(p + 1), s(p + 2));
    }
  }
}
