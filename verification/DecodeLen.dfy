/** modules/decode_len.sv: the whole instruction at the head of the queue, if it
    is all there; and what an instruction is, as a property of the byte stream. */
module DecodeLen {
  import opened Machine
  import opened Decode

  const QUEUE: nat := 6
  const MAX_PREFIXES: nat := 3

  predicate IsSeg(b: Byte) { b == 0x26 || b == 0x2E || b == 0x36 || b == 0x3E }
  predicate IsRep(b: Byte) { b == 0xF2 || b == 0xF3 }
  predicate IsPrefix(b: Byte) { IsSeg(b) || IsRep(b) || b == 0xF0 }

  /** ES, CS, SS, DS. */
  function SegCode(b: Byte): nat {
    if b == 0x26 then 0 else if b == 0x2E then 1 else if b == 0x36 then 2 else 3
  }

  function SignFill(b: Byte): Byte { if b & 0x80 != 0 then 0xFF else 0 }

  // ---- the instruction, as the architecture has it ------------------------

  type Stream = nat -> Byte

  /** The stream starts with exactly `p` prefixes. */
  ghost predicate Prefixed(s: Stream, p: nat) {
    (forall k :: 0 <= k < p ==> IsPrefix(s(k))) && !IsPrefix(s(p))
  }

  /** The last segment override and the last repeat prefix win. */
  ghost function SegOf(s: Stream, p: nat): Option<nat> {
    if p == 0 then None else if IsSeg(s(p - 1)) then Some(SegCode(s(p - 1))) else SegOf(s, p - 1)
  }

  ghost function RepOf(s: Stream, p: nat): Option<bool> {
    if p == 0 then None else if IsRep(s(p - 1)) then Some(s(p - 1) == 0xF3) else RepOf(s, p - 1)
  }

  ghost function ControlOf(s: Stream, p: nat): Control { ControlWord(s(p), s(p + 1)) }

  ghost function DispLen(s: Stream, p: nat): (n: nat)
    ensures n <= 2
  {
    if ControlOf(s, p).hasModrm then DispBytes(s(p + 1)) else 0
  }

  /** Prefixes, opcode, ModR/M, displacement, immediate, in that order. */
  ghost function DispAt(s: Stream, p: nat): nat { p + if ControlOf(s, p).hasModrm then 2 else 1 }
  ghost function ImmAt(s: Stream, p: nat): nat { DispAt(s, p) + DispLen(s, p) }
  ghost function LenOf(s: Stream, p: nat): nat { ImmAt(s, p) + ControlOf(s, p).immBytes }

  ghost function DispOf(s: Stream, p: nat): Word {
    var at := DispAt(s, p);
    if DispLen(s, p) == 0 then ZERO
    else if DispLen(s, p) == 1 then Word(s(at), SignFill(s(at)))
    else Word(s(at), s(at + 1))
  }

  ghost function ImmOfStream(s: Stream, p: nat): Word {
    var at := ImmAt(s, p);
    var c := ControlOf(s, p);
    if c.immBytes == 0 then ZERO
    else if c.immBytes == 1 then Word(s(at), if c.immSext then SignFill(s(at)) else 0)
    else Word(s(at), s(at + 1))
  }

  /** Fields read out of an instruction, by whichever road. */
  datatype Fields = Fields(op: Byte, modrm: Byte, disp: Word, imm: Word, imm2: Word,
                           segEn: bool, seg: nat, repEn: bool, repZ: bool, len: nat)

  /** They are the instruction's, wherever the instruction defines them. */
  ghost predicate Describes(f: Fields, s: Stream, p: nat) {
    var c := ControlOf(s, p);
    var at := ImmAt(s, p);
    && f.op == s(p)
    && (c.hasModrm ==> f.modrm == s(p + 1))
    && f.disp == DispOf(s, p)
    && f.imm == ImmOfStream(s, p)
    && (c.immBytes == 4 ==> f.imm2 == Word(s(at + 2), s(at + 3)))
    && (c.immBytes == 3 ==> f.imm2.lo == s(at + 2))
    && (if SegOf(s, p).Some? then f.segEn && f.seg == SegOf(s, p).value else !f.segEn)
    && (if RepOf(s, p).Some? then f.repEn && f.repZ == RepOf(s, p).value else !f.repEn)
    && f.len == LenOf(s, p)
  }

  // ---- the module ---------------------------------------------------------

  datatype Sight = Sight(valid: bool, nPrefix: nat, hasModrm: bool, immBytes: nat, rmIsMem: bool, fields: Fields)

  function PrefixCount(peek: seq<Byte>): (n: nat)
    requires |peek| == QUEUE
    ensures n <= MAX_PREFIXES
  {
    if !IsPrefix(peek[0]) then 0
    else if !IsPrefix(peek[1]) then 1
    else if !IsPrefix(peek[2]) then 2
    else 3
  }

  function At(peek: seq<Byte>, i: nat): Byte
    requires |peek| == QUEUE
  {
    if i > 5 then 0 else peek[i]
  }

  /** The last of the scanned prefixes that is a segment override. */
  function ScanSeg(peek: seq<Byte>, n: nat): Option<nat>
    requires |peek| == QUEUE && n <= MAX_PREFIXES
  {
    if n == 0 then None else if IsSeg(peek[n - 1]) then Some(SegCode(peek[n - 1])) else ScanSeg(peek, n - 1)
  }

  function ScanRep(peek: seq<Byte>, n: nat): Option<bool>
    requires |peek| == QUEUE && n <= MAX_PREFIXES
  {
    if n == 0 then None else if IsRep(peek[n - 1]) then Some(peek[n - 1] == 0xF3) else ScanRep(peek, n - 1)
  }

  function TakeDisp(peek: seq<Byte>, n: nat, at: nat): Word
    requires |peek| == QUEUE
  {
    if n == 1 then Word(At(peek, at), SignFill(At(peek, at)))
    else if n == 2 then Word(At(peek, at), At(peek, at + 1))
    else ZERO
  }

  /** There is no arm for three bytes. */
  function TakeImm(peek: seq<Byte>, c: Control, at: nat): Word
    requires |peek| == QUEUE
  {
    if c.immBytes == 1 then Word(At(peek, at), if c.immSext then SignFill(At(peek, at)) else 0)
    else if c.immBytes == 2 || c.immBytes == 4 then Word(At(peek, at), At(peek, at + 1))
    else ZERO
  }

  function Look(peek: seq<Byte>, count: nat): Sight
    requires |peek| == QUEUE
  {
    var n := PrefixCount(peek);
    var op, m := peek[n], peek[n + 1];
    var c := ControlWord(op, m);
    var dispLen := if c.hasModrm then DispBytes(m) else 0;
    var dispAt := n + if c.hasModrm then 2 else 1;
    var immAt := dispAt + dispLen;
    var total := immAt + c.immBytes;
    var seg, rep := ScanSeg(peek, n), ScanRep(peek, n);
    Sight(count >= dispAt && count >= total && total <= QUEUE,
        n, c.hasModrm, c.immBytes, RmIsMem(m),
        Fields(op, m, TakeDisp(peek, dispLen, dispAt), TakeImm(peek, c, immAt),
               if c.immBytes == 4 then Word(At(peek, immAt + 2), At(peek, immAt + 3)) else ZERO,
               seg.Some?, if seg.Some? then seg.value else 3,
               rep.Some?, if rep.Some? then rep.value else false,
               total))
  }

  // ---- whole-instruction capture is right, and exactly when ----------------

  /** The first `count` bytes on show are the stream's; the rest may be anything. */
  ghost predicate Shows(peek: seq<Byte>, count: nat, s: Stream, pos: nat) {
    |peek| == QUEUE && count <= QUEUE && forall k :: 0 <= k < count ==> peek[k] == s(pos + k)
  }

  lemma {:induction false} ScansAgree(peek: seq<Byte>, s: Stream, n: nat, count: nat)
    requires Shows(peek, count, s, 0) && n <= MAX_PREFIXES && n <= count
    ensures ScanSeg(peek, n) == SegOf(s, n) && ScanRep(peek, n) == RepOf(s, n)
  {
    if n > 0 { ScansAgree(peek, s, n - 1, count); }
  }

  lemma PrefixesAgree(peek: seq<Byte>, count: nat, s: Stream, p: nat)
    requires Shows(peek, count, s, 0) && Prefixed(s, p) && PrefixCount(peek) < count
    ensures PrefixCount(peek) == if p > MAX_PREFIXES then MAX_PREFIXES else p
  {
  }

  /** The layout found in the queue is the stream's. */
  lemma LayoutAgrees(peek: seq<Byte>, count: nat, s: Stream, p: nat)
    requires Shows(peek, count, s, 0) && Prefixed(s, p) && p <= MAX_PREFIXES && Look(peek, count).valid
    ensures var o := Look(peek, count);
      && o.nPrefix == p && o.fields.op == s(p)
      && o.hasModrm == ControlOf(s, p).hasModrm && o.immBytes == ControlOf(s, p).immBytes
      && ControlWord(peek[p], peek[p + 1]) == ControlOf(s, p)
      && (o.hasModrm ==> o.fields.modrm == s(p + 1) && o.rmIsMem == RmIsMem(s(p + 1)))
      && o.fields.len == LenOf(s, p) <= count
  {
    hide ControlWord, DispBytes, TakeDisp, TakeImm, ScanSeg, ScanRep, PrefixCount, SameShape;
    PrefixesAgree(peek, count, s, p);
    ShapeFollows(s(p), peek[p + 1], s(p + 1));
  }

  lemma ShapeFollows(op: Byte, m: Byte, other: Byte)
    ensures ControlWord(op, m).hasModrm == ControlWord(op, other).hasModrm
    ensures !ControlWord(op, m).hasModrm ==> ControlWord(op, m) == ControlWord(op, other)
    ensures ControlWord(op, m).immBytes <= 4 && (ControlWord(op, m).immBytes == 3 <==> op == 0xC8)
    ensures op == 0xC8 ==> !ControlWord(op, m).hasModrm
    ensures ControlWord(op, m).immSext ==> ControlWord(op, m).immBytes == 1
  {
    hide ControlWord;
    ModrmMattersOnlyIfThere(op, m, other);
  }

  /** NO SOONER AND NO LATER: an instruction behind at most three prefixes is seen
      in the very clock its last byte is in the queue. */
  lemma SeesExactly(peek: seq<Byte>, count: nat, s: Stream, p: nat)
    requires Shows(peek, count, s, 0) && Prefixed(s, p) && p <= MAX_PREFIXES
    ensures Look(peek, count).valid <==> LenOf(s, p) <= count
  {
    hide ControlWord, DispBytes, TakeDisp, TakeImm, ScanSeg, ScanRep, SameShape, PrefixCount;
    if Look(peek, count).valid {
      LayoutAgrees(peek, count, s, p);
    } else if p < count {
      assert PrefixCount(peek) == p by { PrefixesCounted(peek, count, s, p); }
      ShapeFollows(s(p), peek[p + 1], s(p + 1));
    }
  }

  lemma PrefixesCounted(peek: seq<Byte>, count: nat, s: Stream, p: nat)
    requires Shows(peek, count, s, 0) && Prefixed(s, p) && p <= MAX_PREFIXES && p < count
    ensures PrefixCount(peek) == p
  {
  }

  /** ENTER's three operand bytes are all zero, as the missing arm reads them. */
  ghost predicate EnterOfNothing(s: Stream, p: nat) {
    s(p) == 0xC8 ==> s(p + 1) == 0 && s(p + 2) == 0 && s(p + 3) == 0
  }

  /** WHOLE CAPTURE, EXACTLY. When the module says the instruction is there, its
      fields are the instruction's if and only if there are no more prefixes than
      it scans and the opcode is not ENTER with an operand. */
  lemma CapturesExactly(peek: seq<Byte>, count: nat, s: Stream, p: nat)
    requires Shows(peek, count, s, 0) && Prefixed(s, p) && Look(peek, count).valid
    ensures Describes(Look(peek, count).fields, s, p) <==> p <= MAX_PREFIXES && EnterOfNothing(s, p)
  {
    hide ControlWord, DispBytes, PrefixCount, SegOf, RepOf, ScanSeg, ScanRep, SameShape;
    PrefixesAgree(peek, count, s, p);
    if p <= MAX_PREFIXES {
      LayoutAgrees(peek, count, s, p);
      ScansAgree(peek, s, p, count);
      ShapeFollows(s(p), s(p + 1), s(p + 1));
    }
  }

  /** The bytes of a full queue, and NOPs behind them. */
  ghost function Behind(peek: seq<Byte>): Stream
    requires |peek| == QUEUE
  {
    (k: nat) => if k < QUEUE then peek[k] else 0x90
  }

  /** BOTH FAILURES ARE REAL. `ENTER 16, 0` is captured with its frame size gone,
      and MOVSB behind a REP and three overrides is captured as another opcode. */
  lemma WrongCaptures()
    ensures var enter := [0xC8, 0x10, 0x00, 0x00, 0x90, 0x90]; var o := Look(enter, QUEUE);
      o.valid && o.fields.imm == ZERO && Prefixed(Behind(enter), 0) && !Describes(o.fields, Behind(enter), 0)
    ensures var movsb := [0xF3, 0x26, 0x2E, 0x3E, 0xA4, 0x90]; var o := Look(movsb, QUEUE);
      o.valid && o.fields.op == 0x3E && Prefixed(Behind(movsb), 4) && !Describes(o.fields, Behind(movsb), 4)
  {
    hide SegOf, RepOf, DispOf, ImmOfStream;
    var enter, movsb := [0xC8, 0x10, 0x00, 0x00, 0x90, 0x90], [0xF3, 0x26, 0x2E, 0x3E, 0xA4, 0x90];
    CapturesExactly(enter, QUEUE, Behind(enter), 0);
    CapturesExactly(movsb, QUEUE, Behind(movsb), 4);
  }

  lemma {:induction false} ScansSame(peek: seq<Byte>, other: seq<Byte>, n: nat)
    requires |peek| == QUEUE && |other| == QUEUE && n <= MAX_PREFIXES
    requires forall k :: 0 <= k < n ==> peek[k] == other[k]
    ensures ScanSeg(peek, n) == ScanSeg(other, n) && ScanRep(peek, n) == ScanRep(other, n)
  {
    if n > 0 { ScansSame(peek, other, n - 1); }
  }

  /** ... and what it says depends on nothing but the bytes that have arrived. */
  lemma LooksNoFurther(peek: seq<Byte>, other: seq<Byte>, count: nat)
    requires |peek| == QUEUE && |other| == QUEUE && count <= QUEUE
    requires forall k :: 0 <= k < count ==> peek[k] == other[k]
    requires Look(peek, count).valid
    ensures Look(other, count).valid && Look(other, count).hasModrm == Look(peek, count).hasModrm
    ensures Look(peek, count).hasModrm ==> Look(other, count) == Look(peek, count)
    ensures Look(other, count).fields == Look(peek, count).fields.(modrm := Look(other, count).fields.modrm)
  {
    hide ControlWord, DispBytes, SameShape, ScanSeg, ScanRep;
    var n := PrefixCount(peek);
    assert PrefixCount(other) == n;
    ScansSame(peek, other, n);
    ShapeFollows(peek[n], peek[n + 1], other[n + 1]);
  }
}
