/** tools/asm86.py's labels and references: placed, remembered, and resolved. */
module AsmFixups {
  import opened Machine
  import opened Decode
  import opened DecodeLen
  import opened Asm86

  datatype Kind = Rel8 | Rel16 | Abs16

  /** A reference at `at`, for the instruction that ends at `end`. */
  datatype Fixup = Fixup(at: nat, kind: Kind, name: string, end: int)

  datatype Error = Undefined(name: string) | TooFar(name: string) | Duplicate(name: string) | Full | Outside

  function Size(k: Kind): nat { if k == Rel8 then 1 else 2 }

  predicate Apart(f: Fixup, g: Fixup) { f.at + Size(f.kind) <= g.at || g.at + Size(g.kind) <= f.at }

  predicate Recorded(f: Fixup, origin: nat, len: nat) {
    Inside(f, len) && f.end == origin + f.at + Size(f.kind)
  }

  predicate Inside(f: Fixup, len: nat) { f.at + Size(f.kind) <= len }

  /** What the hardware makes of the bytes: the address a relative jump continues at,
      or the word itself. */
  function Reached(b: seq<Byte>, f: Fixup): int
    requires Inside(f, |b|)
  {
    match f.kind
    case Rel8 => (f.end + Value(Word(b[f.at], SignFill(b[f.at])))) % 0x1_0000
    case Rel16 => (f.end + Value(Word(b[f.at], b[f.at + 1]))) % 0x1_0000
    case Abs16 => Value(Word(b[f.at], b[f.at + 1]))
  }

  predicate Lands(b: seq<Byte>, f: Fixup, target: int)
    requires Inside(f, |b|)
  {
    Reached(b, f) == target % 0x1_0000
  }

  function Patch(f: Fixup, target: int): (p: seq<Byte>)
    ensures |p| == Size(f.kind)
  {
    match f.kind
    case Rel8 => [B(target - f.end)]
    case Rel16 => [B(target - f.end), B((target - f.end) % 0x1_0000 / 0x100)]
    case Abs16 => [B(target), B(target / 0x100)]
  }

  lemma HighByte(d: int)
    ensures d % 0x1_0000 / 0x100 == d / 0x100 % 0x100
  {
  }

  lemma SumBack(e: int, t: int, v: int)
    requires v == (t - e) % 0x1_0000
    ensures (e + v) % 0x1_0000 == t % 0x1_0000
  {
  }

  lemma Twice(d: int)
    ensures B(d / 0x100 % 0x100) == B(d / 0x100)
  {
  }

  /** The bytes resolve() writes are the ones the hardware needs. */
  lemma PatchLands(b: seq<Byte>, f: Fixup, target: int)
    requires Inside(f, |b|) && b[f.at..f.at + Size(f.kind)] == Patch(f, target)
    requires f.kind == Rel8 ==> -128 <= target - f.end <= 127
    ensures Lands(b, f, target)
  {
    hide B, Value, SignFill;
    var d := target - f.end;
    var p := Patch(f, target);
    assert b[f.at] == b[f.at..f.at + Size(f.kind)][0] == p[0];
    match f.kind
    case Rel8 =>
      SignedByteReads(d);
      SumBack(f.end, target, Value(Word(B(d), SignFill(B(d)))));
    case Rel16 =>
      assert b[f.at + 1] == b[f.at..f.at + 2][1] == p[1];
      HighByte(d);
      Twice(d);
      WordReads(d);
      SumBack(f.end, target, Value(Word(B(d), B(d / 0x100))));
    case Abs16 =>
      assert b[f.at + 1] == b[f.at..f.at + 2][1] == p[1];
      WordReads(target);
  }

  /** One reference resolve() can resolve. */
  predicate Resolvable(f: Fixup, labels: map<string, int>) {
    f.name in labels && (f.kind == Rel8 ==> -128 <= labels[f.name] - f.end <= 127)
  }

  class Assembler {
    const buf: array<Byte>
    const origin: nat
    var pos: nat
    var labels: map<string, int>
    var fixups: seq<Fixup>

    /** Every reference is inside the image, and `end` is the IP just past it. */
    ghost predicate Valid()
      reads this
    {
      pos <= buf.Length && forall k :: 0 <= k < |fixups| ==> Recorded(fixups[k], origin, buf.Length)
    }

    /** No reference is at or past the current position, and none overlap: so it is as
        long as org() only moves forward. */
    ghost predicate Forward()
      reads this
    {
      && (forall k :: 0 <= k < |fixups| ==> fixups[k].at + Size(fixups[k].kind) <= pos)
      && (forall j, k :: 0 <= j < k < |fixups| ==> Apart(fixups[j], fixups[k]))
    }

    constructor (size: nat, start: nat)
      ensures Valid() && Forward() && fresh(buf) && buf.Length == size && origin == start
      ensures pos == 0 && labels == map[] && fixups == []
      ensures forall k :: 0 <= k < size ==> buf[k] == 0
    {
      buf := new Byte[size](_ => 0);
      origin, pos, labels, fixups := start, 0, map[], [];
    }

    function Here(): int
      reads this
    {
      origin + pos
    }

    method Org(offset: int) returns (e: Option<Error>)
      requires Valid()
      modifies `pos
      ensures e == (if 0 <= offset - origin <= buf.Length then None else Some(Outside))
      ensures if e.None? then pos == offset - origin else pos == old(pos)
      ensures Valid() && (old(Forward()) && pos >= old(pos) ==> Forward())
    {
      if !(0 <= offset - origin <= buf.Length) { return Some(Outside); }
      pos := offset - origin;
      return None;
    }

    method Label(name: string) returns (e: Option<Error>)
      requires Valid()
      modifies `labels
      ensures e == if name in old(labels) then Some(Duplicate(name)) else None
      ensures labels == if name in old(labels) then old(labels) else old(labels)[name := Here()]
      ensures Valid()
    {
      if name in labels { return Some(Duplicate(name)); }
      labels := labels[name := Here()];
      return None;
    }

    method Db(b: Byte) returns (e: Option<Error>)
      requires Valid()
      modifies `pos, buf
      ensures Valid() && (old(Forward()) ==> Forward())
      ensures e == if old(pos) < buf.Length then None else Some(Full)
      ensures if e.None? then pos == old(pos) + 1 && buf[..] == old(buf[..])[old(pos) := b]
              else pos == old(pos) && buf[..] == old(buf[..])
    {
      if pos >= buf.Length { return Some(Full); }
      buf[pos] := b;
      pos := pos + 1;
      return None;
    }

    /** Room for the reference, and a note of it. */
    method Ref(kind: Kind, name: string) returns (e: Option<Error>)
      requires Valid()
      modifies `pos, `fixups, buf
      ensures e == if old(pos) + Size(kind) <= buf.Length then None else Some(Full)
      ensures e.None? ==>
        && Valid() && (old(Forward()) ==> Forward())
        && pos == old(pos) + Size(kind)
        && fixups == old(fixups) + [Fixup(old(pos), kind, name, Here())]
        && forall k :: 0 <= k < buf.Length && !(old(pos) <= k < pos) ==> buf[k] == old(buf[k])
    {
      var at := pos;
      e := Db(0);
      if e.None? && kind != Rel8 { e := Db(0); }
      if e.None? { fixups := fixups + [Fixup(at, kind, name, Here())]; }
    }

    /** REFERENCES LAND. It succeeds exactly when every label is placed and every
        short jump is in range; then each reference that no later one overlaps takes
        the hardware to its label, and no other byte has changed. */
    method Resolve() returns (e: Option<Error>)
      requires Valid()
      modifies buf
      ensures Valid()
      ensures e.None? <==> forall k :: 0 <= k < |fixups| ==> Resolvable(fixups[k], labels)
      ensures e.None? ==>
        forall k :: 0 <= k < |fixups| && Last(k, |fixups|) ==> Lands(buf[..], fixups[k], labels[fixups[k].name])
      ensures e.None? && Forward() ==>
        forall k :: 0 <= k < |fixups| ==> Lands(buf[..], fixups[k], labels[fixups[k].name])
      ensures forall x :: 0 <= x < buf.Length && !Covered(x, |fixups|) ==> buf[x] == old(buf[x])
    {
      hide Lands, Patch;
      for i := 0 to |fixups|
        invariant forall k :: 0 <= k < i ==> Resolvable(fixups[k], labels)
        invariant forall k :: 0 <= k < i && Last(k, i) ==> Lands(buf[..], fixups[k], labels[fixups[k].name])
        invariant forall x :: 0 <= x < buf.Length && !Covered(x, |fixups|) ==> buf[x] == old(buf[x])
      {
        var f := fixups[i];
        if f.name !in labels { return Some(Undefined(f.name)); }
        if f.kind == Rel8 && !(-128 <= labels[f.name] - f.end <= 127) { return Some(TooFar(f.name)); }
        ghost var was := buf[..];
        Store(f.at, Patch(f, labels[f.name]));
        PatchLands(buf[..], f, labels[f.name]);
        forall k | 0 <= k < i && Last(k, i + 1)
          ensures Lands(buf[..], fixups[k], labels[fixups[k].name])
        {
          assert Last(k, i);
          assert Apart(fixups[k], f);
          LandsStill(was, buf[..], fixups[k], labels[fixups[k].name]);
        }
        forall x | 0 <= x < buf.Length && !Covered(x, |fixups|)
          ensures buf[x] == old(buf[x])
        {
          assert !(f.at <= x < f.at + Size(f.kind));
        }
      }
      return None;
    }

    method Store(at: nat, p: seq<Byte>)
      requires at + |p| <= buf.Length
      modifies buf
      ensures buf[at..at + |p|] == p
      ensures forall k :: 0 <= k < buf.Length && !(at <= k < at + |p|) ==> buf[k] == old(buf[k])
    {
      for i := 0 to |p|
        invariant forall k :: 0 <= k < i ==> buf[at + k] == p[k]
        invariant forall k :: 0 <= k < buf.Length && !(at <= k < at + i) ==> buf[k] == old(buf[k])
      {
        buf[at + i] := p[i];
      }
    }

    /** No reference from `k` up to `n` overlaps reference `k`. */
    ghost predicate Last(k: nat, n: nat)
      reads this
      requires k < n <= |fixups|
    {
      forall m :: k < m < n ==> Apart(fixups[k], fixups[m])
    }

    ghost predicate Covered(x: nat, n: nat)
      reads this
      requires n <= |fixups|
    {
      exists k :: 0 <= k < n && fixups[k].at <= x < fixups[k].at + Size(fixups[k].kind)
    }
  }

  lemma LandsStill(was: seq<Byte>, b: seq<Byte>, f: Fixup, target: int)
    requires |b| == |was| && Inside(f, |b|) && Lands(was, f, target)
    requires forall k :: f.at <= k < f.at + Size(f.kind) ==> b[k] == was[k]
    ensures Lands(b, f, target)
  {
    hide Value, SignFill;
  }
}
