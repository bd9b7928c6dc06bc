/** The 12-bit packing of tools/fat12.py, tools/mkdisk.py and tools/addfile.py: two
    entries in every three bytes. */
module FatTable {

  type Octet = n: nat | n < 0x100 witness 0

  /** A value a FAT12 entry can hold. */
  type Entry = n: nat | n < 0x1000 witness 0

  /** Where entry `c` starts: half of 3c, rounded down. */
  function OffsetOf(c: nat): nat { c + c / 2 }

  /** Both bytes entry `c` touches are there. */
  predicate Holds(f: seq<Octet>, c: nat) { OffsetOf(c) + 1 < |f| }

  /** A little-endian pair of bytes. */
  function Le16(lo: nat, hi: nat): nat { lo + 0x100 * hi }

  function Pair(f: seq<Octet>, c: nat): (v: nat)
    requires Holds(f, c)
    ensures v < 0x1_0000
  {
    Le16(f[OffsetOf(c)], f[OffsetOf(c) + 1])
  }

  function Get(f: seq<Octet>, c: nat): (e: Entry)
    requires Holds(f, c)
  {
    if c % 2 == 1 then Pair(f, c) / 16 else Pair(f, c) % 0x1000
  }

  /** The pair with entry `c` replaced and its neighbour's half kept. */
  function Replaced(v: nat, c: nat, e: Entry): (w: nat)
    requires v < 0x1_0000
    ensures w < 0x1_0000
  {
    if c % 2 == 1 then e * 16 + v % 16 else v / 0x1000 * 0x1000 + e
  }

  function Put(f: seq<Octet>, c: nat, e: Entry): (g: seq<Octet>)
    requires Holds(f, c)
    ensures |g| == |f|
  {
    var w := Replaced(Pair(f, c), c, e);
    f[OffsetOf(c) := w % 0x100][OffsetOf(c) + 1 := w / 0x100]
  }

  lemma OffsetsApart(c: nat, d: nat)
    requires c != d
    ensures OffsetOf(c) != OffsetOf(d)
    ensures OffsetOf(c) == OffsetOf(d) + 1 ==> c == d + 1 && d % 2 == 0
    ensures OffsetOf(d) == OffsetOf(c) + 1 ==> d == c + 1 && c % 2 == 0
  {
  }

  lemma PutPair(f: seq<Octet>, c: nat, e: Entry)
    requires Holds(f, c)
    ensures Pair(Put(f, c, e), c) == Replaced(Pair(f, c), c, e)
  {
  }

  lemma PutSame(f: seq<Octet>, c: nat, e: Entry)
    requires Holds(f, c)
    ensures Get(Put(f, c, e), c) == e
  {
    hide Put, Pair;
    PutPair(f, c, e);
  }

  lemma LowNibbleKept(v: nat, e: Entry)
    requires v < 0x1_0000
    ensures (e * 16 + v % 16) % 0x100 % 16 == v % 0x100 % 16
  {
  }

  lemma HighNibbleKept(v: nat, e: Entry)
    requires v < 0x1_0000
    ensures (v / 0x1000 * 0x1000 + e) / 0x100 / 16 == v / 0x100 / 16
  {
    assert (v / 0x1000 * 0x1000 + e) / 0x1000 == v / 0x1000;
  }

  lemma ReplacedHalf(lo: Octet, hi: Octet, c: nat, e: Entry)
    ensures Le16(lo, hi) < 0x1_0000
    ensures var w := Replaced(Le16(lo, hi), c, e);
      (if c % 2 == 1 then w % 0x100 % 16 == lo % 16 else w / 0x100 / 16 == hi / 16)
  {
    var v := Le16(lo, hi);
    assert v % 0x100 == lo && v / 0x100 == hi;
    if c % 2 == 1 { LowNibbleKept(v, e); } else { HighNibbleKept(v, e); }
  }

  /** A byte's neighbours in the same pair are written back unchanged. */
  lemma PutKeepsHalf(f: seq<Octet>, c: nat, e: Entry)
    requires Holds(f, c)
    ensures var g := Put(f, c, e); var o := OffsetOf(c);
      && (c % 2 == 1 ==> g[o] % 16 == f[o] % 16)
      && (c % 2 == 0 ==> g[o + 1] / 16 == f[o + 1] / 16)
      && (forall k :: 0 <= k < |f| && k != o && k != o + 1 ==> g[k] == f[k])
  {
    hide Replaced, Le16, OffsetOf;
    ReplacedHalf(f[OffsetOf(c)], f[OffsetOf(c) + 1], c, e);
  }

  function OddEntry(lo: nat, hi: nat): nat { lo / 16 + 16 * hi }
  function EvenEntry(lo: nat, hi: nat): nat { lo + 0x100 * (hi % 16) }

  lemma GetByNibbles(f: seq<Octet>, c: nat)
    requires Holds(f, c)
    ensures var o := OffsetOf(c);
      Get(f, c) == if c % 2 == 1 then OddEntry(f[o], f[o + 1]) else EvenEntry(f[o], f[o + 1])
  {
  }

  lemma NibblesJoin(a: nat, b: nat, c: nat)
    requires a < 0x100 && b < 0x100 && c < 0x100
    ensures EvenEntry(a, b) + 0x1000 * OddEntry(b, c) == a + 0x100 * b + 0x1_0000 * c
  {
  }

  /** ON DISK the table is a row of 24-bit little-endian numbers, the even entry in
      the low half of each. */
  lemma TwoEntriesInThreeBytes(f: seq<Octet>, k: nat)
    requires 3 * k + 2 < |f|
    ensures Holds(f, 2 * k) && Holds(f, 2 * k + 1)
    ensures var a: nat, b: nat, c: nat := f[3 * k], f[3 * k + 1], f[3 * k + 2];
      var even: nat, odd: nat := Get(f, 2 * k), Get(f, 2 * k + 1);
      even + 0x1000 * odd == a + 0x100 * b + 0x1_0000 * c
  {
    hide Get, OddEntry, EvenEntry;
    assert OffsetOf(2 * k) == 3 * k && OffsetOf(2 * k + 1) == 3 * k + 1;
    hide OffsetOf;
    GetByNibbles(f, 2 * k);
    GetByNibbles(f, 2 * k + 1);
    NibblesJoin(f[3 * k], f[3 * k + 1], f[3 * k + 2]);
  }

  /** Entries do not disturb each other, whatever their parities. */
  lemma PutOther(f: seq<Octet>, c: nat, e: Entry, d: nat)
    requires Holds(f, c) && Holds(f, d) && c != d
    ensures Get(Put(f, c, e), d) == Get(f, d)
  {
    hide Put, Get, Pair, OffsetOf;
    OffsetsApart(c, d);
    PutKeepsHalf(f, c, e);
    GetByNibbles(f, d);
    GetByNibbles(Put(f, c, e), d);
  }

  // ---- packing a whole table -----------------------------------------------------

  /** `_fat_bytes` writes both entries of a pair, so a table of odd length needs the
      third byte of its last pair as well. */
  predicate Fits(entries: nat, bytes: nat) { 3 * ((entries + 1) / 2) <= bytes }

  function PairBytes(lo: Entry, hi: Entry): seq<Octet> {
    [lo % 0x100, lo / 0x100 + hi % 16 * 16, hi / 16]
  }

  lemma NibblesUnpack(lo: Entry, hi: Entry)
    ensures EvenEntry(lo % 0x100, lo / 0x100 + hi % 16 * 16) == lo
    ensures OddEntry(lo / 0x100 + hi % 16 * 16, hi / 16) == hi
  {
  }

  lemma EvenOffset(i: nat)
    requires i % 2 == 0
    ensures OffsetOf(i + 1) == OffsetOf(i) + 1 && OffsetOf(i + 2) == OffsetOf(i) + 3
    ensures OffsetOf(i) == 3 * (i / 2)
  {
  }

  lemma PairBytesUnpack(lo: Entry, hi: Entry, f: seq<Octet>, i: nat)
    requires i % 2 == 0 && OffsetOf(i) + 3 <= |f|
    requires f[OffsetOf(i)..OffsetOf(i) + 3] == PairBytes(lo, hi)
    ensures Holds(f, i) && Holds(f, i + 1) && Get(f, i) == lo && Get(f, i + 1) == hi
  {
    hide OffsetOf, Get, OddEntry, EvenEntry;
    EvenOffset(i);
    var o := OffsetOf(i);
    assert f[o..o + 3][0] == f[o] && f[o..o + 3][1] == f[o + 1] && f[o..o + 3][2] == f[o + 2];
    NibblesUnpack(lo, hi);
    GetByNibbles(f, i);
    GetByNibbles(f, i + 1);
  }

  lemma GetDependsOnItsBytes(f: seq<Octet>, g: seq<Octet>, c: nat)
    requires Holds(f, c) && |g| == |f|
    requires f[OffsetOf(c)] == g[OffsetOf(c)] && f[OffsetOf(c) + 1] == g[OffsetOf(c) + 1]
    ensures Get(f, c) == Get(g, c)
  {
  }

  /** The first `n` entries of `fat` are packed in `f`, with zeros behind. */
  ghost predicate Packed(f: seq<Octet>, fat: seq<Entry>, n: nat) {
    && (forall c :: 0 <= c < n && c < |fat| ==> Holds(f, c) && Get(f, c) == fat[c])
    && (forall k :: OffsetOf(n) <= k < |f| ==> f[k] == 0)
  }

  lemma PairPacked(f: seq<Octet>, g: seq<Octet>, fat: seq<Entry>, i: nat)
    requires i % 2 == 0 && i < |fat| && Packed(f, fat, i) && OffsetOf(i) + 3 <= |f| == |g|
    requires g[OffsetOf(i)..OffsetOf(i) + 3] == PairBytes(fat[i], if i + 1 < |fat| then fat[i + 1] else 0)
    requires forall k :: 0 <= k < |f| && !(OffsetOf(i) <= k < OffsetOf(i) + 3) ==> g[k] == f[k]
    ensures Packed(g, fat, i + 2)
  {
    hide OffsetOf, Get, PairBytes, Holds;
    EvenOffset(i);
    PairBytesUnpack(fat[i], if i + 1 < |fat| then fat[i + 1] else 0, g, i);
    forall c | 0 <= c < i + 2 && c < |fat|
      ensures Holds(g, c) && Get(g, c) == fat[c]
    {
      if c < i { KeptEntry(f, g, c, i); }
    }
  }

  lemma KeptEntry(f: seq<Octet>, g: seq<Octet>, c: nat, i: nat)
    requires c < i && i % 2 == 0 && |f| == |g| && Holds(f, c)
    requires forall k :: 0 <= k < |f| && !(OffsetOf(i) <= k < OffsetOf(i) + 3) ==> g[k] == f[k]
    ensures Holds(g, c) && Get(g, c) == Get(f, c)
  {
    BeforePair(c, i);
    GetDependsOnItsBytes(f, g, c);
  }

  /** The packing loop: fails with an index error exactly when the last pair does
      not fit, and otherwise every entry reads back and the rest is zero. */
  method PackFat(fat: seq<Entry>, bytes: nat) returns (ok: bool, out: array<Octet>)
    ensures ok <==> Fits(|fat|, bytes)
    ensures fresh(out) && out.Length == bytes
    ensures ok ==> Packed(out[..], fat, (|fat| + 1) / 2 * 2)
  {
    hide Get, PairBytes, Packed, OffsetOf;
    out := new Octet[bytes](_ => 0);
    NothingPacked(out[..], fat);
    var i := 0;
    while i < |fat|
      invariant i % 2 == 0 && i <= |fat| + 1 && Fits(i, bytes)
      invariant Packed(out[..], fat, i)
    {
      EvenOffset(i);
      var lo, hi := fat[i], if i + 1 < |fat| then fat[i + 1] else 0;
      var off := OffsetOf(i);
      if off + 2 >= bytes {
        ok := false;
        return;
      }
      ghost var was := out[..];
      StorePair(out, off, lo, hi);
      PairPacked(was, out[..], fat, i);
      i := i + 2;
    }
    ok := true;
  }

  lemma NothingPacked(f: seq<Octet>, fat: seq<Entry>)
    requires forall k :: 0 <= k < |f| ==> f[k] == 0
    ensures Packed(f, fat, 0)
  {
  }

  method StorePair(out: array<Octet>, off: nat, lo: Entry, hi: Entry)
    requires off + 2 < out.Length
    modifies out
    ensures out[off..off + 3] == PairBytes(lo, hi)
    ensures forall k :: 0 <= k < out.Length && !(off <= k < off + 3) ==> out[k] == old(out[k])
  {
    out[off] := lo % 0x100;
    out[off + 1] := lo / 0x100 + hi % 16 * 16;
    out[off + 2] := hi / 16;
  }

  lemma BeforePair(c: nat, i: nat)
    requires c < i && i % 2 == 0
    ensures OffsetOf(c) + 1 < OffsetOf(i)
  {
  }

  /** The constructor's size, (3n + 1) / 2 bytes in whole sectors, is one byte short
      of what packing needs for just the odd tables that would fill it exactly. */
  lemma SizedTableFitsExactly(n: nat, sectors: nat)
    requires (3 * n + 1) / 2 <= sectors * 512
    ensures Fits(n, sectors * 512) <==> !(n % 2 == 1 && (3 * n + 1) / 2 == sectors * 512)
  {
  }
}
