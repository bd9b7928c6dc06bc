/** modules/jtag_loader.sv, IR_DATA: how a stream of bits with junk in front is cut
    into words. */
module JtagFraming {
  import opened Machine

  /** Sixteen bits, the first one shifted in first: bit 0 of the word. */
  type Bits16 = b: seq<bool> | |b| == 16 witness seq(16, _ => false)

  /** 0xB2C1, as it goes over the wire. It is odd, and its top bit is set. */
  const SYNC: Bits16 := [true, false, false, false, false, false, true, true,
                         false, true, false, false, true, true, false, true]

  const ZEROS: Bits16 := [false, false, false, false, false, false, false, false,
                          false, false, false, false, false, false, false, false]

  function Bit(b: bool): nat { if b then 1 else 0 }

  /** What the register says, its bit 0 worth one. */
  function NumberOf(b: Bits16): nat {
    Bit(b[0]) + 2 * Bit(b[1]) + 4 * Bit(b[2]) + 8 * Bit(b[3])
    + 0x10 * (Bit(b[4]) + 2 * Bit(b[5]) + 4 * Bit(b[6]) + 8 * Bit(b[7]))
    + 0x100 * (Bit(b[8]) + 2 * Bit(b[9]) + 4 * Bit(b[10]) + 8 * Bit(b[11]))
    + 0x1000 * (Bit(b[12]) + 2 * Bit(b[13]) + 4 * Bit(b[14]) + 8 * Bit(b[15]))
  }

  lemma SyncIsItsNumber()
    ensures NumberOf(SYNC) == 0xB2C1
  {
  }

  /** data_sr, synced and bitcnt. */
  datatype Framer = Framer(sr: Bits16, synced: bool, cnt: nat)

  /** Every scan starts the hunt afresh. */
  const CAPTURE := Framer(ZEROS, false, 0)

  function Shift(sr: Bits16, bit: bool): Bits16 { sr[1..] + [bit] }

  /** One shift clock. */
  function Step(f: Framer, bit: bool): Framer {
    var sr := Shift(f.sr, bit);
    if !f.synced then Framer(sr, sr == SYNC, f.cnt)
    else Framer(sr, true, if f.cnt == 15 then 0 else f.cnt + 1)
  }

  /** word_done, and the word. */
  function Emits(f: Framer, bit: bool): Option<Bits16> {
    if f.synced && f.cnt == 15 then Some(Shift(f.sr, bit)) else None
  }

  function After(f: Framer, bits: seq<bool>): Framer {
    if bits == [] then f else Step(After(f, bits[..|bits| - 1]), bits[|bits| - 1])
  }

  /** The words framed out of a scan. */
  function Framed(f: Framer, bits: seq<bool>): seq<Bits16> {
    if bits == [] then []
    else
      var before := bits[..|bits| - 1];
      var w := Emits(After(f, before), bits[|bits| - 1]);
      if w.Some? then Framed(f, before) + [w.value] else Framed(f, before)
  }

  lemma {:induction false} AfterJoins(f: Framer, a: seq<bool>, b: seq<bool>)
    ensures After(f, a + b) == After(After(f, a), b)
    ensures Framed(f, a + b) == Framed(f, a) + Framed(After(f, a), b)
    decreases |b|
  {
    if b == [] {
      assert a + b == a;
    } else {
      assert (a + b)[..|a + b| - 1] == a + b[..|b| - 1];
      AfterJoins(f, a, b[..|b| - 1]);
    }
  }

  // ---- hunting -----------------------------------------------------------------

  /** The last sixteen bits after `k` of the scan, with the register's zeros
      ahead of it. */
  function Window(bits: seq<bool>, k: nat): Bits16
    requires k <= |bits|
  {
    (ZEROS + bits)[k..k + 16]
  }

  /** SYNC has not gone by. */
  predicate NoSync(bits: seq<bool>) { forall k :: 0 < k <= |bits| ==> Window(bits, k) != SYNC }

  lemma WindowOfPrefix(bits: seq<bool>, n: nat, k: nat)
    requires k <= n <= |bits|
    ensures Window(bits[..n], k) == Window(bits, k)
  {
    assert (ZEROS + bits[..n]) == (ZEROS + bits)[..16 + n];
  }

  lemma WindowShifts(bits: seq<bool>)
    requires bits != []
    ensures Shift(Window(bits, |bits| - 1), bits[|bits| - 1]) == Window(bits, |bits|)
  {
  }

  lemma NoSyncPrefix(bits: seq<bool>, n: nat)
    requires NoSync(bits) && n <= |bits|
    ensures NoSync(bits[..n])
  {
    hide Window;
    forall k | 0 < k <= n
      ensures Window(bits[..n], k) != SYNC
    {
      WindowOfPrefix(bits, n, k);
    }
  }

  lemma {:induction false} Hunting(bits: seq<bool>)
    requires NoSync(bits)
    ensures After(CAPTURE, bits) == Framer(Window(bits, |bits|), false, 0) && Framed(CAPTURE, bits) == []
  {
    hide Window, Shift, NoSync;
    if bits == [] {
      EmptyWindow();
    } else {
      NoSyncPrefix(bits, |bits| - 1);
      Hunting(bits[..|bits| - 1]);
      LastWindow(bits);
      NotYet(bits);
    }
  }

  lemma EmptyWindow()
    ensures Window([], 0) == ZEROS
  {
    assert ZEROS + [] == ZEROS;
  }

  lemma NotYet(bits: seq<bool>)
    requires NoSync(bits) && bits != []
    ensures Window(bits, |bits|) != SYNC
  {
  }

  lemma LastWindow(bits: seq<bool>)
    requires bits != []
    ensures Shift(Window(bits[..|bits| - 1], |bits| - 1), bits[|bits| - 1]) == Window(bits, |bits|)
  {
    hide Window, Shift;
    WindowOfPrefix(bits, |bits| - 1, |bits| - 1);
    WindowShifts(bits);
  }

  /** The bit that completes the first SYNC. */
  lemma Locking(bits: seq<bool>)
    requires bits != [] && NoSync(bits[..|bits| - 1]) && Window(bits, |bits|) == SYNC
    ensures After(CAPTURE, bits) == Framer(SYNC, true, 0) && Framed(CAPTURE, bits) == []
  {
    hide Window, Shift, NoSync;
    Hunting(bits[..|bits| - 1]);
    LastWindow(bits);
  }

  // ---- framing -----------------------------------------------------------------

  function Flatten(words: seq<Bits16>): seq<bool> {
    if words == [] then [] else Flatten(words[..|words| - 1]) + words[|words| - 1]
  }

  lemma {:induction false} FlattenLength(words: seq<Bits16>)
    ensures |Flatten(words)| == 16 * |words|
  {
    if words != [] { FlattenLength(words[..|words| - 1]); }
  }

  /** In step, fewer than sixteen bits emit nothing. */
  lemma {:induction false} PartialWord(f: Framer, bits: seq<bool>)
    requires f.synced && f.cnt == 0 && |bits| < 16
    ensures After(f, bits).synced && After(f, bits).cnt == |bits| && Framed(f, bits) == []
    ensures After(f, bits).sr == (f.sr + bits)[|bits|..]
  {
    if bits != [] {
      PartialWord(f, bits[..|bits| - 1]);
    } else {
      assert (f.sr + bits)[0..] == f.sr;
    }
  }

  lemma WholeWord(f: Framer, w: Bits16)
    requires f.synced && f.cnt == 0
    ensures After(f, w).synced && After(f, w).cnt == 0 && Framed(f, w) == [w]
  {
    PartialWord(f, w[..15]);
    assert w == w[..15] + [w[15]];
    assert Shift((f.sr + w[..15])[15..], w[15]) == w;
  }

  lemma {:induction false} SyncedFrames(f: Framer, words: seq<Bits16>)
    requires f.synced && f.cnt == 0
    ensures var g := After(f, Flatten(words)); g.synced && g.cnt == 0
    ensures Framed(f, Flatten(words)) == words
  {
    if words != [] {
      var before, w := words[..|words| - 1], words[|words| - 1];
      SyncedFrames(f, before);
      AfterJoins(f, Flatten(before), w);
      WholeWord(After(f, Flatten(before)), w);
      assert words == before + [w];
    }
  }

  /** What the host shifts in one scan, behind whatever the chain puts first. */
  function Scan(junk: seq<bool>, words: seq<Bits16>): seq<bool> { junk + ZEROS + SYNC + Flatten(words) }

  /** With the preamble of zeros, SYNC's first appearance is the host's. */
  lemma PreambleLocks(junk: seq<bool>)
    requires NoSync(junk)
    ensures After(CAPTURE, junk + ZEROS + SYNC) == Framer(SYNC, true, 0)
    ensures Framed(CAPTURE, junk + ZEROS + SYNC) == []
  {
    var bits := junk + ZEROS + SYNC;
    var before := bits[..|bits| - 1];
    assert Window(bits, |bits|) == SYNC;
    forall k | 0 < k <= |before|
      ensures Window(before, k) != SYNC
    {
      assert Window(before, k) == Window(bits, k);
      if k <= |junk| {
        assert Window(bits, k) == Window(junk, k);
      } else if k <= |junk| + 16 {
        assert Window(bits, k)[15] == bits[k - 1] == false;
      } else {
        assert Window(bits, k)[0] == bits[k - 16] == false;
      }
    }
    Locking(bits);
  }

  /** In step, bits come out sixteen at a time. */
  lemma {:induction false} SyncedCount(f: Framer, bits: seq<bool>)
    requires f.synced && f.cnt < 16
    ensures After(f, bits).synced && After(f, bits).cnt < 16
    ensures 16 * |Framed(f, bits)| + After(f, bits).cnt == f.cnt + |bits|
  {
    if bits != [] { SyncedCount(f, bits[..|bits| - 1]); }
  }

  lemma FirstSync(bits: seq<bool>) returns (k: nat)
    requires !NoSync(bits)
    ensures 0 < k <= |bits| && NoSync(bits[..k - 1]) && Window(bits[..k], k) == SYNC
  {
    k :| 0 < k <= |bits| && Window(bits, k) == SYNC;
    while !NoSync(bits[..k - 1])
      invariant 0 < k <= |bits| && Window(bits, k) == SYNC
      decreases k
    {
      var j :| 0 < j <= k - 1 && Window(bits[..k - 1], j) == SYNC;
      assert Window(bits, j) == Window(bits[..k - 1], j);
      k := j;
    }
    assert Window(bits[..k], k) == Window(bits, k);
  }

  /** FRAMING RECOVERS EXACTLY WHAT WAS SENT, word for word, if and only if SYNC
      does not appear in the junk that comes first. */
  lemma RecoversExactly(junk: seq<bool>, words: seq<Bits16>)
    ensures Framed(CAPTURE, Scan(junk, words)) == words <==> NoSync(junk)
  {
    if NoSync(junk) {
      PreambleLocks(junk);
      AfterJoins(CAPTURE, junk + ZEROS + SYNC, Flatten(words));
      SyncedFrames(Framer(SYNC, true, 0), words);
    } else {
      var k := FirstSync(junk);
      var bits := Scan(junk, words);
      assert junk[..k][..k - 1] == junk[..k - 1];
      Locking(junk[..k]);
      assert bits == junk[..k] + bits[k..];
      AfterJoins(CAPTURE, junk[..k], bits[k..]);
      SyncedCount(Framer(SYNC, true, 0), bits[k..]);
      FlattenLength(words);
    }
  }

  /** A lead-in shorter than a word cannot hold SYNC. */
  lemma ShortLeadInIsSafe(junk: seq<bool>)
    requires |junk| < 16
    ensures NoSync(junk)
  {
    forall k | 0 < k <= |junk|
      ensures Window(junk, k) != SYNC
    {
      assert Window(junk, k)[0] == ZEROS[k] == false;
    }
  }

  /** SIXTEEN BITS CAN: led in by SYNC itself, the host's own preamble comes out
      as two words of data ahead of what was sent. */
  lemma SyncAsLeadIn(words: seq<Bits16>)
    ensures Framed(CAPTURE, Scan(SYNC, words)) == [ZEROS, SYNC] + words
  {
    hide After, Framed, Flatten;
    ShortLeadInIsSafe(SYNC[..15]);
    assert Window(SYNC, 16) == SYNC;
    Locking(SYNC);
    var f := Framer(SYNC, true, 0);
    WholeWord(f, ZEROS);
    AfterJoins(CAPTURE, SYNC, ZEROS);
    var g := After(f, ZEROS);
    WholeWord(g, SYNC);
    AfterJoins(CAPTURE, SYNC + ZEROS, SYNC);
    SyncedFrames(After(g, SYNC), words);
    AfterJoins(CAPTURE, SYNC + ZEROS + SYNC, Flatten(words));
  }
}
