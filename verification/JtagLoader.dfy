/** modules/jtag_loader.sv: words cross from the JTAG clock to the system clock by
    a toggle, and acknowledgements come back by another. The two clocks tick in
    any order; the JTAG side cannot be made to wait. */
module JtagLoader {
  import opened Machine
  import opened JtagFraming

  const ADDRESSES: nat := 0x100_0000
  const CELLS: nat := 0x80_0000

  type Mem = m: seq<Bits16> | |m| == CELLS witness seq(CELLS, _ => ZEROS)

  /** The registers clocked by TCK. */
  datatype Tck = Tck(frame: Framer, word: Bits16, wToggle: bool, pending: bool, overflow: bool,
                     ack1: bool, ack2: bool, ack3: bool)

  datatype WState = Idle | Req | Gap

  /** The registers clocked by the system clock. */
  datatype Sys = Sys(w1: bool, w2: bool, w3: bool, state: WState, wdat: Bits16, ptr: nat, words: nat, ack: bool)

  predicate AckEdge(t: Tck) { t.ack2 != t.ack3 }
  predicate NewWord(s: Sys) { s.w2 != s.w3 }

  /** What the scan does on a TCK edge: nothing to the data register, capture it at
      the start of a scan, or shift a bit in. */
  datatype Tap = Still | Capture | ShiftIn(bit: bool)

  function FrameStep(f: Framer, tap: Tap): Framer {
    match tap
    case Still => f
    case Capture => CAPTURE
    case ShiftIn(bit) => JtagFraming.Step(f, bit)
  }

  /** The word, if this edge completes one. */
  function Done(f: Framer, tap: Tap): Option<Bits16> { if tap.ShiftIn? then Emits(f, tap.bit) else None }

  function TckStep(t: Tck, s: Sys, tap: Tap): Tck {
    var done := Done(t.frame, tap);
    Tck(FrameStep(t.frame, tap),
        if done.Some? then done.value else t.word,
        if done.Some? then !t.wToggle else t.wToggle,
        if done.Some? then true else if AckEdge(t) then false else t.pending,
        t.overflow || (done.Some? && t.pending && !AckEdge(t)),
        s.ack, t.ack1, t.ack2)
  }

  /** A system clock edge; `ready` is the arbiter's. */
  function SysStep(s: Sys, t: Tck, ready: bool): Sys {
    var n := s.(w1 := t.wToggle, w2 := s.w1, w3 := s.w2);
    match s.state
    case Idle => if NewWord(s) then n.(wdat := t.word, state := Req) else n
    case Req =>
      if ready then n.(ptr := (s.ptr + 2) % ADDRESSES, words := (s.words + 1) % ADDRESSES, ack := !s.ack, state := Gap)
      else n
    case Gap => n.(state := Idle)
  }

  datatype Edge = OnTck(tap: Tap) | OnSys(ready: bool) | OnBoth(tap: Tap, ready: bool)

  /** `scans` are the bits of the scans before, `bits` those of the one under way,
      and `count` is how many words have landed. */
  datatype Loader = Loader(tck: Tck, sys: Sys, mem: Mem, scans: seq<seq<bool>>, bits: seq<bool>, count: nat)

  function TapOf(e: Edge): Tap { if e.OnSys? then Still else e.tap }
  function ReadyOf(e: Edge): bool { if e.OnTck? then false else e.ready }

  function CellOf(addr: nat): (c: nat)
    ensures c < CELLS
  {
    addr % ADDRESSES / 2
  }

  function NextScans(scans: seq<seq<bool>>, bits: seq<bool>, tap: Tap): seq<seq<bool>> {
    if tap.Capture? then scans + [bits] else scans
  }

  function NextBits(bits: seq<bool>, tap: Tap): seq<bool> {
    match tap case Still => bits case Capture => [] case ShiftIn(bit) => bits + [bit]
  }

  /** Each domain steps on its own edges, reading the other as it was. */
  function Step(l: Loader, e: Edge): Loader {
    var stores := !e.OnTck? && l.sys.state == Req && ReadyOf(e);
    Loader(
      if e.OnSys? then l.tck else TckStep(l.tck, l.sys, e.tap),
      if e.OnTck? then l.sys else SysStep(l.sys, l.tck, e.ready),
      if stores then l.mem[CellOf(l.sys.ptr) := l.sys.wdat] else l.mem,
      NextScans(l.scans, l.bits, TapOf(e)),
      NextBits(l.bits, TapOf(e)),
      if stores then l.count + 1 else l.count)
  }

  /** A load about to start: pointer set, counters clear, both toggles at rest,
      and the scan captured. */
  function Start(mem: Mem, base: nat, toggle: bool, ack: bool): Loader {
    Loader(Tck(CAPTURE, ZEROS, toggle, false, false, ack, ack, ack),
           Sys(toggle, toggle, toggle, Idle, ZEROS, base, 0, ack), mem, [], [], 0)
  }

  // ---- the handshake ---------------------------------------------------------------

  /** No word is on its way; the last acknowledgement may still be. */
  predicate AtRest(t: Tck, s: Sys) {
    && s.w1 == s.w2 == s.w3 == t.wToggle && s.state != Req
    && (if t.pending then
          t.ack3 != s.ack && (t.ack2 == s.ack ==> t.ack1 == s.ack)
        else t.ack1 == t.ack2 == t.ack3 == s.ack)
  }

  /** One word is on its way: its toggle moves through the synchroniser, then
      the writer holds it. */
  predicate InFlight(t: Tck, s: Sys, word: Bits16) {
    && t.pending && t.ack1 == t.ack2 == t.ack3 == s.ack && t.word == word
    && (if s.state == Req then s.w1 == s.w2 == s.w3 == t.wToggle && s.wdat == word
        else
          && s.w3 != t.wToggle && (s.w2 == t.wToggle ==> s.w1 == t.wToggle)
          && (s.w1 == t.wToggle ==> s.state == Idle))
  }

  /** The words of whole scans, each framed afresh, end to end. */
  function FramedAll(scans: seq<seq<bool>>): seq<Bits16> {
    if scans == [] then [] else FramedAll(scans[..|scans| - 1]) + Framed(CAPTURE, scans[|scans| - 1])
  }

  function SentIn(scans: seq<seq<bool>>, bits: seq<bool>): seq<Bits16> { FramedAll(scans) + Framed(CAPTURE, bits) }

  ghost function Sent(l: Loader): seq<Bits16> { SentIn(l.scans, l.bits) }

  /** Memory with `words` stored from `base` up. */
  function Loaded(mem: Mem, base: nat, words: seq<Bits16>): Mem {
    if words == [] then mem
    else
      var n := |words| - 1;
      Loaded(mem, base, words[..n])[CellOf(base + 2 * n) := words[n]]
  }

  /** Without an overflow every word sent has landed, or is the one in flight. */
  ghost predicate Inv(l: Loader, mem: Mem, base: nat) {
    && l.tck.frame == After(CAPTURE, l.bits)
    && (!l.tck.overflow ==>
          && l.count <= |Sent(l)| <= l.count + 1
          && (if l.count == |Sent(l)| then AtRest(l.tck, l.sys) else InFlight(l.tck, l.sys, Sent(l)[l.count]))
          && l.mem == Loaded(mem, base, Sent(l)[..l.count])
          && l.sys.ptr == (base + 2 * l.count) % ADDRESSES
          && l.sys.words == l.count % ADDRESSES)
  }

  lemma StartInv(mem: Mem, base: nat, toggle: bool, ack: bool)
    requires base < ADDRESSES
    ensures Inv(Start(mem, base, toggle, ack), mem, base)
  {
  }

  /** The toggles alone, whatever the data: `done` says whether this edge sends a
      word, `stores` whether it writes one. */
  lemma ToggleStep(t: Tck, s: Sys, e: Edge, word: Bits16, busy: bool)
    requires if busy then InFlight(t, s, word) else AtRest(t, s)
    ensures var done := Done(t.frame, TapOf(e));
      var stores := !e.OnTck? && s.state == Req && ReadyOf(e);
      var t' := if e.OnSys? then t else TckStep(t, s, e.tap);
      var s' := if e.OnTck? then s else SysStep(s, t, e.ready);
      && (stores ==> busy && s.wdat == word)
      && (!t'.overflow ==>
            && (done.Some? ==> !busy)
            && (if done.Some? then InFlight(t', s', done.value)
                else if busy && !stores then InFlight(t', s', word)
                else AtRest(t', s')))
  {
    hide Emits, FrameStep;
  }

  lemma OverflowSticks(l: Loader, e: Edge)
    requires l.tck.overflow
    ensures Step(l, e).tck.overflow
  {
    hide Done, FrameStep, SysStep;
  }

  /** Shifting adds the word it completes, if any; a capture only closes the scan. */
  lemma SentStep(scans: seq<seq<bool>>, bits: seq<bool>, tap: Tap)
    ensures var f, more := After(CAPTURE, bits), NextBits(bits, tap);
      && FrameStep(f, tap) == After(CAPTURE, more)
      && SentIn(NextScans(scans, bits, tap), more)
           == SentIn(scans, bits) + if Done(f, tap).Some? then [Done(f, tap).value] else []
  {
    hide Emits, JtagFraming.Step;
    match tap
    case Still =>
      assert SentIn(scans, bits) + [] == SentIn(scans, bits);
    case Capture =>
      assert (scans + [bits])[..|scans|] == scans;
      assert SentIn(scans + [bits], []) == FramedAll(scans + [bits]);
    case ShiftIn(bit) =>
      assert (bits + [bit])[..|bits|] == bits;
      ShiftSends(bits, bit);
  }

  lemma ShiftSends(bits: seq<bool>, bit: bool)
    ensures var word := Emits(After(CAPTURE, bits), bit);
      Framed(CAPTURE, bits + [bit]) == Framed(CAPTURE, bits) + if word.Some? then [word.value] else []
  {
    hide Emits, JtagFraming.Step;
    assert (bits + [bit])[..|bits|] == bits;
  }

  lemma PointerStep(base: nat, n: nat)
    ensures ((base + 2 * n) % ADDRESSES + 2) % ADDRESSES == (base + 2 * (n + 1)) % ADDRESSES
    ensures (n % ADDRESSES + 1) % ADDRESSES == (n + 1) % ADDRESSES
    ensures CellOf((base + 2 * n) % ADDRESSES) == CellOf(base + 2 * n)
  {
  }

  lemma InvStep(l: Loader, e: Edge, mem: Mem, base: nat)
    requires Inv(l, mem, base)
    ensures Inv(Step(l, e), mem, base)
  {
    hide Emits, JtagFraming.Step, AtRest, InFlight, CellOf, SentIn, JtagFraming.After;
    hide Loaded, NextBits, NextScans, SysStep;
    SentStep(l.scans, l.bits, TapOf(e));
    var n := Step(l, e);
    if l.tck.overflow {
      OverflowSticks(l, e);
    } else {
      var busy := l.count < |Sent(l)|;
      ToggleStep(l.tck, l.sys, e, if busy then Sent(l)[l.count] else ZEROS, busy);
      PointerStep(base, l.count);
      SysNumbers(l.sys, l.tck, ReadyOf(e));
      assert Sent(n)[..l.count] == Sent(l)[..l.count];
      if busy {
        LoadedNext(mem, base, Sent(l), l.count);
        assert Sent(n)[..l.count + 1] == Sent(l)[..l.count + 1];
      }
    }
  }

  lemma SysNumbers(s: Sys, t: Tck, ready: bool)
    ensures var n := SysStep(s, t, ready); var stores := s.state == Req && ready;
      && n.ptr == (if stores then (s.ptr + 2) % ADDRESSES else s.ptr)
      && n.words == (if stores then (s.words + 1) % ADDRESSES else s.words)
  {
  }

  lemma LoadedNext(mem: Mem, base: nat, sent: seq<Bits16>, c: nat)
    requires c < |sent|
    ensures Loaded(mem, base, sent[..c + 1]) == Loaded(mem, base, sent[..c])[CellOf(base + 2 * c) := sent[c]]
  {
    assert sent[..c + 1][..c] == sent[..c];
  }

  // ---- whole loads ----------------------------------------------------------------------

  /** From a clean start, any interleaving of the clocks and any memory latency. */
  ghost predicate IsRun(states: seq<Loader>, edges: seq<Edge>, mem: Mem, base: nat) {
    && base < ADDRESSES && |states| == |edges| + 1
    && (exists toggle, ack :: states[0] == Start(mem, base, toggle, ack))
    && (forall k :: 0 <= k < |edges| ==> states[k + 1] == Step(states[k], edges[k]))
  }

  lemma {:induction false} RunInv(states: seq<Loader>, edges: seq<Edge>, mem: Mem, base: nat, k: nat)
    requires IsRun(states, edges, mem, base) && k < |states|
    ensures Inv(states[k], mem, base)
  {
    hide Step, Inv;
    if k == 0 {
      var toggle, ack :| states[0] == Start(mem, base, toggle, ack);
      StartInv(mem, base, toggle, ack);
    } else {
      RunInv(states, edges, mem, base, k - 1);
      InvStep(states[k - 1], edges[k - 1], mem, base);
    }
  }

  /** OVERFLOW OR AN EXACT PREFIX. At every instant of every load either the
      overflow flag is set, or memory is what it was but for the first so many
      of the words sent, over all scans, in order from the base up, and the counter
      says how many: all of them, or all but the one on its way. */
  lemma LoadsAPrefix(states: seq<Loader>, edges: seq<Edge>, mem: Mem, base: nat, k: nat)
    requires IsRun(states, edges, mem, base) && k < |states| && !states[k].tck.overflow
    ensures var l, sent := states[k], Sent(states[k]);
      && l.count <= |sent| <= l.count + 1
      && l.mem == Loaded(mem, base, sent[..l.count])
      && l.sys.words == l.count % ADDRESSES
      && l.sys.ptr == (base + 2 * l.count) % ADDRESSES
  {
    hide AtRest, InFlight, SentIn, JtagFraming.After, Loaded, IsRun;
    RunInv(states, edges, mem, base, k);
  }

  function Concat(parts: seq<seq<Bits16>>): seq<Bits16> {
    if parts == [] then [] else Concat(parts[..|parts| - 1]) + parts[|parts| - 1]
  }

  /** A scan of the data register as the host makes it, zeros and SYNC ahead of the
      words and a lead-in shorter than a word ahead of those; or a scan of some other
      register, which shifts nothing here. */
  ghost predicate HostScan(bits: seq<bool>, words: seq<Bits16>) {
    || (bits == [] && words == [])
    || exists junk :: |junk| < 16 && bits == Scan(junk, words)
  }

  ghost predicate HostScans(scans: seq<seq<bool>>, parts: seq<seq<Bits16>>) {
    |scans| == |parts| && forall i :: 0 <= i < |scans| ==> HostScan(scans[i], parts[i])
  }

  lemma HostScanFrames(bits: seq<bool>, words: seq<Bits16>)
    requires HostScan(bits, words)
    ensures Framed(CAPTURE, bits) == words
  {
    hide Framed, NoSync, Scan;
    if bits == [] && words == [] {
      NothingFramed();
    } else {
      var junk :| |junk| < 16 && bits == Scan(junk, words);
      ShortLeadInIsSafe(junk);
      RecoversExactly(junk, words);
    }
  }

  lemma NothingFramed()
    ensures Framed(CAPTURE, []) == []
  {
  }

  lemma {:induction false} HostScansFrame(scans: seq<seq<bool>>, parts: seq<seq<Bits16>>)
    requires HostScans(scans, parts)
    ensures FramedAll(scans) == Concat(parts)
  {
    hide HostScan, Framed;
    if scans != [] {
      HostScansFrame(scans[..|scans| - 1], parts[..|parts| - 1]);
      HostScanFrames(scans[|scans| - 1], parts[|parts| - 1]);
    }
  }

  /** THE HOST'S CHECK IS SOUND. An image sent in any number of scans, each with its
      own zeros and SYNC and its own short lead-in: if no overflow shows and the count
      is the number of words sent, memory holds the image. */
  lemma MatchingCountMeansLoaded(states: seq<Loader>, edges: seq<Edge>, mem: Mem, base: nat, k: nat,
                                 parts: seq<seq<Bits16>>)
    requires IsRun(states, edges, mem, base) && k < |states|
    requires HostScans(states[k].scans + [states[k].bits], parts) && |Concat(parts)| < ADDRESSES
    requires !states[k].tck.overflow && states[k].sys.words == |Concat(parts)|
    ensures states[k].mem == Loaded(mem, base, Concat(parts))
  {
    hide IsRun, Framed, Loaded, HostScans, Concat;
    var l := states[k];
    LoadsAPrefix(states, edges, mem, base, k);
    assert (l.scans + [l.bits])[..|l.scans|] == l.scans;
    HostScansFrame(l.scans + [l.bits], parts);
    assert Sent(l)[..|Sent(l)|] == Sent(l);
  }

  /** Stored words are where the loader's address arithmetic says, for an image
      that fits the memory. */
  lemma {:induction false} LoadedAt(mem: Mem, base: nat, words: seq<Bits16>, k: nat)
    requires base % 2 == 0 && base < ADDRESSES && |words| <= CELLS && k < |words|
    ensures Loaded(mem, base, words)[CellOf(base + 2 * k)] == words[k]
    ensures Loaded(mem, base, words)[(base / 2 + k) % 0x80_0000] == words[k]
    decreases |words|
  {
    CellIsWord(base, k);
    var n := |words| - 1;
    if k < n {
      LoadedAt(mem, base, words[..n], k);
      CellsDiffer(base, k, n);
    }
  }

  /** Bytes by twos, within the sixteen megabytes. */
  lemma CellIsWord(base: nat, k: nat)
    requires base % 2 == 0
    ensures CellOf(base + 2 * k) == (base / 2 + k) % 0x80_0000
  {
    var b := base / 2;
    assert base + 2 * k == 2 * (b + k);
    Halved(b + k);
  }

  lemma Halved(n: nat)
    ensures 2 * n % 0x100_0000 / 2 == n % 0x80_0000
  {
    var q := n / 0x80_0000;
    assert n == 0x80_0000 * q + n % 0x80_0000;
    assert 2 * n == 0x100_0000 * q + 2 * (n % 0x80_0000);
  }

  lemma CellsDiffer(base: nat, j: nat, k: nat)
    requires base % 2 == 0 && base < ADDRESSES && j < k < CELLS
    ensures CellOf(base + 2 * j) != CellOf(base + 2 * k)
  {
  }

  // ---- the two register sets ---------------------------------------------------------------

  class Domains {
    var frame: Framer
    var word: Bits16
    var wToggle: bool
    var pending: bool
    var overflow: bool
    var ack1: bool
    var ack2: bool
    var ack3: bool
    var w1: bool
    var w2: bool
    var w3: bool
    var state: WState
    var wdat: Bits16
    var ptr: nat
    var words: nat
    var ack: bool

    ghost function TckView(): Tck
      reads this
    {
      Tck(frame, word, wToggle, pending, overflow, ack1, ack2, ack3)
    }

    ghost function SysView(): Sys
      reads this
    {
      Sys(w1, w2, w3, state, wdat, ptr, words, ack)
    }

    /** A completed word is handed over; or an acknowledgement noted. */
    method HandOver(done: Option<Bits16>, ackEdge: bool)
      modifies `word, `wToggle, `pending, `overflow
      ensures word == (if done.Some? then done.value else old(word))
      ensures wToggle == (if done.Some? then !old(wToggle) else old(wToggle))
      ensures pending == (done.Some? || (!ackEdge && old(pending)))
      ensures overflow == (old(overflow) || (done.Some? && old(pending) && !ackEdge))
    {
      if done.Some? {
        word, wToggle := done.value, !wToggle;
        if pending && !ackEdge { overflow := true; }
        pending := true;
      } else if ackEdge {
        pending := false;
      }
    }

    method TckEdge(tap: Tap)
      modifies `frame, `word, `wToggle, `pending, `overflow, `ack1, `ack2, `ack3
      ensures TckView() == TckStep(old(TckView()), old(SysView()), tap)
    {
      hide Done, FrameStep;
      HandOver(Done(frame, tap), ack2 != ack3);
      frame := FrameStep(frame, tap);
      ack1, ack2, ack3 := ack, ack1, ack2;
    }

    method SysEdge(ready: bool)
      modifies `w1, `w2, `w3, `state, `wdat, `ptr, `words, `ack
      ensures SysView() == SysStep(old(SysView()), old(TckView()), ready)
    {
      var newWord := w2 != w3;
      w1, w2, w3 := wToggle, w1, w2;
      match state {
        case Idle => if newWord { wdat, state := word, Req; }
        case Req =>
          if ready {
            ptr, words := (ptr + 2) % ADDRESSES, (words + 1) % ADDRESSES;
            ack, state := !ack, Gap;
          }
        case Gap => state := Idle;
      }
    }
  }
}
