/** modules/jtag_loader.sv: when the side that cannot be made to wait need not. If
    the system clock keeps up, no load overflows and every word lands. */
module JtagPace {
  import opened Machine
  import F = JtagFraming
  import opened JtagLoader

  /** The memory holds the writer up in this edge of the system clock. */
  predicate Stalls(l: Loader, e: Edge) { l.sys.state == Req && !ReadyOf(e) }

  /** Edges of TCK, and edges of the system clock that were of use, so far. */
  function TckEdges(edges: seq<Edge>, k: nat): (n: nat)
    requires k <= |edges|
  {
    if k == 0 then 0 else TckEdges(edges, k - 1) + if edges[k - 1].OnSys? then 0 else 1
  }

  function SysEdges(states: seq<Loader>, edges: seq<Edge>, k: nat): (n: nat)
    requires k <= |edges| <= |states|
  {
    if k == 0 then 0
    else
      var useful := !edges[k - 1].OnTck? && !Stalls(states[k - 1], edges[k - 1]);
      SysEdges(states, edges, k - 1) + if useful then 1 else 0
  }

  /** In any stretch of twelve TCK edges the system clock has four that the memory
      does not hold up. */
  ghost predicate Paced(states: seq<Loader>, edges: seq<Edge>)
    requires |states| >= |edges|
  {
    forall lo, hi :: 0 <= lo <= hi <= |edges| && TckEdges(edges, hi) - TckEdges(edges, lo) >= 12
      ==> SysEdges(states, edges, hi) - SysEdges(states, edges, lo) >= 4
  }

  /** The last edge so far to complete a word is the one before this; or none has. */
  function LastWord(states: seq<Loader>, edges: seq<Edge>, k: nat): (d: nat)
    requires k <= |edges| <= |states|
    ensures d <= k
  {
    if k == 0 then 0
    else if Done(states[k - 1].tck.frame, TapOf(edges[k - 1])).Some? then k
    else LastWord(states, edges, k - 1)
  }

  /** Edges of either kind since then. */
  function TckSince(states: seq<Loader>, edges: seq<Edge>, k: nat): int
    requires k <= |edges| <= |states|
  {
    TckEdges(edges, k) - TckEdges(edges, LastWord(states, edges, k))
  }

  function SysSince(states: seq<Loader>, edges: seq<Edge>, k: nat): int
    requires k <= |edges| <= |states|
  {
    SysEdges(states, edges, k) - SysEdges(states, edges, LastWord(states, edges, k))
  }

  lemma {:induction false} EdgesGrow(states: seq<Loader>, edges: seq<Edge>, d: nat, k: nat)
    requires d <= k <= |edges| <= |states|
    ensures TckEdges(edges, d) <= TckEdges(edges, k) && SysEdges(states, edges, d) <= SysEdges(states, edges, k)
  {
    if d < k { EdgesGrow(states, edges, d, k - 1); }
  }

  lemma SinceStep(states: seq<Loader>, edges: seq<Edge>, k: nat)
    requires k < |edges| <= |states| && Paced(states, edges)
    ensures TckSince(states, edges, k) >= 0 && SysSince(states, edges, k) >= 0
    ensures TckSince(states, edges, k) >= 12 ==> SysSince(states, edges, k) >= 4
    ensures var l, e := states[k], edges[k];
      if Done(l.tck.frame, TapOf(e)).Some? then
        TckSince(states, edges, k + 1) == 0 && SysSince(states, edges, k + 1) == 0
      else
        && TckSince(states, edges, k + 1) == TckSince(states, edges, k) + (if e.OnSys? then 0 else 1)
        && SysSince(states, edges, k + 1)
             == SysSince(states, edges, k) + if !e.OnTck? && !Stalls(l, e) then 1 else 0
  {
    hide Done, Stalls;
    EdgesGrow(states, edges, LastWord(states, edges, k), k);
  }

  /** Useful system clock edges until a word in flight has landed. */
  function ToLand(t: Tck, s: Sys): nat {
    if s.state == Req then 1 else if s.w2 == t.wToggle then 2 else if s.w1 == t.wToggle then 3 else 4
  }

  /** TCK edges until the acknowledgement is in. */
  function ToAck(t: Tck, s: Sys): nat {
    if t.ack1 != s.ack then 3 else if t.ack2 != s.ack then 2 else 1
  }

  /** `tck` and `sys` edges after a word was completed: it is in flight, or has landed
      and is being acknowledged, or is done with. */
  predicate OnPace(l: Loader, busy: bool, tck: int, sys: int) {
    && !l.tck.overflow && l.tck.frame.cnt <= 15 && l.tck.frame.cnt <= tck
    && (busy ==> sys + ToLand(l.tck, l.sys) <= 4)
    && (!busy && l.tck.pending ==> tck + ToAck(l.tck, l.sys) <= 15)
  }

  lemma FrameCounts(f: F.Framer, tap: Tap)
    requires f.cnt <= 15
    ensures FrameStep(f, tap).cnt <= 15
    ensures FrameStep(f, tap).cnt <= if tap.ShiftIn? then f.cnt + 1 else f.cnt
    ensures Done(f, tap).Some? ==> f.cnt == 15 && FrameStep(f, tap).cnt == 0 && tap.ShiftIn?
  {
    hide F.Shift;
  }

  /** A clock with no word completed. */
  lemma PaceStep(l: Loader, e: Edge, word: F.Bits16, busy: bool, tck: nat, sys: nat)
    requires if busy then InFlight(l.tck, l.sys, word) else AtRest(l.tck, l.sys)
    requires OnPace(l, busy, tck, sys) && (tck >= 12 ==> sys >= 4)
    requires Done(l.tck.frame, TapOf(e)).None?
    ensures var stores := !e.OnTck? && l.sys.state == Req && ReadyOf(e);
      OnPace(Step(l, e), busy && !stores,
             tck + (if e.OnSys? then 0 else 1), sys + (if !e.OnTck? && !Stalls(l, e) then 1 else 0))
  {
    hide Done, FrameStep, NextBits, NextScans, CellOf;
    FrameCounts(l.tck.frame, TapOf(e));
  }

  /** A word is completed: the one before is landed and acknowledged by now. */
  lemma WordStep(l: Loader, e: Edge, word: F.Bits16, busy: bool, tck: nat, sys: nat)
    requires if busy then InFlight(l.tck, l.sys, word) else AtRest(l.tck, l.sys)
    requires OnPace(l, busy, tck, sys) && (tck >= 12 ==> sys >= 4)
    requires Done(l.tck.frame, TapOf(e)).Some?
    ensures !busy && !l.tck.pending
    ensures OnPace(Step(l, e), true, 0, 0)
  {
    hide Done, FrameStep, NextBits, NextScans, CellOf;
    FrameCounts(l.tck.frame, TapOf(e));
  }

  ghost predicate Busy(l: Loader) { l.count < |Sent(l)| }

  lemma StartOnPace(mem: Mem, base: nat, toggle: bool, ack: bool)
    ensures OnPace(Start(mem, base, toggle, ack), false, 0, 0) && !Busy(Start(mem, base, toggle, ack))
  {
  }

  lemma BusyStep(l: Loader, e: Edge, mem: Mem, base: nat)
    requires Inv(l, mem, base) && !l.tck.overflow
    requires Done(l.tck.frame, TapOf(e)).Some? ==> !Busy(l)
    ensures var stores := !e.OnTck? && l.sys.state == Req && ReadyOf(e);
      Busy(Step(l, e)) == (Done(l.tck.frame, TapOf(e)).Some? || (Busy(l) && !stores))
  {
    hide Done, FrameStep, SentIn, F.After, Loaded, NextBits, NextScans, CellOf, TckStep, SysStep;
    SentStep(l.scans, l.bits, TapOf(e));
  }

  lemma OneEdge(states: seq<Loader>, edges: seq<Edge>, mem: Mem, base: nat, k: nat, tck: nat, sys: nat)
    requires k < |edges| <= |states| && Inv(states[k], mem, base) && (tck >= 12 ==> sys >= 4)
    requires OnPace(states[k], Busy(states[k]), tck, sys)
    ensures var l, e := states[k], edges[k];
      if Done(l.tck.frame, TapOf(e)).Some? then OnPace(Step(l, e), Busy(Step(l, e)), 0, 0)
      else OnPace(Step(l, e), Busy(Step(l, e)),
                  tck + (if e.OnSys? then 0 else 1), sys + (if !e.OnTck? && !Stalls(l, e) then 1 else 0))
  {
    hide Step, Done, AtRest, InFlight, SentIn, F.After, Loaded, Stalls;
    var l, e := states[k], edges[k];
    var word := if Busy(l) then Sent(l)[l.count] else F.ZEROS;
    if Done(l.tck.frame, TapOf(e)).Some? {
      WordStep(l, e, word, Busy(l), tck, sys);
    } else {
      PaceStep(l, e, word, Busy(l), tck, sys);
    }
    BusyStep(l, e, mem, base);
  }

  lemma {:induction false} RunOnPace(states: seq<Loader>, edges: seq<Edge>, mem: Mem, base: nat, k: nat)
    requires IsRun(states, edges, mem, base) && Paced(states, edges) && k < |states|
    ensures OnPace(states[k], Busy(states[k]), TckSince(states, edges, k), SysSince(states, edges, k))
  {
    hide Step, Done, OnPace, Inv, Busy, Stalls, Paced;
    if k == 0 {
      var toggle, ack :| states[0] == Start(mem, base, toggle, ack);
      StartOnPace(mem, base, toggle, ack);
    } else {
      hide TckSince, SysSince;
      RunOnPace(states, edges, mem, base, k - 1);
      RunInv(states, edges, mem, base, k - 1);
      SinceStep(states, edges, k - 1);
      OneEdge(states, edges, mem, base, k - 1, TckSince(states, edges, k - 1), SysSince(states, edges, k - 1));
    }
  }

  /** NO OVERFLOW AT THAT PACE, in any load: a word takes sixteen TCK edges to shift
      in, twelve of them enough to land the one before and three to say so. */
  lemma PacedNeverOverflows(states: seq<Loader>, edges: seq<Edge>, mem: Mem, base: nat, k: nat)
    requires IsRun(states, edges, mem, base) && Paced(states, edges) && k < |states|
    ensures !states[k].tck.overflow
  {
    hide Step, Done, Busy, Stalls, IsRun, Paced;
    RunOnPace(states, edges, mem, base, k);
  }

  /** EVERY WORD LANDS: four useful edges of the system clock after the last of an
      image sent in any number of scans, the image is in memory, the count is its
      length and the overflow flag is clear. */
  lemma PacedLoadsComplete(states: seq<Loader>, edges: seq<Edge>, mem: Mem, base: nat, k: nat,
                           parts: seq<seq<F.Bits16>>)
    requires IsRun(states, edges, mem, base) && Paced(states, edges) && k < |states|
    requires HostScans(states[k].scans + [states[k].bits], parts)
    requires SysSince(states, edges, k) >= 4
    ensures !states[k].tck.overflow && states[k].mem == Loaded(mem, base, Concat(parts))
    ensures states[k].sys.words == |Concat(parts)| % ADDRESSES
  {
    hide IsRun, Loaded, HostScans, Concat, Paced, Done, Stalls;
    var l := states[k];
    RunOnPace(states, edges, mem, base, k);
    LoadsAPrefix(states, edges, mem, base, k);
    assert (l.scans + [l.bits])[..|l.scans|] == l.scans;
    HostScansFrame(l.scans + [l.bits], parts);
    assert Sent(l) == Concat(parts) by { SentIsConcat(l, parts); }
    assert Sent(l)[..|Sent(l)|] == Sent(l);
  }

  lemma SentIsConcat(l: Loader, parts: seq<seq<F.Bits16>>)
    requires FramedAll(l.scans + [l.bits]) == Concat(parts)
    ensures Sent(l) == Concat(parts)
  {
    assert (l.scans + [l.bits])[..|l.scans|] == l.scans;
  }
}
