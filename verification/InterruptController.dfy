/** modules/interrupt_controller.sv: fully nested priorities over seven sources.
    The in-service bits are a set; acceptance and end of interrupt make it
    behave as a stack. */
module InterruptController {
  import opened Machine

  const SOURCES: nat := 7
  const TIMER: nat := 0
  const DMA0: nat := 1
  const DMA1: nat := 2
  const INT0: nat := 3

  type Bits = b: seq<bool> | |b| == SOURCES witness seq(SOURCES, _ => false)
  type Priorities = p: seq<nat> | |p| == SOURCES && (forall k :: 0 <= k < SOURCES ==> p[k] < 8)
    witness seq(SOURCES, _ => 7)

  datatype Regs = Regs(mask: Bits, isr: Bits, dma0: bool, dma1: bool, pri: Priorities, prioMask: nat,
                       t0: bool, t1: bool, t2: bool)

  /** A write to the peripheral control block, by what it reaches. */
  datatype Write =
    | NoWrite
    | Eoi
    | MaskAll(bits: Bits)
    | PrioMask(level: nat)
    | InService(bits: Bits)
    | Request(dma0: bool, dma1: bool)
    | Control(source: nat, masked: bool, level: nat)

  datatype In = In(int0: bool, int1: bool, int2: bool, int3: bool,
                   timer0: bool, timer1: bool, timer2: bool, dma0: bool, dma1: bool,
                   iack: bool, extEoi: bool, write: Write)

  predicate WriteOk(w: Write) {
    && (w.PrioMask? ==> w.level < 8)
    && (w.Control? ==> w.source < SOURCES && w.level < 8)
  }

  function Reset(): Regs {
    Regs(seq(SOURCES, _ => true), seq(SOURCES, _ => false), false, false, seq(SOURCES, _ => 7), 7,
         false, false, false)
  }

  // ---- priority resolution ---------------------------------------------------

  function Requests(r: Regs, i: In): Bits {
    [r.t0 || r.t1 || r.t2, r.dma0, r.dma1, i.int0, i.int1, i.int2, i.int3]
  }

  /** The best of the sources `k` and up: highest priority, lowest number first. */
  function Best(b: Bits, pri: Priorities, k: nat): (w: Option<nat>)
    requires k <= SOURCES
    ensures w.Some? ==> k <= w.value < SOURCES && b[w.value]
    decreases SOURCES - k
  {
    if k == SOURCES then None
    else
      var rest := Best(b, pri, k + 1);
      if b[k] && (rest.None? || pri[k] <= pri[rest.value]) then Some(k) else rest
  }

  /** isr_pri: 8 stands for nothing in service. */
  function ServiceLevel(r: Regs): nat {
    var b := Best(r.isr, r.pri, 0);
    if b.Some? then r.pri[b.value] else 8
  }

  predicate Eligible(r: Regs, i: In, k: nat)
    requires k < SOURCES
  {
    Requests(r, i)[k] && !r.mask[k] && !r.isr[k] && r.pri[k] < ServiceLevel(r) && r.pri[k] <= r.prioMask
  }

  function EligibleBits(r: Regs, i: In): Bits { seq(SOURCES, k requires 0 <= k < SOURCES => Eligible(r, i, k)) }

  /** The source being presented; `intr` is whether there is one. */
  function Winner(r: Regs, i: In): (w: Option<nat>)
    ensures w.Some? ==> w.value < SOURCES
  {
    Best(EligibleBits(r, i), r.pri, 0)
  }

  function EoiTarget(r: Regs): (w: Option<nat>)
    ensures w.Some? ==> w.value < SOURCES
  {
    Best(r.isr, r.pri, 0)
  }

  function Vector(r: Regs, w: nat): nat {
    if w == DMA0 then 10 else if w == DMA1 then 11
    else if w >= INT0 then 12 + (w - INT0)
    else if r.t0 then 8 else if r.t1 then 18 else 19
  }

  lemma {:induction false} BestIsBest(b: Bits, pri: Priorities, k: nat, j: nat)
    requires k <= j < SOURCES && b[j]
    ensures var w := Best(b, pri, k);
      w.Some? && (pri[w.value] < pri[j] || (pri[w.value] == pri[j] && w.value <= j))
    decreases SOURCES - k
  {
    if k < j { BestIsBest(b, pri, k + 1, j); }
  }

  // ---- one clock -------------------------------------------------------------

  predicate Ends(i: In) { i.extEoi || i.write.Eoi? }

  predicate Takes(r: Regs, i: In, k: nat) { i.iack && Winner(r, i) == Some(k) }

  function StepIsr(r: Regs, i: In): Bits {
    var w := if Winner(r, i).Some? then Winner(r, i).value else 0;
    var taken: Bits := if i.iack then r.isr[w := true] else r.isr;
    var ended: Bits :=
      if Ends(i) && EoiTarget(r).Some? then taken[EoiTarget(r).value := false] else taken;
    if i.write.InService? then i.write.bits else ended
  }

  /** Acknowledging a timer clears the one that supplied the vector; nothing
      requested leaves source 0 as the winner. */
  function StepTimers(r: Regs, i: In): (bool, bool, bool) {
    var ack := i.iack && (Winner(r, i).None? || Winner(r, i).value == TIMER);
    (if ack && r.t0 then false else r.t0 || i.timer0,
     if ack && !r.t0 && r.t1 then false else r.t1 || i.timer1,
     if ack && !r.t0 && !r.t1 then false else r.t2 || i.timer2)
  }

  function StepDma(was: bool, pulse: bool, ack: bool): bool { if ack then false else was || pulse }

  function StepMask(r: Regs, w: Write): Bits
    requires WriteOk(w)
  {
    match w
    case MaskAll(bits) => bits
    case Control(k, masked, _) => r.mask[k := masked]
    case _ => r.mask
  }

  function StepPri(r: Regs, w: Write): Priorities
    requires WriteOk(w)
  {
    if w.Control? then
      var p: seq<nat> := r.pri[w.source := w.level];
      p
    else r.pri
  }

  function Step(r: Regs, i: In): Regs
    requires WriteOk(i.write)
  {
    var t := StepTimers(r, i);
    Regs(StepMask(r, i.write), StepIsr(r, i),
         if i.write.Request? then i.write.dma0 else StepDma(r.dma0, i.dma0, Takes(r, i, DMA0)),
         if i.write.Request? then i.write.dma1 else StepDma(r.dma1, i.dma1, Takes(r, i, DMA1)),
         StepPri(r, i.write),
         if i.write.PrioMask? then i.write.level else r.prioMask,
         t.0, t.1, t.2)
  }

  // ---- the control block ---------------------------------------------------------

  /** Bit `k` of a register. */
  predicate Bit(data: nat, k: nat) { if k == 0 then data % 2 == 1 else Bit(data / 2, k - 1) }

  /** The low `n` bits, lowest first. */
  function LowBits(data: nat, n: nat): (b: seq<bool>)
    ensures |b| == n && forall k :: 0 <= k < n ==> b[k] == Bit(data, k)
  {
    if n == 0 then [] else [data % 2 == 1] + LowBits(data / 2, n - 1)
  }

  function BitsOf(data: nat): Bits { LowBits(data, SOURCES) }

  /** What writing `data` at offset `off` of the block does. */
  function WriteAt(off: nat, data: nat): (w: Write)
    ensures WriteOk(w)
  {
    match off
    case 0x22 => Eoi
    case 0x28 => MaskAll(BitsOf(data))
    case 0x2A => PrioMask(data % 8)
    case 0x2C => InService(BitsOf(data))
    case 0x2E => Request(Bit(data, DMA0), Bit(data, DMA1))
    case 0x32 => Control(TIMER, Bit(data, 3), data % 8)
    case 0x34 => Control(DMA0, Bit(data, 3), data % 8)
    case 0x36 => Control(DMA1, Bit(data, 3), data % 8)
    case 0x38 => Control(INT0, Bit(data, 3), data % 8)
    case 0x3A => Control(INT0 + 1, Bit(data, 3), data % 8)
    case 0x3C => Control(INT0 + 2, Bit(data, 3), data % 8)
    case 0x3E => Control(INT0 + 3, Bit(data, 3), data % 8)
    case _ => NoWrite
  }

  function Number(b: seq<bool>): nat {
    if b == [] then 0 else (if b[0] then 1 else 0) + 2 * Number(b[1..])
  }

  function ControlOf(r: Regs, k: nat): nat
    requires k < SOURCES
  {
    (if r.mask[k] then 8 else 0) + r.pri[k]
  }

  /** pcb_rdata. */
  function ReadAt(r: Regs, i: In, off: nat): nat {
    match off
    case 0x28 => Number(r.mask)
    case 0x2A => r.prioMask
    case 0x2C => Number(r.isr)
    case 0x2E => Number(Requests(r, i))
    case 0x30 => (if r.t0 then 1 else 0) + (if r.t1 then 2 else 0) + (if r.t2 then 4 else 0)
    case 0x32 => ControlOf(r, TIMER)
    case 0x34 => ControlOf(r, DMA0)
    case 0x36 => ControlOf(r, DMA1)
    case 0x38 => ControlOf(r, INT0)
    case 0x3A => ControlOf(r, INT0 + 1)
    case 0x3C => ControlOf(r, INT0 + 2)
    case 0x3E => ControlOf(r, INT0 + 3)
    case _ => 0
  }

  // ---- nesting ----------------------------------------------------------------

  /** `st` lists the sources in service in the order they were accepted, each of
      strictly higher priority than all before it. */
  predicate Nested(isr: Bits, pri: Priorities, st: seq<nat>) {
    && (forall n :: 0 <= n < |st| ==> st[n] < SOURCES)
    && (forall k :: 0 <= k < SOURCES ==> (isr[k] <==> k in st))
    && (forall m, n :: 0 <= m < n < |st| ==> pri[st[n]] < pri[st[m]])
  }

  /** Software leaves priorities and in-service bits alone, whatever it masks, and
      the core only acknowledges what is presented. */
  predicate Orderly(r: Regs, i: In) {
    && WriteOk(i.write) && !i.write.InService?
    && (i.write.Control? ==> i.write.level == r.pri[i.write.source])
    && (i.iack ==> Winner(r, i).Some?)
  }

  function Pop(st: seq<nat>): seq<nat> { if st == [] then [] else st[..|st| - 1] }

  function NextStack(r: Regs, i: In, st: seq<nat>): seq<nat> {
    var left := if Ends(i) then Pop(st) else st;
    if i.iack && Winner(r, i).Some? then left + [Winner(r, i).value] else left
  }

  /** The bit a non-specific end of interrupt clears is the latest accepted. */
  lemma EoiTargetIsTop(r: Regs, st: seq<nat>)
    requires Nested(r.isr, r.pri, st)
    ensures EoiTarget(r) == if st == [] then None else Some(st[|st| - 1])
  {
    if st != [] {
      var top := st[|st| - 1];
      assert top in st;
      BestIsBest(r.isr, r.pri, 0, top);
      var w := EoiTarget(r).value;
      var n :| 0 <= n < |st| && st[n] == w;
      if n < |st| - 1 { assert false; }
    }
  }

  lemma PopOrTop(st: seq<nat>, k: nat)
    requires st != []
    ensures k in st <==> k in Pop(st) || k == st[|st| - 1]
  {
    assert st == Pop(st) + [st[|st| - 1]];
  }

  lemma PopNests(isr: Bits, pri: Priorities, st: seq<nat>)
    requires Nested(isr, pri, st) && st != []
    ensures st[|st| - 1] < SOURCES && Nested(isr[st[|st| - 1] := false], pri, Pop(st))
  {
    var top := st[|st| - 1];
    assert top in st;
    forall k | 0 <= k < SOURCES
      ensures isr[top := false][k] <==> k in Pop(st)
    {
      PopOrTop(st, k);
      if k in Pop(st) {
        var n :| 0 <= n < |st| - 1 && st[n] == k;
        assert pri[top] < pri[st[n]];
      }
    }
  }

  lemma PushNests(isr: Bits, pri: Priorities, st: seq<nat>, w: nat)
    requires Nested(isr, pri, st) && w < SOURCES
    requires forall n :: 0 <= n < |st| ==> pri[w] < pri[st[n]]
    ensures Nested(isr[w := true], pri, st + [w])
  {
  }

  /** Whatever is presented outranks everything in service. */
  lemma WinnerOutranks(r: Regs, i: In, st: seq<nat>)
    requires Nested(r.isr, r.pri, st) && Winner(r, i).Some?
    ensures !r.isr[Winner(r, i).value]
    ensures forall n :: 0 <= n < |st| ==> r.pri[Winner(r, i).value] < r.pri[st[n]]
  {
    hide Best, Requests;
    assert EligibleBits(r, i)[Winner(r, i).value];
    EoiTargetIsTop(r, st);
  }

  /** One clock: acceptance pushes, end of interrupt pops, even both at once. */
  lemma NestedStep(r: Regs, i: In, st: seq<nat>)
    requires Nested(r.isr, r.pri, st) && Orderly(r, i)
    ensures Step(r, i).pri == r.pri
    ensures Nested(Step(r, i).isr, r.pri, NextStack(r, i, st))
  {
    hide Winner, EoiTarget, StepTimers, StepDma, StepMask, Nested;
    EoiTargetIsTop(r, st);
    if Ends(i) && st != [] { PopNests(r.isr, r.pri, st); }
    if i.iack {
      WinnerOutranks(r, i, st);
      var isr: Bits := if Ends(i) && st != [] then r.isr[st[|st| - 1] := false] else r.isr;
      PopIsPrefix(st);
      PushNests(isr, r.pri, if Ends(i) then Pop(st) else st, Winner(r, i).value);
      TopInService(r, st);
      assert StepIsr(r, i) == isr[Winner(r, i).value := true];
    }
  }

  lemma PopIsPrefix(st: seq<nat>)
    ensures |Pop(st)| <= |st| && forall n :: 0 <= n < |Pop(st)| ==> Pop(st)[n] == st[n]
  {
  }

  lemma TopInService(r: Regs, st: seq<nat>)
    requires Nested(r.isr, r.pri, st)
    ensures st != [] ==> st[|st| - 1] < SOURCES && r.isr[st[|st| - 1]]
  {
    if st != [] { assert st[|st| - 1] in st; }
  }

  // ---- whole runs ----------------------------------------------------------------

  ghost predicate IsRun(states: seq<Regs>, ins: seq<In>) {
    && |states| == |ins| + 1
    && Nested(states[0].isr, states[0].pri, [])
    && (forall k :: 0 <= k < |ins| ==> Orderly(states[k], ins[k]) && states[k + 1] == Step(states[k], ins[k]))
  }

  /** Acceptances pushed, ends of interrupt popped, from nothing in service. */
  ghost function StackOf(states: seq<Regs>, ins: seq<In>, k: nat): seq<nat>
    requires |states| == |ins| + 1 && k <= |ins|
  {
    if k == 0 then [] else NextStack(states[k - 1], ins[k - 1], StackOf(states, ins, k - 1))
  }

  /** A SET THAT IS A STACK. In every run the in-service register holds exactly
      the interrupts accepted and not yet ended, the one an end of interrupt
      clears, by either port, is the latest of them, and each outranks all it
      interrupted. */
  lemma {:induction false} InServiceIsStack(states: seq<Regs>, ins: seq<In>, k: nat)
    requires IsRun(states, ins) && k <= |ins|
    ensures var st := StackOf(states, ins, k);
      && Nested(states[k].isr, states[k].pri, st)
      && EoiTarget(states[k]) == if st == [] then None else Some(st[|st| - 1])
  {
    hide Step, Nested, NextStack, EoiTarget, Orderly;
    if k > 0 {
      InServiceIsStack(states, ins, k - 1);
      NestedStep(states[k - 1], ins[k - 1], StackOf(states, ins, k - 1));
    }
    EoiTargetIsTop(states[k], StackOf(states, ins, k));
  }

  /** Never more deeply nested than there are priorities. */
  lemma {:induction false} NestingIsBounded(isr: Bits, pri: Priorities, st: seq<nat>)
    requires Nested(isr, pri, st)
    ensures |st| <= 8
    ensures st != [] ==> st[|st| - 1] < SOURCES && pri[st[|st| - 1]] + |st| <= 8
    decreases |st|
  {
    if |st| > 0 {
      PopNests(isr, pri, st);
      NestingIsBounded(isr[st[|st| - 1] := false], pri, Pop(st));
    }
  }

  // ---- what is presented -----------------------------------------------------------

  /** The winner is requested, unmasked and the best of those that may interrupt;
      and if any may, one does. */
  lemma PresentsTheBest(r: Regs, i: In, j: nat)
    requires j < SOURCES && Eligible(r, i, j)
    ensures var w := Winner(r, i);
      && w.Some? && Eligible(r, i, w.value)
      && (r.pri[w.value] < r.pri[j] || (r.pri[w.value] == r.pri[j] && w.value <= j))
  {
    hide Eligible;
    assert EligibleBits(r, i)[j];
    BestIsBest(EligibleBits(r, i), r.pri, 0, j);
    assert EligibleBits(r, i)[Winner(r, i).value];
  }

  /** This clock acknowledges the timers' source, or nothing at all, which the
      encoder cannot tell from it. */
  predicate AcksTimer(r: Regs, i: In) { i.iack && (Winner(r, i).None? || Winner(r, i).value == TIMER) }

  /** INTERNAL PULSES ARE LATCHED, WITH AN EXCEPTION. A timer's pulse leaves its latch
      set unless that very clock acknowledges the timers and it is this timer's turn:
      0 if its latch was set, 1 if its was and 0's was not, 2 if neither of those was.
      When a timer was really presented, the latch that turn goes to was set, so two
      pulses have become one. */
  lemma TimerPulseLostExactly(r: Regs, i: In)
    requires WriteOk(i.write)
    ensures i.timer0 ==> (!Step(r, i).t0 <==> AcksTimer(r, i) && r.t0)
    ensures i.timer1 ==> (!Step(r, i).t1 <==> AcksTimer(r, i) && !r.t0 && r.t1)
    ensures i.timer2 ==> (!Step(r, i).t2 <==> AcksTimer(r, i) && !r.t0 && !r.t1)
    ensures Winner(r, i) == Some(TIMER) ==> r.t0 || r.t1 || r.t2
  {
    hide StepIsr, StepMask, StepDma, Best;
    if Winner(r, i) == Some(TIMER) {
      assert EligibleBits(r, i)[TIMER];
    }
  }

  /** A DMA pulse likewise, and where software writes the request bits, theirs stand. */
  lemma DmaPulseLostExactly(r: Regs, i: In)
    requires WriteOk(i.write)
    ensures i.dma0 ==> (!Step(r, i).dma0 <==>
              if i.write.Request? then !i.write.dma0 else i.iack && Winner(r, i) == Some(DMA0))
    ensures i.dma1 ==> (!Step(r, i).dma1 <==>
              if i.write.Request? then !i.write.dma1 else i.iack && Winner(r, i) == Some(DMA1))
  {
    hide Winner, StepIsr, StepMask, StepTimers;
  }

  const NO_ONE: Bits := [false, false, false, false, false, false, false]

  function Pulse(write: Write, iack: bool): In {
    In(false, false, false, false, true, false, false, false, false, iack, false, write)
  }

  /** After reset: unmask with a first pulse of timer 0, then a second as the first is
      acknowledged. Two pulses, one interrupt, and the latch is clear. */
  lemma TwoPulsesBecomeOne()
    ensures var r := Step(Reset(), Pulse(MaskAll(NO_ONE), false));
      var i := Pulse(NoWrite, true);
      && r.t0 && Winner(r, i) == Some(TIMER) && Orderly(r, i)
      && !Step(r, i).t0 && !Step(r, i).t1 && !Step(r, i).t2
  {
    hide Best;
    var r, i := Step(Reset(), Pulse(MaskAll(NO_ONE), false)), Pulse(NoWrite, true);
    assert ServiceLevel(Reset()) == 8 by { NothingInService(Reset()); }
    NothingInService(r);
    assert Eligible(r, i, TIMER);
    PresentsTheBest(r, i, TIMER);
  }

  lemma NothingInService(r: Regs)
    requires r.isr == NO_ONE
    ensures ServiceLevel(r) == 8
  {
    LevelIsLeast(r, 8);
  }

  lemma LevelIsLeast(r: Regs, level: nat)
    requires level <= 8
    requires forall j :: 0 <= j < SOURCES && r.isr[j] ==> level <= r.pri[j]
    requires level < 8 ==> exists j :: 0 <= j < SOURCES && r.isr[j] && r.pri[j] == level
    ensures level == ServiceLevel(r)
  {
    if level < 8 {
      var j :| 0 <= j < SOURCES && r.isr[j] && r.pri[j] == level;
      BestIsBest(r.isr, r.pri, 0, j);
    }
  }

  // ---- the controller itself ---------------------------------------------------------

  class Controller {
    var mask: Bits
    var isr: Bits
    var dma0: bool
    var dma1: bool
    var pri: Priorities
    var prioMask: nat
    var t0: bool
    var t1: bool
    var t2: bool

    ghost function View(): Regs
      reads this
    {
      Regs(mask, isr, dma0, dma1, pri, prioMask, t0, t1, t2)
    }

    constructor ()
      ensures View() == Reset()
    {
      mask, isr, pri := seq(SOURCES, _ => true), seq(SOURCES, _ => false), seq(SOURCES, _ => 7);
      dma0, dma1, prioMask := false, false, 7;
      t0, t1, t2 := false, false, false;
    }

    /** The downward scan both priority encoders make. */
    method ScanDown(b: Bits) returns (found: bool, which: nat)
      ensures Best(b, pri, 0) == if found then Some(which) else None
    {
      found, which := false, 0;
      for k := SOURCES downto 0
        invariant Best(b, pri, k) == if found then Some(which) else None
      {
        if b[k] && (!found || pri[k] <= pri[which]) { found, which := true, k; }
      }
    }

    /** isr_pri, by its own upward loop. */
    method Level() returns (level: nat)
      ensures level == ServiceLevel(View())
    {
      level := 8;
      for k := 0 to SOURCES
        invariant level <= 8
        invariant forall j :: 0 <= j < k && isr[j] ==> level <= pri[j]
        invariant level < 8 ==> exists j :: 0 <= j < k && isr[j] && pri[j] == level
      {
        if isr[k] && pri[k] < level { level := pri[k]; }
      }
      LevelIsLeast(View(), level);
    }

    method MayInterrupt(i: In, level: nat) returns (eligible: Bits)
      requires level == ServiceLevel(View())
      ensures eligible == EligibleBits(View(), i)
    {
      hide ServiceLevel;
      var request := [t0 || t1 || t2, dma0, dma1, i.int0, i.int1, i.int2, i.int3];
      eligible := seq(SOURCES, _ => false);
      for k := 0 to SOURCES
        invariant forall j :: 0 <= j < k ==> eligible[j] == Eligible(View(), i, j)
      {
        eligible := eligible[k := request[k] && !mask[k] && !isr[k] && pri[k] < level && pri[k] <= prioMask];
      }
    }

    method Present(i: In) returns (intr: bool, winner: nat)
      ensures Winner(View(), i) == if intr then Some(winner) else None
    {
      hide Best, ServiceLevel, EligibleBits;
      var level := Level();
      var eligible := MayInterrupt(i, level);
      intr, winner := ScanDown(eligible);
    }

    method ClockIsr(i: In, intr: bool, winner: nat, ended: bool, target: nat, ghost was: Regs)
      requires isr == was.isr
      requires Winner(was, i) == if intr then Some(winner) else None
      requires EoiTarget(was) == if ended then Some(target) else None
      requires !intr ==> winner == 0
      modifies `isr
      ensures isr == StepIsr(was, i)
    {
      hide Winner, EoiTarget;
      if i.iack { isr := isr[winner := true]; }
      if (i.extEoi || i.write.Eoi?) && ended { isr := isr[target := false]; }
      if i.write.InService? { isr := i.write.bits; }
    }

    method ClockTimers(i: In, timerWon: bool, ghost was: Regs)
      requires t0 == was.t0 && t1 == was.t1 && t2 == was.t2
      requires timerWon == (Winner(was, i).None? || Winner(was, i).value == TIMER)
      modifies `t0, `t1, `t2
      ensures (t0, t1, t2) == StepTimers(was, i)
    {
      hide Winner;
      var was0, was1 := t0, t1;
      if i.timer0 { t0 := true; }
      if i.timer1 { t1 := true; }
      if i.timer2 { t2 := true; }
      if i.iack && timerWon {
        if was0 { t0 := false; } else if was1 { t1 := false; } else { t2 := false; }
      }
    }

    method ClockWrites(w: Write, ghost was: Regs)
      requires WriteOk(w) && mask == was.mask && pri == was.pri
      modifies `mask, `pri, `prioMask
      ensures mask == StepMask(was, w) && pri == StepPri(was, w)
      ensures prioMask == if w.PrioMask? then w.level else old(prioMask)
    {
      match w {
        case MaskAll(bits) => mask := bits;
        case PrioMask(level) => prioMask := level;
        case Control(k, masked, level) =>
          mask := mask[k := masked];
          var p: seq<nat> := pri[k := level];
          pri := p;
        case _ =>
      }
    }

    method ClockDma(i: In, took0: bool, took1: bool)
      modifies `dma0, `dma1
      ensures dma0 == if i.write.Request? then i.write.dma0 else StepDma(old(dma0), i.dma0, took0)
      ensures dma1 == if i.write.Request? then i.write.dma1 else StepDma(old(dma1), i.dma1, took1)
    {
      if i.dma0 { dma0 := true; }
      if i.dma1 { dma1 := true; }
      if took0 { dma0 := false; }
      if took1 { dma1 := false; }
      if i.write.Request? { dma0, dma1 := i.write.dma0, i.write.dma1; }
    }

    method VectorOf(winner: nat) returns (vector: nat)
      ensures vector == Vector(View(), winner)
    {
      vector := if winner == DMA0 then 10 else if winner == DMA1 then 11
                else if winner >= INT0 then 12 + (winner - INT0)
                else if t0 then 8 else if t1 then 18 else 19;
    }

    function ControlHere(k: nat): (c: nat)
      requires k < SOURCES
      reads this
      ensures c == ControlOf(View(), k)
    {
      (if mask[k] then 8 else 0) + pri[k]
    }

    method Read(off: nat, i: In) returns (data: nat)
      ensures data == ReadAt(View(), i, off)
    {
      hide Number, ControlOf;
      data := match off
        case 0x28 => Number(mask)
        case 0x2A => prioMask
        case 0x2C => Number(isr)
        case 0x2E => Number([t0 || t1 || t2, dma0, dma1, i.int0, i.int1, i.int2, i.int3])
        case 0x30 => (if t0 then 1 else 0) + (if t1 then 2 else 0) + (if t2 then 4 else 0)
        case 0x32 => ControlHere(TIMER)
        case 0x34 => ControlHere(DMA0)
        case 0x36 => ControlHere(DMA1)
        case 0x38 => ControlHere(INT0)
        case 0x3A => ControlHere(INT0 + 1)
        case 0x3C => ControlHere(INT0 + 2)
        case 0x3E => ControlHere(INT0 + 3)
        case _ => 0;
    }

    method Clock(i: In, intr: bool, winner: nat, ended: bool, target: nat)
      requires WriteOk(i.write) && (!intr ==> winner == 0)
      requires Winner(View(), i) == if intr then Some(winner) else None
      requires EoiTarget(View()) == if ended then Some(target) else None
      modifies this
      ensures View() == Step(old(View()), i)
    {
      hide Winner, EoiTarget, StepIsr, StepTimers, StepMask, StepPri, StepDma;
      ghost var was := View();
      ClockIsr(i, intr, winner, ended, target, was);
      ClockTimers(i, winner == TIMER, was);
      ClockDma(i, i.iack && intr && winner == DMA0, i.iack && intr && winner == DMA1);
      ClockWrites(i.write, was);
    }

    method Tick(i: In) returns (intr: bool, vector: nat)
      requires WriteOk(i.write)
      modifies this
      ensures View() == Step(old(View()), i)
      ensures intr <==> Winner(old(View()), i).Some?
      ensures intr ==> vector == Vector(old(View()), Winner(old(View()), i).value)
    {
      hide Winner, Step, Best, Vector;
      var winner: nat;
      intr, winner := Present(i);
      if !intr { winner := 0; }
      vector := VectorOf(winner);
      var ended, target := ScanDown(isr);
      Clock(i, intr, winner, ended, target);
    }
  }
}
