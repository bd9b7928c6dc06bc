/** What software and the devices see of modules/interrupt_controller.sv, by lines,
    latches, registers and vector numbers alone. */
module InterruptDelivery {
  import opened Machine
  import opened InterruptController

  // ---- which source gets through -----------------------------------------------------

  /** Source `k` wants attention: a timer or DMA latch, or the level of a pin. */
  predicate Raised(r: Regs, i: In, k: nat)
    requires k < SOURCES
  {
    || (k == 0 && (r.t0 || r.t1 || r.t2)) || (k == 1 && r.dma0) || (k == 2 && r.dma1)
    || (k == 3 && i.int0) || (k == 4 && i.int1) || (k == 5 && i.int2) || (k == 6 && i.int3)
  }

  /** ... and nothing software has set keeps it out: its mask, the priority mask, and
      all that is in service, which it must outrank. */
  predicate GetsThrough(r: Regs, i: In, k: nat)
    requires k < SOURCES
  {
    && Raised(r, i, k) && !r.mask[k] && !r.isr[k] && r.pri[k] <= r.prioMask
    && forall j :: 0 <= j < SOURCES && r.isr[j] ==> r.pri[k] < r.pri[j]
  }

  /** The order between sources: by priority, then by number. */
  predicate Before(r: Regs, k: nat, j: nat)
    requires k < SOURCES && j < SOURCES
  {
    r.pri[k] < r.pri[j] || (r.pri[k] == r.pri[j] && k < j)
  }

  lemma LevelIsBound(r: Regs, n: nat)
    requires n < 8
    ensures n < ServiceLevel(r) <==> forall j :: 0 <= j < SOURCES && r.isr[j] ==> n < r.pri[j]
  {
    hide Best;
    forall j | 0 <= j < SOURCES && r.isr[j]
      ensures ServiceLevel(r) <= r.pri[j]
    {
      BestIsBest(r.isr, r.pri, 0, j);
    }
  }

  lemma RequestIsRaised(r: Regs, i: In, k: nat)
    requires k < SOURCES
    ensures Requests(r, i)[k] == Raised(r, i, k)
  {
  }

  lemma EligibleIsGetsThrough(r: Regs, i: In, k: nat)
    requires k < SOURCES
    ensures Eligible(r, i, k) <==> GetsThrough(r, i, k)
  {
    hide ServiceLevel, Requests, Raised;
    RequestIsRaised(r, i, k);
    LevelIsBound(r, r.pri[k]);
  }

  /** THE INTERRUPT PRESENTED, EXACTLY: of all sources that get through, the first in
      the order of priorities. */
  lemma WinnerExactly(r: Regs, i: In, k: nat)
    requires k < SOURCES
    ensures Winner(r, i) == Some(k)
       <==> GetsThrough(r, i, k) && forall j :: 0 <= j < SOURCES && j != k && GetsThrough(r, i, j) ==> Before(r, k, j)
  {
    hide Best, Eligible, GetsThrough;
    var b := EligibleBits(r, i);
    forall j | 0 <= j < SOURCES
      ensures b[j] == GetsThrough(r, i, j)
    {
      EligibleIsGetsThrough(r, i, j);
    }
    forall j | 0 <= j < SOURCES && b[j]
      ensures Winner(r, i).Some? && (j == Winner(r, i).value || Before(r, Winner(r, i).value, j))
    {
      BestIsBest(b, r.pri, 0, j);
    }
  }

  /** ... and silence exactly when none does. */
  lemma SilentExactly(r: Regs, i: In)
    ensures Winner(r, i) == None <==> forall j :: 0 <= j < SOURCES ==> !GetsThrough(r, i, j)
  {
    hide Best, Eligible, GetsThrough;
    forall j | 0 <= j < SOURCES
      ensures EligibleBits(r, i)[j] == GetsThrough(r, i, j)
      ensures GetsThrough(r, i, j) ==> Winner(r, i).Some?
    {
      EligibleIsGetsThrough(r, i, j);
      if EligibleBits(r, i)[j] { BestIsBest(EligibleBits(r, i), r.pri, 0, j); }
    }
  }

  // ---- vectors --------------------------------------------------------------------------

  /** Fixed for each source; the timers share one and are told apart by their latches. */
  const VECTORS: seq<nat> := [8, 10, 11, 12, 13, 14, 15]

  /** THE VECTOR NAMES ITS SOURCE. Each source has its own, and with the timers'
      source it is 8, 18 or 19 for the first latched timer: the one whose latch the
      acknowledge then clears, and no other. */
  lemma VectorNamesSource(r: Regs, i: In, k: nat)
    requires WriteOk(i.write) && Winner(r, i) == Some(k)
    ensures k != TIMER ==> Vector(r, k) == VECTORS[k]
    ensures k == TIMER ==> Vector(r, k) in {8, 18, 19}
    ensures k == TIMER && i.iack && !i.timer0 && !i.timer1 && !i.timer2 ==>
      var n := Step(r, i);
      if Vector(r, k) == 8 then r.t0 && !n.t0 && n.t1 == r.t1 && n.t2 == r.t2
      else if Vector(r, k) == 18 then !r.t0 && r.t1 && !n.t0 && !n.t1 && n.t2 == r.t2
      else !r.t0 && !r.t1 && r.t2 && !n.t0 && !n.t1 && !n.t2
    ensures k != TIMER ==> Step(r, i).t0 == (r.t0 || i.timer0) && Step(r, i).t1 == (r.t1 || i.timer1)
                           && Step(r, i).t2 == (r.t2 || i.timer2)
  {
    hide Winner, StepIsr, StepMask, StepPri, StepDma;
    WinnerExactly(r, i, k);
  }

  // ---- the control block -----------------------------------------------------------------

  /** Where source `k`'s own register is. */
  function ControlAt(k: nat): nat { 0x32 + 2 * k }

  lemma BitThree(data: nat)
    ensures Bit(data, 3) <==> data / 8 % 2 == 1
    ensures data % 16 == data / 8 % 2 * 8 + data % 8
  {
    assert Bit(data, 3) == Bit(data / 2, 2) == Bit(data / 2 / 2, 1) == Bit(data / 2 / 2 / 2, 0);
    assert data / 2 / 2 / 2 == data / 8;
  }

  /** A CONTROL REGISTER SETS ITS OWN SOURCE: bit 3 the mask, the low bits the
      priority, and nothing else; and it reads back as written. */
  lemma ControlWrites(r: Regs, i: In, k: nat, data: nat)
    requires k < SOURCES && i.write == WriteAt(ControlAt(k), data)
    ensures var n := Step(r, i);
      && n.mask[k] == (data / 8 % 2 == 1) && n.pri[k] == data % 8 && n.prioMask == r.prioMask
      && (forall j :: 0 <= j < SOURCES && j != k ==> n.mask[j] == r.mask[j] && n.pri[j] == r.pri[j])
      && ReadAt(n, i, ControlAt(k)) == data % 16
  {
    hide StepIsr, StepTimers, StepDma, Winner, Requests, Bit, Number, BitsOf;
    BitThree(data);
    assert WriteAt(ControlAt(k), data) == Control(k, Bit(data, 3), data % 8);
    assert ReadAt(Step(r, i), i, ControlAt(k)) == ControlOf(Step(r, i), k);
  }

  function Power(n: nat): (p: nat)
    ensures p > 0
  {
    if n == 0 then 1 else 2 * Power(n - 1)
  }

  lemma {:induction false} NumberOfBits(data: nat, n: nat)
    ensures Number(LowBits(data, n)) == data % Power(n)
  {
    if n > 0 {
      NumberOfBits(data / 2, n - 1);
      assert LowBits(data, n)[1..] == LowBits(data / 2, n - 1);
      DoubleRemainder(data, Power(n - 1));
    }
  }

  lemma DoubleRemainder(a: nat, p: nat)
    requires p > 0
    ensures a % (2 * p) == a % 2 + 2 * (a / 2 % p)
  {
    var q := a / 2 / p;
    assert a / 2 == p * q + a / 2 % p;
    assert a == 2 * p * q + (2 * (a / 2 % p) + a % 2);
    RemainderIs(a, q, 2 * p, 2 * (a / 2 % p) + a % 2);
  }

  lemma Multiple(m: nat, d: nat)
    requires d >= 1
    ensures m * d >= m
  {
  }

  lemma RemainderIs(a: nat, q: nat, m: nat, r: nat)
    requires r < m && a == m * q + r
    ensures a % m == r
  {
    var p, s := a / m, a % m;
    assert a == m * p + s;
    assert m * (q - p) == m * q - m * p == s - r;
    if p < q { Multiple(m, q - p); }
    if p > q { Multiple(m, p - q); }
  }

  /** MASKS: the mask register sets every mask, the priority mask its own three bits,
      each reads back, and no other write touches either. */
  lemma MaskWrites(r: Regs, i: In, off: nat, data: nat)
    requires i.write == WriteAt(off, data)
    ensures var n := Step(r, i);
      && (off == 0x28 ==>
            (forall k :: 0 <= k < SOURCES ==> n.mask[k] == Bit(data, k)) && ReadAt(n, i, off) == data % 128)
      && (off == 0x2A ==> n.prioMask == data % 8 == ReadAt(n, i, off))
      && (off != 0x28 && off !in {0x32, 0x34, 0x36, 0x38, 0x3A, 0x3C, 0x3E} ==> n.mask == r.mask)
      && (off !in {0x32, 0x34, 0x36, 0x38, 0x3A, 0x3C, 0x3E} ==> n.pri == r.pri)
      && (off != 0x2A ==> n.prioMask == r.prioMask)
  {
    hide StepIsr, StepTimers, StepDma, Winner, Requests, Number, Bit;
    NumberOfBits(data, SOURCES);
    assert Power(SOURCES) == 128;
  }

  /** IN SERVICE: software may set the bits, and they read back. */
  lemma ServiceWrites(r: Regs, i: In, data: nat)
    requires i.write == WriteAt(0x2C, data)
    ensures var n := Step(r, i);
      (forall k :: 0 <= k < SOURCES ==> n.isr[k] == Bit(data, k)) && ReadAt(n, i, 0x2C) == data % 128
  {
    hide StepTimers, StepDma, Winner, StepMask, StepPri, Number, LowBits, Bit;
    NumberOfBits(data, SOURCES);
    assert Power(SOURCES) == 128;
  }

  lemma BitOneTwo(data: nat)
    ensures Bit(data, 1) == (data / 2 % 2 == 1) && Bit(data, 2) == (data / 4 % 2 == 1)
  {
    assert Bit(data, 1) == Bit(data / 2, 0) && Bit(data, 2) == Bit(data / 2, 1) == Bit(data / 2 / 2, 0);
    assert data / 2 / 2 == data / 4;
  }

  /** REQUESTS: software may set the two DMA latches alone, and reads back every line
      and latch that is up. */
  lemma RequestWrites(r: Regs, i: In, data: nat)
    requires i.write == WriteAt(0x2E, data)
    ensures var n := Step(r, i); n.dma0 == (data / 2 % 2 == 1) && n.dma1 == (data / 4 % 2 == 1)
    ensures var n := Step(r, i); forall k :: 0 <= k < SOURCES ==> Bit(ReadAt(n, i, 0x2E), k) == Raised(n, i, k)
  {
    hide StepTimers, StepIsr, StepDma, Winner, StepMask, StepPri, Number, Bit, Requests, Raised;
    BitOneTwo(data);
    var n := Step(r, i);
    forall k | 0 <= k < SOURCES
      ensures Bit(Number(Requests(n, i)), k) == Raised(n, i, k)
    {
      BitOfNumber(Requests(n, i), k);
      RequestIsRaised(n, i, k);
    }
  }

  lemma {:induction false} BitOfNumber(b: seq<bool>, k: nat)
    requires k < |b|
    ensures Bit(Number(b), k) == b[k]
  {
    if k > 0 { BitOfNumber(b[1..], k - 1); }
  }

  /** A source that is masked stays silent, whatever its line does. */
  lemma MaskedIsSilent(r: Regs, i: In, k: nat)
    requires k < SOURCES && r.mask[k]
    ensures Winner(r, i) != Some(k)
  {
    hide Winner;
    WinnerExactly(r, i, k);
  }
}
