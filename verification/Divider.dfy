/** modules/ALU.sv: the restoring divider behind DIV and IDIV, with its sign
    fix-up and overflow test. */
module Divider {
  import opened Machine

  const W16: nat := 0x1_0000
  const W32: nat := 0x1_0000_0000

  datatype State = Idle | Dividing | Done

  /** Operands as the bus carries them: `hi` is only used by word divisions. */
  datatype Operands = Operands(word: bool, signed: bool, hi: nat, lo: nat, divisor: nat)

  predicate Wide(o: Operands) { o.hi < W16 && o.lo < W16 && o.divisor < W16 }

  datatype Regs = Regs(
    state: State, dvd: nat, quo: nat, rem: nat, dsr: nat, cnt: nat,
    qNeg: bool, rNeg: bool, divZero: bool, signed: bool, word: bool)

  function Reset(): Regs { Regs(Idle, 0, 0, 0, 0, 0, false, false, false, false, false) }

  // ---- what is being divided ----------------------------------------------

  function Width(word: bool): nat { if word then W16 else 0x100 }

  /** Two's complement of the low `m` values. */
  function Signed(x: nat, m: nat): int
    requires m > 0
  {
    if x % m >= m / 2 then x % m - m else x % m
  }

  function Unsigned(x: int, m: nat): (u: int)
    requires m > 0
    ensures 0 <= u < m
  {
    x % m
  }

  /** The dividend and divisor as numbers. */
  function Dividend(o: Operands): int
    requires Wide(o)
  {
    var n, m := if o.word then o.hi * W16 + o.lo else o.lo, if o.word then W32 else W16;
    if o.signed then Signed(n, m) else n
  }

  function Divisor(o: Operands): int {
    var m := Width(o.word);
    if o.signed then Signed(o.divisor, m) else o.divisor % m
  }

  function Abs(x: int): nat { if x < 0 then -x else x }

  /** Division as the instruction set has it: towards zero, the remainder taking
      the dividend's sign. */
  function Quotient(n: int, d: int): int
    requires d != 0
  {
    if (n < 0) == (d < 0) then Abs(n) / Abs(d) else -(Abs(n) / Abs(d))
  }

  function Remainder(n: int, d: int): int
    requires d != 0
  {
    if n < 0 then -(Abs(n) % Abs(d)) else Abs(n) % Abs(d)
  }

  /** The law that fixes both. */
  lemma TruncatedDivision(n: int, d: int)
    requires d != 0
    ensures Quotient(n, d) * d + Remainder(n, d) == n
    ensures Abs(Remainder(n, d)) < Abs(d)
    ensures Remainder(n, d) != 0 ==> (Remainder(n, d) < 0 <==> n < 0)
  {
    var a, b := Abs(n), Abs(d);
    assert a == b * (a / b) + a % b;
    if (n < 0) == (d < 0) {
      assert (a / b) * d == if n < 0 then -(b * (a / b)) else b * (a / b);
    } else {
      assert (-(a / b)) * d == if n < 0 then -(b * (a / b)) else b * (a / b);
    }
  }

  // ---- the datapath --------------------------------------------------------

  /** Two's complement negation: complement and add one. */
  function Negate(x: nat, m: nat): (y: nat)
    requires x < m
    ensures y == if x == 0 then 0 else m - x
  {
    (m - 1 - x + 1) % m
  }

  function SignDividend(o: Operands): bool { if o.word then o.hi >= 0x8000 else o.lo >= 0x8000 }
  function SignDivisor(o: Operands): bool { if o.word then o.divisor >= 0x8000 else o.divisor % 0x100 >= 0x80 }

  predicate DivisorZero(o: Operands) { o.divisor % Width(o.word) == 0 }

  /** dvd_nat: sign-extended to 32 bits for a signed byte division. */
  function DvdNat(o: Operands): (x: nat)
    requires Wide(o)
    ensures x < W32
  {
    if o.word then o.hi * W16 + o.lo
    else if o.signed && o.lo >= 0x8000 then 0xFFFF * W16 + o.lo
    else o.lo
  }

  function DvdAbs(o: Operands): (x: nat)
    requires Wide(o)
    ensures x < W32
  {
    if o.signed && SignDividend(o) then Negate(DvdNat(o), W32) else DvdNat(o)
  }

  function DvdAligned(o: Operands): (x: nat)
    requires Wide(o)
    ensures x < W32
  {
    if o.word then DvdAbs(o) else DvdAbs(o) % W16 * W16
  }

  function DsrNat(o: Operands): (x: nat)
    requires Wide(o)
    ensures x < W16
  {
    if o.word then o.divisor
    else if o.signed && o.divisor % 0x100 >= 0x80 then 0xFF00 + o.divisor % 0x100
    else o.divisor % 0x100
  }

  function DsrAbs(o: Operands): (x: nat)
    requires Wide(o)
    ensures x < W16
  {
    if o.signed && SignDivisor(o) then Negate(DsrNat(o), W16) else DsrNat(o)
  }

  function Steps(word: bool): nat { if word then 32 else 16 }

  function Start(r: Regs, o: Operands): Regs
    requires Wide(o)
  {
    if DivisorZero(o) then
      r.(signed := o.signed, word := o.word, divZero := true, quo := 0, rem := 0, state := Done)
    else
      Regs(Dividing, DvdAligned(o), 0, 0, DsrAbs(o), Steps(o.word),
           o.signed && SignDividend(o) != SignDivisor(o), o.signed && SignDividend(o),
           false, o.signed, o.word)
  }

  /** Pull the next dividend bit in; subtract the divisor if it fits. */
  function Shifted(r: Regs): nat { (r.rem % W16 * 2 + if r.dvd >= W32 / 2 then 1 else 0) }

  function Iterate(r: Regs): Regs
    requires r.cnt > 0
  {
    var fits := Shifted(r) >= r.dsr;
    r.(rem := if fits then Shifted(r) - r.dsr else Shifted(r),
       quo := (r.quo * 2 + if fits then 1 else 0) % W32,
       dvd := r.dvd * 2 % W32,
       cnt := r.cnt - 1,
       state := if r.cnt == 1 then Done else Dividing)
  }

  /** The outputs while the result stands. */
  function QuotientOut(r: Regs): (q: nat) {
    var m := Width(r.word);
    if r.qNeg then Negate(r.quo % m, m) else r.quo % m
  }

  function RemainderOut(r: Regs): (x: nat) {
    var m := Width(r.word);
    if r.rNeg then Negate(r.rem % m, m) else r.rem % m
  }

  predicate QuotientFits(r: Regs) {
    var m := Width(r.word);
    && r.quo / m == 0
    && (r.signed ==> if r.qNeg then r.quo % m <= m / 2 else r.quo % m <= m / 2 - 1)
  }

  // ---- magnitudes and signs ------------------------------------------------

  lemma WordDividend(o: Operands)
    requires Wide(o) && o.word
    ensures DvdAligned(o) == Abs(Dividend(o)) < W32
    ensures o.signed ==> (SignDividend(o) <==> Dividend(o) < 0)
    ensures !o.signed ==> Dividend(o) >= 0
  {
    var n := o.hi * W16 + o.lo;
    assert n % W32 == n;
    assert n >= W32 / 2 <==> o.hi >= 0x8000;
  }

  lemma ByteDividend(o: Operands)
    requires Wide(o) && !o.word
    ensures DvdAligned(o) == Abs(Dividend(o)) * W16 && Abs(Dividend(o)) < W16
    ensures o.signed ==> (SignDividend(o) <==> Dividend(o) < 0)
    ensures !o.signed ==> Dividend(o) >= 0
  {
    assert o.lo % W16 == o.lo;
  }

  lemma DividendMagnitude(o: Operands)
    requires Wide(o)
    ensures DvdAligned(o) == if o.word then Abs(Dividend(o)) else Abs(Dividend(o)) * W16
    ensures Abs(Dividend(o)) < if o.word then W32 else W16
    ensures o.signed ==> (SignDividend(o) <==> Dividend(o) < 0)
    ensures !o.signed ==> Dividend(o) >= 0
  {
    hide DvdAligned, Dividend;
    if o.word { WordDividend(o); } else { ByteDividend(o); }
  }

  lemma DivisorMagnitude(o: Operands)
    requires Wide(o)
    ensures DsrAbs(o) == Abs(Divisor(o)) <= Width(o.word)
    ensures o.signed ==> (SignDivisor(o) <==> Divisor(o) < 0)
    ensures !o.signed ==> Divisor(o) >= 0
    ensures DivisorZero(o) <==> Divisor(o) == 0
  {
    if o.word { assert o.divisor % W16 == o.divisor; }
  }

  // ---- the loop -------------------------------------------------------------

  function Pow2(n: nat): (p: nat)
    ensures p >= 1
  {
    if n == 0 then 1 else 2 * Pow2(n - 1)
  }

  lemma {:induction false} Pow2Product(a: nat, b: nat)
    ensures Pow2(a) * Pow2(b) == Pow2(a + b)
  {
    if a > 0 {
      Pow2Product(a - 1, b);
    }
  }

  lemma Pow2Of32()
    ensures Pow2(16) == W16 && Pow2(32) == W32
  {
    assert Pow2(4) == 16 && Pow2(8) == 256 && Pow2(12) == 4096 && Pow2(16) == W16;
    Pow2Product(16, 16);
  }

  /** What has been divided so far, put back together. */
  function Top(r: Regs): nat { r.quo * r.dsr + r.rem }

  /** After `k` steps: the top `k` bits of `aligned` have been divided, and the
      rest, `low`, waits at the top of the dividend register. */
  ghost predicate Divided(r: Regs, aligned: nat, k: nat, low: nat) {
    && k <= 32 && r.rem < r.dsr < W16 && r.quo < Pow2(k)
    && low < Pow2(32 - k)
    && aligned == Top(r) * Pow2(32 - k) + low
    && r.dvd == low * Pow2(k)
  }

  lemma MulLe(a: nat, b: nat, c: nat)
    requires a <= b
    ensures a * c <= b * c
  {
  }

  lemma MulLt(a: nat, b: nat, c: nat)
    requires a < b && c > 0
    ensures a * c < b * c
  {
    MulLe(a + 1, b, c);
  }

  lemma MulSub(a: nat, b: nat, c: nat)
    requires b <= a
    ensures (a - b) * c == a * c - b * c
  {
  }

  lemma MulTwo(a: nat, b: nat)
    ensures a * (2 * b) == 2 * (a * b) == (2 * a) * b
  {
  }

  lemma NextBit(low: nat, h: nat, q: nat, dvd: nat)
    requires h * q == W32 / 2 && low < 2 * h && dvd == low * q && q > 0
    ensures dvd >= W32 / 2 <==> low >= h
    ensures dvd * 2 % W32 == (if low >= h then low - h else low) * (2 * q)
  {
    if low >= h {
      MulLe(h, low, q);
      MulSub(low, h, q);
      MulLt(low - h, h, q);
      MulTwo(low - h, q);
    } else {
      MulLt(low, h, q);
      MulTwo(low, q);
    }
  }

  lemma NextTop(top: nat, h: nat, low: nat, bit: nat)
    ensures top * (2 * h) + (low + bit * h) == (2 * top + bit) * h + low
  {
    MulTwo(top, h);
  }

  lemma NextProduct(quo: nat, dsr: nat, bit: nat)
    ensures (2 * quo + bit) * dsr == 2 * (quo * dsr) + bit * dsr
  {
    MulTwo(quo, dsr);
  }

  lemma {:induction false} Pow2Grows(k: nat, n: nat)
    requires k <= n
    ensures Pow2(k) <= Pow2(n)
  {
    if k < n { Pow2Grows(k, n - 1); }
  }

  lemma IterateNumbers(r: Regs, bit: nat)
    requires r.cnt > 0 && r.rem < r.dsr < W16 && r.quo < W32 / 2
    requires bit == if r.dvd >= W32 / 2 then 1 else 0
    ensures var n, one := Iterate(r), if Shifted(r) >= r.dsr then 1 else 0;
      && n.dsr == r.dsr && n.quo == 2 * r.quo + one && n.rem == 2 * r.rem + bit - one * r.dsr
      && n.rem < n.dsr && n.dvd == r.dvd * 2 % W32
  {
  }

  lemma IterateTop(r: Regs, bit: nat)
    requires r.cnt > 0 && r.rem < r.dsr < W16 && r.quo < W32 / 2
    requires bit == if r.dvd >= W32 / 2 then 1 else 0
    ensures Top(Iterate(r)) == 2 * Top(r) + bit
  {
    hide Iterate, Shifted;
    IterateNumbers(r, bit);
    NextProduct(r.quo, r.dsr, if Shifted(r) >= r.dsr then 1 else 0);
  }

  /** One step of the restoring division keeps the identity. */
  lemma IterateDivides(r: Regs, aligned: nat, k: nat, low: nat)
    requires Divided(r, aligned, k, low) && k < 32 && r.cnt > 0
    ensures Divided(Iterate(r), aligned, k + 1, if low >= Pow2(31 - k) then low - Pow2(31 - k) else low)
  {
    hide Iterate, Shifted, Top;
    var h, q := Pow2(31 - k), Pow2(k);
    Pow2Product(31 - k, k);
    Pow2Of32();
    Pow2Grows(k + 1, 32);
    assert Pow2(31) * 2 == Pow2(32);
    NextBit(low, h, q, r.dvd);
    var bit := if low >= h then 1 else 0;
    IterateNumbers(r, bit);
    IterateTop(r, bit);
    NextTop(Top(r), h, if low >= h then low - h else low, bit);
  }

  lemma QuotientIsUnique(n: nat, d: nat, q: nat, r: nat)
    requires d > 0 && r < d && n == q * d + r
    ensures q == n / d && r == n % d
  {
    var p := n / d;
    assert n == d * p + n % d;
    if q < p {
      MulLe(q + 1, p, d);
      assert false;
    }
    if q > p {
      MulLe(p + 1, q, d);
      assert false;
    }
  }

  /** When the steps are up, quotient and remainder of the magnitudes. */
  lemma FullyDivided(r: Regs, n: nat, word: bool, low: nat)
    requires Divided(r, if word then n else n * W16, Steps(word), low)
    ensures r.quo == n / r.dsr && r.rem == n % r.dsr
    ensures r.quo < if word then W32 else W16
  {
    Pow2Of32();
    assert Pow2(0) == 1;
    Pow2Grows(Steps(word), 32);
    QuotientIsUnique(n, r.dsr, r.quo, r.rem);
  }

  /** Does the quotient fit the destination? The most negative value does. */
  predicate InRange(q: int, signed: bool, word: bool) {
    var m := Width(word);
    if signed then -(m / 2) <= q <= m / 2 - 1 else 0 <= q < m
  }

  /** Every flag and sign as `Start` sets them for these operands. */
  predicate SetUpFor(r: Regs, o: Operands) {
    && r.signed == o.signed && r.word == o.word && !r.divZero
    && r.qNeg == (o.signed && SignDividend(o) != SignDivisor(o))
    && r.rNeg == (o.signed && SignDividend(o))
  }

  lemma NegateIsUnsigned(x: nat, m: nat)
    requires x < m
    ensures Negate(x, m) == Unsigned(-(x as int), m) && x == Unsigned(x, m)
  {
    if x > 0 { ModOfNegative(x, m); }
  }

  lemma ModOfNegative(x: nat, m: nat)
    requires 0 < x < m
    ensures (-(x as int)) % m == m - x
  {
    var n: int := -(x as int);
    assert n == m * (n / m) + n % m;
  }

  /** The sign fix-up and the overflow test, over finished magnitudes. */
  lemma SignsFixedUp(r: Regs, o: Operands)
    requires Wide(o) && SetUpFor(r, o) && Divisor(o) != 0
    requires r.quo == Abs(Dividend(o)) / Abs(Divisor(o)) && r.rem == Abs(Dividend(o)) % Abs(Divisor(o))
    ensures QuotientFits(r) <==> InRange(Quotient(Dividend(o), Divisor(o)), o.signed, o.word)
    ensures QuotientFits(r) ==> QuotientOut(r) == Unsigned(Quotient(Dividend(o), Divisor(o)), Width(o.word))
    ensures RemainderOut(r) == Unsigned(Remainder(Dividend(o), Divisor(o)), Width(o.word))
  {
    hide Dividend, Divisor, SignDividend, SignDivisor, Negate;
    DividendMagnitude(o);
    DivisorMagnitude(o);
    var m := Width(o.word);
    assert r.rem < m;
    NegateIsUnsigned(r.rem, m);
    if r.quo < m { NegateIsUnsigned(r.quo, m); }
    assert r.quo / m == 0 <==> r.quo < m;
  }

  lemma StartDivides(r: Regs, o: Operands)
    requires Wide(o) && !DivisorZero(o)
    ensures var n := Start(r, o); var a := Abs(Dividend(o));
      && SetUpFor(n, o) && n.state == Dividing && n.cnt == Steps(o.word)
      && n.dsr == Abs(Divisor(o)) > 0
      && DvdAligned(o) == (if o.word then a else a * W16)
      && Divided(n, DvdAligned(o), 0, DvdAligned(o))
  {
    hide Dividend, Divisor, SignDividend, SignDivisor;
    DividendMagnitude(o);
    DivisorMagnitude(o);
    Pow2Of32();
    var n := Start(r, o);
    assert Pow2(0) == 1 && n.dsr < W16;
    assert Divided(n, DvdAligned(o), 0, DvdAligned(o));
  }

  /** What the ALU promises when the divider is done. */
  predicate Correct(o: Operands, divZero: bool, ok: bool, quotient: nat, remainder: nat)
    requires Wide(o)
  {
    var n, d, m := Dividend(o), Divisor(o), Width(o.word);
    && (divZero <==> d == 0) && (d == 0 ==> ok)
    && (d != 0 ==>
          && (ok <==> InRange(Quotient(n, d), o.signed, o.word))
          && (ok ==> quotient == Unsigned(Quotient(n, d), m))
          && remainder == Unsigned(Remainder(n, d), m))
  }

  lemma FinishedIsCorrect(r: Regs, o: Operands, low: nat)
    requires Wide(o) && SetUpFor(r, o) && Divisor(o) != 0 && r.dsr == Abs(Divisor(o))
    requires var a := Abs(Dividend(o)); Divided(r, if o.word then a else a * W16, Steps(o.word), low)
    ensures Correct(o, r.divZero, QuotientFits(r), QuotientOut(r), RemainderOut(r))
  {
    hide Dividend, Divisor, QuotientFits, QuotientOut, RemainderOut, Quotient, Remainder, Divided, Steps;
    FullyDivided(r, Abs(Dividend(o)), o.word, low);
    SignsFixedUp(r, o);
  }

  class DivideUnit {
    var state: State
    var dvd: nat
    var quo: nat
    var rem: nat
    var dsr: nat
    var cnt: nat
    var qNeg: bool
    var rNeg: bool
    var divZero: bool
    var signed: bool
    var word: bool

    function View(): Regs
      reads this
    {
      Regs(state, dvd, quo, rem, dsr, cnt, qNeg, rNeg, divZero, signed, word)
    }

    constructor ()
      ensures View() == Reset()
    {
      state, dvd, quo, rem, dsr, cnt := Idle, 0, 0, 0, 0, 0;
      qNeg, rNeg, divZero, signed, word := false, false, false, false, false;
    }

    method Begin(o: Operands)
      requires Wide(o)
      modifies this
      ensures View() == Start(old(View()), o)
    {
      hide DvdAligned, DsrAbs, SignDividend, SignDivisor;
      signed, word := o.signed, o.word;
      divZero := o.divisor % Width(o.word) == 0;
      quo, rem := 0, 0;
      if divZero {
        state := Done;
      } else {
        dvd, dsr, cnt := DvdAligned(o), DsrAbs(o), Steps(o.word);
        qNeg := o.signed && SignDividend(o) != SignDivisor(o);
        rNeg := o.signed && SignDividend(o);
        state := Dividing;
      }
    }

    /** One clock of S_DIV. */
    method DivideStep()
      requires state == Dividing && cnt > 0
      modifies `rem, `quo, `dvd, `cnt, `state
      ensures View() == Iterate(old(View()))
    {
      var shifted := rem % W16 * 2 + if dvd >= W32 / 2 then 1 else 0;
      var fits := shifted >= dsr;
      rem := if fits then shifted - dsr else shifted;
      quo := (quo * 2 + if fits then 1 else 0) % W32;
      dvd := dvd * 2 % W32;
      if cnt == 1 { state := Done; }
      cnt := cnt - 1;
    }

    /** DIV AND IDIV, from start to the result standing on the outputs: exactly
        one clock for each dividend bit, and then the truncated quotient, the
        remainder with the dividend's sign, and whether the quotient fits. */
    method Divide(o: Operands) returns (clocks: nat, ok: bool, quotient: nat, remainder: nat)
      requires Wide(o) && state == Idle
      modifies this
      ensures state == Done
      ensures clocks == if divZero then 0 else Steps(o.word)
      ensures Correct(o, divZero, ok, quotient, remainder)
    {
      hide Start, Divided, Iterate, SetUpFor, Dividend, Divisor, QuotientFits, QuotientOut, RemainderOut, Correct;
      ghost var was := View();
      Begin(o);
      ZeroIsCaught(was, o);
      clocks := 0;
      if state == Dividing {
        clocks := Run(o, was);
      }
      ok, quotient, remainder := divZero || QuotientFits(View()), QuotientOut(View()), RemainderOut(View());
      if divZero { ZeroIsCorrect(o, quotient, remainder); }
    }

    method Run(o: Operands, ghost was: Regs) returns (clocks: nat)
      requires Wide(o) && View() == Start(was, o) && state == Dividing
      modifies `rem, `quo, `dvd, `cnt, `state
      ensures state == Done && clocks == Steps(o.word) && !divZero
      ensures Correct(o, divZero, QuotientFits(View()), QuotientOut(View()), RemainderOut(View()))
    {
      hide Divided, Iterate, Dividend, Divisor, QuotientFits, QuotientOut, RemainderOut, Correct;
      hide SignDividend, SignDivisor, DvdAligned, DsrAbs;
      StartDivides(was, o);
      ghost var aligned := DvdAligned(o);
      ghost var low: nat := aligned;
      clocks := 0;
      while state == Dividing
        invariant SetUpFor(View(), o) && dsr == Abs(Divisor(o)) > 0
        invariant clocks + cnt == Steps(o.word)
        invariant state == if cnt > 0 then Dividing else Done
        invariant Divided(View(), aligned, clocks, low)
        decreases cnt
      {
        IterateDivides(View(), aligned, clocks, low);
        IterateKeepsSetUp(View(), o);
        low := if low >= Pow2(31 - clocks) then low - Pow2(31 - clocks) else low;
        DivideStep();
        clocks := clocks + 1;
      }
      FinishedIsCorrect(View(), o, low);
    }
  }

  lemma IterateKeepsSetUp(r: Regs, o: Operands)
    requires SetUpFor(r, o) && r.cnt > 0
    ensures var n := Iterate(r);
      SetUpFor(n, o) && n.dsr == r.dsr && n.cnt == r.cnt - 1
      && n.state == if r.cnt == 1 then Done else Dividing
  {
  }

  lemma ZeroIsCaught(r: Regs, o: Operands)
    requires Wide(o)
    ensures Start(r, o).state == if Divisor(o) == 0 then Done else Dividing
    ensures Start(r, o).divZero <==> Divisor(o) == 0
  {
    DivisorMagnitude(o);
  }

  lemma ZeroIsCorrect(o: Operands, quotient: nat, remainder: nat)
    requires Wide(o) && Divisor(o) == 0
    ensures Correct(o, true, true, quotient, remainder)
  {
  }
}
