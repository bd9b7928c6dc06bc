/** The two clocks the controller runs against: the refresh deadline, which must
    be met whatever the requesters do, and the wait of a request, which ends
    although refresh always goes first. */
module SdramTiming {
  import opened Machine
  import opened SdramController
  import opened Sdram

  // ---- refresh ------------------------------------------------------------

  /** One worst-case access and the close after it, on top of the interval. */
  const OVERRUN: nat := 14

  /** Clocks until the next REFRESH is on the pins, once one is due. */
  function ToRefresh(r: Regs): nat {
    match r.state
    case Wait =>
      r.delay + 1 +
      (match r.next
       case InitPre => 24 case InitR1 => 1 case InitR2 => 1 case InitMrs => 8
       case Idle => 2 case Active => 12 case _ => 1)
    case InitPre => 7
    case InitR1 => 1
    case InitR2 => 1
    case InitMrs => 8
    case Idle => if r.rowOpen then 4 else 2
    case Active => 12
    case Rcd => r.delay + 10
    case Read => 9
    case ReadW => r.delay + 6
    case Write => 6
    case Recover => 5
    case Refresh => 1
  }

  /** Tied to the chip's own count of clocks since it last saw REFRESH. */
  predicate OnTime(r: Regs, c: Chip, refreshCycles: nat) {
    c.refreshes > 0 ==>
      && (r.refreshCnt < refreshCycles ==> c.sinceRefresh <= r.refreshCnt + 1)
      && ((r.state == Idle && r.refreshCnt < refreshCycles)
          || c.sinceRefresh + ToRefresh(r) <= refreshCycles + OVERRUN + 1)
  }

  /** The next clock is on time too. */
  predicate NextOnTime(r: Regs, c: Chip, next: Request, dq: Word, refreshCycles: nat) {
    var n := Step(r, next, dq, refreshCycles);
    OnTime(n, ChipStep(c, n), refreshCycles)
  }

  lemma WaitOnTime(r: Regs, c: Chip, q: Request, next: Request, dq: Word, refreshCycles: nat, initCycles: nat)
    requires r.state == Wait
    requires Tracks(r, c, q, initCycles) && OnTime(r, c, refreshCycles) && refreshCycles >= 3
    ensures NextOnTime(r, c, next, dq, refreshCycles)
  {
    hide RowOf, ColOf;
  }

  lemma InitOnTime(r: Regs, c: Chip, q: Request, next: Request, dq: Word, refreshCycles: nat, initCycles: nat)
    requires r.state in {InitPre, InitR1, InitR2, InitMrs, Refresh}
    requires Tracks(r, c, q, initCycles) && OnTime(r, c, refreshCycles) && refreshCycles >= 3
    ensures NextOnTime(r, c, next, dq, refreshCycles)
  {
    hide RowOf, ColOf;
  }

  lemma AccessOnTime(r: Regs, c: Chip, q: Request, next: Request, dq: Word, refreshCycles: nat, initCycles: nat)
    requires r.state in {Idle, Active, Rcd, Read, ReadW, Write, Recover}
    requires Tracks(r, c, q, initCycles) && OnTime(r, c, refreshCycles) && refreshCycles >= 3
    ensures NextOnTime(r, c, next, dq, refreshCycles)
  {
    hide RowOf, ColOf;
  }

  lemma OnTimeStep(r: Regs, c: Chip, q: Request, next: Request, dq: Word, refreshCycles: nat, initCycles: nat)
    requires Tracks(r, c, q, initCycles) && OnTime(r, c, refreshCycles) && refreshCycles >= 3
    ensures NextOnTime(r, c, next, dq, refreshCycles)
  {
    hide Tracks, OnTime, NextOnTime;
    match r.state {
      case Wait => WaitOnTime(r, c, q, next, dq, refreshCycles, initCycles);
      case InitPre => InitOnTime(r, c, q, next, dq, refreshCycles, initCycles);
      case InitR1 => InitOnTime(r, c, q, next, dq, refreshCycles, initCycles);
      case InitR2 => InitOnTime(r, c, q, next, dq, refreshCycles, initCycles);
      case InitMrs => InitOnTime(r, c, q, next, dq, refreshCycles, initCycles);
      case Refresh => InitOnTime(r, c, q, next, dq, refreshCycles, initCycles);
      case _ => AccessOnTime(r, c, q, next, dq, refreshCycles, initCycles);
    }
  }

  /** No cell waits longer than the interval plus one access and its close. */
  lemma NeverLate(r: Regs, c: Chip, refreshCycles: nat)
    requires OnTime(r, c, refreshCycles) && c.refreshes > 0
    ensures c.sinceRefresh <= refreshCycles + OVERRUN
  {
  }

  // ---- response -----------------------------------------------------------

  /** Clocks until `ready`, for a request that is there from now on. */
  function ToReady(r: Regs, refreshCycles: nat): nat {
    match r.state
    case Wait =>
      r.delay + 1 +
      (match r.next
       case InitPre => 53 case InitR1 => 47 case InitR2 => 37 case InitMrs => 27
       case Idle => if r.refreshCnt + r.delay + 1 >= refreshCycles then 21 else 10
       case Active => 7 case _ => 20)
    case InitPre => 53
    case InitR1 => 47
    case InitR2 => 37
    case InitMrs => 27
    case Idle => if Due(r, refreshCycles) then (if r.rowOpen then 23 else 21) else 10
    case Active => 7
    case Rcd => r.delay + 5
    case Read => 4
    case ReadW => r.delay + 1
    case Write => 1
    case Recover => 0
    case Refresh => 20
  }

  /** Every clock of a waiting request brings its answer closer, provided a
      refresh is over before the next one falls due. */
  lemma CloserToReady(r: Regs, c: Chip, q: Request, next: Request, dq: Word, refreshCycles: nat, initCycles: nat)
    requires Tracks(r, c, q, initCycles) && refreshCycles >= 10
    requires !r.ready && (next.rd || next.wr)
    ensures ToReady(Step(r, next, dq, refreshCycles), refreshCycles) < ToReady(r, refreshCycles)
  {
    hide RowOf, ColOf;
  }

  lemma AfterReady(r: Regs, c: Chip, q: Request, next: Request, dq: Word, refreshCycles: nat, initCycles: nat)
    requires Tracks(r, c, q, initCycles) && r.ready
    ensures ToReady(Step(r, next, dq, refreshCycles), refreshCycles) <= 23
  {
  }

  /** Refreshing for good: one is due again whenever the controller is free. */
  predicate Starving(r: Regs, refreshCycles: nat) {
    && !r.ready && !r.rowOpen
    && match r.state {
      case Wait =>
        && (r.next in {InitPre, InitR1, InitR2, InitMrs, Idle})
        && (r.next == InitR2 || r.next == Idle ==> r.refreshCnt + r.delay + 1 >= refreshCycles)
        && (r.next == InitMrs ==> Due(r, refreshCycles))
      case InitR2 => Due(r, refreshCycles)
      case InitMrs => Due(r, refreshCycles)
      case Idle => Due(r, refreshCycles)
      case Refresh => true
      case InitPre => true
      case InitR1 => true
      case _ => false
    }
  }

  /** Ten clocks is the least that will do: a refresh takes nine, and with fewer
      between them no request is ever looked at. */
  lemma StarvesBelowTen(r: Regs, next: Request, dq: Word, refreshCycles: nat)
    requires Starving(r, refreshCycles) && refreshCycles < 10
    ensures Starving(Step(r, next, dq, refreshCycles), refreshCycles)
  {
    hide RowOf, ColOf;
  }
}
