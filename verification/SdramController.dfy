/** modules/sdram_controller.sv: the open-row controller between one request
    port and the SDRAM chip. */
module SdramController {
  import opened Machine

  const COLUMNS: nat := 0x400
  const WORDS: nat := 0x80_0000
  const ALL_BANKS: nat := 0x400
  /** Burst length 1, sequential, CAS latency 2. */
  const MODE_REG: nat := 0x20
  const CAS_LATENCY: nat := 2

  datatype Cmd = Nop | OpenRow | ReadCol | WriteCol | Precharge | AutoRefresh | LoadMode

  datatype State = Wait | InitPre | InitR1 | InitR2 | InitMrs
                 | Idle | Active | Rcd | Read | ReadW | Write | Recover | Refresh

  datatype Request = Request(rd: bool, wr: bool, addr: nat, wdata: Word, be: Lanes)

  predicate RequestOk(q: Request) { q.addr < 2 * WORDS }

  function RowOf(q: Request): nat { q.addr / 2 / COLUMNS }

  function ColOf(q: Request): (c: nat)
    ensures c < COLUMNS
  {
    q.addr / 2 % COLUMNS
  }

  /** Every flop of the module. `cmd`, `dramAddr`, `dqm` (masks, not enables),
      `dqOut` and `dqOe` are the chip's pins. */
  datatype Regs = Regs(
    state: State, next: State, delay: nat,
    cmd: Cmd, dramAddr: nat, dqOut: Word, dqOe: bool, dqm: Lanes,
    rdata: Word, ready: bool,
    xferBe: Lanes, isWrite: bool, refreshCnt: nat, rowOpen: bool, openRow: nat)

  function Reset(initCycles: nat): Regs {
    Regs(Wait, InitPre, initCycles, Nop, 0, ZERO, false, Lanes(false, false),
         ZERO, false, BOTH, false, 0, false, 0)
  }

  predicate Due(r: Regs, refreshCycles: nat) { r.refreshCnt >= refreshCycles }

  predicate PageHit(r: Regs, q: Request) { r.rowOpen && RowOf(q) == r.openRow }

  function CloseThen(r: Regs, next: State): Regs {
    r.(cmd := Precharge, dramAddr := ALL_BANKS, rowOpen := false, delay := 1, next := next, state := Wait)
  }

  /** The command of an initialisation or refresh state, then a timed wait. */
  function IssueThen(r: Regs, cmd: Cmd, delay: nat, next: State): Regs {
    r.(cmd := cmd, delay := delay, next := next, state := Wait)
  }

  function StepIdle(r: Regs, q: Request, due: bool): Regs {
    if due then
      if r.rowOpen then CloseThen(r, Refresh) else r.(state := Refresh)
    else if q.rd || q.wr then
      var taken := r.(isWrite := q.wr, xferBe := q.be);
      if PageHit(r, q) then taken.(state := if q.wr then Write else Read)
      else if r.rowOpen then CloseThen(taken, Active)
      else taken.(state := Active)
    else r
  }

  /** What every edge does before the state has its say. */
  function Defaults(r: Regs, refreshCycles: nat): Regs {
    r.(cmd := Nop, ready := false, dqm := Lanes(false, false), dqOe := false,
       refreshCnt := if Due(r, refreshCycles) then r.refreshCnt else r.refreshCnt + 1)
  }

  function CountOr(r: Regs, then_: State): Regs {
    if r.delay == 0 then r.(state := then_) else r.(delay := r.delay - 1)
  }

  function OpenFor(r: Regs, q: Request): Regs {
    r.(cmd := OpenRow, dramAddr := RowOf(q), openRow := RowOf(q), rowOpen := true, delay := 1, state := Rcd)
  }

  /** A10 stays low: the row is left open for whatever comes next. */
  function ReadFor(r: Regs, q: Request): Regs {
    r.(cmd := ReadCol, dramAddr := ColOf(q), delay := CAS_LATENCY, state := ReadW)
  }

  function WriteFor(r: Regs, q: Request): Regs {
    r.(cmd := WriteCol, dqm := Lanes(!r.xferBe.lo, !r.xferBe.hi), dramAddr := ColOf(q),
       dqOut := q.wdata, dqOe := true, ready := true, delay := 0, state := Recover)
  }

  function Capture(r: Regs, dq: Word): Regs {
    if r.delay == 0 then r.(rdata := dq, ready := true, state := Recover) else r.(delay := r.delay - 1)
  }

  /** The state's own part of the edge. */
  function Act(r: Regs, q: Request, dq: Word, due: bool): Regs {
    match r.state
    case Wait => CountOr(r, r.next)
    case InitPre => IssueThen(r.(dramAddr := ALL_BANKS), Precharge, 4, InitR1)
    case InitR1 => IssueThen(r, AutoRefresh, 8, InitR2)
    case InitR2 => IssueThen(r, AutoRefresh, 8, InitMrs)
    case InitMrs => IssueThen(r.(dramAddr := MODE_REG), LoadMode, 4, Idle)
    case Idle => StepIdle(r, q, due)
    case Active => OpenFor(r, q)
    case Rcd => CountOr(r, if r.isWrite then Write else Read)
    case Read => ReadFor(r, q)
    case ReadW => Capture(r, dq)
    case Write => WriteFor(r, q)
    case Recover => CountOr(r, Idle)
    case Refresh => IssueThen(r.(refreshCnt := 0), AutoRefresh, 8, Idle)
  }

  /** One rising edge; `dq` is what the data pins carry. */
  function Step(was: Regs, q: Request, dq: Word, refreshCycles: nat): Regs {
    Act(Defaults(was, refreshCycles), q, dq, Due(was, refreshCycles))
  }

  /** The data lines are looked at for a write alone. */
  lemma ReadsIgnoreWriteData(r: Regs, q: Request, wdata: Word, dq: Word, refreshCycles: nat)
    requires r.state != Write
    ensures Step(r, q.(wdata := wdata), dq, refreshCycles) == Step(r, q, dq, refreshCycles)
  {
  }

  class Controller {
    const refreshCycles: nat
    var state: State
    var next: State
    var delay: nat
    var cmd: Cmd
    var dramAddr: nat
    var dqOut: Word
    var dqOe: bool
    var dqm: Lanes
    var rdata: Word
    var ready: bool
    var xferBe: Lanes
    var isWrite: bool
    var refreshCnt: nat
    var rowOpen: bool
    var openRow: nat

    ghost function View(): Regs
      reads this
    {
      Regs(state, next, delay, cmd, dramAddr, dqOut, dqOe, dqm, rdata, ready,
           xferBe, isWrite, refreshCnt, rowOpen, openRow)
    }

    constructor (initCycles: nat, refreshCycles: nat)
      ensures View() == Reset(initCycles) && this.refreshCycles == refreshCycles
    {
      this.refreshCycles := refreshCycles;
      state, next, delay := Wait, InitPre, initCycles;
      cmd, dramAddr, dqOut, dqOe, dqm := Nop, 0, ZERO, false, Lanes(false, false);
      rdata, ready, xferBe, isWrite := ZERO, false, BOTH, false;
      refreshCnt, rowOpen, openRow := 0, false, 0;
    }

    method Close(then_: State)
      modifies `cmd, `dramAddr, `rowOpen, `delay, `next, `state
      ensures View() == CloseThen(old(View()), then_)
    {
      cmd, dramAddr := Precharge, ALL_BANKS;
      rowOpen := false;
      delay, next, state := 1, then_, Wait;
    }

    method TickIdle(q: Request, due: bool)
      modifies this
      ensures View() == StepIdle(old(View()), q, due)
    {
      if due {
        if rowOpen { Close(Refresh); } else { state := Refresh; }
      } else if q.rd || q.wr {
        isWrite, xferBe := q.wr, q.be;
        if rowOpen && RowOf(q) == openRow {
          state := if q.wr then Write else Read;
        } else if rowOpen {
          Close(Active);
        } else {
          state := Active;
        }
      }
    }

    method Count(then_: State)
      modifies `delay, `state
      ensures View() == CountOr(old(View()), then_)
    {
      if delay == 0 { state := then_; } else { delay := delay - 1; }
    }

    method Issue(c: Cmd, clocks: nat, then_: State)
      modifies `cmd, `delay, `next, `state
      ensures View() == IssueThen(old(View()), c, clocks, then_)
    {
      cmd := c;
      delay, next, state := clocks, then_, Wait;
    }

    method SendRow(q: Request)
      modifies `cmd, `dramAddr, `openRow, `rowOpen, `delay, `state
      ensures View() == OpenFor(old(View()), q)
    {
      cmd, dramAddr := OpenRow, RowOf(q);
      openRow, rowOpen := RowOf(q), true;
      delay, state := 1, Rcd;
    }

    method SendRead(q: Request)
      modifies `cmd, `dramAddr, `delay, `state
      ensures View() == ReadFor(old(View()), q)
    {
      cmd, dramAddr := ReadCol, ColOf(q);
      delay, state := CAS_LATENCY, ReadW;
    }

    method SendWrite(q: Request)
      modifies `cmd, `dramAddr, `dqm, `dqOut, `dqOe, `ready, `delay, `state
      ensures View() == WriteFor(old(View()), q)
    {
      cmd, dramAddr := WriteCol, ColOf(q);
      dqm, dqOut, dqOe := Lanes(!xferBe.lo, !xferBe.hi), q.wdata, true;
      ready, delay, state := true, 0, Recover;
    }

    method TakeData(dq: Word)
      modifies `rdata, `ready, `delay, `state
      ensures View() == Capture(old(View()), dq)
    {
      if delay == 0 {
        rdata, ready := dq, true;
        state := Recover;
      } else {
        delay := delay - 1;
      }
    }

    method TickDefaults(due: bool)
      requires due == Due(View(), refreshCycles)
      modifies `cmd, `ready, `dqm, `dqOe, `refreshCnt
      ensures View() == Defaults(old(View()), refreshCycles)
    {
      cmd, ready, dqm, dqOe := Nop, false, Lanes(false, false), false;
      if !due { refreshCnt := refreshCnt + 1; }
    }

    method Tick(q: Request, dq: Word)
      modifies this
      ensures View() == Step(old(View()), q, dq, refreshCycles)
    {
      hide StepIdle, CountOr, IssueThen, Defaults, OpenFor, ReadFor, WriteFor, Capture;
      var due := refreshCnt >= refreshCycles;
      TickDefaults(due);
      match state {
        case Wait => Count(next);
        case InitPre =>
          dramAddr := ALL_BANKS;
          Issue(Precharge, 4, InitR1);
        case InitR1 => Issue(AutoRefresh, 8, InitR2);
        case InitR2 => Issue(AutoRefresh, 8, InitMrs);
        case InitMrs =>
          dramAddr := MODE_REG;
          Issue(LoadMode, 4, Idle);
        case Idle => TickIdle(q, due);
        case Refresh =>
          refreshCnt := 0;
          Issue(AutoRefresh, 8, Idle);
        case Active => SendRow(q);
        case Rcd => Count(if isWrite then Write else Read);
        case Read => SendRead(q);
        case ReadW => TakeData(dq);
        case Write => SendWrite(q);
        case Recover => Count(Idle);
      }
    }
  }
}
