/** The SDRAM chip as sim/sdram_model.sv describes it, with the clocks between
    commands counted, and the controller driving it: every command it ever issues
    is legal, and as far from the ones before it as its waits are meant to put it. */
module Sdram {
  import opened Machine
  import opened SdramController

  type Mem = m: seq<Word> | |m| == WORDS witness seq(WORDS, _ => ZERO)

  /** One bank, since the others are never used. `since*` count the clocks since
      the command was last on the pins; `out` is what the chip drives. */
  datatype Chip = Chip(
    mem: Mem, row: Option<nat>, pipe1: Option<Word>, pipe0: Option<Word>, out: Option<Word>,
    mode: Option<nat>, precharged: bool, refreshes: nat, uptime: nat,
    sinceOpen: nat, sincePrecharge: nat, sinceRefresh: nat, sinceWrite: nat, sinceMode: nat)

  function PowerUp(mem: Mem): Chip {
    Chip(mem, None, None, None, None, None, false, 0, 0, 0, 0, 0, T_WR, 0)
  }

  function Count(since: nat, now: bool): nat { if now then 1 else since + 1 }

  /** The cell a column command reaches in the open row. */
  function Cell(c: Chip, r: Regs): nat
    requires c.row.Some?
  {
    c.row.value * COLUMNS + r.dramAddr
  }

  predicate Reaches(c: Chip, r: Regs) { c.row.Some? && Cell(c, r) < WORDS }

  /** One rising edge of the chip's own clock, half a clock after the
      controller's registers changed. */
  function ChipStep(c: Chip, r: Regs): Chip {
    Chip(
      if r.cmd == WriteCol && Reaches(c, r) && r.dqOe
        then c.mem[Cell(c, r) := Merge(c.mem[Cell(c, r)], r.dqOut, Lanes(!r.dqm.lo, !r.dqm.hi))]
        else c.mem,
      match r.cmd case OpenRow => Some(r.dramAddr) case Precharge => None case _ => c.row,
      if r.cmd == ReadCol && Reaches(c, r) then Some(c.mem[Cell(c, r)]) else None,
      c.pipe1,
      c.pipe0,
      if r.cmd == LoadMode then Some(r.dramAddr) else c.mode,
      c.precharged || r.cmd == Precharge,
      if r.cmd == AutoRefresh then c.refreshes + 1 else c.refreshes,
      c.uptime + 1,
      Count(c.sinceOpen, r.cmd == OpenRow), Count(c.sincePrecharge, r.cmd == Precharge),
      Count(c.sinceRefresh, r.cmd == AutoRefresh), Count(c.sinceWrite, r.cmd == WriteCol),
      Count(c.sinceMode, r.cmd == LoadMode))
  }

  // Spacing between commands, in clocks.
  const T_RCD := 3
  const T_RP := 3
  const T_RAS := 5
  const T_RC := 10
  const T_WR := 2
  const T_MRD := 6

  predicate Settled(c: Chip) {
    && (c.refreshes > 0 ==> c.sinceRefresh >= T_RC)
    && (c.mode.Some? ==> c.sinceMode >= T_MRD)
  }

  /** The rows, the initialisation order, the spacing, and the data bus are all
      respected by what is on the pins. */
  predicate Legal(c: Chip, r: Regs, initCycles: nat) {
    && (r.cmd != Nop ==> c.uptime >= initCycles && Settled(c))
    && (r.dqOe ==> c.out.None? && c.pipe0.None?)
    && match r.cmd {
      case Nop => true
      case OpenRow =>
        c.row.None? && c.mode.Some? && c.sincePrecharge >= T_RP && r.dramAddr < WORDS / COLUMNS
      case ReadCol =>
        Reaches(c, r) && c.mode == Some(MODE_REG) && c.sinceOpen >= T_RCD
        && r.dramAddr < COLUMNS && r.dqm == Lanes(false, false) && !r.dqOe
      case WriteCol =>
        Reaches(c, r) && c.mode == Some(MODE_REG) && c.sinceOpen >= T_RCD
        && r.dramAddr < COLUMNS && r.dqOe
      case Precharge =>
        r.dramAddr == ALL_BANKS
        && (c.row.Some? ==> c.sinceOpen >= T_RAS && c.sinceWrite >= T_WR)
      case AutoRefresh => c.row.None? && c.precharged && c.sincePrecharge >= T_RP
      case LoadMode => c.row.None? && c.refreshes >= 2 && r.dramAddr == MODE_REG
    }
  }

  /** The mode word by its fields: bursts of one, sequential, and the CAS latency the
      chip's output pipeline has; and A10, which makes a precharge close every bank. */
  lemma ModeFields()
    ensures MODE_REG % 8 == 0 && MODE_REG / 8 % 2 == 0 && MODE_REG / 16 % 8 == CAS_LATENCY == 2 && MODE_REG / 128 == 0
    ensures ALL_BANKS / 0x400 % 2 == 1
  {
  }

  // ---- the controller and the chip in step --------------------------------

  predicate Closed(r: Regs, c: Chip) { !r.rowOpen && c.row.None? }

  predicate Quiet(c: Chip) { c.pipe1.None? && c.pipe0.None? && c.out.None? }

  /** Initialised and ready to take column commands; refresh has settled. */
  predicate Up(r: Regs, c: Chip) {
    && c.mode == Some(MODE_REG) && c.precharged && c.refreshes >= 2
    && (r.rowOpen <==> c.row.Some?)
    && (c.row.Some? ==> c.row.value == r.openRow < WORDS / COLUMNS)
  }

  predicate OnRow(r: Regs, c: Chip, q: Request) {
    Up(r, c) && r.rowOpen && RowOf(q) == r.openRow
  }

  /** A timed wait for `next`, after the chip's edge of the same clock. */
  predicate Waiting(r: Regs, c: Chip, initCycles: nat) {
    match r.next
    case InitPre =>
      Closed(r, c) && c.mode.None? && c.refreshes == 0 && c.uptime + r.delay > initCycles
    case InitR1 =>
      Closed(r, c) && c.mode.None? && c.refreshes == 0 && c.precharged && c.sincePrecharge + r.delay >= 5
    case InitR2 =>
      Closed(r, c) && c.mode.None? && c.refreshes == 1 && c.precharged && c.sinceRefresh + r.delay >= 9
      && c.sincePrecharge >= T_RP
    case InitMrs =>
      Closed(r, c) && c.mode.None? && c.refreshes == 2 && c.precharged && c.sinceRefresh + r.delay >= 9
      && c.sincePrecharge >= T_RP
    case Idle =>
      Up(r, c) && Closed(r, c) && c.sincePrecharge >= T_RP && r.delay <= 8
      && c.sinceRefresh + r.delay >= 9 && c.sinceMode + r.delay >= 5
    case Active => Up(r, c) && Closed(r, c) && Settled(c) && c.sincePrecharge + r.delay >= 2 && r.delay <= 1
    case Refresh => Up(r, c) && Closed(r, c) && Settled(c) && c.sincePrecharge + r.delay >= 2 && r.delay <= 1
    case _ => false
  }

  /** What holds in each state once the chip has seen the clock's command; `q`
      is the request being served, if one is. */
  predicate Tracks(r: Regs, c: Chip, q: Request, initCycles: nat) {
    && (r.state !in {Wait, InitPre} ==> c.uptime > initCycles)
    && (r.state == Wait && r.next != InitPre ==> c.uptime > initCycles)
    && (r.state != ReadW ==> Quiet(c))
    && (r.state != Recover ==> c.sinceWrite >= T_WR)
    && (r.ready ==> r.state == Recover)
    && (r.cmd == WriteCol ==> r.state == Recover)
    && (r.cmd == ReadCol <==> r.state == ReadW && r.delay == CAS_LATENCY)
    && match r.state {
      case Wait => Waiting(r, c, initCycles)
      case InitPre =>
        Closed(r, c) && c.mode.None? && c.refreshes == 0 && c.uptime > initCycles
      case InitR1 =>
        Closed(r, c) && c.mode.None? && c.refreshes == 0 && c.precharged && c.sincePrecharge >= 6
      case InitR2 =>
        Closed(r, c) && c.mode.None? && c.refreshes == 1 && c.precharged && Settled(c)
        && c.sincePrecharge >= T_RP
      case InitMrs =>
        Closed(r, c) && c.mode.None? && c.refreshes == 2 && c.precharged && Settled(c)
        && c.sincePrecharge >= T_RP
      case Idle =>
        Up(r, c) && Settled(c)
        && (if r.rowOpen then c.sinceOpen >= T_RAS
            else c.sincePrecharge >= T_RP)
      case Active => Up(r, c) && Closed(r, c) && Settled(c) && c.sincePrecharge >= T_RP
      case Refresh => Up(r, c) && Closed(r, c) && Settled(c) && c.sincePrecharge >= T_RP
      case Rcd => OnRow(r, c, q) && Settled(c) && c.sinceOpen + r.delay >= 2 && r.delay <= 1
      case Read => OnRow(r, c, q) && Settled(c) && c.sinceOpen >= T_RCD
      case Write => OnRow(r, c, q) && Settled(c) && c.sinceOpen >= T_RCD
      case ReadW =>
        OnRow(r, c, q) && Settled(c) && c.sinceOpen + r.delay >= 4
        && r.delay <= CAS_LATENCY
        && Returning(r, c, q)
      case Recover =>
        OnRow(r, c, q) && Settled(c) && r.ready && r.delay == 0
        && c.sinceOpen >= T_RAS - 1 && c.sinceWrite >= T_WR - 1
        && q.addr / 2 < WORDS && (!r.isWrite ==> r.rdata == c.mem[q.addr / 2])
    }
  }

  /** Where the word being read is, on its way to the data pins. */
  predicate Returning(r: Regs, c: Chip, q: Request) {
    && q.addr / 2 < WORDS
    && (r.delay == 2 ==> c.pipe1 == Some(c.mem[q.addr / 2]) && c.pipe0.None? && c.out.None?)
    && (r.delay == 1 ==> c.pipe1.None? && c.pipe0 == Some(c.mem[q.addr / 2]) && c.out.None?)
    && (r.delay == 0 ==> c.pipe1.None? && c.pipe0.None? && c.out == Some(c.mem[q.addr / 2]))
  }

  predicate Serving(r: Regs) {
    r.state in {Active, Rcd, Read, ReadW, Write, Recover} || (r.state == Wait && r.next == Active)
  }

  /** What the controller latched belongs to the request it is serving. */
  predicate Latched(r: Regs, q: Request) {
    Serving(r) ==>
      && RequestOk(q) && (q.rd || q.wr)
      && r.isWrite == q.wr && r.xferBe == q.be
      && (r.state == Write ==> r.isWrite)
      && (r.state in {Read, ReadW} ==> !r.isWrite)
      && (r.state == Recover ==> (r.cmd == WriteCol <==> r.isWrite))
      && (r.cmd == WriteCol ==>
            r.dramAddr == ColOf(q) && r.dqOe && r.dqOut == q.wdata && r.dqm == Lanes(!q.be.lo, !q.be.hi))
      && (r.cmd == ReadCol ==> r.dramAddr == ColOf(q))
  }

  lemma CellOfRequest(q: Request)
    requires RequestOk(q)
    ensures RowOf(q) * COLUMNS + ColOf(q) == q.addr / 2 < WORDS
    ensures RowOf(q) < WORDS / COLUMNS
  {
  }

  /** The clock's command is legal and leaves chip and controller in step. */
  predicate InStep(r: Regs, c: Chip, q: Request, initCycles: nat) {
    Legal(c, r, initCycles) && Tracks(r, ChipStep(c, r), q, initCycles) && Latched(r, q)
  }

  lemma WaitsStayInStep(r: Regs, c: Chip, q: Request, next: Request, dq: Word, refreshCycles: nat, initCycles: nat)
    requires r.state == Wait
    requires Tracks(r, c, q, initCycles) && Latched(r, q)
    requires RequestOk(next) && (Serving(r) ==> next == q)
    ensures InStep(Step(r, next, dq, refreshCycles), c, next, initCycles)
  {
    hide RowOf, ColOf;
  }

  lemma CommandsStayInStep(r: Regs, c: Chip, q: Request, next: Request, dq: Word, refreshCycles: nat, initCycles: nat)
    requires r.state in {InitPre, InitR1, InitR2, InitMrs, Refresh}
    requires Tracks(r, c, q, initCycles) && Latched(r, q) && RequestOk(next)
    ensures InStep(Step(r, next, dq, refreshCycles), c, next, initCycles)
  {
    hide RowOf, ColOf;
  }

  lemma IdleStaysInStep(r: Regs, c: Chip, q: Request, next: Request, dq: Word, refreshCycles: nat, initCycles: nat)
    requires r.state == Idle
    requires Tracks(r, c, q, initCycles) && Latched(r, q) && RequestOk(next)
    ensures InStep(Step(r, next, dq, refreshCycles), c, next, initCycles)
  {
    hide RowOf, ColOf;
  }

  lemma RowsStayInStep(r: Regs, c: Chip, q: Request, dq: Word, refreshCycles: nat, initCycles: nat)
    requires r.state in {Active, Rcd}
    requires Tracks(r, c, q, initCycles) && Latched(r, q)
    ensures InStep(Step(r, q, dq, refreshCycles), c, q, initCycles)
  {
    CellOfRequest(q);
  }

  lemma ReadStaysInStep(r: Regs, c: Chip, q: Request, dq: Word, refreshCycles: nat, initCycles: nat)
    requires r.state == Read
    requires Tracks(r, c, q, initCycles) && Latched(r, q)
    ensures InStep(Step(r, q, dq, refreshCycles), c, q, initCycles)
  {
    CellOfRequest(q);
  }

  lemma DataStaysInStep(r: Regs, c: Chip, q: Request, dq: Word, refreshCycles: nat, initCycles: nat)
    requires r.state == ReadW && (c.out.Some? ==> dq == c.out.value)
    requires Tracks(r, c, q, initCycles) && Latched(r, q)
    ensures InStep(Step(r, q, dq, refreshCycles), c, q, initCycles)
  {
    hide RowOf, ColOf;
  }

  lemma WritesStayInStep(r: Regs, c: Chip, q: Request, next: Request, dq: Word, refreshCycles: nat, initCycles: nat)
    requires r.state in {Write, Recover}
    requires Tracks(r, c, q, initCycles) && Latched(r, q)
    requires RequestOk(next) && (r.state == Write ==> next == q)
    ensures InStep(Step(r, next, dq, refreshCycles), c, next, initCycles)
  {
    CellOfRequest(next);
  }

  /** A requester that is being served holds its request; then the next command
      is legal and chip and controller stay in step. `c` is the chip after its
      edge of the clock whose registers are `r`. */
  lemma StaysInStep(r: Regs, c: Chip, q: Request, next: Request, dq: Word, refreshCycles: nat, initCycles: nat)
    requires Tracks(r, c, q, initCycles) && Latched(r, q)
    requires RequestOk(next) && (Serving(r) && !r.ready ==> next == q)
    requires c.out.Some? ==> dq == c.out.value
    ensures InStep(Step(r, next, dq, refreshCycles), c, next, initCycles)
  {
    hide Tracks, Latched, InStep, Step, RequestOk, Serving;
    StaysServing(r, c, q, next, initCycles);
    match r.state {
      case Wait => WaitsStayInStep(r, c, q, next, dq, refreshCycles, initCycles);
      case Idle => IdleStaysInStep(r, c, q, next, dq, refreshCycles, initCycles);
      case Active => RowsStayInStep(r, c, q, dq, refreshCycles, initCycles);
      case Rcd => RowsStayInStep(r, c, q, dq, refreshCycles, initCycles);
      case Read => ReadStaysInStep(r, c, q, dq, refreshCycles, initCycles);
      case ReadW => DataStaysInStep(r, c, q, dq, refreshCycles, initCycles);
      case Write => WritesStayInStep(r, c, q, next, dq, refreshCycles, initCycles);
      case Recover => WritesStayInStep(r, c, q, next, dq, refreshCycles, initCycles);
      case _ => CommandsStayInStep(r, c, q, next, dq, refreshCycles, initCycles);
    }
  }

  lemma StaysServing(r: Regs, c: Chip, q: Request, next: Request, initCycles: nat)
    requires Tracks(r, c, q, initCycles) && (Serving(r) && !r.ready ==> next == q)
    ensures r.state in {Active, Rcd, Read, ReadW, Write} ==> next == q
    ensures r.state == Wait && Serving(r) ==> next == q
  {
  }

  function Stored(m: Mem, q: Request): Mem
    requires RequestOk(q)
  {
    m[q.addr / 2 := Merge(m[q.addr / 2], q.wdata, q.be)]
  }

  /** While `ready` is up the access has happened: a write is in the chip's
      array this clock, a read's data is on `rdata`; in every other clock the
      array is left alone. */
  lemma Answered(r: Regs, c: Chip, q: Request, initCycles: nat)
    requires InStep(r, c, q, initCycles)
    ensures r.ready ==> RequestOk(q) && (q.rd || q.wr)
    ensures r.ready && q.wr ==> ChipStep(c, r).mem == Stored(c.mem, q)
    ensures r.ready && !q.wr ==> r.rdata == c.mem[q.addr / 2]
    ensures !(r.ready && q.wr) ==> ChipStep(c, r).mem == c.mem
  {
    if r.ready { CellOfRequest(q); }
  }
}
