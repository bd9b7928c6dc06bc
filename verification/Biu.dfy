/** modules/biu.sv: every bus cycle the CPU runs, and the prefetch that fills
    the idle ones. */
module Biu {
  import opened Machine
  import PQ = PrefetchQueue

  const SPACE: nat := 0x10_0000    // the 20-bit address space

  datatype T = Idle | T1 | T2 | T3 | T4

  /** cur_*: the bus cycle on the pins. `bhe` is active low. */
  datatype Cycle = Cycle(fetch: bool, wr: bool, io: bool, addr: nat, bhe: bool, a0: bool,
                         dout: Word, fetchOdd: bool)

  /** The data transfer's bookkeeping across the halves of an odd word. */
  datatype Xfer = Xfer(splitSecond: bool, splitActive: bool, splitLo: Byte, word: bool, wdata: Word)

  datatype Regs = Regs(
    state: T, cur: Cycle, fetchPtr: nat, fetchDiscard: bool,
    xfer: Xfer, reqTaken: bool, rdata: Word, done: bool,
    queue: PQ.Regs)

  datatype Request = Request(wr: bool, io: bool, word: bool, addr: nat, wdata: Word)

  datatype In = In(din: Word, ready: bool,
                   fetchAddr: nat, fetchSet: bool, pop: nat,
                   req: bool, q: Request, hold: bool)

  predicate InOk(i: In) { i.fetchAddr < SPACE && i.q.addr < SPACE }

  predicate Shape(r: Regs) {
    PQ.Shape(r.queue) && r.fetchPtr < SPACE && r.cur.addr < SPACE
  }

  function Reset(): (r: Regs)
    ensures Shape(r)
  {
    Regs(Idle, Cycle(false, false, false, 0, true, false, ZERO, false), 0xFFFF0, false,
         Xfer(false, false, 0, false, ZERO), false, ZERO, false,
         PQ.Regs(seq(PQ.DEPTH, _ => 0), 0, 0, 0))
  }

  // ---- arbitration, in the idle state only --------------------------------

  predicate Wants(r: Regs, i: In) { i.req && !r.reqTaken }

  predicate StartsSplit(r: Regs) { r.state == Idle && r.xfer.splitActive }

  predicate StartsData(r: Regs, i: In) {
    r.state == Idle && !r.xfer.splitActive && Wants(r, i) && !i.hold
  }

  predicate StartsFetch(r: Regs, i: In) {
    r.state == Idle && !r.xfer.splitActive && !Wants(r, i) && r.queue.cnt <= 4 && !i.fetchSet && !i.hold
  }

  /** The lanes and data of a transfer's first cycle. */
  function FirstCycle(q: Request): Cycle {
    var odd := q.addr % 2 == 1;
    Cycle(false, q.wr, q.io, q.addr,
          if q.word || odd then false else true,
          odd,
          if odd then Word(0, q.wdata.lo) else if q.word then q.wdata else Word(q.wdata.lo, 0),
          false)
  }

  /** The second half of an odd word: the lower lane at the next address. */
  function SecondCycle(first: Cycle, wdata: Word): Cycle {
    Cycle(false, first.wr, first.io, (first.addr + 1) % SPACE, true, false, Word(wdata.hi, 0), false)
  }

  function FetchCycle(r: Regs): Cycle {
    Cycle(true, false, false, r.fetchPtr - r.fetchPtr % 2, false, false, r.cur.dout, r.fetchPtr % 2 == 1)
  }

  // ---- data ---------------------------------------------------------------

  /** Is the cycle on the pins ending its data phase? */
  predicate Transfers(r: Regs, i: In) { r.state == T3 && i.ready }

  predicate Keeps(r: Regs, i: In) { r.cur.fetch && !i.fetchSet && !r.fetchDiscard }

  function QueueIn(r: Regs, i: In): PQ.In {
    PQ.In(Transfers(r, i) && Keeps(r, i),
          if r.cur.fetchOdd then Word(i.din.hi, 0) else i.din,
          !r.cur.fetchOdd, i.pop, i.fetchSet)
  }

  function Assembled(r: Regs, i: In): Word {
    if r.xfer.splitSecond then Word(r.xfer.splitLo, i.din.lo)
    else if !r.xfer.word then Word(if r.cur.a0 then i.din.hi else i.din.lo, 0)
    else i.din
  }

  // ---- one clock ----------------------------------------------------------

  function StepState(r: Regs, i: In): T {
    match r.state
    case Idle => if StartsSplit(r) || StartsData(r, i) || StartsFetch(r, i) then T1 else Idle
    case T1 => T2
    case T2 => T3
    case T3 => if i.ready then T4 else T3
    case T4 => Idle
  }

  function StepCycle(r: Regs, i: In): Cycle {
    if StartsSplit(r) then SecondCycle(r.cur, r.xfer.wdata)
    else if StartsData(r, i) then FirstCycle(i.q)
    else if StartsFetch(r, i) then FetchCycle(r)
    else r.cur
  }

  function StepXfer(r: Regs, i: In): Xfer {
    if StartsSplit(r) then r.xfer.(splitSecond := true, splitActive := false)
    else if StartsData(r, i) then
      Xfer(false, i.q.word && i.q.addr % 2 == 1, r.xfer.splitLo, i.q.word, i.q.wdata)
    else if StartsFetch(r, i) then r.xfer.(splitSecond := false)
    else if Transfers(r, i) && !r.cur.fetch && !r.cur.wr && r.xfer.splitActive
    then r.xfer.(splitLo := i.din.hi)
    else r.xfer
  }

  function StepPtr(r: Regs, i: In): nat {
    if i.fetchSet then i.fetchAddr
    else if Transfers(r, i) && Keeps(r, i) then
      (r.fetchPtr + if r.cur.fetchOdd then 1 else 2) % SPACE
    else r.fetchPtr
  }

  function StepDiscard(r: Regs, i: In): bool {
    if i.fetchSet && r.cur.fetch && r.state != Idle && r.state != T4 then true
    else if r.state == T4 then false
    else r.fetchDiscard
  }

  function Step(r: Regs, i: In): Regs
    requires Shape(r)
  {
    Regs(StepState(r, i), StepCycle(r, i), StepPtr(r, i), StepDiscard(r, i), StepXfer(r, i),
         if StartsData(r, i) then true else i.req && r.reqTaken,
         if Transfers(r, i) && !r.cur.fetch && !r.cur.wr && !r.xfer.splitActive
         then Assembled(r, i) else r.rdata,
         r.state == T4 && !r.cur.fetch && !r.xfer.splitActive,
         PQ.Step(r.queue, QueueIn(r, i)))
  }

  lemma StepShape(r: Regs, i: In)
    requires Shape(r) && InOk(i) && (i.fetchSet || PQ.Fits(r.queue, QueueIn(r, i)))
    ensures Shape(Step(r, i))
  {
    hide PQ.Step;
    PQ.StepIsFifo(r.queue, QueueIn(r, i));
  }

  lemma RedirectWins(r: Regs, i: In)
    ensures i.fetchSet ==> StepPtr(r, i) == i.fetchAddr
    ensures StartsData(r, i) ==> i.req
  {
  }

  // ---- the unit itself ----------------------------------------------------

  class BusUnit {
    var state: T
    var cur: Cycle
    var fetchPtr: nat
    var fetchDiscard: bool
    var xfer: Xfer
    var reqTaken: bool
    var rdata: Word
    var done: bool
    const queue: PQ.Queue

    ghost function View(): Regs
      reads this, queue, queue.q
    {
      Regs(state, cur, fetchPtr, fetchDiscard, xfer, reqTaken, rdata, done, queue.View())
    }

    ghost predicate Valid()
      reads this, queue, queue.q
    {
      queue.Valid() && Shape(View())
    }

    constructor ()
      ensures Valid() && fresh(queue) && fresh(queue.q)
      ensures View() == Reset().(queue := queue.View())
      ensures PQ.Contents(queue.View()) == []
    {
      state, cur := Idle, Cycle(false, false, false, 0, true, false, ZERO, false);
      fetchPtr, fetchDiscard := 0xFFFF0, false;
      xfer, reqTaken := Xfer(false, false, 0, false, ZERO), false;
      rdata, done := ZERO, false;
      queue := new PQ.Queue();
    }

    /** The idle state: who gets the bus. */
    method Arbitrate(i: In, space: bool)
      requires InOk(i) && state == Idle && space == (queue.cnt <= 4)
      modifies `state, `cur, `xfer, `reqTaken
      ensures state == old(StepState(View(), i)) && cur == old(StepCycle(View(), i))
      ensures xfer == old(StepXfer(View(), i))
      ensures reqTaken == (old(reqTaken) || old(StartsData(View(), i)))
    {
      var wants := i.req && !reqTaken;
      if xfer.splitActive {
        cur := SecondCycle(cur, xfer.wdata);
        xfer := xfer.(splitSecond := true, splitActive := false);
        state := T1;
      } else if wants && !i.hold {
        cur := FirstCycle(i.q);
        xfer := Xfer(false, i.q.word && i.q.addr % 2 == 1, xfer.splitLo, i.q.word, i.q.wdata);
        reqTaken := true;
        state := T1;
      } else if !wants && space && !i.fetchSet && !i.hold {
        cur := Cycle(true, false, false, fetchPtr - fetchPtr % 2, false, false, cur.dout, fetchPtr % 2 == 1);
        xfer := xfer.(splitSecond := false);
        state := T1;
      }
    }

    /** T3, or Tw while ready is low. */
    method DataPhase(i: In, keeps: bool)
      requires state == T3 && keeps == Keeps(View(), i)
      modifies `state, `fetchPtr, `xfer, `rdata
      ensures state == old(StepState(View(), i)) && xfer == old(StepXfer(View(), i))
      ensures !i.fetchSet ==> fetchPtr == old(StepPtr(View(), i))
      ensures rdata == old(Step(View(), i)).rdata
      ensures i.fetchSet ==> fetchPtr == old(fetchPtr)
      requires Shape(View())
    {
      if i.ready {
        if cur.fetch {
          if keeps { fetchPtr := (fetchPtr + if cur.fetchOdd then 1 else 2) % SPACE; }
        } else if !cur.wr {
          if xfer.splitActive {
            xfer := xfer.(splitLo := i.din.hi);
          } else {
            rdata := if xfer.splitSecond then Word(xfer.splitLo, i.din.lo)
                     else if !xfer.word then Word(if cur.a0 then i.din.hi else i.din.lo, 0)
                     else i.din;
          }
        }
        state := T4;
      }
    }

    /** A redirect reloads the pointer and condemns a fetch still in flight. */
    method Redirect(i: In, inFlight: bool, ending: bool)
      modifies `fetchPtr, `fetchDiscard
      ensures fetchPtr == if i.fetchSet then i.fetchAddr else old(fetchPtr)
      ensures fetchDiscard == if i.fetchSet && inFlight then true else if ending then false else old(fetchDiscard)
    {
      if i.fetchSet { fetchPtr := i.fetchAddr; }
      if i.fetchSet && inFlight {
        fetchDiscard := true;
      } else if ending {
        fetchDiscard := false;
      }
    }

    method Handshake(i: In, finished: bool)
      modifies `reqTaken, `done
      ensures done == finished && reqTaken == (old(reqTaken) && i.req)
    {
      done := finished;
      if !i.req { reqTaken := false; }
    }

    /** The bus state machine. */
    method Sequence(i: In, keeps: bool, space: bool)
      requires Shape(View()) && InOk(i) && keeps == Keeps(View(), i) && space == (queue.cnt <= 4)
      modifies `state, `cur, `xfer, `reqTaken, `fetchPtr, `rdata
      ensures state == old(StepState(View(), i)) && cur == old(StepCycle(View(), i))
      ensures xfer == old(StepXfer(View(), i)) && rdata == old(Step(View(), i)).rdata
      ensures reqTaken == (old(reqTaken) || old(StartsData(View(), i)))
      ensures fetchPtr == if i.fetchSet then old(fetchPtr) else old(StepPtr(View(), i))
    {
      hide FirstCycle, SecondCycle, FetchCycle, PQ.Step, Assembled;
      match state {
        case Idle => Arbitrate(i, space);
        case T1 => state := T2;
        case T2 => state := T3;
        case T3 => DataPhase(i, keeps);
        case T4 => state := Idle;
      }
    }

    /** Everything but the queue. */
    method ClockBus(i: In)
      requires Shape(View()) && InOk(i)
      modifies this
      ensures View() == Step(old(View()), i).(queue := queue.View())
    {
      hide FirstCycle, SecondCycle, StepState, StepCycle, StepXfer, Assembled, PQ.Step, PQ.Shape, StepPtr, StartsData;
      RedirectWins(View(), i);
      var keeps := cur.fetch && !i.fetchSet && !fetchDiscard;
      var inFlight := cur.fetch && state != Idle && state != T4;
      var ending := state == T4;
      var finished := state == T4 && !cur.fetch && !xfer.splitActive;
      Sequence(i, keeps, queue.SpaceAvailable());
      Redirect(i, inFlight, ending);
      Handshake(i, finished);
    }

    method Tick(i: In)
      requires Valid() && InOk(i)
      requires i.fetchSet || PQ.Fits(queue.View(), QueueIn(View(), i))
      modifies this, queue, queue.q
      ensures Valid() && View() == Step(old(View()), i)
    {
      hide Step, PQ.Step, StepState, StepCycle, StepXfer, StepPtr, StepDiscard;
      StepShape(View(), i);
      var fill := PQ.In(state == T3 && i.ready && cur.fetch && !i.fetchSet && !fetchDiscard,
                        if cur.fetchOdd then Word(i.din.hi, 0) else i.din,
                        !cur.fetchOdd, i.pop, i.fetchSet);
      StepQueue(View(), i, fill);
      ClockBus(i);
      queue.Tick(fill);
    }
  }

  lemma StepQueue(r: Regs, i: In, fill: PQ.In)
    requires Shape(r) && fill == QueueIn(r, i)
    ensures Step(r, i).queue == PQ.Step(r.queue, fill)
  {
  }
}
