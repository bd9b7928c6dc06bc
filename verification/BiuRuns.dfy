/** What the bus unit does over whole runs: the execution unit is fed one
    contiguous byte stream from every redirect target on, and each of its
    requests becomes exactly the bus cycles it needs. */
module BiuRuns {
  import opened Machine
  import opened Biu
  import PQ = PrefetchQueue
  import CM = CacheMemory
  import C = Cache

  type Bytes = m: seq<Byte> | |m| == SPACE witness seq(SPACE, _ => 0)

  /** The word a read of `addr` finds on the bus: both lanes, whichever is wanted. */
  function BusData(mem: Bytes, addr: nat): Word
    requires addr < SPACE
  {
    Word(mem[addr - addr % 2], mem[addr - addr % 2 + 1])
  }

  /** One clock of everything outside, with memory as it is in that clock. */
  datatype Env = Env(i: In, mem: Bytes)

  predicate EnvOk(r: Regs, e: Env)
    requires Shape(r)
  {
    && InOk(e.i)
    && (Transfers(r, e.i) && !r.cur.wr && !r.cur.io ==> e.i.din == BusData(e.mem, r.cur.addr))
  }

  // ---- the instruction stream ---------------------------------------------

  function Ahead(a: nat, n: nat): (b: nat)
    ensures b < SPACE
  {
    (a + n) % SPACE
  }

  lemma AheadTwice(a: nat, m: nat, n: nat)
    ensures Ahead(Ahead(a, m), n) == Ahead(a, m + n)
  {
  }

  /** Where the next byte to be consumed comes from. */
  function Front(r: Regs): (a: nat)
    requires Shape(r)
    ensures a < SPACE
  {
    Ahead(r.fetchPtr, SPACE - r.queue.cnt)
  }

  /** `n` bytes of memory from `a` on, around the top of the address space. */
  function Stream(mem: Bytes, a: nat, n: nat): (s: seq<Byte>)
    ensures |s| == n
  {
    seq(n, k requires 0 <= k < n => mem[Ahead(a, k)])
  }

  predicate FetchUnderWay(r: Regs) { r.cur.fetch && r.state in {T1, T2, T3} }

  /** A fetch on the bus is for the end of the stream, unless it is condemned. */
  predicate FlightOk(r: Regs)
  {
    && (r.fetchDiscard ==> r.cur.fetch && r.state != Idle)
    && (FetchUnderWay(r) ==> !r.cur.wr && !r.cur.io)
    && (FetchUnderWay(r) && !r.fetchDiscard ==>
          && r.cur.addr == r.fetchPtr - r.fetchPtr % 2
          && (r.cur.fetchOdd <==> r.fetchPtr % 2 == 1)
          && r.queue.cnt <= 4)
  }

  ghost predicate Inv(r: Regs, mem: Bytes) {
    && Shape(r)
    && PQ.Contents(r.queue) == Stream(mem, Front(r), r.queue.cnt)
    && FlightOk(r)
  }

  /** Bytes in the queue do not change behind its back. */
  ghost predicate Stable(r: Regs, mem: Bytes, next: Bytes)
    requires Shape(r)
  {
    Stream(mem, Front(r), r.queue.cnt) == Stream(next, Front(r), r.queue.cnt)
  }

  lemma InitInv(mem: Bytes)
    ensures Inv(Reset(), mem)
  {
  }

  /** What is arriving this clock is the next of the stream. */
  lemma ArrivesInOrder(r: Regs, e: Env)
    requires Inv(r, e.mem) && EnvOk(r, e)
    ensures var p := PQ.Pushed(QueueIn(r, e.i));
      && p == Stream(e.mem, r.fetchPtr, |p|)
      && (p != [] ==> r.queue.cnt <= 4)
      && (p != [] ==> StepPtr(r, e.i) == Ahead(r.fetchPtr, |p|))
      && (p == [] && !e.i.fetchSet ==> StepPtr(r, e.i) == r.fetchPtr)
  {
    hide PQ.Contents;
  }

  lemma NeverOverflows(r: Regs, e: Env)
    requires Inv(r, e.mem) && EnvOk(r, e)
    ensures PQ.Fits(r.queue, QueueIn(r, e.i))
  {
    ArrivesInOrder(r, e);
  }

  lemma StreamSplits(mem: Bytes, a: nat, n: nat, k: nat)
    requires k <= n
    ensures Stream(mem, a, n)[..k] == Stream(mem, a, k)
    ensures Stream(mem, a, n)[k..] == Stream(mem, Ahead(a, k), n - k)
  {
  }

  lemma StreamJoins(mem: Bytes, a: nat, m: nat, n: nat)
    ensures Stream(mem, a, m) + Stream(mem, Ahead(a, m), n) == Stream(mem, a, m + n)
  {
  }

  lemma FrontOfEmpty(a: nat)
    requires a < SPACE
    ensures Ahead(a, SPACE) == a && Ahead(a, 0) == a
  {
  }

  lemma FrontMoves(ptr: nat, cnt: nat, take: nat, n: nat)
    requires ptr < SPACE && take <= cnt && cnt - take + n <= SPACE && cnt <= SPACE
    ensures Ahead(Ahead(ptr, n), SPACE - (cnt - take + n)) == Ahead(Ahead(ptr, SPACE - cnt), take)
    ensures ptr == Ahead(Ahead(Ahead(ptr, SPACE - cnt), take), cnt - take)
  {
    AheadTwice(ptr, n, SPACE - (cnt - take + n));
    AheadTwice(ptr, SPACE - cnt, take);
    AheadTwice(ptr, SPACE - cnt + take, cnt - take);
  }

  /** Consuming moves the front, filling moves the pointer, and a redirect sets
      both. */
  lemma FrontStep(r: Regs, e: Env)
    requires Inv(r, e.mem) && EnvOk(r, e)
    ensures var n := Step(r, e.i); var take := PQ.Popped(r.queue, QueueIn(r, e.i));
      && take <= r.queue.cnt
      && QueueIn(r, e.i).flush == e.i.fetchSet
      && Shape(n) && PQ.Shape(r.queue)
      && Front(n) == (if e.i.fetchSet then e.i.fetchAddr else Ahead(Front(r), take))
      && n.queue.cnt == (if e.i.fetchSet then 0 else r.queue.cnt - take + |PQ.Pushed(QueueIn(r, e.i))|)
      && r.fetchPtr == Ahead(Ahead(Front(r), take), r.queue.cnt - take)
  {
    hide PQ.Contents, Stream, Keeps, StepPtr, StepXfer, StepCycle, StepState, Assembled, Transfers, Ahead;
    NeverOverflows(r, e);
    ArrivesInOrder(r, e);
    StepShape(r, e.i);
    RedirectWins(r, e.i);
    FrontOfEmpty(e.i.fetchAddr);
    FrontOfEmpty(r.fetchPtr);
    FrontMoves(r.fetchPtr, r.queue.cnt, PQ.Popped(r.queue, QueueIn(r, e.i)), |PQ.Pushed(QueueIn(r, e.i))|);
  }

  /** The queue's side of one clock: what is consumed is next in the stream, and
      the rest stays the stream. */
  lemma QueueStep(r: Regs, e: Env)
    requires Inv(r, e.mem) && EnvOk(r, e)
    ensures var n := Step(r, e.i); var take := PQ.Popped(r.queue, QueueIn(r, e.i));
      && Shape(n)
      && PQ.Contents(r.queue)[..take] == Stream(e.mem, Front(r), take)
      && Front(n) == (if e.i.fetchSet then e.i.fetchAddr else Ahead(Front(r), take))
      && PQ.Contents(n.queue) == Stream(e.mem, Front(n), n.queue.cnt)
  {
    hide PQ.Contents, Stream, Step, StepPtr, PQ.Step, PQ.Pushed, PQ.Popped, QueueIn, Front, Ahead, PQ.Shape;
    NeverOverflows(r, e);
    ArrivesInOrder(r, e);
    StepShape(r, e.i);
    StepQueue(r, e.i, QueueIn(r, e.i));
    FrontStep(r, e);
    var i := QueueIn(r, e.i);
    var take, p := PQ.Popped(r.queue, i), PQ.Pushed(i);
    PQ.StepIsFifo(r.queue, i);
    StreamSplits(e.mem, Front(r), r.queue.cnt, take);
    if !e.i.fetchSet {
      StreamJoins(e.mem, Ahead(Front(r), take), r.queue.cnt - take, |p|);
    }
  }

  lemma FlightStep(r: Regs, i: In)
    requires Shape(r) && FlightOk(r)
    ensures FlightOk(Step(r, i))
  {
    hide Assembled, StepXfer;
  }

  lemma InvStep(r: Regs, e: Env, next: Bytes)
    requires Inv(r, e.mem) && EnvOk(r, e)
    ensures Shape(Step(r, e.i))
    ensures Stable(Step(r, e.i), e.mem, next) ==> Inv(Step(r, e.i), next)
  {
    hide PQ.Contents, Stream, Front, Step, FlightOk;
    QueueStep(r, e);
    FlightStep(r, e.i);
  }

  /** Any schedule of redirects, pops, requests, wait states and holds. */
  ghost predicate IsRun(states: seq<Regs>, envs: seq<Env>) {
    && |states| == |envs| + 1
    && states[0] == Reset()
    && (forall k :: 0 <= k < |states| ==> Shape(states[k]))
    && (forall k :: 0 <= k < |envs| ==> EnvOk(states[k], envs[k]) && states[k + 1] == Step(states[k], envs[k].i))
    && (forall k :: 0 < k < |envs| ==> Stable(states[k], envs[k - 1].mem, envs[k].mem))
  }

  /** THE QUEUE IS MEMORY. In every clock of every run it holds exactly the
      bytes from `fetch_ptr - cnt` up to `fetch_ptr`, at most six of them. */
  lemma {:induction false} QueueIsMemory(states: seq<Regs>, envs: seq<Env>, k: nat)
    requires IsRun(states, envs) && k < |envs|
    ensures Inv(states[k], envs[k].mem)
    ensures states[k].queue.cnt <= PQ.DEPTH
  {
    hide Step, EnvOk, Stable, FlightOk;
    if k == 0 {
      InitInv(envs[0].mem);
    } else {
      QueueIsMemory(states, envs, k - 1);
      InvStep(states[k - 1], envs[k - 1], envs[k].mem);
    }
  }

  function TakenIn(r: Regs, e: Env): nat
    requires Shape(r)
  {
    PQ.Popped(r.queue, QueueIn(r, e.i))
  }

  ghost function Consumed(states: seq<Regs>, envs: seq<Env>, j: nat, k: nat): nat
    requires IsRun(states, envs) && j <= k <= |envs|
  {
    if k == j then 0 else Consumed(states, envs, j, k - 1) + TakenIn(states[k - 1], envs[k - 1])
  }

  /** ONE STREAM PER REDIRECT. After a redirect in any T-state, to an odd or even
      target, whatever bus cycle was in flight: the n-th byte consumed is the
      byte at the target plus n. */
  lemma {:induction false} StreamFromTarget(states: seq<Regs>, envs: seq<Env>, j: nat, k: nat)
    requires IsRun(states, envs) && j < k < |envs| && envs[j].i.fetchSet
    requires forall m :: j < m < k ==> !envs[m].i.fetchSet
    ensures Front(states[k]) == Ahead(envs[j].i.fetchAddr, Consumed(states, envs, j + 1, k))
    ensures PQ.Contents(states[k].queue)[..TakenIn(states[k], envs[k])]
      == Stream(envs[k].mem, Ahead(envs[j].i.fetchAddr, Consumed(states, envs, j + 1, k)),
                TakenIn(states[k], envs[k]))
  {
    hide Step, EnvOk, Stable, FlightOk, Front, PQ.Contents, Stream, Ahead, Inv;
    QueueIsMemory(states, envs, k - 1);
    QueueStep(states[k - 1], envs[k - 1]);
    if k == j + 1 {
      FrontOfEmpty(envs[j].i.fetchAddr);
    } else {
      StreamFromTarget(states, envs, j, k - 1);
      AheadTwice(envs[j].i.fetchAddr, Consumed(states, envs, j + 1, k - 1), TakenIn(states[k - 1], envs[k - 1]));
    }
    QueueIsMemory(states, envs, k);
    QueueStep(states[k], envs[k]);
  }

  // ---- data transfers -----------------------------------------------------

  /** A completed bus cycle and what was on the data lines as it completed. */
  datatype Seen = Seen(c: Cycle, din: Word)

  /** A request, the cycles it took, and the data handed back with req_done. */
  datatype Transfer = Transfer(q: Request, cycles: seq<Seen>, rdata: Word)

  /** Every completed cycle in order; the transfer under way and its cycles so
      far; and the transfers finished. */
  datatype Books = Books(bus: seq<Seen>, owner: Option<Request>, cycles: seq<Seen>, finished: seq<Transfer>)

  predicate Splits(q: Request) { q.word && q.addr % 2 == 1 }

  /** The cycles a request takes: one, or two byte cycles for an odd word. */
  function CyclesOf(q: Request): (c: seq<Cycle>)
    ensures 0 < |c| <= 2
  {
    var first := FirstCycle(q);
    if Splits(q) then [first, SecondCycle(first, q.wdata)] else [first]
  }

  function BooksStep(b: Books, r: Regs, i: In): Books {
    var saw := Seen(r.cur, i.din);
    var finishing := r.state == T4 && !r.cur.fetch && !r.xfer.splitActive;
    Books(
      if Transfers(r, i) then b.bus + [saw] else b.bus,
      if StartsData(r, i) then Some(i.q) else if finishing then None else b.owner,
      if StartsData(r, i) then []
      else if Transfers(r, i) && !r.cur.fetch then b.cycles + [saw] else b.cycles,
      if finishing && b.owner.Some? then b.finished + [Transfer(b.owner.value, b.cycles, r.rdata)] else b.finished)
  }

  /** The data lines' answer, by lane. */
  function ReadValue(q: Request, cycles: seq<Seen>): Word
    requires |cycles| == |CyclesOf(q)|
  {
    if Splits(q) then Word(cycles[0].din.hi, cycles[1].din.lo)
    else if q.word then cycles[0].din
    else Word(if q.addr % 2 == 1 then cycles[0].din.hi else cycles[0].din.lo, 0)
  }

  predicate CyclesMatch(q: Request, cycles: seq<Seen>) {
    |cycles| <= |CyclesOf(q)| && forall k :: 0 <= k < |cycles| ==> cycles[k].c == CyclesOf(q)[k]
  }

  /** Exactly its own cycles, and for a read the bytes those cycles found. */
  predicate Faithful(t: Transfer) {
    && CyclesMatch(t.q, t.cycles) && |t.cycles| == |CyclesOf(t.q)|
    && (!t.q.wr ==> t.rdata == ReadValue(t.q, t.cycles))
  }

  /** How far the transfer under way has got, register by register. */
  predicate Tracks(r: Regs, b: Books, q: Request)
  {
    var n := |b.cycles|;
    && CyclesMatch(q, b.cycles)
    && r.xfer.wdata == q.wdata && r.xfer.word == q.word
    && (r.state != Idle ==> !r.cur.fetch)
    && (r.xfer.splitActive <==> Splits(q) && !r.xfer.splitSecond)
    && (r.state in {T1, T2, T3} ==>
          n < |CyclesOf(q)| && r.cur == CyclesOf(q)[n] && (r.xfer.splitSecond <==> n == 1))
    && (r.state == T4 ==>
          n > 0 && r.cur == CyclesOf(q)[n - 1] && (r.xfer.splitSecond <==> n == 2)
          && (!r.xfer.splitActive ==> n == |CyclesOf(q)|))
    && (r.state == Idle ==> r.xfer.splitActive && n == 1 && r.cur == CyclesOf(q)[0])
    && (!q.wr && Splits(q) && n > 0 ==> r.xfer.splitLo == b.cycles[0].din.hi)
    && (!q.wr && r.state == T4 && n == |CyclesOf(q)| ==> r.rdata == ReadValue(q, b.cycles))
  }

  /** The transfer's cycles are the last on the bus: nothing came between them. */
  predicate Adjacent(b: Books) {
    |b.cycles| <= |b.bus| && b.bus[|b.bus| - |b.cycles|..] == b.cycles
  }

  ghost predicate BooksOk(r: Regs, b: Books) {
    && (forall k :: 0 <= k < |b.finished| ==> Faithful(b.finished[k]))
    && match b.owner {
      case None => !r.xfer.splitActive && (r.state != Idle ==> r.cur.fetch)
      case Some(q) => Tracks(r, b, q) && Adjacent(b)
    }
  }

  lemma AppendCycle(b: Books, saw: Seen, next: Books)
    requires Adjacent(b) && next.bus == b.bus + [saw] && next.cycles == b.cycles + [saw]
    ensures Adjacent(next)
  {
  }

  lemma OwnedWaits(r: Regs, b: Books, i: In)
    requires Shape(r) && b.owner.Some? && BooksOk(r, b) && (r.state in {T1, T2} || (r.state == T3 && !i.ready))
    ensures BooksOk(Step(r, i), BooksStep(b, r, i)) && !Step(r, i).done
  {
    hide PQ.Step, CyclesOf, FetchCycle, StepPtr, StepDiscard, Assembled, Faithful, Adjacent, ReadValue;
  }

  /** A data phase ends: one more of the transfer's cycles is on the books. */
  lemma OwnedTransfers(r: Regs, b: Books, i: In)
    requires Shape(r) && b.owner.Some? && BooksOk(r, b) && Transfers(r, i)
    ensures BooksOk(Step(r, i), BooksStep(b, r, i)) && !Step(r, i).done
  {
    hide PQ.Step, FirstCycle, SecondCycle, FetchCycle, StepPtr, StepDiscard, Faithful, Adjacent;
    AppendCycle(b, Seen(r.cur, i.din), BooksStep(b, r, i));
    FirstCycleIsData(b.owner.value);
  }

  lemma OwnedEnds(r: Regs, b: Books, i: In)
    requires Shape(r) && b.owner.Some? && BooksOk(r, b) && r.state == T4
    ensures BooksOk(Step(r, i), BooksStep(b, r, i))
    ensures Step(r, i).done ==> Faithful(Transfer(b.owner.value, b.cycles, r.rdata))
  {
    hide PQ.Step, FirstCycle, SecondCycle, FetchCycle, StepPtr, StepDiscard, Assembled, Adjacent;
  }

  lemma OwnedSplits(r: Regs, b: Books, i: In)
    requires Shape(r) && b.owner.Some? && BooksOk(r, b) && r.state == Idle
    ensures BooksOk(Step(r, i), BooksStep(b, r, i)) && !Step(r, i).done
  {
    hide PQ.Step, FirstCycle, FetchCycle, StepPtr, StepDiscard, Assembled, Faithful, Adjacent;
  }

  lemma OwnedStep(r: Regs, b: Books, i: In)
    requires Shape(r) && b.owner.Some? && BooksOk(r, b)
    ensures BooksOk(Step(r, i), BooksStep(b, r, i))
    ensures Step(r, i).done ==> Faithful(Transfer(b.owner.value, b.cycles, r.rdata))
  {
    hide BooksOk, Step, BooksStep, Faithful;
    match r.state {
      case Idle => OwnedSplits(r, b, i);
      case T3 => if i.ready { OwnedTransfers(r, b, i); } else { OwnedWaits(r, b, i); }
      case T4 => OwnedEnds(r, b, i);
      case _ => OwnedWaits(r, b, i);
    }
  }

  lemma FirstCycleIsData(q: Request)
    ensures var c := FirstCycle(q);
      !c.fetch && c.wr == q.wr && c.a0 == (q.addr % 2 == 1)
      && !SecondCycle(c, q.wdata).fetch && SecondCycle(c, q.wdata).wr == q.wr
  {
  }

  lemma UnownedStep(r: Regs, b: Books, i: In)
    requires Shape(r) && b.owner.None? && BooksOk(r, b)
    ensures BooksOk(Step(r, i), BooksStep(b, r, i))
    ensures !Step(r, i).done
  {
    hide PQ.Step, FirstCycle, SecondCycle, StepPtr, StepDiscard, Assembled;
    FirstCycleIsData(i.q);
  }

  ghost predicate IsBookedRun(states: seq<Regs>, ins: seq<In>, books: seq<Books>) {
    && |states| == |books| == |ins| + 1
    && states[0] == Reset() && books[0] == Books([], None, [], [])
    && (forall k :: 0 <= k < |states| ==> Shape(states[k]))
    && (forall k :: 0 <= k < |ins| ==>
          && InOk(ins[k])
          && states[k + 1] == Step(states[k], ins[k])
          && books[k + 1] == BooksStep(books[k], states[k], ins[k]))
  }

  lemma {:induction false} RunBooksOk(states: seq<Regs>, ins: seq<In>, books: seq<Books>, k: nat)
    requires IsBookedRun(states, ins, books) && k < |states|
    ensures BooksOk(states[k], books[k])
  {
    hide Step, BooksStep, Tracks, Adjacent, Faithful;
    if k > 0 {
      RunBooksOk(states, ins, books, k - 1);
      if books[k - 1].owner.Some? {
        OwnedStep(states[k - 1], books[k - 1], ins[k - 1]);
      } else {
        UnownedStep(states[k - 1], books[k - 1], ins[k - 1]);
      }
    }
  }

  /** ONE TRANSFER PER REQUEST. Between the starts of two transfers the
      execution unit has let go of its request at least once. */
  lemma {:induction false} StaysTaken(states: seq<Regs>, ins: seq<In>, books: seq<Books>, j: nat, k: nat)
    requires IsBookedRun(states, ins, books) && j < k < |states|
    requires StartsData(states[j], ins[j])
    requires forall m :: j < m < k ==> ins[m].req
    ensures states[k].reqTaken
    ensures k < |ins| ==> !StartsData(states[k], ins[k])
  {
    if k > j + 1 {
      StaysTaken(states, ins, books, j, k - 1);
    }
  }

  // ---- what a transfer does -----------------------------------------------

  /** A byte or a little-endian word at any address, aligned or not. */
  function Store(mem: Bytes, q: Request): Bytes
    requires q.addr < SPACE
  {
    var low := mem[q.addr := q.wdata.lo];
    if q.word then low[Ahead(q.addr, 1) := q.wdata.hi] else low
  }

  function Load(mem: Bytes, q: Request): Word
    requires q.addr < SPACE
  {
    Word(mem[q.addr], if q.word then mem[Ahead(q.addr, 1)] else 0)
  }

  /** Memory and the I/O ports are two spaces with the same addresses. */
  datatype Spaces = Spaces(mem: Bytes, io: Bytes)

  function SpaceOf(s: Spaces, io: bool): Bytes { if io then s.io else s.mem }

  function WithSpace(s: Spaces, io: bool, b: Bytes): Spaces { if io then s.(io := b) else s.(mem := b) }

  /** The bytes whose lanes a cycle enables, lower first. */
  function LanesOf(c: Cycle): seq<nat> {
    var base := c.addr - c.addr % 2;
    (if c.a0 then [] else [base]) + (if c.bhe then [] else [base + 1])
  }

  /** A write takes the enabled lanes. */
  function WriteLanes(was: Bytes, c: Cycle): Bytes
    requires c.addr < SPACE
  {
    var base := c.addr - c.addr % 2;
    var low := if c.a0 then was else was[base := c.dout.lo];
    if c.bhe then low else low[base + 1 := c.dout.hi]
  }

  /** What answers a cycle: it reaches the space its `io` names. */
  function ApplyCycle(s: Spaces, c: Cycle): Spaces
    requires c.addr < SPACE
  {
    if c.wr then WithSpace(s, c.io, WriteLanes(SpaceOf(s, c.io), c)) else s
  }

  predicate Reachable(seen: seq<Seen>) { forall k :: 0 <= k < |seen| ==> seen[k].c.addr < SPACE }

  function ApplyAll(s: Spaces, seen: seq<Seen>): Spaces
    requires Reachable(seen)
  {
    if seen == [] then s else ApplyCycle(ApplyAll(s, seen[..|seen| - 1]), seen[|seen| - 1].c)
  }

  function LanesOfAll(seen: seq<Seen>): seq<nat> {
    if seen == [] then [] else LanesOfAll(seen[..|seen| - 1]) + LanesOf(seen[|seen| - 1].c)
  }

  /** The data lines showed what the cycles' own space holds. */
  predicate ReadFrom(s: Spaces, seen: seq<Seen>)
    requires Reachable(seen)
  {
    forall k :: 0 <= k < |seen| ==> seen[k].din == BusData(SpaceOf(s, seen[k].c.io), seen[k].c.addr)
  }

  /** WHAT A TRANSFER IS: cycles of its own kind alone, in the space it asked for, from its
      address on; each of its bytes enabled once, in order, and no other; a write leaves its byte or word
      at its address there and nothing else anywhere; a read brings back its own. */
  ghost predicate Carries(t: Transfer) {
    && Reachable(t.cycles) && t.q.addr < SPACE
    && (forall k :: 0 <= k < |t.cycles| ==>
          && t.cycles[k].c.io == t.q.io && t.cycles[k].c.wr == t.q.wr && !t.cycles[k].c.fetch
          && t.cycles[k].c.addr == Ahead(t.q.addr, k) && (t.cycles[k].c.a0 <==> t.cycles[k].c.addr % 2 == 1))
    && LanesOfAll(t.cycles) == (if t.q.word then [t.q.addr, Ahead(t.q.addr, 1)] else [t.q.addr])
    && |t.cycles| == (if t.q.word && t.q.addr % 2 == 1 then 2 else 1)
    && (forall s :: ApplyAll(s, t.cycles)
                    == if t.q.wr then WithSpace(s, t.q.io, Store(SpaceOf(s, t.q.io), t.q)) else s)
    && (!t.q.wr ==> forall s :: ReadFrom(s, t.cycles) ==> t.rdata == Load(SpaceOf(s, t.q.io), t.q))
  }

  lemma OneCycle(s: Spaces, seen: seq<Seen>)
    requires |seen| == 1 && Reachable(seen)
    ensures ApplyAll(s, seen) == ApplyCycle(s, seen[0].c) && LanesOfAll(seen) == LanesOf(seen[0].c)
  {
    assert seen[..0] == [];
    assert LanesOfAll(seen) == [] + LanesOf(seen[0].c);
  }

  lemma TwoCycles(s: Spaces, seen: seq<Seen>)
    requires |seen| == 2 && Reachable(seen)
    ensures ApplyAll(s, seen) == ApplyCycle(ApplyCycle(s, seen[0].c), seen[1].c)
    ensures LanesOfAll(seen) == LanesOf(seen[0].c) + LanesOf(seen[1].c)
  {
    hide ApplyCycle, LanesOf;
    OneCycle(s, seen[..1]);
    assert seen[..1][0] == seen[0];
  }

  lemma LanesStore(was: Bytes, q: Request)
    requires q.addr < SPACE
    ensures FirstCycle(q).addr < SPACE && SecondCycle(FirstCycle(q), q.wdata).addr < SPACE
    ensures var one := WriteLanes(was, FirstCycle(q));
      Store(was, q) == if Splits(q) then WriteLanes(one, SecondCycle(FirstCycle(q), q.wdata)) else one
  {
  }

  lemma CycleKinds(q: Request)
    ensures var c := FirstCycle(q); var d := SecondCycle(c, q.wdata);
      c.io == d.io == q.io && c.wr == d.wr == q.wr && !c.fetch && !d.fetch
    ensures q.addr < SPACE ==>
      var c := FirstCycle(q); var d := SecondCycle(c, q.wdata);
      && c.addr == Ahead(q.addr, 0) && (c.a0 <==> c.addr % 2 == 1)
      && d.addr == Ahead(q.addr, 1) && (Splits(q) ==> (d.a0 <==> d.addr % 2 == 1))
  {
  }

  /** The lanes of the cycles write exactly the request's bytes, in its own space. */
  lemma CyclesStore(s: Spaces, t: Transfer)
    requires Faithful(t) && t.q.addr < SPACE
    ensures Reachable(t.cycles)
    ensures ApplyAll(s, t.cycles) == if t.q.wr then WithSpace(s, t.q.io, Store(SpaceOf(s, t.q.io), t.q)) else s
  {
    hide FirstCycle, SecondCycle, WriteLanes, Store, ReadValue;
    LanesStore(SpaceOf(s, t.q.io), t.q);
    CycleKinds(t.q);
    assert t.cycles[0].c == FirstCycle(t.q);
    if Splits(t.q) {
      assert t.cycles[1].c == SecondCycle(FirstCycle(t.q), t.q.wdata);
      TwoCycles(s, t.cycles);
    } else {
      OneCycle(s, t.cycles);
    }
  }

  /** ... and a faithful read of what does not change meanwhile returns them. */
  lemma CyclesLoad(s: Spaces, t: Transfer)
    requires Faithful(t) && t.q.addr < SPACE && !t.q.wr && Reachable(t.cycles) && ReadFrom(s, t.cycles)
    ensures t.rdata == Load(SpaceOf(s, t.q.io), t.q)
  {
    assert t.cycles[0].c == FirstCycle(t.q);
    if Splits(t.q) {
      assert t.cycles[1].c == SecondCycle(FirstCycle(t.q), t.q.wdata);
    }
  }

  lemma LanesTouch(q: Request)
    requires q.addr < SPACE
    ensures var c := FirstCycle(q); var d := SecondCycle(c, q.wdata);
      var lanes := if Splits(q) then LanesOf(c) + LanesOf(d) else LanesOf(c);
      lanes == (if q.word then [q.addr, Ahead(q.addr, 1)] else [q.addr]) && c.addr < SPACE && d.addr < SPACE
  {
  }

  lemma CyclesTouch(t: Transfer)
    requires Faithful(t) && t.q.addr < SPACE
    ensures LanesOfAll(t.cycles) == if t.q.word then [t.q.addr, Ahead(t.q.addr, 1)] else [t.q.addr]
    ensures forall k :: 0 <= k < |t.cycles| ==>
      t.cycles[k].c.io == t.q.io && t.cycles[k].c.wr == t.q.wr && !t.cycles[k].c.fetch && t.cycles[k].c.addr < SPACE
    ensures forall k :: 0 <= k < |t.cycles| ==>
      t.cycles[k].c.addr == Ahead(t.q.addr, k) && (t.cycles[k].c.a0 <==> t.cycles[k].c.addr % 2 == 1)
  {
    hide FirstCycle, SecondCycle, LanesOf, ReadValue, Ahead, ApplyAll;
    var any: Bytes := seq(SPACE, _ => 0);
    LanesTouch(t.q);
    CycleKinds(t.q);
    assert t.cycles[0].c == FirstCycle(t.q);
    if Splits(t.q) {
      assert t.cycles[1].c == SecondCycle(FirstCycle(t.q), t.q.wdata);
      TwoCycles(Spaces(any, any), t.cycles);
    } else {
      OneCycle(Spaces(any, any), t.cycles);
    }
  }

  lemma FaithfulCarries(t: Transfer)
    requires Faithful(t) && t.q.addr < SPACE
    ensures Carries(t)
  {
    hide Faithful, Store, Load, ApplyAll, LanesOfAll, Ahead, ReadFrom;
    CyclesTouch(t);
    FaithfulCount(t);
    forall s: Spaces
      ensures ApplyAll(s, t.cycles) == if t.q.wr then WithSpace(s, t.q.io, Store(SpaceOf(s, t.q.io), t.q)) else s
    {
      CyclesStore(s, t);
    }
    if !t.q.wr {
      forall s: Spaces | ReadFrom(s, t.cycles)
        ensures t.rdata == Load(SpaceOf(s, t.q.io), t.q)
      {
        CyclesLoad(s, t);
      }
    }
  }

  lemma FaithfulCount(t: Transfer)
    requires Faithful(t)
    ensures |t.cycles| == if t.q.word && t.q.addr % 2 == 1 then 2 else 1
  {
    hide FirstCycle, SecondCycle, ReadValue;
  }

  // ---- every req_done --------------------------------------------------------

  /** EVERY req_done IS EARNED. It reports a transfer that has carried out the request
      it was started for, in bus cycles with nothing between them, and `rdata` is what
      those cycles read. */
  lemma DoneIsFaithful(states: seq<Regs>, ins: seq<In>, books: seq<Books>, k: nat)
    requires IsBookedRun(states, ins, books) && k < |ins| && states[k + 1].done
    ensures books[k].owner.Some? && Adjacent(books[k])
    ensures var t := Transfer(books[k].owner.value, books[k].cycles, states[k + 1].rdata);
      Carries(t) && books[k + 1].finished == books[k].finished + [t]
  {
    hide Tracks, Adjacent, PQ.Step, StepCycle, StepXfer, StepPtr, Carries, Faithful;
    RunBooksOk(states, ins, books, k);
    OwnerInSpace(states, ins, books, k);
    if books[k].owner.Some? {
      OwnedStep(states[k], books[k], ins[k]);
      FaithfulCarries(Transfer(books[k].owner.value, books[k].cycles, states[k].rdata));
    } else {
      UnownedStep(states[k], books[k], ins[k]);
    }
  }

  lemma {:induction false} OwnerInSpace(states: seq<Regs>, ins: seq<In>, books: seq<Books>, k: nat)
    requires IsBookedRun(states, ins, books) && k < |states|
    ensures books[k].owner.Some? ==> books[k].owner.value.addr < SPACE
  {
    hide Step;
    if k > 0 { OwnerInSpace(states, ins, books, k - 1); }
  }

  // ---- the bus the cache sees ---------------------------------------------

  /** The CPU's cycle as `CacheMemory` describes it: the address in T1, rd or wr
      from T2, ready looked at from T3. Cycles for anything but RAM are quiet. */
  function CacheBus(r: Regs): CM.Bus {
    if r.cur.io || r.cur.addr >= 0xA_0000 then CM.Quiet
    else
      var q := CM.Request(r.cur.addr, r.cur.wr, r.cur.dout, Lanes(!r.cur.a0, !r.cur.bhe));
      match r.state
      case T1 => CM.Addressed(q)
      case T2 => CM.Asserted(q)
      case T3 => CM.Waiting(q)
      case _ => CM.Quiet
  }

  /** The bus contract the cache relies on is the one this unit keeps: with the
      cache's ready as its own in cycles for RAM, and anyone's in the others, each
      clock moves the bus exactly so. */
  lemma DrivesTheCacheBus(r: Regs, i: In, s: CM.Sys, e: CM.Env)
    requires Shape(r) && CM.SysShape(s) && s.bus == CacheBus(r)
    requires !s.bus.Quiet? ==> i.ready == CM.Ports(s, e).cReady
    requires s.bus.Quiet? ==> e.next == match CacheBus(Step(r, i)) case Addressed(q) => Some(q) case _ => None
    ensures CM.NextBus(s, e) == CacheBus(Step(r, i))
  {
    hide PQ.Step, StepXfer, StepPtr, Assembled, CM.Ports, FirstCycle, SecondCycle, FetchCycle;
  }

  /** The CPU's megabyte of words, byte by byte. */
  function ByteView(m: CM.Mem): Bytes {
    seq(SPACE, a requires 0 <= a < SPACE => if a % 2 == 0 then m[a / 2].lo else m[a / 2].hi)
  }

  lemma SameLane(a: nat, b: nat)
    ensures a % 2 == 0 ==> (b / 2 == a / 2 <==> b == a || b == a + 1)
  {
  }

  /** A RAM CYCLE IS THE CACHE'S BYTE FOR BYTE. Cycles for ports and for 0A0000h up
      never reach it; of the others it sees the direction and the address, a store
      through its lanes is the store the enabled bytes ask for, and the word it reads
      is the two bytes the bus unit takes it for. */
  lemma RamCyclesReachTheCache(r: Regs, m: CM.Mem)
    requires Shape(r)
    ensures CacheBus(r).Quiet? <==> r.cur.io || r.cur.addr >= 0xA_0000 || r.state == Idle || r.state == T4
    ensures !CacheBus(r).Quiet? ==>
      var q := CacheBus(r).q;
      && q.wr == r.cur.wr && q.addr == r.cur.addr < C.CPU_BYTES
      && ByteView(CM.Write(m, q.addr / 2, q.data, q.be)) == WriteLanes(ByteView(m), r.cur)
      && m[q.addr / 2] == BusData(ByteView(m), q.addr)
  {
    if !CacheBus(r).Quiet? {
      var q := CacheBus(r).q;
      var base := q.addr - q.addr % 2;
      assert base / 2 == q.addr / 2 && (base + 1) / 2 == q.addr / 2;
      var wrote, was := CM.Write(m, q.addr / 2, q.data, q.be), ByteView(m);
      forall a | 0 <= a < SPACE
        ensures ByteView(wrote)[a] == WriteLanes(was, r.cur)[a]
      {
        SameLane(base, a);
      }
    }
  }
}
