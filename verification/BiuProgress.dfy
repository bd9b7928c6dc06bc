/** modules/biu.sv: the bus never stands still for long. A request is begun, a
    transfer begun ends, and with nothing asked for the prefetch goes on, each
    within a fixed number of clocks besides those the outside makes it wait. */
module BiuProgress {
  import opened Machine
  import opened Biu
  import PQ = PrefetchQueue

  ghost predicate IsRun(states: seq<Regs>, ins: seq<In>) {
    && |states| == |ins| + 1
    && (forall k :: 0 <= k < |states| ==> Shape(states[k]))
    && (forall k :: 0 <= k < |ins| ==> states[k + 1] == Step(states[k], ins[k]))
  }

  /** Memory inserts a wait state, or another master holds an idle bus. */
  predicate HeldUp(r: Regs, i: In) {
    (r.state == T3 && !i.ready) || (r.state == Idle && !r.xfer.splitActive && i.hold)
  }

  function HeldUpFor(states: seq<Regs>, ins: seq<In>, k: nat): (clocks: nat)
    requires k <= |ins| <= |states|
    ensures clocks <= k
  {
    if k == 0 then 0 else HeldUpFor(states, ins, k - 1) + if HeldUp(states[k - 1], ins[k - 1]) then 1 else 0
  }

  /** Clocks to the end of the cycle on the pins. */
  function ToIdle(state: T): nat {
    match state
    case Idle => 0
    case T1 => 4
    case T2 => 3
    case T3 => 2
    case T4 => 1
  }

  /** Clocks until the bus is free for something new: the cycle on the pins, and
      the second half it may owe. */
  function ToFree(r: Regs): nat { ToIdle(r.state) + if r.xfer.splitActive then 5 else 0 }

  /** A request is up, and not yet begun, in each of the first `k` clocks. */
  ghost predicate StillWants(states: seq<Regs>, ins: seq<In>, k: nat)
    requires k <= |ins| <= |states|
  {
    forall j :: 0 <= j < k ==> Wants(states[j], ins[j]) && !StartsData(states[j], ins[j])
  }

  /** A REQUEST IS BEGUN after at most the transfer under way, whatever it is: a
      prefetch never gets in ahead of it. */
  lemma {:induction false} RequestsBegin(states: seq<Regs>, ins: seq<In>, k: nat)
    requires IsRun(states, ins) && k <= |ins| && StillWants(states, ins, k)
    ensures k + ToFree(states[k]) <= 9 + HeldUpFor(states, ins, k)
  {
    hide PQ.Step, PQ.Shape, FirstCycle, SecondCycle, FetchCycle, Assembled;
    if k > 0 {
      RequestsBegin(states, ins, k - 1);
      assert Wants(states[k - 1], ins[k - 1]) && !StartsData(states[k - 1], ins[k - 1]);
    }
  }

  /** A TRANSFER BEGUN ENDS: `req_done` comes five clocks after the start, ten
      for a word at an odd address, and one later for every clock held up. */
  lemma {:induction false} TransfersEnd(states: seq<Regs>, ins: seq<In>, k: nat)
    requires IsRun(states, ins) && 0 < k <= |ins|
    requires StartsData(states[0], ins[0])
    requires forall j :: 0 < j <= k ==> !states[j].done
    ensures var q := ins[0].q; var s := states[k];
      && !s.cur.fetch && (s.state != Idle || s.xfer.splitActive)
      && k + ToFree(s) <= (if q.word && q.addr % 2 == 1 then 10 else 5) + HeldUpFor(states, ins, k)
    ensures k < (if ins[0].q.word && ins[0].q.addr % 2 == 1 then 10 else 5) + HeldUpFor(states, ins, k)
  {
    hide PQ.Step, PQ.Shape, Assembled;
    if k > 1 {
      TransfersEnd(states, ins, k - 1);
      assert !states[k].done;
    }
  }

  /** Nothing is asked for, nobody redirects, and the queue has room for a word
      the whole time; nothing arrives. */
  ghost predicate Starved(states: seq<Regs>, ins: seq<In>, k: nat)
    requires k <= |ins| <= |states|
  {
    forall j :: 0 <= j < k ==>
      && !Wants(states[j], ins[j]) && !ins[j].fetchSet && states[j].queue.cnt <= 4
      && PQ.Pushed(QueueIn(states[j], ins[j])) == []
  }

  /** Clocks until the next bytes of the stream are in. */
  function ToBytes(r: Regs): nat {
    if r.state == Idle then (if r.xfer.splitActive then 9 else 4)
    else if r.state == T4 || !r.cur.fetch || r.fetchDiscard then ToFree(r) + 4
    else if r.state == T1 then 3 else if r.state == T2 then 2 else 1
  }

  /** Only a fetch in flight is ever condemned. */
  predicate FlightKnown(r: Regs) { r.fetchDiscard ==> r.cur.fetch && r.state != Idle }

  lemma CloserToBytes(r: Regs, i: In)
    requires Shape(r) && FlightKnown(r) && !Wants(r, i) && !i.fetchSet && r.queue.cnt <= 4
    ensures FlightKnown(Step(r, i)) && 0 < ToBytes(r) <= 13
    ensures PQ.Pushed(QueueIn(r, i)) == [] ==>
      ToBytes(Step(r, i)) + 1 <= ToBytes(r) + if HeldUp(r, i) then 1 else 0
  {
    hide PQ.Step, PQ.Shape, FirstCycle, SecondCycle, Assembled;
  }

  /** THE PREFETCH GOES ON whenever the bus is not wanted for anything else. */
  lemma {:induction false} BytesArrive(states: seq<Regs>, ins: seq<In>, k: nat)
    requires IsRun(states, ins) && k <= |ins| && Starved(states, ins, k) && FlightKnown(states[0])
    ensures FlightKnown(states[k])
    ensures 0 < ToBytes(states[k]) && k + ToBytes(states[k]) <= 13 + HeldUpFor(states, ins, k)
  {
    hide Step, FlightKnown;
    if k > 0 {
      BytesArrive(states, ins, k - 1);
      var r, i := states[k - 1], ins[k - 1];
      assert !Wants(r, i) && !i.fetchSet && r.queue.cnt <= 4 && PQ.Pushed(QueueIn(r, i)) == [];
      CloserToBytes(r, i);
    }
  }
}
