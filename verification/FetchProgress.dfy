/** modules/biu.sv, modules/prefetch_queue.sv and the fetch states of
    modules/execUnit.sv: the front end does not stop. Left to itself, with memory
    answering, it has the next instruction in a bounded number of clocks. */
module FetchProgress {
  import opened Machine
  import B = Biu
  import BP = BiuProgress
  import D = Decode
  import F = InstructionFetch
  import L = DecodeLen
  import PQ = PrefetchQueue
  import R = BiuRuns
  import S = Speculation
  import opened FetchPath

  /** Nothing else wants the sequencer or the bus. */
  predicate Undisturbed(s: Sys, c: Clock) { !c.hwInt && !B.Wants(s.biu, c.bus.i) }

  /** An instruction is being looked for, or read. */
  predicate Reading(s: Sys) { s.ctl.phase == S.FetchOp || s.ctl.phase == S.Reading }

  function BytesTaken(s: Sys): nat { if s.ctl.phase == S.Reading then s.ctl.taken else 0 }

  /** The length of the instruction at hand. */
  ghost function LengthAt(s: Sys, mem: R.Bytes): nat {
    if s.ctl.phase == S.Reading then s.ctl.insn.len else InsnAt(mem, s.ctl.front).len
  }

  function Empty(s: Sys): bool { s.biu.queue.cnt == 0 }

  /** How far the capture has got: its bytes, and the one clock that takes none. */
  function Got(s: Sys): nat { BytesTaken(s) + F.Slack(s.f) }

  function ToQueue(s: Sys): nat { if Empty(s) then BP.ToBytes(s.biu) else 0 }

  lemma StillReading(s: Sys, a: S.Arch, mem: R.Bytes)
    requires Inv(s, a, mem) && Reading(s)
    ensures s.f.state in {F.FetchOp, F.ModrmByte, F.Disp, F.Imm}
    ensures BytesTaken(s) <= LengthAt(s, mem) && (s.ctl.phase == S.Reading ==> Settled(s.f))
    ensures s.ctl.phase == S.FetchOp ==> s.f.state == F.FetchOp
  {
    hide S.Linear, R.Inv, R.Front, F.Reading, InsnAt, StreamAt;
    if s.ctl.phase == S.Reading {
      var st := StreamAt(mem, s.ctl.begun);
      var p :| F.Reading(s.f, st, p, s.ctl.taken);
      ReadingBounds(s.f, st, p, s.ctl.taken);
      ReadingIsPrefixed(s.f, st, p, s.ctl.taken);
      InsnIs(mem, s.ctl.begun, p);
      LenBeyond(st, p);
    }
  }

  lemma NoInterrupt(f: F.Regs, i: F.In)
    requires F.InOk(i) && !i.hwInt && f.state == F.FetchOp
    ensures F.Step(f, i).state != F.IntPrep
  {
    hide L.Look, F.Bump, L.IsPrefix, L.IsSeg, L.IsRep;
  }

  /** The fetch control counts the bytes, and reads the same instruction on. */
  lemma ControlCounts(r: S.Regs, e: S.Event, code: S.Code)
    requires r.phase == S.FetchOp || r.phase == S.Reading
    requires var n := S.Step(r, e, code); n.phase == S.FetchOp || n.phase == S.Reading
    ensures var n := S.Step(r, e, code);
      if e.Bytes? then
        && n.phase == S.Reading && n.taken == (if r.phase == S.Reading then r.taken else 0) + e.n
        && n.insn == if r.phase == S.Reading then r.insn else code(r.front)
      else n.phase == r.phase && n.front == r.front && n.taken == r.taken && n.insn == r.insn
    ensures r.phase == S.FetchOp ==> !e.Whole? && !e.Interrupt?
    ensures Redirected(r, e).None?
  {
    hide S.Bump, S.Linear;
  }

  /** The registers' side of one clock. */
  lemma CaptureGetsOn(s: Sys, c: Clock, a: S.Arch, mem: R.Bytes)
    requires Inv(s, a, mem) && ClockOk(s, c, mem) && Reading(s) && Undisturbed(s, c)
    requires Reading(Next(s, c, mem))
    ensures var n := Next(s, c, mem);
      && LengthAt(n, mem) == LengthAt(s, mem)
      && Got(n) >= Got(s) + (if Empty(s) then 0 else 1)
  {
    hide S.Linear, R.Inv, R.Front, F.Step, F.Pops, L.Look, InsnAt, S.Step, R.EnvOk, S.Inv, Held, F.FastTake, B.Step;
    hide F.Slack, ProgramOk;
    InvShape(s, a, mem);
    StillReading(s, a, mem);
    ControlCounts(s.ctl, c.e, ProgramIn(mem));
    var i := Head(s, c);
    if s.f.state == F.FetchOp { NoInterrupt(s.f, i); } else { RestSettles(s.f, i); }
    F.ClockPops(s.f, i);
  }

  lemma BytesAreNear(r: B.Regs)
    ensures BP.ToBytes(r) <= 13
  {
  }

  lemma EmptyUntilPushed(q: PQ.Regs, i: PQ.In)
    requires PQ.Shape(q) && q.cnt == 0
    ensures PQ.Pushed(i) == [] ==> PQ.Step(q, i).cnt == 0
    ensures PQ.Pushed(i) != [] && !i.flush ==> PQ.Step(q, i).cnt > 0
  {
  }

  /** The bus unit's. */
  lemma QueueGetsOn(s: Sys, c: Clock, a: S.Arch, mem: R.Bytes)
    requires Inv(s, a, mem) && ClockOk(s, c, mem) && Reading(s) && Undisturbed(s, c)
    requires Reading(Next(s, c, mem))
    ensures ToQueue(Next(s, c, mem)) <= 13
    ensures Empty(s) ==> ToQueue(Next(s, c, mem)) + 1 <= ToQueue(s) + if BP.HeldUp(s.biu, c.bus.i) then 1 else 0
  {
    hide S.Linear, R.Front, F.Step, F.Pops, L.Look, InsnAt, S.Step, R.EnvOk, S.Inv, Held, F.FastTake, NextF;
    hide ProgramOk, EventFits, PQ.Contents, R.Stream, BP.ToBytes, PQ.Pushed;
    hide B.StepState, B.StepCycle, B.StepXfer, B.StepPtr, B.StepDiscard, PQ.Step;
    InvShape(s, a, mem);
    ControlCounts(s.ctl, c.e, ProgramIn(mem));
    BytesAreNear(Next(s, c, mem).biu);
    if Empty(s) {
      BP.CloserToBytes(s.biu, c.bus.i);
      EmptyUntilPushed(s.biu.queue, B.QueueIn(s.biu, c.bus.i));
    }
  }

  /** Each clock is paid for: by a byte, or by one clock less to the next. */
  lemma OneClock(s: Sys, c: Clock, a: S.Arch, mem: R.Bytes)
    requires Inv(s, a, mem) && ClockOk(s, c, mem) && Reading(s) && Undisturbed(s, c)
    requires Reading(Next(s, c, mem))
    ensures var n := Next(s, c, mem);
      && LengthAt(n, mem) == LengthAt(s, mem)
      && 1 + ToQueue(n) + 14 * Got(s) <= 14 * Got(n) + ToQueue(s) + if BP.HeldUp(s.biu, c.bus.i) then 1 else 0
  {
    hide Inv, ClockOk, Next, LengthAt, Got, Reading, Undisturbed, BP.HeldUp, BP.ToBytes;
    CaptureGetsOn(s, c, a, mem);
    QueueGetsOn(s, c, a, mem);
  }

  // ---- whole runs ------------------------------------------------------------------------

  /** In each of these clocks an instruction is being read, and nothing disturbs it. */
  ghost predicate ReadsOn(states: seq<Sys>, clocks: seq<Clock>, j: nat, k: nat)
    requires j <= k <= |clocks| <= |states| && forall i :: 0 <= i < |states| ==> B.Shape(states[i].biu)
  {
    forall i :: j <= i < k ==> Reading(states[i]) && Undisturbed(states[i], clocks[i])
  }

  ghost function HeldUpIn(states: seq<Sys>, clocks: seq<Clock>, j: nat, k: nat): (n: nat)
    requires j <= k <= |clocks| <= |states|
    decreases k
  {
    if k == j then 0
    else HeldUpIn(states, clocks, j, k - 1)
         + if BP.HeldUp(states[k - 1].biu, clocks[k - 1].bus.i) then 1 else 0
  }

  lemma RunClock(states: seq<Sys>, clocks: seq<Clock>, boot: R.Env, mem: R.Bytes, cs: nat, k: nat)
    requires IsRun(states, clocks, boot, mem, cs) && k < |clocks|
    ensures |states| == |clocks| + 1 && B.Shape(states[k].biu) && ClockOk(states[k], clocks[k], mem)
    ensures states[k + 1] == Next(states[k], clocks[k], mem)
    ensures Inv(states[k], ProgramAt(states, clocks, mem, cs, k), mem)
  {
    hide Inv, ClockOk, Next, Starting;
    RunInv(states, clocks, boot, mem, cs, k);
  }

  lemma {:induction false} Budget(states: seq<Sys>, clocks: seq<Clock>, boot: R.Env, mem: R.Bytes, cs: nat,
                                  j: nat, k: nat)
    requires IsRun(states, clocks, boot, mem, cs) && j <= k <= |clocks|
    requires ReadsOn(states, clocks, j, k) && Reading(states[j]) && Reading(states[k])
    ensures LengthAt(states[k], mem) == LengthAt(states[j], mem)
    ensures (k - j) + ToQueue(states[k]) + 14 * Got(states[j])
      <= 14 * Got(states[k]) + 13 + HeldUpIn(states, clocks, j, k)
    decreases k
  {
    hide Inv, ClockOk, Next, LengthAt, Got, ToQueue, Reading, Undisturbed, Empty, Starting, BP.HeldUp, ProgramAt;
    hide B.Shape, PQ.Shape;
    if k == j {
      QueueIsNear(states[j]);
    } else {
      hide IsRun;
      Budget(states, clocks, boot, mem, cs, j, k - 1);
      RunClock(states, clocks, boot, mem, cs, k - 1);
      var s, c := states[k - 1], clocks[k - 1];
      assert Reading(s) && Undisturbed(s, c);
      OneClock(s, c, ProgramAt(states, clocks, mem, cs, k - 1), mem);
    }
  }

  lemma QueueIsNear(s: Sys)
    ensures ToQueue(s) <= 13
  {
    BytesAreNear(s.biu);
  }

  lemma GotIsBounded(s: Sys, a: S.Arch, mem: R.Bytes)
    requires Inv(s, a, mem) && Reading(s)
    ensures Got(s) <= LengthAt(s, mem) + 1
  {
    hide Inv;
    StillReading(s, a, mem);
  }

  /** Without an interrupt reading leads to reading on, or to an instruction in hand. */
  lemma ReadingLeads(s: Sys, c: Clock, a: S.Arch, mem: R.Bytes)
    requires Inv(s, a, mem) && ClockOk(s, c, mem) && Reading(s) && Undisturbed(s, c)
    ensures var n := Next(s, c, mem); Reading(n) || n.ctl.phase == S.Preparing
  {
    hide S.Linear, R.Inv, R.Front, F.Step, F.Pops, L.Look, InsnAt, R.EnvOk, S.Inv, Held, F.FastTake, NextF, B.Step;
    hide ProgramOk, S.Bump, Redirected, Pop;
    InvShape(s, a, mem);
    StillReading(s, a, mem);
    if s.f.state == F.FetchOp { NoInterrupt(s.f, Head(s, c)); }
  }

  lemma {:induction false} StaysReading(states: seq<Sys>, clocks: seq<Clock>, boot: R.Env, mem: R.Bytes, cs: nat,
                                        j: nat, k: nat)
    requires IsRun(states, clocks, boot, mem, cs) && j <= k <= |clocks| && Reading(states[j])
    requires forall i :: j <= i < k ==> Undisturbed(states[i], clocks[i])
    requires forall i :: j < i <= k ==> states[i].ctl.phase != S.Preparing
    ensures ReadsOn(states, clocks, j, k) && Reading(states[k])
    decreases k
  {
    hide Inv, ClockOk, Next, Reading, Starting, Undisturbed, ProgramAt, B.Shape, PQ.Shape;
    if k > j {
      StaysReading(states, clocks, boot, mem, cs, j, k - 1);
      RunClock(states, clocks, boot, mem, cs, k - 1);
      hide IsRun;
      assert Undisturbed(states[k - 1], clocks[k - 1]) && states[k].ctl.phase != S.Preparing;
      ReadingLeads(states[k - 1], clocks[k - 1], ProgramAt(states, clocks, mem, cs, k - 1), mem);
    }
  }

  /** THE NEXT INSTRUCTION COMES. From any clock in which one is being looked for, if no
      interrupt is asked for and the execution unit leaves the bus alone: fourteen clocks
      a byte and twenty-eight more, besides wait states and holds, and its last byte is
      in. With `InHandIsMemory` it is the one in memory where the program is. */
  lemma NextInstructionComes(states: seq<Sys>, clocks: seq<Clock>, boot: R.Env, mem: R.Bytes, cs: nat, j: nat, k: nat)
    requires IsRun(states, clocks, boot, mem, cs) && j <= k <= |clocks| && Reading(states[j])
    requires forall i :: j <= i < k ==> Undisturbed(states[i], clocks[i])
    requires k - j > 14 * LengthAt(states[j], mem) + 27 + HeldUpIn(states, clocks, j, k)
    ensures exists i :: j < i <= k && states[i].ctl.phase == S.Preparing
  {
    hide Inv, ClockOk, Next, LengthAt, Got, ToQueue, Starting, BP.HeldUp, HeldUpIn;
    if forall i :: j < i <= k ==> states[i].ctl.phase != S.Preparing {
      StaysReading(states, clocks, boot, mem, cs, j, k);
      Budget(states, clocks, boot, mem, cs, j, k);
      RunInv(states, clocks, boot, mem, cs, k);
      GotIsBounded(states[k], ProgramAt(states, clocks, mem, cs, k), mem);
    }
  }

  lemma LastClock(f: F.Regs, i: F.In, s: L.Stream, p: nat)
    requires F.InOk(i) && F.Reading(f, s, p, L.LenOf(s, p)) && f.state != F.IntPrep
    ensures F.Captured(F.Step(f, i))
  {
    hide D.ControlWord, L.SegOf, L.RepOf, L.DispOf, L.ImmOfStream, L.Prefixed, F.PrefixesHeld, F.ImmPart, L.Look;
    hide F.Bump, F.StepFetchOp, F.StepImm;
    AllRead(f, i, s, p);
    L.ShapeFollows(s(p), f.modrm, s(p + 1));
  }

  lemma InHandCaptures(s: Sys, i: F.In, mem: R.Bytes)
    requires F.InOk(i) && InHand(s, mem, s.ctl.insn.len) && !F.Captured(s.f)
    ensures F.Captured(F.Step(s.f, i))
  {
    hide F.Reading, F.Step, F.Captured, InsnAt, StreamAt, InsnOfStream;
    var st := StreamAt(mem, s.ctl.begun);
    var p :| F.Reading(s.f, st, p, s.ctl.insn.len);
    ReadingIsPrefixed(s.f, st, p, s.ctl.insn.len);
    InsnIs(mem, s.ctl.begun, p);
    LenBeyond(st, p);
    LastClock(s.f, i, st, p);
  }

  lemma PreparingCaptures(s: Sys, c: Clock, a: S.Arch, mem: R.Bytes)
    requires Inv(s, a, mem) && ClockOk(s, c, mem) && s.ctl.phase == S.Preparing && !F.Captured(s.f)
    ensures var n := Next(s, c, mem); F.Captured(n.f) && n.ctl.phase == S.Preparing
  {
    hide S.Inv, R.Inv, R.Front, InHand, F.Step, F.Captured, R.EnvOk, B.Step, ProgramOk, Redirected, Pop, L.Look;
    InvShape(s, a, mem);
    InHandCaptures(s, Head(s, c), mem);
  }

  /** ... and with its last byte in it is in the registers a clock later at most. */
  lemma ThenItIsInHand(states: seq<Sys>, clocks: seq<Clock>, boot: R.Env, mem: R.Bytes, cs: nat, k: nat)
    requires IsRun(states, clocks, boot, mem, cs) && k < |clocks| && states[k].ctl.phase == S.Preparing
    ensures F.Captured(states[k].f) || (F.Captured(states[k + 1].f) && states[k + 1].ctl.phase == S.Preparing)
  {
    hide Inv, ClockOk, Next, Starting;
    RunClock(states, clocks, boot, mem, cs, k);
    hide IsRun;
    if !F.Captured(states[k].f) {
      PreparingCaptures(states[k], clocks[k], ProgramAt(states, clocks, mem, cs, k), mem);
    }
  }
}
