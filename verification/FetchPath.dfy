/** modules/biu.sv, modules/prefetch_queue.sv and the fetch states of
    modules/execUnit.sv put together: from memory, through the queue, to the
    instruction in hand. */
module FetchPath {
  import opened Machine
  import A = Asm86
  import B = Biu
  import D = Decode
  import F = InstructionFetch
  import L = DecodeLen
  import PQ = PrefetchQueue
  import R = BiuRuns
  import S = Speculation

  // ---- a program in memory ------------------------------------------------------------

  /** Memory from linear address `a` on. */
  ghost function StreamAt(mem: R.Bytes, a: nat): L.Stream { (k: nat) => mem[R.Ahead(a, k)] }

  function KindOf(c: D.Control): S.Kind {
    if c.iclass == D.Jcc || c.iclass == D.Loop then S.Conditional
    else if c.iclass == D.JmpShort || c.iclass == D.JmpNear || c.iclass == D.CallNear then S.EarlyJump
    else S.Other
  }

  /** What the fetch control makes of fields, by whichever road they came. */
  function InsnOf(f: L.Fields): S.Insn {
    S.Insn(KindOf(D.ControlWord(f.op, f.modrm)), f.len, A.Value(f.imm))
  }

  /** The instruction behind `p` prefixes. */
  ghost function InsnOfStream(s: L.Stream, p: nat): S.Insn {
    S.Insn(KindOf(L.ControlOf(s, p)), L.LenOf(s, p), A.Value(L.ImmOfStream(s, p)))
  }

  /** The instruction at each address; of no length where prefixes never end. */
  ghost function InsnAt(mem: R.Bytes, a: nat): S.Insn {
    if exists p :: L.Prefixed(StreamAt(mem, a), p) then
      var p :| L.Prefixed(StreamAt(mem, a), p);
      InsnOfStream(StreamAt(mem, a), p)
    else S.Insn(S.Other, 0, 0)
  }

  ghost function ProgramIn(mem: R.Bytes): S.Code { (a: nat) => InsnAt(mem, a) }

  lemma PrefixesEndOnce(s: L.Stream, p: nat, q: nat)
    requires L.Prefixed(s, p) && L.Prefixed(s, q)
    ensures p == q
  {
    hide L.IsPrefix;
  }

  lemma InsnIs(mem: R.Bytes, a: nat, p: nat)
    requires L.Prefixed(StreamAt(mem, a), p)
    ensures InsnAt(mem, a) == InsnOfStream(StreamAt(mem, a), p) && InsnAt(mem, a).len > p
  {
    hide InsnOfStream, L.Prefixed, StreamAt;
    var s := StreamAt(mem, a);
    forall q: nat | L.Prefixed(s, q)
      ensures q == p
    {
      PrefixesEndOnce(s, p, q);
    }
    LenBeyond(s, p);
  }

  lemma InsnExists(mem: R.Bytes, a: nat) returns (p: nat)
    requires InsnAt(mem, a).len > 0
    ensures L.Prefixed(StreamAt(mem, a), p)
  {
    hide InsnOfStream, L.Prefixed, StreamAt;
    p :| L.Prefixed(StreamAt(mem, a), p);
  }

  lemma LenBeyond(s: L.Stream, p: nat)
    ensures InsnOfStream(s, p).len == L.LenOf(s, p) > p
  {
    hide L.ControlOf, L.ImmOfStream, KindOf, L.DispLen;
  }

  /** Fields that describe the instruction say of it what the stream does. */
  lemma DescribedInsn(f: L.Fields, s: L.Stream, p: nat)
    requires L.Describes(f, s, p)
    ensures InsnOf(f) == InsnOfStream(s, p)
  {
    hide D.ControlWord, L.DispOf, L.ImmOfStream, L.SegOf, L.RepOf, L.LenOf, KindOf, A.Value;
    L.ShapeFollows(s(p), f.modrm, s(p + 1));
  }

  /** One that decode_len can capture: three prefixes, and no ENTER operand. */
  ghost predicate Short(mem: R.Bytes, a: nat) {
    exists p: nat :: L.Prefixed(StreamAt(mem, a), p) && p <= L.MAX_PREFIXES && L.EnterOfNothing(StreamAt(mem, a), p)
  }

  // ---- one clock ----------------------------------------------------------------------

  /** The sequencer, its instruction registers, and the bus unit. */
  datatype Sys = Sys(ctl: S.Regs, f: F.Regs, biu: B.Regs)

  /** What comes from elsewhere: the predictor and the work in `e`, memory and bus
      requests in `bus`, and what may hold the sequencer off the queue. */
  datatype Clock = Clock(e: S.Event, bus: R.Env, blockOnce: bool, hwInt: bool)

  /** The queue's head as decode_len and the sequencer see it. */
  function Head(s: Sys, c: Clock): (i: F.In)
    requires PQ.Shape(s.biu.queue)
    ensures F.InOk(i) && i.count == s.biu.queue.cnt
  {
    F.In(seq(PQ.DEPTH, k requires 0 <= k < PQ.DEPTH => PQ.Peek(s.biu.queue, k)), s.biu.queue.cnt, c.blockOnce, c.hwInt)
  }

  predicate Scanning(p: S.Phase) { p == S.FetchOp || p == S.Reading || p == S.Preparing }

  /** fast_take in S_RETIRE. */
  predicate Overlaps(r: S.Regs, e: S.Event) { r.phase == S.Retire && e.Whole? && !r.doJump && !r.specTaken }

  /** The step of the fetch control that the instruction registers and the queue
      make it take. */
  predicate EventFits(s: Sys, c: Clock)
    requires PQ.Shape(s.biu.queue)
  {
    var i := Head(s, c);
    match s.ctl.phase
    case FetchOp =>
      if F.FastTake(s.f, i) then c.e.Whole?
      else if F.Step(s.f, i).state == F.IntPrep then c.e == S.Interrupt(F.Pops(s.f, i))
      else c.e == if F.Pops(s.f, i) > 0 then S.Bytes(F.Pops(s.f, i)) else S.Stall
    case Reading => c.e == if F.Pops(s.f, i) > 0 then S.Bytes(F.Pops(s.f, i)) else S.Stall
    case Preparing => c.e == S.Stall || (c.e == S.Prepare && F.Captured(s.f))
    case Retire => c.e.Whole? <==> F.FastHere(s.f, i)
    case _ => true
  }

  /** fetch_pop_n. */
  function Pop(s: Sys, c: Clock): nat
    requires PQ.Shape(s.biu.queue)
  {
    if Scanning(s.ctl.phase) then F.Pops(s.f, Head(s, c))
    else if Overlaps(s.ctl, c.e) then L.Look(Head(s, c).peek, Head(s, c).count).fields.len
    else 0
  }

  /** fetch_set and fetch_addr. */
  function Redirected(r: S.Regs, e: S.Event): Option<nat> {
    if (r.phase == S.FetchOp && e.Whole? && e.bpTaken) || (Overlaps(r, e) && e.bpTaken) then
      Some(S.Linear(r.cs, e.bpTarget))
    else if r.phase == S.Preparing && e.Prepare? && r.insn.kind == S.EarlyJump then
      Some(S.Linear(r.cs, S.RelTarget(r)))
    else if r.phase == S.Redirect && !r.earlyFetch then Some(S.Linear(r.cs, r.jumpTarget))
    else None
  }

  /** The instruction registers: scanning, loaded whole, or back at S_FETCH_OP. */
  function NextF(s: Sys, c: Clock, n: S.Regs): F.Regs
    requires PQ.Shape(s.biu.queue)
  {
    var i := Head(s, c);
    if Scanning(s.ctl.phase) then F.Step(s.f, i)
    else if Overlaps(s.ctl, c.e) then F.Start(s.f, L.Look(i.peek, i.count))
    else if n.phase == S.FetchOp then s.f.(state := F.FetchOp, ipNext := n.ipNext)
    else s.f
  }

  ghost function Next(s: Sys, c: Clock, mem: R.Bytes): Sys
    requires B.Shape(s.biu)
  {
    var n := S.Step(s.ctl, c.e, ProgramIn(mem));
    Sys(n, NextF(s, c, n), B.Step(s.biu, c.bus.i))
  }

  /** An instruction starts to be read this clock. */
  predicate Starts(r: S.Regs, e: S.Event) { (r.phase == S.FetchOp && (e.Whole? || e.Bytes?)) || Overlaps(r, e) }

  /** What is asked of the program: no instruction runs past the end of its segment;
      one that is captured whole is one that can be; branches go where their bytes
      say. Of the predictor: only that a target is an IP. */
  ghost predicate ProgramOk(r: S.Regs, e: S.Event, mem: R.Bytes) {
    && (Starts(r, e) ==> 0 < InsnAt(mem, r.front).len && r.ipNext + InsnAt(mem, r.front).len < S.IP)
    && (Starts(r, e) && e.Whole? ==> e.bpTarget < S.IP && Short(mem, r.front))
    && (r.phase == S.Working || r.phase == S.Serving ==> S.EventOk(r, e, ProgramIn(mem)))
  }

  ghost predicate ClockOk(s: Sys, c: Clock, mem: R.Bytes)
    requires B.Shape(s.biu)
  {
    && R.EnvOk(s.biu, c.bus) && c.bus.mem == mem
    && EventFits(s, c) && ProgramOk(s.ctl, c.e, mem)
    && c.bus.i.pop == Pop(s, c)
    && (c.bus.i.fetchSet <==> Redirected(s.ctl, c.e).Some?)
    && (c.bus.i.fetchSet ==> c.bus.i.fetchAddr == Redirected(s.ctl, c.e).value)
  }

  // ---- the joint invariant ------------------------------------------------------------

  /** No prefix is pending once the opcode's successors are being read. */
  predicate Settled(f: F.Regs) { f.state == F.FetchOp || f.state == F.ModrmByte || !f.prefixSeen }

  /** `pos` bytes of the instruction at `begun` are in the registers. */
  ghost predicate InHand(s: Sys, mem: R.Bytes, pos: nat) {
    && s.f.ipNext == s.ctl.ipNext && s.f.startIp == s.ctl.startIp
    && s.ctl.insn == InsnAt(mem, s.ctl.begun) && 0 < s.ctl.insn.len
    && Settled(s.f) && s.f.state != F.IntPrep
    && exists p :: F.Reading(s.f, StreamAt(mem, s.ctl.begun), p, pos)
  }

  ghost predicate Held(s: Sys, mem: R.Bytes) {
    s.f.startIp < F.IP
    && match s.ctl.phase
       case FetchOp => s.f.state == F.FetchOp && !s.f.prefixSeen && s.f.ipNext == s.ctl.ipNext
       case Reading => InHand(s, mem, s.ctl.taken) && s.ctl.taken > 0
       case Preparing => InHand(s, mem, s.ctl.insn.len) && s.ctl.begun == S.Linear(s.ctl.cs, s.ctl.startIp)
       case Working =>
         InHand(s, mem, s.ctl.insn.len) && F.Captured(s.f) && s.ctl.begun == S.Linear(s.ctl.cs, s.ctl.startIp)
       case Retire => InHand(s, mem, s.ctl.insn.len) && F.Captured(s.f)
       case _ => !s.f.prefixSeen
  }

  ghost predicate Inv(s: Sys, a: S.Arch, mem: R.Bytes) {
    S.Inv(s.ctl, a) && R.Inv(s.biu, mem) && R.Front(s.biu) == s.ctl.front && Held(s, mem)
  }

  // ---- the queue shows memory ------------------------------------------------------------

  lemma HeadShows(s: Sys, c: Clock, mem: R.Bytes, b: nat, pos: nat)
    requires R.Inv(s.biu, mem) && R.Front(s.biu) == R.Ahead(b, pos)
    ensures L.Shows(Head(s, c).peek, Head(s, c).count, StreamAt(mem, b), pos)
  {
    hide R.Front, R.FlightOk, PQ.Peek, R.Ahead;
    var peek := Head(s, c).peek;
    forall k | 0 <= k < s.biu.queue.cnt
      ensures peek[k] == StreamAt(mem, b)(pos + k)
    {
      assert PQ.Contents(s.biu.queue)[k] == R.Stream(mem, R.Front(s.biu), s.biu.queue.cnt)[k];
      R.AheadTwice(b, pos, k);
    }
  }

  lemma AheadIsLinear(cs: nat, ip: nat, n: nat)
    ensures R.Ahead(S.Linear(cs, ip), n) == S.Linear(cs, ip + n)
  {
    S.LinearMoves(cs, ip, n);
  }

  // ---- the instruction registers, one clock -------------------------------------------------

  lemma PopsThere(f: F.Regs, i: F.In)
    requires F.InOk(i)
    ensures F.Pops(f, i) <= i.count
    ensures F.Captured(f) ==> F.Pops(f, i) == 0 && F.Step(f, i) == f
  {
    hide D.ControlWord, L.PrefixCount, L.ScanSeg, L.ScanRep, L.TakeDisp, L.TakeImm;
    hide F.StepFetchOp, F.StepModrm, F.StepDisp, F.StepImm;
  }

  /** Bytes read never pass the end of the instruction, and all are read when it is
      in hand. */
  lemma ReadingBounds(f: F.Regs, s: L.Stream, p: nat, pos: nat)
    requires F.Reading(f, s, p, pos) && f.state != F.IntPrep
    ensures pos <= L.LenOf(s, p) && (F.Captured(f) ==> pos == L.LenOf(s, p))
    ensures f.state == F.FetchOp && !f.prefixSeen <==> pos == 0
  {
    hide D.ControlWord, L.SegOf, L.RepOf, L.DispOf, L.ImmOfStream, L.Prefixed, F.PrefixesHeld, F.ImmPart;
  }

  lemma HeadSettles(f: F.Regs, i: F.In)
    requires F.InOk(i) && f.state == F.FetchOp
    ensures var n := F.Step(f, i);
      && Settled(n) && n.startIp == (if f.prefixSeen then f.startIp else f.ipNext)
      && (n.state == F.IntPrep ==> !f.prefixSeen && !F.FastHere(f, i))
  {
    hide D.ControlWord, L.Look, L.IsPrefix, L.SegCode, F.Bump;
  }

  lemma RestSettles(f: F.Regs, i: F.In)
    requires F.InOk(i) && Settled(f) && f.state != F.FetchOp && f.state != F.IntPrep
    ensures var n := F.Step(f, i); Settled(n) && n.state != F.IntPrep && n.startIp == f.startIp
  {
    hide D.ControlWord, L.Look, F.NextImm, F.NextImm2, L.IsPrefix, L.SignFill, F.StepFetchOp, F.Bump, D.DispBytes;
  }

  lemma HeadIdles(f: F.Regs, i: F.In)
    requires F.InOk(i) && f.state == F.FetchOp && !f.prefixSeen && !F.FastTake(f, i) && F.Pops(f, i) == 0
    ensures var n := F.Step(f, i);
      n.state == F.IntPrep || (n.state == F.FetchOp && !n.prefixSeen && n.ipNext == f.ipNext && n.startIp == f.ipNext)
  {
    hide D.ControlWord, L.Look, L.IsPrefix, F.TakesTwo;
  }

  lemma HeadCounts(f: F.Regs, i: F.In)
    requires F.InOk(i) && f.state == F.FetchOp && f.ipNext < F.IP && F.Step(f, i).state != F.IntPrep
    ensures F.Step(f, i).ipNext == F.Bump(f.ipNext, F.Pops(f, i))
  {
    hide D.ControlWord, L.Look, L.IsPrefix, L.SegCode, L.IsSeg, L.IsRep, F.Bump;
    StaysPut(f.ipNext);
  }

  lemma StaysPut(ip: nat)
    requires ip < F.IP
    ensures F.Bump(ip, 0) == ip
  {
  }

  lemma ModrmCounts(f: F.Regs, i: F.In)
    requires F.InOk(i) && f.state == F.ModrmByte && f.ipNext < F.IP
    ensures F.StepModrm(f, i).ipNext == F.Bump(f.ipNext, F.Pops(f, i))
  {
    hide D.ControlWord, L.Look, F.Bump;
    StaysPut(f.ipNext);
  }

  lemma DispCounts(f: F.Regs, i: F.In)
    requires F.InOk(i) && f.state == F.Disp && f.ipNext < F.IP
    ensures F.StepDisp(f, i).ipNext == F.Bump(f.ipNext, F.Pops(f, i))
  {
    hide D.ControlWord, L.Look, F.Bump, D.DispBytes, L.SignFill, F.AfterDisp;
    StaysPut(f.ipNext);
  }

  lemma ImmCounts(f: F.Regs, i: F.In)
    requires F.InOk(i) && f.state == F.Imm && f.ipNext < F.IP
    ensures F.StepImm(f, i).ipNext == F.Bump(f.ipNext, F.Pops(f, i))
  {
    hide D.ControlWord, L.Look, F.Bump, F.NextImm, F.NextImm2, F.RmMem, F.ImmLast;
    StaysPut(f.ipNext);
  }

  lemma RestCounts(f: F.Regs, i: F.In)
    requires F.InOk(i) && f.state != F.FetchOp && f.ipNext < F.IP
    ensures F.Step(f, i).ipNext == F.Bump(f.ipNext, F.Pops(f, i))
  {
    hide F.Pops, F.StepModrm, F.StepDisp, F.StepImm, F.Bump;
    match f.state {
      case ModrmByte => ModrmCounts(f, i);
      case Disp => DispCounts(f, i);
      case Imm => ImmCounts(f, i);
      case _ => F.StaysDone(f, i); StaysPut(f.ipNext);
    }
  }

  /** A whole instruction from memory at `a`, in one clock. */
  lemma WholeReads(f: F.Regs, i: F.In, mem: R.Bytes, a: nat)
    requires F.InOk(i) && F.FastTake(f, i) && f.startIp < F.IP && f.ipNext < F.IP
    requires L.Shows(i.peek, i.count, StreamAt(mem, a), 0) && Short(mem, a)
    ensures var n, len := F.Step(f, i), InsnAt(mem, a).len;
      && F.Captured(n) && !n.prefixSeen && n.startIp == f.ipNext && n.ipNext == F.Bump(f.ipNext, len)
      && L.Look(i.peek, i.count).fields.len == F.Pops(f, i) == len <= i.count
      && exists p :: F.Reading(n, StreamAt(mem, a), p, len)
  {
    hide L.Look, L.Prefixed, L.EnterOfNothing, F.Reading, F.Bump, StreamAt, InsnAt, InsnOfStream, L.Shows, L.Describes;
    var s := StreamAt(mem, a);
    var p: nat :| L.Prefixed(s, p) && p <= L.MAX_PREFIXES && L.EnterOfNothing(s, p);
    F.StartReads(f, s, p);
    F.FastStep(f, i, s, p);
    F.FastFields(f, i, s, p);
    L.LayoutAgrees(i.peek, i.count, s, p);
    InsnIs(mem, a, p);
    LenBeyond(s, p);
  }

  /** Bytes of the instruction at `a`, the long way. */
  lemma BytesRead(f: F.Regs, i: F.In, mem: R.Bytes, a: nat, pos: nat)
    requires F.InOk(i) && !F.FastTake(f, i) && f.state != F.IntPrep && Settled(f) && f.ipNext < F.IP
    requires L.Shows(i.peek, i.count, StreamAt(mem, a), pos)
    requires exists p :: F.Reading(f, StreamAt(mem, a), p, pos)
    ensures var n, now := F.Step(f, i), pos + F.Pops(f, i);
      && Settled(n) && now <= InsnAt(mem, a).len
      && (n.state == F.IntPrep ==> f.state == F.FetchOp && !f.prefixSeen)
      && n.startIp == (if f.state == F.FetchOp && !f.prefixSeen then f.ipNext else f.startIp)
      && (n.state != F.IntPrep ==>
            && (exists p :: F.Reading(n, StreamAt(mem, a), p, now))
            && (F.Captured(n) ==> now == InsnAt(mem, a).len)
            && n.ipNext == F.Bump(f.ipNext, F.Pops(f, i)))
  {
    hide L.Look, L.Prefixed, F.Reading, F.Bump, StreamAt, InsnAt, InsnOfStream, F.Step, F.Pops, L.Shows, F.FastHere;
    var s := StreamAt(mem, a);
    var p :| F.Reading(f, s, p, pos);
    F.ReadingStep(f, i, s, p, pos);
    ReadingIsPrefixed(f, s, p, pos);
    InsnIs(mem, a, p);
    LenBeyond(s, p);
    ReadingBounds(f, s, p, pos);
    if f.state == F.FetchOp { HeadSettles(f, i); } else { RestSettles(f, i); RestCounts(f, i); }
    if F.Step(f, i).state != F.IntPrep {
      ReadingBounds(F.Step(f, i), s, p, pos + F.Pops(f, i));
      if f.state == F.FetchOp { HeadCounts(f, i); }
    } else {
      HeadPops(f, i);
    }
  }

  lemma ReadingIsPrefixed(f: F.Regs, s: L.Stream, p: nat, pos: nat)
    requires F.Reading(f, s, p, pos)
    ensures L.Prefixed(s, p)
  {
  }

  lemma HeadPops(f: F.Regs, i: F.In)
    requires F.InOk(i) && f.state == F.FetchOp && !F.FastTake(f, i)
    ensures F.Pops(f, i) <= 1
  {
    hide L.Look, D.ControlWord;
  }

  // ---- the joint step ------------------------------------------------------------------

  /** Bytes the fetch control counts this clock. */
  function Counted(r: S.Regs, e: S.Event, code: S.Code): nat {
    if (r.phase == S.FetchOp && e.Whole?) || Overlaps(r, e) then code(r.front).len
    else if r.phase == S.FetchOp && e.Interrupt? then e.n
    else if (r.phase == S.FetchOp || r.phase == S.Reading) && e.Bytes? then e.n
    else 0
  }

  ghost predicate FrontMoves(r: S.Regs, e: S.Event, code: S.Code, n: S.Regs) {
    n.front == if Redirected(r, e).Some? then Redirected(r, e).value else (r.front + Counted(r, e, code)) % S.SPACE
  }

  lemma HeadFront(r: S.Regs, e: S.Event, code: S.Code)
    requires r.front < S.SPACE && (r.phase == S.FetchOp || r.phase == S.Reading)
    ensures FrontMoves(r, e, code, S.Step(r, e, code))
  {
    hide S.Linear, S.Bump, S.StepRetire, S.StepPrepare, S.StepRedirect;
  }

  lemma RetireFront(r: S.Regs, e: S.Event, code: S.Code)
    requires r.front < S.SPACE && r.phase == S.Retire
    ensures FrontMoves(r, e, code, S.Step(r, e, code))
  {
    hide S.Linear, S.Bump, S.StepFetchOp, S.StepPrepare, S.StepRedirect;
  }

  lemma CtlFront(r: S.Regs, e: S.Event, code: S.Code)
    requires r.front < S.SPACE
    ensures FrontMoves(r, e, code, S.Step(r, e, code))
  {
    match r.phase {
      case FetchOp => HeadFront(r, e, code);
      case Reading => HeadFront(r, e, code);
      case Retire => RetireFront(r, e, code);
      case _ => RestFront(r, e, code);
    }
  }

  lemma RestFront(r: S.Regs, e: S.Event, code: S.Code)
    requires r.front < S.SPACE && r.phase !in {S.FetchOp, S.Reading, S.Retire}
    ensures FrontMoves(r, e, code, S.Step(r, e, code))
  {
    hide S.Linear, S.Bump, S.StepFetchOp, S.StepRetire;
  }

  /** The queue in front of the instruction at `begun`, `pos` bytes on. */
  lemma FrontAt(s: Sys, a: S.Arch, mem: R.Bytes)
    requires Inv(s, a, mem)
    ensures s.ctl.phase == S.FetchOp || (s.ctl.phase == S.Retire && !s.ctl.doJump && !s.ctl.specTaken) ==>
      R.Front(s.biu) == R.Ahead(s.ctl.front, 0) && s.ctl.front == S.Linear(s.ctl.cs, s.ctl.ipNext)
    ensures s.ctl.phase == S.Reading ==> R.Front(s.biu) == R.Ahead(s.ctl.begun, s.ctl.taken)
  {
    hide S.Linear, R.Inv, Held;
    R.FrontOfEmpty(s.ctl.front);
    AheadIsLinear(s.ctl.cs, s.ctl.startIp, s.ctl.taken);
  }

  /** What one clock owes the joint invariant, but for the fetch control's own. */
  ghost predicate Sound(s: Sys, c: Clock, mem: R.Bytes)
    requires B.Shape(s.biu)
  {
    var n := Next(s, c, mem);
    && Pop(s, c) == Counted(s.ctl, c.e, ProgramIn(mem)) && Pop(s, c) <= s.biu.queue.cnt
    && S.EventOk(s.ctl, c.e, ProgramIn(mem))
    && Held(n, mem)
  }

  lemma SameBump(ip: nat, n: nat)
    ensures F.Bump(ip, n) == S.Bump(ip, n)
  {
  }

  lemma WholeSound(s: Sys, c: Clock, a: S.Arch, mem: R.Bytes)
    requires Inv(s, a, mem) && ClockOk(s, c, mem) && s.ctl.phase == S.FetchOp && c.e.Whole?
    ensures Sound(s, c, mem)
  {
    hide S.Linear, R.Inv, R.Front, F.Step, F.Start, F.Pops, F.Reading, L.Look;
    hide InsnAt, S.Bump, F.Bump, R.EnvOk, StreamAt;
    hide Short, S.Inv, F.FastHere, B.Step, L.Shows;
    FrontAt(s, a, mem);
    InvShape(s, a, mem);
    CtlAtFetch(s.ctl, a);
    var i := Head(s, c);
    HeadShows(s, c, mem, s.ctl.front, 0);
    WholeReads(s.f, i, mem, s.ctl.front);
    SameBump(s.ctl.ipNext, InsnAt(mem, s.ctl.front).len);
  }

  lemma CtlAtFetch(r: S.Regs, a: S.Arch)
    requires S.Inv(r, a) && r.phase == S.FetchOp
    ensures r.front == S.Linear(r.cs, r.ipNext) && r.ipNext < S.IP && !r.earlyFetch
  {
    hide S.Linear;
  }

  lemma InvShape(s: Sys, a: S.Arch, mem: R.Bytes)
    requires Inv(s, a, mem)
    ensures B.Shape(s.biu) && s.ctl.front < S.SPACE && R.Inv(s.biu, mem) && R.Front(s.biu) == s.ctl.front
    ensures Held(s, mem)
  {
    hide S.Inv, Held;
  }

  /** S_FETCH_OP without a whole instruction: a first byte, an interrupt, or nothing. */
  lemma FirstSound(s: Sys, c: Clock, a: S.Arch, mem: R.Bytes)
    requires Inv(s, a, mem) && ClockOk(s, c, mem) && s.ctl.phase == S.FetchOp && !c.e.Whole?
    ensures Sound(s, c, mem)
  {
    hide S.Linear, R.Inv, R.Front, F.Step, F.Pops, F.Reading, L.Look, InsnAt, S.Bump, F.Bump, R.EnvOk, StreamAt;
    hide Short, S.Inv, F.FastTake, B.Step, L.Shows;
    FrontAt(s, a, mem);
    InvShape(s, a, mem);
    CtlAtFetch(s.ctl, a);
    var i := Head(s, c);
    HeadShows(s, c, mem, s.ctl.front, 0);
    PopsThere(s.f, i);
    SameBump(s.ctl.ipNext, F.Pops(s.f, i));
    if F.Pops(s.f, i) == 0 {
      HeadIdles(s.f, i);
      HeadSettles(s.f, i);
    } else if F.Step(s.f, i).state == F.IntPrep {
      HeadSettles(s.f, i);
    } else {
      var p := InsnExists(mem, s.ctl.front);
      F.StartReads(s.f, StreamAt(mem, s.ctl.front), p);
      BytesRead(s.f, i, mem, s.ctl.front, 0);
    }
  }

  lemma BytesSound(s: Sys, c: Clock, a: S.Arch, mem: R.Bytes)
    requires Inv(s, a, mem) && ClockOk(s, c, mem) && s.ctl.phase == S.Reading
    ensures Sound(s, c, mem)
  {
    hide S.Linear, R.Inv, R.Front, F.Step, F.Pops, F.Reading, L.Look, InsnAt, S.Bump, F.Bump, R.EnvOk, StreamAt;
    hide Short, F.FastTake, B.Step, L.Shows;
    FrontAt(s, a, mem);
    InvShape(s, a, mem);
    var i := Head(s, c);
    HeadShows(s, c, mem, s.ctl.begun, s.ctl.taken);
    PopsThere(s.f, i);
    SameBump(s.ctl.ipNext, F.Pops(s.f, i));
    NotFresh(s, i, mem);
    BytesRead(s.f, i, mem, s.ctl.begun, s.ctl.taken);
    Counts0(s.ctl.ipNext);
  }

  lemma Counts0(ip: nat)
    requires ip < S.IP
    ensures S.Bump(ip, 0) == ip && F.Bump(ip, 0) == ip
  {
  }

  /** In the middle of an instruction there is no whole one at the head. */
  lemma NotFresh(s: Sys, i: F.In, mem: R.Bytes)
    requires F.InOk(i) && InHand(s, mem, s.ctl.taken) && s.ctl.taken > 0
    ensures !F.FastTake(s.f, i) && !(s.f.state == F.FetchOp && !s.f.prefixSeen) && s.f.ipNext < F.IP
  {
    hide F.Reading, L.Look, InsnAt, StreamAt;
    var p :| F.Reading(s.f, StreamAt(mem, s.ctl.begun), p, s.ctl.taken);
    ReadingBounds(s.f, StreamAt(mem, s.ctl.begun), p, s.ctl.taken);
    ReadingIps(s.f, StreamAt(mem, s.ctl.begun), p, s.ctl.taken);
  }

  lemma ReadingIps(f: F.Regs, s: L.Stream, p: nat, pos: nat)
    requires F.Reading(f, s, p, pos)
    ensures f.ipNext < F.IP && f.startIp < F.IP
  {
  }

  /** All bytes are there; the registers may still be on their way to S_PREP. */
  lemma PreparingSound(s: Sys, c: Clock, a: S.Arch, mem: R.Bytes)
    requires Inv(s, a, mem) && ClockOk(s, c, mem) && s.ctl.phase == S.Preparing
    ensures Sound(s, c, mem)
  {
    hide S.Linear, R.Inv, R.Front, F.Step, F.Pops, F.Reading, L.Look, InsnAt, S.Bump, F.Bump, R.EnvOk, StreamAt;
    hide Short, F.FastTake, B.Step, L.Shows;
    InvShape(s, a, mem);
    var i := Head(s, c);
    PopsThere(s.f, i);
    if !F.Captured(s.f) { NoMoreBytes(s, c, mem); }
  }

  lemma NoMoreBytes(s: Sys, c: Clock, mem: R.Bytes)
    requires B.Shape(s.biu) && InHand(s, mem, s.ctl.insn.len)
    ensures var n := F.Step(s.f, Head(s, c));
      && F.Pops(s.f, Head(s, c)) == 0 && Settled(n) && n.state != F.IntPrep
      && n.ipNext == s.f.ipNext && n.startIp == s.f.startIp
      && exists p :: F.Reading(n, StreamAt(mem, s.ctl.begun), p, s.ctl.insn.len)
  {
    hide F.Step, F.Reading, L.Look, InsnAt, StreamAt, F.Bump, InsnOfStream;
    var i, st, len := Head(s, c), StreamAt(mem, s.ctl.begun), s.ctl.insn.len;
    var p :| F.Reading(s.f, st, p, len);
    ReadingBounds(s.f, st, p, len);
    ReadingIps(s.f, st, p, len);
    ReadingIsPrefixed(s.f, st, p, len);
    InsnIs(mem, s.ctl.begun, p);
    LenBeyond(st, p);
    AllRead(s.f, i, st, p);
    RestSettles(s.f, i);
    RestCounts(s.f, i);
    StaysPut(s.f.ipNext);
    F.ReadingStep(s.f, F.In(i.peek, 0, i.blockOnce, i.hwInt), st, p, len);
    SameStep(s.f, i);
  }

  /** With every byte read, what is left takes none. */
  lemma AllRead(f: F.Regs, i: F.In, s: L.Stream, p: nat)
    requires F.InOk(i) && F.Reading(f, s, p, L.LenOf(s, p)) && f.state != F.IntPrep
    ensures f.state != F.FetchOp && f.state != F.Imm && F.Pops(f, i) == 0
    ensures f.state == F.ModrmByte ==> !F.Decoded(f).hasModrm
    ensures f.state == F.Disp ==> D.DispBytes(f.modrm) == 0
  {
    hide D.ControlWord, L.SegOf, L.RepOf, L.DispOf, L.ImmOfStream, L.Prefixed, F.PrefixesHeld, F.ImmPart, L.Look;
    L.ShapeFollows(s(p), f.modrm, s(p + 1));
  }

  lemma SameStep(f: F.Regs, i: F.In)
    requires F.InOk(i) && f.state != F.FetchOp && f.state != F.Imm
    requires f.state == F.ModrmByte ==> !F.Decoded(f).hasModrm
    requires f.state == F.Disp ==> D.DispBytes(f.modrm) == 0
    ensures var quiet := F.In(i.peek, 0, i.blockOnce, i.hwInt);
      F.Step(f, quiet) == F.Step(f, i) && F.Pops(f, quiet) == 0
  {
    hide D.ControlWord, L.Look;
  }

  lemma WorkingSound(s: Sys, c: Clock, a: S.Arch, mem: R.Bytes)
    requires Inv(s, a, mem) && ClockOk(s, c, mem) && s.ctl.phase in {S.Working, S.Serving, S.Redirect}
    ensures Sound(s, c, mem)
  {
    hide S.Linear, R.Inv, R.Front, F.Step, F.Pops, F.Reading, L.Look, InsnAt, S.Bump, F.Bump, R.EnvOk, StreamAt;
    hide Short, F.FastTake, B.Step, L.Shows;
    InvShape(s, a, mem);
  }

  /** S_RETIRE, with the next instruction captured in the same clock or not. */
  lemma RetireSound(s: Sys, c: Clock, a: S.Arch, mem: R.Bytes)
    requires Inv(s, a, mem) && ClockOk(s, c, mem) && s.ctl.phase == S.Retire
    ensures Sound(s, c, mem)
  {
    hide S.Linear, R.Inv, R.Front, F.Step, F.Start, F.Pops, F.Reading, L.Look, InsnAt, S.Bump, F.Bump, R.EnvOk;
    hide StreamAt, Short, F.FastHere, B.Step, L.Shows;
    InvShape(s, a, mem);
    RetireIps(s, a, mem);
    if Overlaps(s.ctl, c.e) {
      FrontAt(s, a, mem);
      var i, f := Head(s, c), s.f.(state := F.FetchOp);
      HeadShows(s, c, mem, s.ctl.front, 0);
      StartIsStep(s.f, i);
      WholeReads(f, i, mem, s.ctl.front);
      SameBump(s.ctl.ipNext, InsnAt(mem, s.ctl.front).len);
    }
  }

  lemma RetireIps(s: Sys, a: S.Arch, mem: R.Bytes)
    requires Inv(s, a, mem) && s.ctl.phase == S.Retire
    ensures s.f.ipNext == s.ctl.ipNext < S.IP && s.f.startIp < F.IP && !s.f.prefixSeen
    ensures !s.ctl.doJump ==> !s.ctl.earlyFetch
  {
    hide S.Linear, R.Inv, F.Reading, InsnAt, StreamAt;
  }

  /** START_INSTR is the same from S_RETIRE as from S_FETCH_OP. */
  lemma StartIsStep(f: F.Regs, i: F.In)
    requires F.InOk(i) && F.FastHere(f, i)
    ensures var at := f.(state := F.FetchOp);
      F.FastTake(at, i) && F.Step(at, i) == F.Start(f, L.Look(i.peek, i.count))
  {
    hide L.Look;
  }

  lemma ClockSound(s: Sys, c: Clock, a: S.Arch, mem: R.Bytes)
    requires Inv(s, a, mem) && ClockOk(s, c, mem)
    ensures B.Shape(s.biu) && Sound(s, c, mem)
  {
    hide Inv, ClockOk, Sound;
    InvShape(s, a, mem);
    match s.ctl.phase {
      case FetchOp => if c.e.Whole? { WholeSound(s, c, a, mem); } else { FirstSound(s, c, a, mem); }
      case Reading => BytesSound(s, c, a, mem);
      case Preparing => PreparingSound(s, c, a, mem);
      case Retire => RetireSound(s, c, a, mem);
      case _ => WorkingSound(s, c, a, mem);
    }
  }

  // ---- whole runs -------------------------------------------------------------------------

  /** The bus unit follows the fetch control. */
  lemma BusFollows(s: Sys, c: Clock, a: S.Arch, mem: R.Bytes)
    requires Inv(s, a, mem) && ClockOk(s, c, mem)
    ensures B.Shape(s.biu)
    ensures var n := Next(s, c, mem);
      && R.Inv(n.biu, mem) && R.Front(n.biu) == n.ctl.front
      && PQ.Contents(s.biu.queue)[..Pop(s, c)] == R.Stream(mem, s.ctl.front, Pop(s, c))
  {
    hide S.Inv, R.Inv, R.Front, B.Step, S.Step, Held, Pop, EventFits, ProgramOk, Redirected, R.Stream, PQ.Contents;
    hide S.EventOk, Counted, InsnAt, R.EnvOk;
    InvShape(s, a, mem);
    ClockSound(s, c, a, mem);
    CtlFront(s.ctl, c.e, ProgramIn(mem));
    R.FrontStep(s.biu, c.bus);
    R.QueueStep(s.biu, c.bus);
    R.InvStep(s.biu, c.bus, mem);
    assert PQ.Popped(s.biu.queue, B.QueueIn(s.biu, c.bus.i)) == Pop(s, c);
  }

  lemma InvStep(s: Sys, c: Clock, a: S.Arch, mem: R.Bytes)
    requires Inv(s, a, mem) && ClockOk(s, c, mem)
    ensures B.Shape(s.biu) && S.EventOk(s.ctl, c.e, ProgramIn(mem))
    ensures Inv(Next(s, c, mem), S.Advance(a, S.Logged(s.ctl, c.e, ProgramIn(mem))), mem)
  {
    hide ClockOk, S.Inv, R.Inv, R.Front, Held, S.EventOk, S.Step, S.Logged, S.Advance, B.Step, NextF, Pop, Counted;
    InvShape(s, a, mem);
    ClockSound(s, c, a, mem);
    BusFollows(s, c, a, mem);
    S.InvStep(s.ctl, c.e, ProgramIn(mem), a);
  }

  /** S_START points the fetch at the segment; then any clocks. */
  ghost predicate Starting(s: Sys, boot: R.Env, mem: R.Bytes, cs: nat) {
    && s.ctl == S.Reset(cs)
    && s.f.state == F.FetchOp && !s.f.prefixSeen && s.f.ipNext == 0 && s.f.startIp < F.IP
    && R.EnvOk(B.Reset(), boot) && boot.mem == mem && boot.i.fetchSet && boot.i.fetchAddr == S.Linear(cs, 0)
    && s.biu == B.Step(B.Reset(), boot.i)
  }

  ghost predicate IsRun(states: seq<Sys>, clocks: seq<Clock>, boot: R.Env, mem: R.Bytes, cs: nat) {
    && |states| == |clocks| + 1
    && Starting(states[0], boot, mem, cs)
    && (forall k :: 0 <= k < |states| ==> B.Shape(states[k].biu))
    && (forall k :: 0 <= k < |clocks| ==>
          ClockOk(states[k], clocks[k], mem) && states[k + 1] == Next(states[k], clocks[k], mem))
  }

  /** The fetch control's part of a run. */
  function Controls(states: seq<Sys>): (c: seq<S.Regs>)
    ensures |c| == |states| && forall k :: 0 <= k < |c| ==> c[k] == states[k].ctl
  {
    seq(|states|, k requires 0 <= k < |states| => states[k].ctl)
  }

  function Events(clocks: seq<Clock>): (e: seq<S.Event>)
    ensures |e| == |clocks| && forall k :: 0 <= k < |e| ==> e[k] == clocks[k].e
  {
    seq(|clocks|, k requires 0 <= k < |clocks| => clocks[k].e)
  }

  /** Where the program is: what the instructions taken and ended so far come to. */
  ghost function ProgramAt(states: seq<Sys>, clocks: seq<Clock>, mem: R.Bytes, cs: nat, k: nat): S.Arch
    requires |states| == |clocks| + 1 && k <= |clocks|
  {
    S.FollowAll(S.At(cs, 0), S.History(Controls(states), Events(clocks), ProgramIn(mem), k))
  }

  lemma StartInv(s: Sys, boot: R.Env, mem: R.Bytes, cs: nat)
    requires Starting(s, boot, mem, cs)
    ensures Inv(s, S.At(cs, 0), mem)
  {
    hide R.Inv, R.Front, B.Step, S.Linear, S.Inv;
    S.InitInv(cs);
    R.InitInv(mem);
    R.FrontStep(B.Reset(), boot);
    R.InvStep(B.Reset(), boot, mem);
  }

  /** THE FRONT END IS THE FETCH CONTROL'S MODEL: in every run, with the lengths
      decode_len finds and the bytes the bus brings, each clock keeps what the fetch
      control relies on, and the bus unit's front is the control's. */
  lemma {:induction false} RunInv(states: seq<Sys>, clocks: seq<Clock>, boot: R.Env, mem: R.Bytes, cs: nat, k: nat)
    requires IsRun(states, clocks, boot, mem, cs) && k < |states|
    ensures Inv(states[k], ProgramAt(states, clocks, mem, cs, k), mem)
    ensures k > 0 ==> S.EventOk(states[k - 1].ctl, clocks[k - 1].e, ProgramIn(mem))
  {
    hide Inv, ClockOk, Next, S.EventOk, S.Logged, S.Follow, Starting;
    if k == 0 {
      StartInv(states[0], boot, mem, cs);
    } else {
      RunInv(states, clocks, boot, mem, cs, k - 1);
      var a := ProgramAt(states, clocks, mem, cs, k - 1);
      InvStep(states[k - 1], clocks[k - 1], a, mem);
      var log := S.History(Controls(states), Events(clocks), ProgramIn(mem), k - 1);
      var l := S.Logged(states[k - 1].ctl, clocks[k - 1].e, ProgramIn(mem));
      if l.Some? { assert (log + [l.value])[..|log|] == log; }
    }
  }

  /** ... so that every such run is one of its runs, and all proved of those - the
      program followed, predictions invisible - holds of the machine's front end. */
  lemma RefinesFetchControl(states: seq<Sys>, clocks: seq<Clock>, boot: R.Env, mem: R.Bytes, cs: nat)
    requires IsRun(states, clocks, boot, mem, cs)
    ensures S.IsRun(Controls(states), Events(clocks), ProgramIn(mem), cs)
  {
    hide ClockOk, S.EventOk, S.Step, S.Reset, Inv, NextF, B.Step;
    forall k | 0 <= k < |clocks|
      ensures S.EventOk(states[k].ctl, clocks[k].e, ProgramIn(mem))
    {
      RunInv(states, clocks, boot, mem, cs, k + 1);
    }
  }

  /** WHAT IS IN HAND IS MEMORY AT CS:IP. In every run, for any predictor, any bus
      timing and any mix of captures, an instruction in hand has the fields and the
      next IP of the one in memory where the program is. */
  lemma InHandIsMemory(states: seq<Sys>, clocks: seq<Clock>, boot: R.Env, mem: R.Bytes, cs: nat, k: nat)
      returns (p: nat)
    requires IsRun(states, clocks, boot, mem, cs) && k < |states|
    requires states[k].ctl.phase in {S.Preparing, S.Working} && F.Captured(states[k].f)
    ensures var s := states[k]; var at := S.Linear(s.ctl.cs, s.f.startIp);
      && ProgramAt(states, clocks, mem, cs, k) == S.In(s.ctl.cs, s.f.startIp)
      && L.Prefixed(StreamAt(mem, at), p)
      && L.Describes(F.FieldsOf(s.f, L.LenOf(StreamAt(mem, at), p)), StreamAt(mem, at), p)
      && s.f.ipNext == F.Bump(s.f.startIp, L.LenOf(StreamAt(mem, at), p))
      && s.ctl.insn == InsnOf(F.FieldsOf(s.f, L.LenOf(StreamAt(mem, at), p)))
  {
    hide R.Inv, R.Front, S.Linear, InsnAt, InsnOfStream, InsnOf, StreamAt, L.Describes;
    hide L.Prefixed, F.Bump, ClockOk, Next;
    RunInv(states, clocks, boot, mem, cs, k);
    var s := states[k];
    var st := StreamAt(mem, s.ctl.begun);
    p :| F.Reading(s.f, st, p, s.ctl.insn.len);
    ReadingBounds(s.f, st, p, s.ctl.insn.len);
    InsnIs(mem, s.ctl.begun, p);
    DescribedInsn(F.FieldsOf(s.f, s.ctl.insn.len), st, p);
  }

  /** EVERY BYTE CONSUMED IS THE ONE AT CS:IP: what the sequencer takes from the queue
      in any clock it reads an instruction in is memory from there on. */
  lemma ConsumesMemoryAtIp(states: seq<Sys>, clocks: seq<Clock>, boot: R.Env, mem: R.Bytes, cs: nat, k: nat)
    requires IsRun(states, clocks, boot, mem, cs) && k < |clocks|
    requires states[k].ctl.phase in {S.FetchOp, S.Reading} || Overlaps(states[k].ctl, clocks[k].e)
    ensures var s, c := states[k], clocks[k];
      && Pop(s, c) <= s.biu.queue.cnt
      && PQ.Contents(s.biu.queue)[..Pop(s, c)]
           == R.Stream(mem, S.Linear(s.ctl.cs, s.ctl.ipNext), Pop(s, c))
  {
    hide R.Inv, R.Front, S.Linear, ClockOk, Next, Held, Pop, R.Stream, PQ.Contents, Counted, S.EventOk;
    RunInv(states, clocks, boot, mem, cs, k);
    var a := ProgramAt(states, clocks, mem, cs, k);
    ClockSound(states[k], clocks[k], a, mem);
    BusFollows(states[k], clocks[k], a, mem);
  }
}
