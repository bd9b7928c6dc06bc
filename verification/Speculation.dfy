/** modules/execUnit.sv: where the sequencer points the fetch. Capture, early
    redirect, speculative redirect, retire and recovery, around instructions
    whose work in between is anything at all. */
module Speculation {
  import opened Machine

  const IP: nat := 0x1_0000
  const SPACE: nat := 0x10_0000

  function Linear(cs: nat, ip: nat): (a: nat)
    ensures a < SPACE
  {
    (cs * 16 + ip) % SPACE
  }

  /** What matters here of an opcode: Jcc and LOOP are predicted; short, near and
      call-near jumps are redirected early; the rest are neither. */
  datatype Kind = Conditional | EarlyJump | Other

  /** An instruction as captured: its length, and for relative branches the
      distance they jump. */
  datatype Insn = Insn(kind: Kind, len: nat, rel: nat)

  /** Memory, read as an instruction at each linear address. */
  type Code = nat -> Insn

  datatype Phase = FetchOp | Reading | Preparing | Working | Retire | Redirect | Serving

  /** `front` is the address of the next byte the queue will deliver, which the
      BIU keeps; `begun` the one the current instruction's bytes started at. */
  datatype Regs = Regs(
    phase: Phase, cs: nat, ipNext: nat, startIp: nat,
    insn: Insn, begun: nat, taken: nat,
    doJump: bool, jumpTarget: nat,
    specTaken: bool, specTarget: nat, earlyFetch: bool,
    front: nat)

  function Reset(cs: nat): Regs {
    Regs(FetchOp, cs, 0, 0, Insn(Other, 1, 0), 0, 0, false, 0, false, 0, false, Linear(cs, 0))
  }

  /** One clock's choices of everything else: the queue, the interrupts, the
      predictor, and the instruction's own work. */
  datatype Event =
    | Stall
    | Whole(bpTaken: bool, bpTarget: nat)     // fast_here, and the table's answer
    | Bytes(n: nat)                           // bytes consumed the long way
    | Interrupt(n: nat)                       // accepted at a boundary
    | Prepare                                 // S_PREP
    | Resolve(cs: nat, jump: bool, target: nat)   // ... the work reaches S_RETIRE
    | Depart(cs: nat, target: nat)            // far transfer, IRET, trap, interrupt entry

  function Bump(ip: nat, n: nat): (i: nat)
    ensures i < IP
  {
    (ip + n) % IP
  }

  /** rel_target. */
  function RelTarget(r: Regs): nat { Bump(r.ipNext, r.insn.rel) }

  /** START_INSTR, and the redirect that goes with a prediction. */
  function Capture(r: Regs, code: Code, taken: bool, target: nat): Regs {
    var i := code(r.front);
    r.(phase := Preparing, startIp := r.ipNext, ipNext := Bump(r.ipNext, i.len), insn := i,
       begun := r.front, doJump := false, specTaken := taken, specTarget := target,
       front := if taken then Linear(r.cs, target) else (r.front + i.len) % SPACE)
  }

  /** spec_ok. */
  predicate SpecOk(r: Regs) {
    r.specTaken && r.doJump && r.insn.kind == Conditional && r.specTarget == r.jumpTarget
  }

  function Consume(r: Regs, n: nat): Regs {
    r.(taken := r.taken + n, ipNext := Bump(r.ipNext, n), front := (r.front + n) % SPACE,
       phase := if r.taken + n == r.insn.len then Preparing else Reading)
  }

  function StepFetchOp(r: Regs, e: Event, code: Code): Regs {
    var c := r.(doJump := false, specTaken := false);
    match e
    case Whole(taken, target) => Capture(c, code, taken, target)
    case Bytes(n) => Consume(c.(startIp := r.ipNext, insn := code(r.front), begun := r.front, taken := 0), n)
    case Interrupt(n) => c.(phase := Serving, front := (r.front + n) % SPACE)
    case _ => c
  }

  function StepRetire(r: Regs, e: Event, code: Code): Regs {
    if SpecOk(r) then
      r.(specTaken := false, earlyFetch := false, ipNext := r.jumpTarget, phase := FetchOp)
    else if r.specTaken && !r.doJump then
      r.(specTaken := false, jumpTarget := r.ipNext, phase := Redirect)
    else if e.Whole? && !r.doJump && !r.specTaken then
      Capture(r, code, e.bpTaken, e.bpTarget)
    else
      r.(specTaken := false, phase := if r.doJump then Redirect else FetchOp)
  }

  function StepRedirect(r: Regs): Regs {
    r.(front := if r.earlyFetch then r.front else Linear(r.cs, r.jumpTarget),
       earlyFetch := false, ipNext := r.jumpTarget, phase := FetchOp)
  }

  function StepPrepare(r: Regs): Regs {
    var n := r.(phase := Working);
    if r.insn.kind == EarlyJump then n.(front := Linear(r.cs, RelTarget(r)), earlyFetch := true) else n
  }

  function Step(r: Regs, e: Event, code: Code): Regs {
    match r.phase
    case FetchOp => StepFetchOp(r, e, code)
    case Reading => if e.Bytes? then Consume(r, e.n) else r
    case Preparing => if e.Prepare? then StepPrepare(r) else r
    case Working =>
      (match e
       case Resolve(cs, jump, target) =>
         r.(phase := Retire, cs := cs, doJump := jump, jumpTarget := if jump then target else r.jumpTarget)
       case Depart(cs, target) => r.(phase := Redirect, cs := cs, doJump := true, jumpTarget := target)
       case _ => r)
    case Serving =>
      if e.Depart? then r.(phase := Redirect, cs := e.cs, doJump := true, jumpTarget := e.target) else r
    case Retire => StepRetire(r, e, code)
    case Redirect => StepRedirect(r)
  }

  /** What the rest of the machine guarantees: an instruction has a length and is
      read once; relative branches go where their bytes say; a new code segment
      comes with a jump; and no instruction runs past the end of its segment. */
  predicate EventOk(r: Regs, e: Event, code: Code) {
    match r.phase
    case FetchOp =>
      && (e.Whole? || e.Bytes? ==> 0 < code(r.front).len && r.ipNext + code(r.front).len < IP)
      && (e.Whole? ==> e.bpTarget < IP)
      && (e.Bytes? ==> 0 < e.n <= code(r.front).len)
    case Reading => e.Bytes? ==> 0 < e.n <= r.insn.len - r.taken
    case Working =>
      (match e
       case Resolve(cs, jump, target) =>
         && target < IP
         && (cs != r.cs ==> jump)
         && (r.insn.kind == EarlyJump ==> jump && cs == r.cs && target == RelTarget(r))
         && (r.insn.kind == Conditional ==> cs == r.cs && (jump ==> target == RelTarget(r)))
       case Depart(cs, target) => target < IP && r.insn.kind == Other
       case _ => true)
    case Serving => e.Depart? ==> e.target < IP
    case Retire =>
      e.Whole? && !r.doJump && !r.specTaken ==>
        0 < code(r.front).len && r.ipNext + code(r.front).len < IP && e.bpTarget < IP
    case _ => true
  }

  // ---- what the program sees ------------------------------------------------

  /** The instructions taken in, each with the linear address its bytes came
      from, and how each one ended. */
  datatype Entry =
    | Took(cs: nat, ip: nat, from: nat)
    | Ended(cs: nat, ip: nat)                 // the address it leaves control at
    | Interrupted(cs: nat, ip: nat)           // the handler's

  /** What one clock adds to the program's history. */
  function Logged(r: Regs, e: Event, code: Code): Option<Entry> {
    match r.phase
    case FetchOp =>
      if e.Whole? then Some(Took(r.cs, r.ipNext, r.front))
      else if e.Bytes? && e.n == code(r.front).len then Some(Took(r.cs, r.ipNext, r.front))
      else None
    case Reading =>
      if e.Bytes? && r.taken + e.n == r.insn.len then Some(Took(r.cs, r.startIp, r.begun)) else None
    case Working =>
      (match e
       case Resolve(cs, jump, target) => Some(Ended(cs, if jump then target else r.ipNext))
       case Depart(cs, target) => Some(Ended(cs, target))
       case _ => None)
    case Serving => if e.Depart? then Some(Interrupted(e.cs, e.target)) else None
    case Retire =>
      if !SpecOk(r) && e.Whole? && !r.doJump && !r.specTaken then Some(Took(r.cs, r.ipNext, r.front)) else None
    case _ => None
  }

  /** The architecture: between instructions at an address, or inside one. */
  datatype Arch = At(cs: nat, ip: nat) | In(cs: nat, ip: nat) | Wrong

  /** An instruction may only be taken from where control is, bytes and all. */
  function Follow(a: Arch, l: Entry): Arch {
    match l
    case Took(cs, ip, addr) => if a == At(cs, ip) && addr == Linear(cs, ip) then In(cs, ip) else Wrong
    case Ended(cs, ip) => if a.In? then At(cs, ip) else Wrong
    case Interrupted(cs, ip) => if a.At? then At(cs, ip) else Wrong
  }

  function Advance(a: Arch, l: Option<Entry>): Arch {
    if l.Some? then Follow(a, l.value) else a
  }

  // ---- the invariant --------------------------------------------------------

  /** Where the fetch is pointed once an instruction is in hand. */
  predicate Pointed(r: Regs) {
    if r.earlyFetch then r.insn.kind == EarlyJump && r.front == Linear(r.cs, RelTarget(r))
    else if r.specTaken then r.front == Linear(r.cs, r.specTarget)
    else r.front == Linear(r.cs, r.ipNext)
  }

  predicate Inv(r: Regs, a: Arch) {
    && r.ipNext < IP
    && match r.phase {
      case FetchOp => a == At(r.cs, r.ipNext) && r.front == Linear(r.cs, r.ipNext) && !r.earlyFetch
      case Reading =>
        && a == At(r.cs, r.startIp) && !r.earlyFetch && !r.specTaken
        && r.begun == Linear(r.cs, r.startIp) && r.front == Linear(r.cs, r.ipNext)
        && r.taken < r.insn.len && r.ipNext == r.startIp + r.taken
        && r.startIp + r.insn.len < IP
      case Preparing => a == In(r.cs, r.startIp) && !r.earlyFetch && Pointed(r)
      case Working =>
        a == In(r.cs, r.startIp) && (r.earlyFetch <==> r.insn.kind == EarlyJump) && Pointed(r)
      case Retire =>
        && a == At(r.cs, if r.doJump then r.jumpTarget else r.ipNext)
        && (r.earlyFetch <==> r.insn.kind == EarlyJump)
        && (r.insn.kind == EarlyJump ==> r.doJump && r.jumpTarget == RelTarget(r))
        && (r.doJump ==> r.jumpTarget < IP)
        && (if r.doJump && r.insn.kind == Other then true else Pointed(r))
      case Redirect =>
        && a == At(r.cs, r.jumpTarget) && r.jumpTarget < IP
        && (r.earlyFetch ==> r.front == Linear(r.cs, r.jumpTarget))
      case Serving => a.At? && !r.earlyFetch
    }
  }

  lemma LinearMoves(cs: nat, ip: nat, n: nat)
    ensures (Linear(cs, ip) + n) % SPACE == Linear(cs, ip + n)
  {
  }

  lemma InitInv(cs: nat)
    ensures Inv(Reset(cs), At(cs, 0))
  {
  }

  predicate Kept(r: Regs, e: Event, code: Code, a: Arch) {
    Inv(Step(r, e, code), Advance(a, Logged(r, e, code)))
  }

  lemma BumpInside(ip: nat, n: nat)
    requires ip + n < IP
    ensures Bump(ip, n) == ip + n
  {
  }

  lemma FetchKeeps(r: Regs, e: Event, code: Code, a: Arch)
    requires r.phase == FetchOp && Inv(r, a) && EventOk(r, e, code)
    ensures Kept(r, e, code, a)
  {
    hide Linear, Bump;
    LinearMoves(r.cs, r.ipNext, code(r.front).len);
    if e.Whole? { BumpInside(r.ipNext, code(r.front).len); }
    if e.Bytes? {
      LinearMoves(r.cs, r.ipNext, e.n);
      BumpInside(r.ipNext, e.n);
    }
  }

  lemma BytesKeep(r: Regs, e: Event, code: Code, a: Arch)
    requires r.phase == Reading && Inv(r, a) && EventOk(r, e, code)
    ensures Kept(r, e, code, a)
  {
    hide Linear, Bump;
    if e.Bytes? {
      LinearMoves(r.cs, r.ipNext, e.n);
      BumpInside(r.ipNext, e.n);
    }
  }

  lemma WorkKeeps(r: Regs, e: Event, code: Code, a: Arch)
    requires r.phase in {Preparing, Working, Serving} && Inv(r, a) && EventOk(r, e, code)
    ensures Kept(r, e, code, a)
  {
    hide Linear, Bump;
    assert RelTarget(r) < IP;
  }

  /** Right guess, wrong direction, wrong target, stray guess for something that
      is no conditional branch, or no guess: all rejoin the program's path. */
  lemma RetireKeeps(r: Regs, e: Event, code: Code, a: Arch)
    requires r.phase in {Retire, Redirect} && Inv(r, a) && EventOk(r, e, code)
    ensures Kept(r, e, code, a)
  {
    hide Linear;
    LinearMoves(r.cs, r.ipNext, code(r.front).len);
  }

  lemma InvStep(r: Regs, e: Event, code: Code, a: Arch)
    requires Inv(r, a) && EventOk(r, e, code)
    ensures Inv(Step(r, e, code), Advance(a, Logged(r, e, code)))
  {
    hide Inv, Step, EventOk, Logged, Advance;
    match r.phase {
      case FetchOp => FetchKeeps(r, e, code, a);
      case Reading => BytesKeep(r, e, code, a);
      case Retire => RetireKeeps(r, e, code, a);
      case Redirect => RetireKeeps(r, e, code, a);
      case _ => WorkKeeps(r, e, code, a);
    }
  }

  // ---- whole runs -----------------------------------------------------------

  /** Any schedule, any predictions. */
  ghost predicate IsRun(states: seq<Regs>, events: seq<Event>, code: Code, cs: nat) {
    && |states| == |events| + 1
    && states[0] == Reset(cs)
    && (forall k :: 0 <= k < |events| ==>
          EventOk(states[k], events[k], code) && states[k + 1] == Step(states[k], events[k], code))
  }

  function AppendOption(log: seq<Entry>, l: Option<Entry>): seq<Entry> {
    if l.Some? then log + [l.value] else log
  }

  ghost function History(states: seq<Regs>, events: seq<Event>, code: Code, k: nat): seq<Entry>
    requires |states| == |events| + 1 && k <= |events|
  {
    if k == 0 then []
    else AppendOption(History(states, events, code, k - 1), Logged(states[k - 1], events[k - 1], code))
  }

  function FollowAll(a: Arch, log: seq<Entry>): Arch {
    if log == [] then a else Follow(FollowAll(a, log[..|log| - 1]), log[|log| - 1])
  }

  /** EVERY INSTRUCTION IS THE PROGRAM'S. In every run the next instruction is
      taken from exactly the address the last one, or an interrupt, left
      control at; and so are its bytes. */
  lemma {:induction false} TakesOnlyTheProgram(states: seq<Regs>, events: seq<Event>, code: Code, cs: nat, k: nat)
    requires IsRun(states, events, code, cs) && k <= |events|
    ensures Inv(states[k], FollowAll(At(cs, 0), History(states, events, code, k)))
    ensures FollowAll(At(cs, 0), History(states, events, code, k)) != Wrong
  {
    hide Step, EventOk, Logged, Follow;
    if k == 0 {
      InitInv(cs);
    } else {
      TakesOnlyTheProgram(states, events, code, cs, k - 1);
      var log, l := History(states, events, code, k - 1), Logged(states[k - 1], events[k - 1], code);
      InvStep(states[k - 1], events[k - 1], code, FollowAll(At(cs, 0), log));
      if l.Some? { assert (log + [l.value])[..|log|] == log; }
    }
  }

  /** How instructions ended and where interrupts went: all that the program's
      data and its surroundings decide. */
  function Outcomes(log: seq<Entry>): seq<Entry> {
    if log == [] then []
    else
      var rest := Outcomes(log[..|log| - 1]);
      if log[|log| - 1].Took? then rest else rest + [log[|log| - 1]]
  }

  /** The architecture's own trace of those outcomes: it knows no queue, no
      prediction and no early redirect. */
  function Trace(a: Arch, outcomes: seq<Entry>): seq<Entry>
    requires a.At?
  {
    if outcomes == [] then []
    else
      var before := outcomes[..|outcomes| - 1];
      var last := outcomes[|outcomes| - 1];
      var from_ := Reached(a, before);
      Trace(a, before)
        + if last.Ended? then [Took(from_.cs, from_.ip, Linear(from_.cs, from_.ip)), last] else [last]
  }

  /** Where control is after the outcomes. */
  function Reached(a: Arch, outcomes: seq<Entry>): (r: Arch)
    requires a.At?
    ensures r.At?
  {
    if outcomes == [] then a
    else
      var last := outcomes[|outcomes| - 1];
      if last.Took? then Reached(a, outcomes[..|outcomes| - 1]) else At(last.cs, last.ip)
  }

  lemma OneMoreEntry(a: Arch, log: seq<Entry>, l: Entry)
    ensures FollowAll(a, log + [l]) == Follow(FollowAll(a, log), l)
    ensures Outcomes(log + [l]) == Outcomes(log) + if l.Took? then [] else [l]
  {
    assert (log + [l])[..|log|] == log;
    assert Outcomes(log) + [] == Outcomes(log);
  }

  lemma OneMoreOutcome(a: Arch, outcomes: seq<Entry>, l: Entry)
    requires a.At? && !l.Took?
    ensures var from_ := Reached(a, outcomes);
      Trace(a, outcomes + [l])
        == Trace(a, outcomes) + if l.Ended? then [Took(from_.cs, from_.ip, Linear(from_.cs, from_.ip)), l] else [l]
    ensures Reached(a, outcomes + [l]) == At(l.cs, l.ip)
  {
    assert (outcomes + [l])[..|outcomes|] == outcomes;
  }

  /** A history with no wrong step is its outcomes' trace, up to an instruction
      that has been taken in and not yet ended. */
  lemma {:induction false} RightHistoryIsTrace(a: Arch, log: seq<Entry>)
    requires a.At? && FollowAll(a, log) != Wrong
    ensures var now := FollowAll(a, log);
      var at := Reached(a, Outcomes(log));
      if now.At? then now == at && log == Trace(a, Outcomes(log))
      else now == In(at.cs, at.ip)
           && log == Trace(a, Outcomes(log)) + [Took(at.cs, at.ip, Linear(at.cs, at.ip))]
  {
    hide Linear;
    if log != [] {
      hide Outcomes, Trace, Reached, FollowAll;
      var before, l := log[..|log| - 1], log[|log| - 1];
      assert log == before + [l];
      OneMoreEntry(a, before, l);
      RightHistoryIsTrace(a, before);
      if l.Took? {
        assert Outcomes(log) == Outcomes(before);
      } else {
        OneMoreOutcome(a, Outcomes(before), l);
      }
    }
  }

  // ---- what a prediction can change ---------------------------------------------

  /** The program and its surroundings: how the next instruction ends, or the
      interrupt that comes instead, from all that has happened before. */
  type Effect = seq<Entry> -> Entry

  ghost predicate Obeys(outcomes: seq<Entry>, eff: Effect) {
    forall n :: 0 <= n < |outcomes| ==> outcomes[n] == eff(outcomes[..n])
  }

  /** A history but for an instruction taken in and not yet ended. */
  function Settled(log: seq<Entry>): seq<Entry> {
    if log != [] && log[|log| - 1].Took? then log[..|log| - 1] else log
  }

  /** What is decided step by step is decided as far as it goes. */
  lemma {:induction false} SameStart(a: seq<Entry>, b: seq<Entry>, eff: Effect, n: nat)
    requires Obeys(a, eff) && Obeys(b, eff) && n <= |a| && n <= |b|
    ensures a[..n] == b[..n]
  {
    if n > 0 {
      SameStart(a, b, eff, n - 1);
      assert a[n - 1] == eff(a[..n - 1]) && b[n - 1] == eff(b[..n - 1]);
      assert a[..n] == a[..n - 1] + [a[n - 1]] && b[..n] == b[..n - 1] + [b[n - 1]];
    }
  }

  lemma {:induction false} TraceStarts(a: Arch, outcomes: seq<Entry>, n: nat)
    requires a.At? && n <= |outcomes|
    ensures Trace(a, outcomes[..n]) <= Trace(a, outcomes)
    decreases |outcomes|
  {
    if n < |outcomes| {
      var before := outcomes[..|outcomes| - 1];
      assert before[..n] == outcomes[..n];
      TraceStarts(a, before, n);
    } else {
      assert outcomes[..n] == outcomes;
    }
  }

  /** Between instructions or inside one, what is settled is the trace. */
  lemma SettledIsTrace(a: Arch, log: seq<Entry>)
    requires a.At? && FollowAll(a, log) != Wrong
    ensures Settled(log) == Trace(a, Outcomes(log)) && Trace(a, Outcomes(log)) <= log
  {
    hide Outcomes, Trace, Reached;
    RightHistoryIsTrace(a, log);
    if FollowAll(a, log).At? && log != [] {
      var l := log[|log| - 1];
      assert FollowAll(a, log) == Follow(FollowAll(a, log[..|log| - 1]), l);
    }
  }

  lemma LongerHistory(a: Arch, x: seq<Entry>, y: seq<Entry>, eff: Effect)
    requires a.At? && FollowAll(a, x) != Wrong && FollowAll(a, y) != Wrong
    requires Obeys(Outcomes(x), eff) && Obeys(Outcomes(y), eff) && |Outcomes(x)| <= |Outcomes(y)|
    ensures Settled(x) <= y
  {
    hide Outcomes, Trace, Settled, FollowAll, Obeys;
    var o, p := Outcomes(x), Outcomes(y);
    SameStart(o, p, eff, |o|);
    assert o[..|o|] == o;
    TraceStarts(a, p, |o|);
    SettledIsTrace(a, x);
    SettledIsTrace(a, y);
    var t := Trace(a, p);
    assert t == y[..|t|];
  }

  /** PREDICTION IS INVISIBLE. Two runs of one program in the same surroundings, with
      any predictions in either, any queue timing and any mix of captures: up to an
      instruction in progress, one has taken the same instructions from the same
      addresses as the other, and has got them to end and be interrupted alike; it has
      only got less far, or further. With every guess `not taken`, the second run is
      the machine without a predictor. */
  lemma PredictionIsInvisible(states: seq<Regs>, events: seq<Event>, others: seq<Regs>, otherEvents: seq<Event>,
                              code: Code, cs: nat, j: nat, k: nat, eff: Effect)
    requires IsRun(states, events, code, cs) && j <= |events|
    requires IsRun(others, otherEvents, code, cs) && k <= |otherEvents|
    requires Obeys(Outcomes(History(states, events, code, j)), eff)
    requires Obeys(Outcomes(History(others, otherEvents, code, k)), eff)
    ensures var a, b := History(states, events, code, j), History(others, otherEvents, code, k);
      Settled(a) <= b || Settled(b) <= a
  {
    hide Inv, Outcomes, Settled, Obeys, FollowAll, Step, EventOk, Logged;
    TakesOnlyTheProgram(states, events, code, cs, j);
    TakesOnlyTheProgram(others, otherEvents, code, cs, k);
    var a, b := History(states, events, code, j), History(others, otherEvents, code, k);
    if |Outcomes(a)| <= |Outcomes(b)| {
      LongerHistory(At(cs, 0), a, b, eff);
    } else {
      LongerHistory(At(cs, 0), b, a, eff);
    }
  }

  lemma LinearWraps(cs: nat, ip: nat, n: nat)
    requires ip < IP && n < IP
    ensures Linear(cs, ip + n) == Linear(cs, Bump(ip, n)) <==> ip + n < IP
  {
    var a := cs * 16 + ip + n;
    if ip + n >= IP {
      assert Bump(ip, n) == ip + n - IP;
      assert a % SPACE != (a - IP) % SPACE;
    }
  }

  /** The assumption about segment ends is needed: the queue runs on in linear
      addresses where IP wraps. Straight-line fetch is right exactly when IP
      does not. */
  lemma StraightOnExactly(r: Regs, code: Code, target: nat)
    requires r.phase == FetchOp && r.front == Linear(r.cs, r.ipNext)
    requires r.ipNext < IP && 0 < code(r.front).len < IP
    ensures var n := Step(r, Whole(false, target), code);
      n.front == Linear(n.cs, n.ipNext) <==> r.ipNext + code(r.front).len < IP
  {
    hide Linear, Bump;
    LinearWraps(r.cs, r.ipNext, code(r.front).len);
    LinearMoves(r.cs, r.ipNext, code(r.front).len);
  }

  /** Segments start every sixteen bytes, and the first at zero. */
  lemma SegmentsOverlap(cs: nat, ip: nat)
    ensures Linear(cs + 1, ip) == Linear(cs, ip + 16)
    ensures ip < SPACE ==> Linear(0, ip) == ip
  {
  }

  /** While an instruction is in hand the next IP is the one behind it. */
  predicate Sized(r: Regs) {
    && (r.phase in {Preparing, Working} ==> r.ipNext == Bump(r.startIp, r.insn.len))
    && (r.phase == Reading ==> r.ipNext == Bump(r.startIp, r.taken))
  }

  lemma BumpTwice(ip: nat, m: nat, n: nat)
    ensures Bump(Bump(ip, m), n) == Bump(ip, m + n)
  {
  }

  lemma SizedStep(r: Regs, e: Event, code: Code)
    requires Sized(r) && EventOk(r, e, code)
    ensures Sized(Step(r, e, code))
  {
    hide Linear, SpecOk, Bump, RelTarget;
    if e.Bytes? { BumpTwice(r.startIp, r.taken, e.n); }
  }

  lemma {:induction false} RunSized(states: seq<Regs>, events: seq<Event>, code: Code, cs: nat, k: nat)
    requires IsRun(states, events, code, cs) && k < |states|
    ensures Sized(states[k])
  {
    hide Step, Sized, EventOk;
    if k > 0 {
      RunSized(states, events, code, cs, k - 1);
      SizedStep(states[k - 1], events[k - 1], code);
    } else {
      assert Sized(Reset(cs)) by { ResetSized(cs); }
    }
  }

  lemma ResetSized(cs: nat)
    ensures Sized(Reset(cs))
  {
  }

  /** RELATIVE BRANCHES COUNT FROM THEIR OWN END, within the segment: a taken one
      leaves control at its address plus its length plus its distance, mod 64K. */
  lemma RelativeBranchesLand(states: seq<Regs>, events: seq<Event>, code: Code, cs: nat, k: nat)
    requires IsRun(states, events, code, cs) && k < |events|
    requires states[k].phase == Working && states[k].insn.kind != Other
    requires events[k].Resolve? && events[k].jump
    ensures var r := states[k];
      Logged(r, events[k], code) == Some(Ended(r.cs, (r.startIp + r.insn.len + r.insn.rel) % IP))
  {
    hide Step;
    RunSized(states, events, code, cs, k);
  }

  /** BACK ON THE PATH AT ONCE. Two clocks after an instruction retires, however the
      guess turned out, the next has been captured or the fetch stands at its address. */
  lemma Rejoins(r: Regs, e: Event, later: Event, code: Code, a: Arch)
    requires r.phase == Retire && Inv(r, a) && EventOk(r, e, code)
    ensures var n := Step(r, e, code); var m := Step(n, later, code);
      || (n.phase == Preparing && Logged(r, e, code) == Some(Took(a.cs, a.ip, Linear(a.cs, a.ip))))
      || (n.phase == FetchOp && a == At(n.cs, n.ipNext) && n.front == Linear(a.cs, a.ip))
      || (n.phase == Redirect && m.phase == FetchOp && a == At(m.cs, m.ipNext) && m.front == Linear(a.cs, a.ip))
  {
    hide Linear, Bump;
  }

  // ---- the registers themselves ---------------------------------------------

  class FetchControl {
    var phase: Phase
    var cs: nat
    var ipNext: nat
    var startIp: nat
    var insn: Insn
    var begun: nat
    var taken: nat
    var doJump: bool
    var jumpTarget: nat
    var specTaken: bool
    var specTarget: nat
    var earlyFetch: bool
    var front: nat

    ghost function View(): Regs
      reads this
    {
      Regs(phase, cs, ipNext, startIp, insn, begun, taken, doJump, jumpTarget,
           specTaken, specTarget, earlyFetch, front)
    }

    constructor (segment: nat)
      ensures View() == Reset(segment)
    {
      phase, cs, ipNext, startIp, insn := FetchOp, segment, 0, 0, Insn(Other, 1, 0);
      begun, taken, doJump, jumpTarget := 0, 0, false, 0;
      specTaken, specTarget, earlyFetch, front := false, 0, false, Linear(segment, 0);
    }

    /** START_INSTR; the predicted target goes to the BIU in the same clock. */
    method StartInstr(code: Code, bpTaken: bool, bpTarget: nat)
      modifies `phase, `startIp, `ipNext, `insn, `begun, `doJump, `specTaken, `specTarget, `front
      ensures View() == Capture(old(View()), code, bpTaken, bpTarget)
    {
      hide Linear, Bump;
      insn := code(front);
      startIp, begun := ipNext, front;
      ipNext := Bump(ipNext, insn.len);
      doJump, specTaken, specTarget := false, bpTaken, bpTarget;
      front := if bpTaken then Linear(cs, bpTarget) else (front + insn.len) % SPACE;
      phase := Preparing;
    }

    method TakeBytes(n: nat)
      modifies `taken, `ipNext, `front, `phase
      ensures View() == Consume(old(View()), n)
    {
      hide Bump;
      taken, ipNext, front := taken + n, Bump(ipNext, n), (front + n) % SPACE;
      phase := if taken == insn.len then Preparing else Reading;
    }

    method TickFetchOp(e: Event, code: Code)
      modifies this
      ensures View() == StepFetchOp(old(View()), e, code)
    {
      hide Capture, Consume;
      doJump, specTaken := false, false;
      match e {
        case Whole(bpTaken, bpTarget) => StartInstr(code, bpTaken, bpTarget);
        case Bytes(n) =>
          startIp, insn, begun, taken := ipNext, code(front), front, 0;
          TakeBytes(n);
        case Interrupt(n) => phase, front := Serving, (front + n) % SPACE;
        case _ =>
      }
    }

    /** Judge the prediction, and start the next instruction if the queue is on
        its path. */
    method TickRetire(e: Event, code: Code)
      modifies this
      ensures View() == StepRetire(old(View()), e, code)
    {
      hide Capture;
      if specTaken && doJump && insn.kind == Conditional && specTarget == jumpTarget {
        specTaken, earlyFetch, ipNext, phase := false, false, jumpTarget, FetchOp;
      } else if specTaken && !doJump {
        specTaken, jumpTarget, phase := false, ipNext, Redirect;
      } else if e.Whole? && !doJump && !specTaken {
        StartInstr(code, e.bpTaken, e.bpTarget);
      } else {
        specTaken := false;
        phase := if doJump then Redirect else FetchOp;
      }
    }

    method TickRedirect()
      modifies `front, `earlyFetch, `ipNext, `phase
      ensures View() == StepRedirect(old(View()))
    {
      if !earlyFetch { front := Linear(cs, jumpTarget); }
      earlyFetch, ipNext, phase := false, jumpTarget, FetchOp;
    }

    method TickPrepare()
      modifies `front, `earlyFetch, `phase
      ensures View() == StepPrepare(old(View()))
    {
      hide Linear, Bump;
      phase := Working;
      if insn.kind == EarlyJump {
        front, earlyFetch := Linear(cs, Bump(ipNext, insn.rel)), true;
      }
    }

    method TickWork(e: Event)
      requires phase == Working || phase == Serving
      modifies `phase, `cs, `doJump, `jumpTarget
      ensures forall code :: View() == Step(old(View()), e, code)
    {
      if e.Resolve? && phase == Working {
        phase, cs, doJump := Retire, e.cs, e.jump;
        if e.jump { jumpTarget := e.target; }
      } else if e.Depart? {
        phase, cs, doJump, jumpTarget := Redirect, e.cs, true, e.target;
      }
    }

    method Tick(e: Event, code: Code)
      modifies this
      ensures View() == Step(old(View()), e, code)
    {
      hide StepFetchOp, StepRetire, StepRedirect, StepPrepare, Consume;
      match phase {
        case FetchOp => TickFetchOp(e, code);
        case Reading => if e.Bytes? { TakeBytes(e.n); }
        case Preparing => if e.Prepare? { TickPrepare(); }
        case Retire => TickRetire(e, code);
        case Redirect => TickRedirect();
        case _ => TickWork(e);
      }
    }
  }
}