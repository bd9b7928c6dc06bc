/** modules/memory_controller.sv, the SDRAM half: any number of requesters, the
    arbiter, the controller and the chip. To each requester it is a flat memory
    of 16-bit words that answers in bounded time. */
module SdramSystem {
  import opened Machine
  import A = SdramArbiter
  import opened SdramController
  import opened Sdram
  import opened SdramTiming

  datatype Access = ReadOf(word: nat) | WriteOf(word: nat, data: Word, be: Lanes)

  /** What a completed request means: wr wins if both are up. */
  function AccessOf(q: Request): Access {
    if q.wr then WriteOf(q.addr / 2, q.wdata, q.be) else ReadOf(q.addr / 2)
  }

  /** `last` is what the requesters drove one clock ago; `issued` and `done` are
      the column commands the chip has seen and the requests answered. */
  datatype Sys = Sys(arb: A.Regs, ctl: Regs, chip: Chip, last: seq<Request>,
                     issued: seq<Access>, done: seq<Access>)

  /** One clock of everything outside: the request ports, and what the data
      pins float to while nothing drives them. */
  datatype Env = Env(reqs: seq<Request>, floating: Word)

  datatype Config = Config(ports: nat, refreshCycles: nat, initCycles: nat)

  predicate Asks(q: Request) { q.rd || q.wr }

  function Asking(reqs: seq<Request>): (a: seq<bool>)
    ensures |a| == |reqs|
    ensures forall p :: 0 <= p < |a| ==> a[p] == Asks(reqs[p])
  {
    seq(|reqs|, p requires 0 <= p < |reqs| => Asks(reqs[p]))
  }

  predicate Shape(s: Sys, n: nat) {
    && A.Shape(s.arb, n) && |s.last| == n
    && (forall p :: 0 <= p < n ==> RequestOk(s.last[p]))
  }

  /** The requesters' contract: hold a request until it is answered. */
  predicate EnvOk(s: Sys, e: Env, n: nat)
    requires Shape(s, n)
  {
    && |e.reqs| == n
    && (forall p :: 0 <= p < n ==> RequestOk(e.reqs[p]))
    && (forall p :: 0 <= p < n && Asks(s.last[p]) && !s.arb.served[p] ==> e.reqs[p] == s.last[p])
  }

  /** What the arbiter puts on the controller's port this clock. */
  function Offered(s: Sys, e: Env, n: nat): Request
    requires Shape(s, n) && |e.reqs| == n
  {
    match A.Selected(s.arb, Asking(e.reqs))
    case None => e.reqs[0].(rd := false, wr := false)
    case Some(p) =>
      e.reqs[p].(rd := e.reqs[p].rd && !s.arb.served[p], wr := e.reqs[p].wr && !s.arb.served[p])
  }

  /** The port that sees its `ready` this clock. */
  function Answers(s: Sys, e: Env, n: nat): (p: Option<nat>)
    requires Shape(s, n) && |e.reqs| == n
    ensures p.Some? ==> p.value < n
  {
    A.Completes(s.arb, Asking(e.reqs), s.ctl.ready)
  }

  /** The column command on the chip's pins this clock. */
  function Seen(s: Sys): Option<Access> {
    if !Reaches(s.chip, s.ctl) then None
    else if s.ctl.cmd == ReadCol then Some(ReadOf(Cell(s.chip, s.ctl)))
    else if s.ctl.cmd == WriteCol then
      Some(WriteOf(Cell(s.chip, s.ctl), s.ctl.dqOut, Lanes(!s.ctl.dqm.lo, !s.ctl.dqm.hi)))
    else None
  }

  function Pins(c: Chip, floating: Word): Word { if c.out.Some? then c.out.value else floating }

  function Append(log: seq<Access>, a: Option<Access>): seq<Access> {
    if a.Some? then log + [a.value] else log
  }

  function SysStep(s: Sys, e: Env, cfg: Config): Sys
    requires Shape(s, cfg.ports) && |e.reqs| == cfg.ports
  {
    var n := cfg.ports;
    var chip := ChipStep(s.chip, s.ctl);
    var answered := Answers(s, e, n);
    Sys(A.Step(s.arb, Asking(e.reqs), s.ctl.ready),
        Step(s.ctl, Offered(s, e, n), Pins(chip, e.floating), cfg.refreshCycles),
        chip, e.reqs,
        Append(s.issued, Seen(s)),
        Append(s.done, if answered.Some? then Some(AccessOf(e.reqs[answered.value])) else None))
  }

  function Init(mem: Mem, cfg: Config): Sys
    requires cfg.ports > 0
  {
    var idle := Request(false, false, 0, ZERO, BOTH);
    Sys(A.Reset(cfg.ports), Reset(cfg.initCycles), PowerUp(mem), seq(cfg.ports, _ => idle), [], [])
  }

  // ---- the invariant ------------------------------------------------------

  /** The request the arbiter is holding on the controller's port. */
  function Held(s: Sys): Request
    requires s.arb.cur < |s.last|
  {
    if s.arb.active then s.last[s.arb.cur] else s.last[s.arb.cur].(rd := false, wr := false)
  }

  /** The chip has been told to read, and the requester not yet answered. */
  predicate Reading(r: Regs) {
    (r.state == ReadW && r.delay < CAS_LATENCY) || (r.state == Recover && !r.isWrite)
  }

  ghost predicate Inv(s: Sys, cfg: Config) {
    && Shape(s, cfg.ports)
    && InStep(s.ctl, s.chip, Held(s), cfg.initCycles)
    && (Serving(s.ctl) ==> s.arb.active)
    && (s.arb.active ==> Asks(s.last[s.arb.cur]) && !s.arb.served[s.arb.cur])
    && s.issued == if Reading(s.ctl) then s.done + [AccessOf(Held(s))] else s.done
  }

  lemma InitInv(mem: Mem, cfg: Config)
    requires cfg.ports > 0
    ensures Inv(Init(mem, cfg), cfg)
  {
  }

  lemma IdleServesNobody(r: Regs, c: Chip, q: Request, other: Request, initCycles: nat)
    requires InStep(r, c, q, initCycles) && !Serving(r)
    ensures InStep(r, c, other, initCycles)
  {
  }

  /** The arbiter's side of one clock. */
  lemma GrantStep(s: Sys, e: Env, cfg: Config)
    requires Inv(s, cfg) && EnvOk(s, e, cfg.ports)
    ensures Serving(s.ctl) ==> Offered(s, e, cfg.ports) == Held(s)
    ensures var t := SysStep(s, e, cfg);
      && (t.arb.active ==> Asks(t.last[t.arb.cur]) && !t.arb.served[t.arb.cur]
                           && Offered(s, e, cfg.ports) == Held(t))
    ensures Asks(Offered(s, e, cfg.ports)) && !s.ctl.ready ==> SysStep(s, e, cfg).arb.active
    ensures Asks(Offered(s, e, cfg.ports)) ==> A.Selected(s.arb, Asking(e.reqs)).Some?
    ensures s.arb.active && !s.ctl.ready ==> SysStep(s, e, cfg).arb.active
  {
    hide InStep, Step, ChipStep, Seen;
  }

  lemma ServingFrom(r: Regs, c: Chip, q: Request, next: Request, dq: Word, refreshCycles: nat, initCycles: nat)
    requires Tracks(r, c, q, initCycles) && Latched(r, q)
    ensures var n := Step(r, next, dq, refreshCycles);
      && (Serving(n) ==> !r.ready && (Serving(r) || Asks(next)))
      && (Reading(n) <==> (Reading(r) && !r.ready) || r.cmd == ReadCol)
    ensures r.ready ==> r.state == Recover && r.cmd != ReadCol
    ensures Reading(r) || r.cmd == ReadCol ==> Serving(r)
  {
    hide RowOf, ColOf;
  }

  lemma StayInStep(s: Sys, e: Env, cfg: Config)
    requires Inv(s, cfg) && EnvOk(s, e, cfg.ports)
    ensures var t := SysStep(s, e, cfg);
      && InStep(t.ctl, t.chip, Held(t), cfg.initCycles)
      && (Serving(t.ctl) ==> t.arb.active)
      && Legal(t.chip, t.ctl, cfg.initCycles)
  {
    hide Tracks, Latched, Legal, Step, ChipStep, A.Step, Seen, Serving, A.Selected, A.Completes, Offered, Held;
    var t := SysStep(s, e, cfg);
    var q, dq := Offered(s, e, cfg.ports), Pins(t.chip, e.floating);
    OfferedOk(s, e, cfg.ports);
    GrantStep(s, e, cfg);
    ServingFrom(s.ctl, t.chip, Held(s), q, dq, cfg.refreshCycles, cfg.initCycles);
    StaysInStep(s.ctl, t.chip, Held(s), q, dq, cfg.refreshCycles, cfg.initCycles);
    if !t.arb.active {
      IdleServesNobody(t.ctl, t.chip, q, Held(t), cfg.initCycles);
    }
  }

  lemma OfferedOk(s: Sys, e: Env, n: nat)
    requires Shape(s, n) && EnvOk(s, e, n)
    ensures RequestOk(Offered(s, e, n))
  {
  }

  /** The port that is told `ready` is the one whose request is being held. */
  lemma AnswersHeld(s: Sys, e: Env, cfg: Config)
    requires Inv(s, cfg) && EnvOk(s, e, cfg.ports)
    ensures s.ctl.ready <==> Answers(s, e, cfg.ports).Some?
    ensures s.ctl.ready ==> Answers(s, e, cfg.ports) == Some(s.arb.cur) && e.reqs[s.arb.cur] == Held(s)
    ensures s.ctl.ready ==> Asks(Held(s)) && s.arb.active
  {
    hide Step, ChipStep, Legal, Waiting, Returning, Up;
  }

  /** What the chip sees is what that port asked for. */
  lemma SeenIsHeld(s: Sys, cfg: Config)
    requires Inv(s, cfg)
    ensures Seen(s) == if s.ctl.cmd == ReadCol || (s.ctl.ready && Held(s).wr) then Some(AccessOf(Held(s))) else None
    ensures s.ctl.ready ==> (Reading(s.ctl) <==> !Held(s).wr)
    ensures Reading(s.ctl) ==> s.ctl.cmd != ReadCol
  {
    hide Step, Waiting, Returning;
    if s.arb.active { CellOfRequest(Held(s)); }
  }

  lemma InvStep(s: Sys, e: Env, cfg: Config)
    requires Inv(s, cfg) && EnvOk(s, e, cfg.ports)
    ensures Inv(SysStep(s, e, cfg), cfg)
  {
    hide InStep, Step, ChipStep, Seen, Serving, A.Selected, A.Completes, Held, Reading;
    StayInStep(s, e, cfg);
    GrantStep(s, e, cfg);
    LogStep(s, e, cfg);
  }

  lemma LogStep(s: Sys, e: Env, cfg: Config)
    requires Inv(s, cfg) && EnvOk(s, e, cfg.ports)
    ensures var t := SysStep(s, e, cfg);
      t.issued == if Reading(t.ctl) then t.done + [AccessOf(Held(t))] else t.done
  {
    hide Legal, Latched, Tracks, Step, ChipStep, Seen, A.Selected, A.Completes, A.Step, Offered, AccessOf, Reading;
    var t := SysStep(s, e, cfg);
    var q, dq := Offered(s, e, cfg.ports), Pins(t.chip, e.floating);
    AnswersHeld(s, e, cfg);
    SeenIsHeld(s, cfg);
    GrantStep(s, e, cfg);
    ServingFrom(s.ctl, t.chip, Held(s), q, dq, cfg.refreshCycles, cfg.initCycles);
  }

  // ---- whole runs ---------------------------------------------------------

  /** Any schedule of the requesters, from power-up. */
  ghost predicate IsRun(states: seq<Sys>, envs: seq<Env>, mem: Mem, cfg: Config) {
    && cfg.ports > 0
    && |states| == |envs| + 1
    && states[0] == Init(mem, cfg)
    && (forall k :: 0 <= k < |states| ==> Shape(states[k], cfg.ports))
    && (forall k :: 0 <= k < |envs| ==>
          EnvOk(states[k], envs[k], cfg.ports) && states[k + 1] == SysStep(states[k], envs[k], cfg))
  }

  lemma {:induction false} RunInv(states: seq<Sys>, envs: seq<Env>, mem: Mem, cfg: Config, k: nat)
    requires IsRun(states, envs, mem, cfg) && k < |states|
    ensures Inv(states[k], cfg)
  {
    if k == 0 {
      InitInv(mem, cfg);
    } else {
      RunInv(states, envs, mem, cfg, k - 1);
      InvStep(states[k - 1], envs[k - 1], cfg);
    }
  }

  /** A flat memory after a list of accesses, in order. */
  function Replay(mem: Mem, log: seq<Access>): Mem {
    if log == [] then mem
    else
      var was := Replay(mem, log[..|log| - 1]);
      match log[|log| - 1]
      case ReadOf(_) => was
      case WriteOf(w, data, be) => if w < WORDS then was[w := Merge(was[w], data, be)] else was
  }

  /** One clock, by what it completes: a read carries its word, a write has
      reached the array, and nothing else changes the array. */
  lemma AnswerStep(s: Sys, e: Env, cfg: Config)
    requires Inv(s, cfg) && EnvOk(s, e, cfg.ports)
    ensures var t := SysStep(s, e, cfg);
      match Answers(s, e, cfg.ports) {
        case None => t.chip.mem == s.chip.mem && t.done == s.done
        case Some(p) =>
          var q := e.reqs[p];
          && Asks(q) && RequestOk(q)
          && t.done == s.done + [AccessOf(q)]
          && (if q.wr then t.chip.mem == Stored(s.chip.mem, q)
              else t.chip.mem == s.chip.mem && s.ctl.rdata == s.chip.mem[q.addr / 2])
      }
  {
    hide Step, ChipStep, Seen, A.Step, Offered, InStep;
    AnswersHeld(s, e, cfg);
    Answered(s.ctl, s.chip, Held(s), cfg.initCycles);
  }

  lemma ReplayAppend(mem: Mem, log: seq<Access>, q: Request)
    requires RequestOk(q)
    ensures Replay(mem, log + [AccessOf(q)])
      == if q.wr then Stored(Replay(mem, log), q) else Replay(mem, log)
  {
    assert (log + [AccessOf(q)])[..|log|] == log;
  }

  lemma ArrayStep(s: Sys, e: Env, mem: Mem, cfg: Config)
    requires Inv(s, cfg) && EnvOk(s, e, cfg.ports) && s.chip.mem == Replay(mem, s.done)
    ensures var t := SysStep(s, e, cfg); t.chip.mem == Replay(mem, t.done)
  {
    hide SysStep, Inv, EnvOk, Answers, Asks, Replay, Stored, AccessOf, RequestOk;
    ShapeOfInv(s, e, cfg);
    AnswerStep(s, e, cfg);
    match Answers(s, e, cfg.ports) {
      case None =>
      case Some(p) => ReplayAppend(mem, s.done, e.reqs[p]);
    }
  }

  lemma ShapeOfInv(s: Sys, e: Env, cfg: Config)
    requires Inv(s, cfg) && EnvOk(s, e, cfg.ports)
    ensures Shape(s, cfg.ports) && |e.reqs| == cfg.ports
  {
  }

  lemma {:induction false} ArrayIsReplay(states: seq<Sys>, envs: seq<Env>, mem: Mem, cfg: Config, k: nat)
    requires IsRun(states, envs, mem, cfg) && k < |states|
    ensures states[k].chip.mem == Replay(mem, states[k].done)
  {
    if k > 0 {
      ArrayIsReplay(states, envs, mem, cfg, k - 1);
      RunInv(states, envs, mem, cfg, k - 1);
      ArrayStep(states[k - 1], envs[k - 1], mem, cfg);
    }
  }

  /** FLAT MEMORY. Whoever asks, and however the requests interleave, a read is
      answered with what the writes answered before it left in that word. */
  lemma ReadsSeeCompletedWrites(states: seq<Sys>, envs: seq<Env>, mem: Mem, cfg: Config, k: nat, p: nat)
    requires IsRun(states, envs, mem, cfg) && k < |envs|
    requires Answers(states[k], envs[k], cfg.ports) == Some(p)
    ensures var q := envs[k].reqs[p];
      && Asks(q)
      && states[k + 1].done == states[k].done + [AccessOf(q)]
      && (!q.wr ==> states[k].ctl.rdata == Replay(mem, states[k].done)[q.addr / 2])
  {
    hide SysStep, Inv, Answers, Asks;
    RunInv(states, envs, mem, cfg, k);
    ArrayIsReplay(states, envs, mem, cfg, k);
    AnswerStep(states[k], envs[k], cfg);
  }

  /** ONE ACCESS PER REQUEST. The column commands the chip has seen are exactly
      the requests answered, in order, and at most the read under way. */
  lemma OneCommandPerRequest(states: seq<Sys>, envs: seq<Env>, mem: Mem, cfg: Config, k: nat)
    requires IsRun(states, envs, mem, cfg) && k < |states|
    ensures var s := states[k];
      s.issued == s.done || (s.arb.active && s.issued == s.done + [AccessOf(s.last[s.arb.cur])])
  {
    RunInv(states, envs, mem, cfg, k);
  }

  /** LEGAL COMMANDS ONLY: column commands hit the open row, rows open only when
      closed, refresh finds no row open, initialisation comes first. */
  lemma CommandsAlwaysLegal(states: seq<Sys>, envs: seq<Env>, mem: Mem, cfg: Config, k: nat)
    requires IsRun(states, envs, mem, cfg) && k < |states|
    ensures Legal(states[k].chip, states[k].ctl, cfg.initCycles)
  {
    RunInv(states, envs, mem, cfg, k);
  }

  // ---- refresh ------------------------------------------------------------

  predicate OnTimeNow(s: Sys, cfg: Config) { OnTime(s.ctl, ChipStep(s.chip, s.ctl), cfg.refreshCycles) }

  lemma {:induction false} RunOnTime(states: seq<Sys>, envs: seq<Env>, mem: Mem, cfg: Config, k: nat)
    requires IsRun(states, envs, mem, cfg) && k < |states| && cfg.refreshCycles >= 3
    ensures OnTimeNow(states[k], cfg)
  {
    hide Tracks, Legal, Latched, Step, ChipStep, A.Step, Offered, NextOnTime;
    if k == 0 {
      StartsOnTime(mem, cfg);
    } else {
      var s, e := states[k - 1], envs[k - 1];
      RunOnTime(states, envs, mem, cfg, k - 1);
      RunInv(states, envs, mem, cfg, k - 1);
      var chip := ChipStep(s.chip, s.ctl);
      var q, dq := Offered(s, e, cfg.ports), Pins(chip, e.floating);
      OnTimeStep(s.ctl, chip, Held(s), q, dq, cfg.refreshCycles, cfg.initCycles);
      UnfoldNextOnTime(s.ctl, chip, q, dq, cfg.refreshCycles);
    }
  }

  lemma UnfoldNextOnTime(r: Regs, c: Chip, q: Request, dq: Word, refreshCycles: nat)
    requires NextOnTime(r, c, q, dq, refreshCycles)
    ensures var n := Step(r, q, dq, refreshCycles); OnTime(n, ChipStep(c, n), refreshCycles)
  {
  }

  lemma StartsOnTime(mem: Mem, cfg: Config)
    requires cfg.ports > 0
    ensures OnTimeNow(Init(mem, cfg), cfg)
  {
  }

  /** THE DEADLINE, whatever the requesters do: once refreshing has begun, the
      chip is never more than the interval plus one access away from the last. */
  lemma RefreshNeverLate(states: seq<Sys>, envs: seq<Env>, mem: Mem, cfg: Config, k: nat)
    requires IsRun(states, envs, mem, cfg) && 0 < k < |states| && cfg.refreshCycles >= 3
    ensures states[k].chip.refreshes > 0 ==> states[k].chip.sinceRefresh <= cfg.refreshCycles + OVERRUN
  {
    hide OnTime, Step, ChipStep;
    RunOnTime(states, envs, mem, cfg, k - 1);
    if states[k].chip.refreshes > 0 {
      NeverLate(states[k - 1].ctl, states[k].chip, cfg.refreshCycles);
    }
  }

  /** How many refreshes any stretch of a run holds. */
  lemma {:induction false} RefreshRate(states: seq<Sys>, envs: seq<Env>, mem: Mem, cfg: Config, lo: nat, hi: nat)
    requires IsRun(states, envs, mem, cfg) && 0 < lo <= hi < |states|
    requires cfg.refreshCycles >= 3 && states[lo].chip.refreshes > 0
    ensures states[hi].chip.refreshes >= states[lo].chip.refreshes
    ensures (states[hi].chip.refreshes - states[lo].chip.refreshes) * (cfg.refreshCycles + OVERRUN)
              + states[hi].chip.sinceRefresh
            >= states[lo].chip.sinceRefresh + (hi - lo)
    decreases hi
  {
    hide Shape, EnvOk, Step, A.Step, Offered, Seen, AccessOf;
    if lo < hi {
      RefreshRate(states, envs, mem, cfg, lo, hi - 1);
      RefreshNeverLate(states, envs, mem, cfg, hi - 1);
      var s, t := states[hi - 1], states[hi];
      assert t.chip == ChipStep(s.chip, s.ctl);
      if s.ctl.cmd == AutoRefresh {
        var gap := cfg.refreshCycles + OVERRUN;
        assert (t.chip.refreshes - states[lo].chip.refreshes) * gap
            == (s.chip.refreshes - states[lo].chip.refreshes) * gap + gap;
      }
    }
  }

  /** The top level's settings: 7 us at 25 MHz and at 40 MHz. In any 64 ms the
      chip gets its 8192 refreshes. */
  lemma EveryWindowIsRefreshed(states: seq<Sys>, envs: seq<Env>, mem: Mem, cfg: Config, lo: nat, hi: nat, mhz: nat)
    requires IsRun(states, envs, mem, cfg) && 0 < lo <= hi < |states|
    requires mhz == 25 || mhz == 40
    requires cfg.refreshCycles == mhz * 7 && states[lo].chip.refreshes > 0
    requires hi - lo >= 64_000 * mhz
    ensures states[hi].chip.refreshes - states[lo].chip.refreshes >= 8192
  {
    hide IsRun, Shape;
    RefreshRate(states, envs, mem, cfg, lo, hi);
    RefreshNeverLate(states, envs, mem, cfg, hi);
  }

  // ---- response -----------------------------------------------------------

  ghost function ArbStates(states: seq<Sys>): seq<A.Regs> {
    seq(|states|, k requires 0 <= k < |states| => states[k].arb)
  }

  ghost function ArbClocks(states: seq<Sys>, envs: seq<Env>): seq<A.Clock>
    requires |states| >= |envs|
  {
    seq(|envs|, k requires 0 <= k < |envs| => A.Clock(Asking(envs[k].reqs), states[k].ctl.ready))
  }

  /** From clock `from` of a run to its end port `p` asks and is not answered. */
  ghost predicate Waits(states: seq<Sys>, envs: seq<Env>, cfg: Config, p: nat) {
    && p < cfg.ports && |states| == |envs| + 1
    && (forall k :: 0 <= k < |states| ==> Inv(states[k], cfg))
    && (forall k :: 0 <= k < |envs| ==>
          EnvOk(states[k], envs[k], cfg.ports) && states[k + 1] == SysStep(states[k], envs[k], cfg))
    && !states[0].arb.served[p]
    && (forall k :: 0 <= k < |envs| ==>
          Asks(envs[k].reqs[p]) && Answers(states[k], envs[k], cfg.ports) != Some(p))
  }

  /** The longest the controller can take over one turn of another port. */
  const TURN: nat := 24

  lemma {:induction false} WaitBudget(states: seq<Sys>, envs: seq<Env>, cfg: Config, p: nat, k: nat)
    requires Waits(states, envs, cfg, p) && cfg.refreshCycles >= 10 && k <= |envs|
    requires A.IsRun(ArbStates(states), ArbClocks(states, envs), cfg.ports)
    ensures !states[k].arb.served[p]
    ensures k + ToReady(states[k].ctl, cfg.refreshCycles)
      <= ToReady(states[0].ctl, cfg.refreshCycles)
           + TURN * A.TurnsTaken(ArbStates(states), ArbClocks(states, envs), cfg.ports, k)
  {
    hide InStep, Tracks, Legal, Latched, Step, ChipStep, Offered, Held, ToReady, A.Step, A.Completes, A.Selected;
    if k > 0 {
      WaitBudget(states, envs, cfg, p, k - 1);
      WaitStep(states[k - 1], envs[k - 1], cfg, p);
    }
  }

  lemma WaitStep(s: Sys, e: Env, cfg: Config, p: nat)
    requires Inv(s, cfg) && EnvOk(s, e, cfg.ports) && p < cfg.ports && cfg.refreshCycles >= 10
    requires Asks(e.reqs[p]) && !s.arb.served[p] && Answers(s, e, cfg.ports) != Some(p)
    ensures var t := SysStep(s, e, cfg);
      && !t.arb.served[p]
      && ToReady(t.ctl, cfg.refreshCycles) + 1
           <= if Answers(s, e, cfg.ports).Some? then TURN else ToReady(s.ctl, cfg.refreshCycles)
  {
    hide Tracks, Legal, Latched, Step, ChipStep, Held, ToReady;
    var chip := ChipStep(s.chip, s.ctl);
    var q, dq := Offered(s, e, cfg.ports), Pins(chip, e.floating);
    AnswersHeld(s, e, cfg);
    SomebodyOffered(s, e, cfg, p);
    if s.ctl.ready {
      AfterReady(s.ctl, chip, Held(s), q, dq, cfg.refreshCycles, cfg.initCycles);
    } else {
      CloserToReady(s.ctl, chip, Held(s), q, dq, cfg.refreshCycles, cfg.initCycles);
    }
  }

  lemma SomebodyOffered(s: Sys, e: Env, cfg: Config, p: nat)
    requires Inv(s, cfg) && EnvOk(s, e, cfg.ports) && p < cfg.ports
    requires Asks(e.reqs[p]) && !s.arb.served[p]
    ensures Asks(Offered(s, e, cfg.ports))
  {
    hide InStep;
    A.ScanFindsNearest(s.arb, Asking(e.reqs), 0, p);
  }

  lemma ArbiterRuns(states: seq<Sys>, envs: seq<Env>, cfg: Config, p: nat)
    requires Waits(states, envs, cfg, p)
    ensures A.IsRun(ArbStates(states), ArbClocks(states, envs), cfg.ports)
    ensures A.Waits(ArbStates(states), ArbClocks(states, envs), cfg.ports, p)
  {
    hide InStep, Step, ChipStep, Offered, Held, A.Step, A.Completes, A.Selected, Seen;
  }

  /** BOUNDED RESPONSE. A port that keeps asking is answered within one access
      of its own and one turn of each other port, refreshes included. */
  lemma AnsweredInTime(states: seq<Sys>, envs: seq<Env>, cfg: Config, p: nat)
    requires Waits(states, envs, cfg, p) && cfg.refreshCycles >= 10
    ensures |envs| <= ToReady(states[0].ctl, cfg.refreshCycles) + TURN * (cfg.ports - 1)
  {
    hide Inv, EnvOk, SysStep, ToReady;
    ArbiterRuns(states, envs, cfg, p);
    A.AtMostOneTurnEach(ArbStates(states), ArbClocks(states, envs), cfg.ports, p);
    WaitBudget(states, envs, cfg, p, |envs|);
  }

  /** ... and ten clocks between refreshes are just what that takes: with fewer, no
      run from power-up ever answers anything. */
  lemma {:induction false} NothingAnsweredBelowTen(states: seq<Sys>, envs: seq<Env>, mem: Mem, cfg: Config, k: nat)
    requires IsRun(states, envs, mem, cfg) && k < |states| && cfg.refreshCycles < 10
    ensures Starving(states[k].ctl, cfg.refreshCycles) && !states[k].ctl.ready && states[k].done == []
  {
    hide EnvOk, Step, ChipStep, Offered, A.Step, Seen, Append;
    if k > 0 {
      NothingAnsweredBelowTen(states, envs, mem, cfg, k - 1);
      var s, e := states[k - 1], envs[k - 1];
      NoReadyNoAnswer(s, e, cfg);
      StarvesBelowTen(s.ctl, Offered(s, e, cfg.ports), Pins(ChipStep(s.chip, s.ctl), e.floating), cfg.refreshCycles);
    }
  }

  lemma NoReadyNoAnswer(s: Sys, e: Env, cfg: Config)
    requires Shape(s, cfg.ports) && EnvOk(s, e, cfg.ports) && !s.ctl.ready
    ensures |e.reqs| == cfg.ports
    ensures Answers(s, e, cfg.ports).None? && SysStep(s, e, cfg).done == s.done
  {
    hide Step, ChipStep, Offered, A.Step, Seen;
  }

  /** After initialisation no controller state is more than 30 clocks away from
      its answer, so three ports wait at most 78. */
  lemma ThreePortsWaitAtMost78(states: seq<Sys>, envs: seq<Env>, cfg: Config, p: nat)
    requires Waits(states, envs, cfg, p) && cfg.refreshCycles >= 10 && cfg.ports == 3
    requires states[0].chip.mode.Some?
    ensures |envs| <= 78
  {
    hide SysStep, EnvOk, Legal;
    AnsweredInTime(states, envs, cfg, p);
    UpIsNear(states[0].ctl, ChipStep(states[0].chip, states[0].ctl), Held(states[0]), cfg);
  }

  lemma UpIsNear(r: Regs, c: Chip, q: Request, cfg: Config)
    requires Tracks(r, c, q, cfg.initCycles) && c.mode.Some?
    ensures ToReady(r, cfg.refreshCycles) <= 30
  {
  }
}
