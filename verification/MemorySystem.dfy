/** modules/memory_controller.sv: the CPU's cache on port 0 and two other
    masters on ports 1 and 2, all over one SDRAM. What the cache and the SDRAM
    side each take for granted about the other is shown to hold. */
module MemorySystem {
  import opened Machine
  import C = Cache
  import CM = CacheMemory
  import SC = SdramController
  import S = Sdram
  import SS = SdramSystem

  const PORTS: nat := 3

  /** The cache with the CPU in front of it, and the SDRAM behind. `cache.mem`
      stands for the CPU's share of the chip. */
  datatype Sys = Sys(cache: CM.Sys, sdram: SS.Sys)

  /** The CPU's side, the two other masters' requests, and floating data pins. */
  datatype Env = Env(quietAddr: nat, quietData: Word, quietBe: Lanes, next: Option<CM.Request>,
                     ext0: SC.Request, ext1: SC.Request, floating: Word)

  /** The bottom 1 MB of the chip. */
  function Low(mem: S.Mem): CM.Mem { mem[..C.CPU_WORDS] }

  ghost predicate Shape(s: Sys) { CM.SysShape(s.cache) && SS.Shape(s.sdram, PORTS) }

  /** The cache's request: it depends on the cache's registers alone. */
  function CachePort(r: C.Regs): SC.Request
    requires C.Shape(r)
  {
    match r.fsm
    case Idle => SC.Request(false, false, 0, ZERO, BOTH)
    case Fill => SC.Request(!r.gap, false, 2 * C.WordOf(r.fTag, r.fSet, r.fOff), ZERO, BOTH)
    case Drain =>
      var e := if |r.queue| > 0 then r.queue[0] else C.Entry(0, ZERO, BOTH);
      SC.Request(false, !r.gap, e.addr, e.data, e.be)
  }

  function ToSdram(s: Sys, e: Env): SS.Env
    requires Shape(s)
  {
    SS.Env([CachePort(s.cache.regs), e.ext0, e.ext1], e.floating)
  }

  function Answers(s: Sys, e: Env): (p: Option<nat>)
    requires Shape(s)
    ensures p.Some? ==> p.value < PORTS
  {
    SS.Answers(s.sdram, ToSdram(s, e), PORTS)
  }

  /** Taken from the requests, not the grant; with two writers, the lower address. */
  function SnoopAddr(e: Env): nat {
    if e.ext0.wr && (!e.ext1.wr || e.ext0.addr < e.ext1.addr) then e.ext0.addr else e.ext1.addr
  }

  function Lands(s: Sys, e: Env): Option<CM.Foreign>
    requires Shape(s)
  {
    match Answers(s, e)
    case None => None
    case Some(p) =>
      var q := ToSdram(s, e).reqs[p];
      if p > 0 && q.wr && q.addr < C.CPU_BYTES then Some(CM.Foreign(q.addr / 2, q.wdata, q.be)) else None
  }

  function ToCache(s: Sys, e: Env): CM.Env
    requires Shape(s)
  {
    CM.Env(e.quietAddr, e.quietData, e.quietBe, e.next,
           Answers(s, e) == Some(0), s.sdram.ctl.rdata,
           e.ext0.wr || e.ext1.wr, SnoopAddr(e), Lands(s, e))
  }

  /** The CPU stays below 1 MB, and the masters hold what they ask for. */
  predicate EnvOk(s: Sys, e: Env)
    requires Shape(s)
  {
    && e.quietAddr < C.CPU_BYTES && (e.next.Some? ==> CM.RequestOk(e.next.value))
    && SC.RequestOk(e.ext0) && SC.RequestOk(e.ext1)
    && (SS.Asks(s.sdram.last[1]) && !s.sdram.arb.served[1] ==> e.ext0 == s.sdram.last[1])
    && (SS.Asks(s.sdram.last[2]) && !s.sdram.arb.served[2] ==> e.ext1 == s.sdram.last[2])
  }

  function Init(mem: S.Mem, cfg: SS.Config): Sys
    requires cfg.ports == PORTS
  {
    Sys(CM.Init(Low(mem)), SS.Init(mem, cfg))
  }

  ghost predicate Inv(s: Sys, cfg: SS.Config) {
    && cfg.ports == PORTS
    && Shape(s) && SS.Inv(s.sdram, cfg)
    && s.cache.mem == Low(s.sdram.chip.mem)
    && (SS.Asks(s.sdram.last[0]) && !s.sdram.arb.served[0] ==> CachePort(s.cache.regs) == s.sdram.last[0])
  }

  /** `CachePort` is what the cache's pins say. */
  lemma CachePortIsPins(c: CM.Sys, e: CM.Env)
    requires CM.SysShape(c)
    ensures var o, q := CM.Ports(c, e), CachePort(c.regs);
      && q.rd == o.mRd && q.wr == o.mWr
      && (SS.Asks(q) ==> q == SC.Request(o.mRd, o.mWr, o.mAddr, o.mWdata, o.mBe))
    ensures !(CachePort(c.regs).rd && CachePort(c.regs).wr)
    ensures SC.RequestOk(CachePort(c.regs)) && CachePort(c.regs).addr < C.CPU_BYTES
  {
  }

  /** The cache is a polite requester: what it asks for it goes on asking for
      until it is answered. */
  lemma CacheHoldsRequest(c: CM.Sys, e: CM.Env)
    requires CM.SysShape(c) && CM.EnvOk(c, e)
    requires SS.Asks(CachePort(c.regs)) && !e.mReady
    ensures CachePort(CM.SysStep(c, e).regs) == CachePort(c.regs)
  {
    hide C.StepData, C.StepTags, C.StepValid, C.StepPlru, C.Victim, C.HitWay, C.HitData, C.HitAny, CM.NextMem;
  }

  lemma SdramEnvOk(s: Sys, e: Env, cfg: SS.Config)
    requires Inv(s, cfg) && EnvOk(s, e)
    ensures SS.EnvOk(s.sdram, ToSdram(s, e), PORTS)
  {
    hide SS.Inv;
    CachePortIsPins(s.cache, ToCache(s, e));
  }

  /** Everything the cache's correctness takes for granted, the rest provides. */
  lemma CacheEnvOk(s: Sys, e: Env, cfg: SS.Config)
    requires Inv(s, cfg) && EnvOk(s, e)
    ensures SS.EnvOk(s.sdram, ToSdram(s, e), PORTS) && CM.EnvOk(s.cache, ToCache(s, e))
  {
    hide SS.Inv, SS.SysStep, SS.Answers, CachePort, CM.SysShape, SS.Shape, CM.Ports;
    SdramEnvOk(s, e, cfg);
    CachePortIsPins(s.cache, ToCache(s, e));
    SS.AnswerStep(s.sdram, ToSdram(s, e), cfg);
  }

  function Step(s: Sys, e: Env, cfg: SS.Config): Sys
    requires Inv(s, cfg) && EnvOk(s, e)
  {
    CacheEnvOk(s, e, cfg);
    Sys(CM.SysStep(s.cache, ToCache(s, e)), SS.SysStep(s.sdram, ToSdram(s, e), cfg))
  }

  /** The cache's picture of memory stays the bottom of the chip. */
  lemma MemoryStep(s: Sys, e: Env, cfg: SS.Config)
    requires Inv(s, cfg) && EnvOk(s, e)
    ensures var t := Step(s, e, cfg); t.cache.mem == Low(t.sdram.chip.mem)
  {
    hide SS.Inv, SS.SysStep, SS.Answers, CachePort, CM.SysShape, SS.Shape, CM.Ports, C.Step;
    CacheEnvOk(s, e, cfg);
    CachePortIsPins(s.cache, ToCache(s, e));
    SS.AnswerStep(s.sdram, ToSdram(s, e), cfg);
  }

  lemma InvStep(s: Sys, e: Env, cfg: SS.Config)
    requires Inv(s, cfg) && EnvOk(s, e)
    ensures Inv(Step(s, e, cfg), cfg)
  {
    hide SS.Inv, SS.Asks, CachePort, CM.SysShape, CM.EnvOk, CM.SysStep;
    CacheEnvOk(s, e, cfg);
    SS.InvStep(s.sdram, ToSdram(s, e), cfg);
    MemoryStep(s, e, cfg);
    PortStep(s, e, cfg);
  }

  lemma PortStep(s: Sys, e: Env, cfg: SS.Config)
    requires Inv(s, cfg) && EnvOk(s, e)
    ensures var t := Step(s, e, cfg);
      SS.Asks(t.sdram.last[0]) && !t.sdram.arb.served[0] ==> CachePort(t.cache.regs) == t.sdram.last[0]
    ensures SS.Shape(Step(s, e, cfg).sdram, PORTS)
  {
    hide SS.Inv, CachePort, CM.EnvOk, CM.SysStep, C.Step;
    CacheEnvOk(s, e, cfg);
    if SS.Asks(CachePort(s.cache.regs)) && Answers(s, e) != Some(0) {
      CacheHoldsRequest(s.cache, ToCache(s, e));
    }
  }

  lemma InitInv(mem: S.Mem, cfg: SS.Config)
    requires cfg.ports == PORTS
    ensures Inv(Init(mem, cfg), cfg)
  {
    SS.InitInv(mem, cfg);
  }

  // ---- whole runs ---------------------------------------------------------

  /** Any schedule from power-up. `Step` is defined in good states only, and
      `RunInv` shows that there are no others. */
  ghost predicate IsRun(states: seq<Sys>, envs: seq<Env>, mem: S.Mem, cfg: SS.Config) {
    && cfg.ports == PORTS
    && |states| == |envs| + 1
    && states[0] == Init(mem, cfg)
    && (forall k :: 0 <= k < |states| ==> Shape(states[k]))
    && (forall k :: 0 <= k < |envs| ==> EnvOk(states[k], envs[k]))
    && (forall k :: 0 <= k < |envs| && Inv(states[k], cfg) ==> states[k + 1] == Step(states[k], envs[k], cfg))
  }

  lemma {:induction false} RunInv(states: seq<Sys>, envs: seq<Env>, mem: S.Mem, cfg: SS.Config, k: nat)
    requires IsRun(states, envs, mem, cfg) && k < |states|
    ensures Inv(states[k], cfg)
  {
    hide Inv, Step, EnvOk;
    if k == 0 {
      InitInv(mem, cfg);
    } else {
      RunInv(states, envs, mem, cfg, k - 1);
      InvStep(states[k - 1], envs[k - 1], cfg);
    }
  }

  /** What the cache and the CPU see of the run. */
  ghost function CacheTrace(states: seq<Sys>, envs: seq<Env>): CM.Trace
    requires |states| == |envs| + 1 && forall k :: 0 <= k < |states| ==> Shape(states[k])
  {
    CM.Trace(seq(|states|, k requires 0 <= k < |states| => states[k].cache),
             seq(|envs|, k requires 0 <= k < |envs| => ToCache(states[k], envs[k])))
  }

  lemma CacheRuns(states: seq<Sys>, envs: seq<Env>, mem: S.Mem, cfg: SS.Config)
    requires IsRun(states, envs, mem, cfg)
    ensures CM.IsRun(CM.Init(Low(mem)), CacheTrace(states, envs))
  {
    hide CM.SysShape, CM.EnvOk, CM.SysStep, SS.SysStep, SS.Inv, EnvOk, ToCache, ToSdram;
    RunInv(states, envs, mem, cfg, 0);
    var t := CacheTrace(states, envs);
    forall k | 0 <= k < |envs|
      ensures CM.EnvOk(t.states[k], t.env[k]) && t.states[k + 1] == CM.SysStep(t.states[k], t.env[k])
    {
      RunInv(states, envs, mem, cfg, k);
      CacheEnvOk(states[k], envs[k], cfg);
    }
  }

  /** Both other masters keep their writes out of the CPU's megabyte. */
  predicate WritesAboveCpu(envs: seq<Env>) {
    forall k :: 0 <= k < |envs| ==>
      && (envs[k].ext0.wr ==> envs[k].ext0.addr >= C.CPU_BYTES)
      && (envs[k].ext1.wr ==> envs[k].ext1.addr >= C.CPU_BYTES)
  }

  /** Nothing the masters do above 1 MB reaches the cache, not even as a flush. */
  lemma AboveCpuIsUnseen(s: Sys, e: Env)
    requires Shape(s)
    requires e.ext0.wr ==> e.ext0.addr >= C.CPU_BYTES
    requires e.ext1.wr ==> e.ext1.addr >= C.CPU_BYTES
    ensures !CM.Race(s.cache, ToCache(s, e)) && ToCache(s, e).lands.None?
  {
    hide C.HitNow, C.Hazard, SS.Answers;
  }

  /** THE WHOLE PATH. Through cache, posted writes, arbiter, controller and
      chip, with two other masters busy above 1 MB and refresh going on
      throughout: every word the CPU reads is the one its own program left there
      last, or the chip's original contents. */
  lemma CpuReadsItsOwnWrites(states: seq<Sys>, envs: seq<Env>, mem: S.Mem, cfg: SS.Config, k: nat)
    requires IsRun(states, envs, mem, cfg) && WritesAboveCpu(envs) && k < |envs|
    requires CM.ReadAnswered(states[k].cache, ToCache(states[k], envs[k]))
    ensures CM.IsRun(CM.Init(Low(mem)), CacheTrace(states, envs))
    ensures CM.Ports(states[k].cache, ToCache(states[k], envs[k])).cRdata
      == CM.Arch(Low(mem), CacheTrace(states, envs), k)[states[k].cache.bus.q.addr / 2]
  {
    hide EnvOk, Step, CM.Race, CM.ReadAnswered, CM.Ports, ToCache, CM.SysShape, SS.Inv, CM.IsRun;
    CacheRuns(states, envs, mem, cfg);
    var t := CacheTrace(states, envs);
    forall j | 0 <= j < |envs|
      ensures !CM.Race(t.states[j], t.env[j]) && t.env[j].lands.None?
    {
      AboveCpuIsUnseen(states[j], envs[j]);
    }
    CM.ReadsSeeFlatMemory(Low(mem), t, k);
  }

  /** With masters that do write below 1 MB the same holds in every run free of
      the snoop race, up to the one clock a hit is registered. */
  lemma CpuReadsAreFlat(states: seq<Sys>, envs: seq<Env>, mem: S.Mem, cfg: SS.Config, k: nat)
    requires IsRun(states, envs, mem, cfg) && k < |envs|
    requires forall j :: 0 <= j < |envs| ==> !CM.Race(states[j].cache, ToCache(states[j], envs[j]))
    requires CM.ReadAnswered(states[k].cache, ToCache(states[k], envs[k]))
    ensures k > 0 && CM.IsRun(CM.Init(Low(mem)), CacheTrace(states, envs))
    ensures
      var q := states[k].cache.bus.q;
      var got := CM.Ports(states[k].cache, ToCache(states[k], envs[k])).cRdata;
      var t := CacheTrace(states, envs);
      || got == CM.Arch(Low(mem), t, k)[q.addr / 2]
      || (states[k - 1].cache.bus in {CM.Asserted(q), CM.Waiting(q)}
          && got == CM.Arch(Low(mem), t, k - 1)[q.addr / 2])
  {
    hide EnvOk, Step, CM.Race, CM.ReadAnswered, CM.Ports, ToCache, CM.SysShape, SS.Inv, CM.IsRun;
    CacheRuns(states, envs, mem, cfg);
    CM.ReadsSeeFlatMemory(Low(mem), CacheTrace(states, envs), k);
  }
}
