/** modules/memory_controller.sv: the whole path gets on with it. The SDRAM side
    is the prompt memory that the cache's progress asks for, so the CPU does
    get the words it reads, and its stores do reach the chip. */
module MemoryProgress {
  import opened Machine
  import C = Cache
  import CM = CacheMemory
  import CP = CacheProgress
  import SC = SdramController
  import S = Sdram
  import ST = SdramTiming
  import SS = SdramSystem
  import opened MemorySystem

  // ---- every request of the cache is one the arbiter has not yet served ----

  /** The arbiter remembers having served the cache only over the clock in
      which the cache asks for nothing. */
  predicate Polite(s: Sys)
    requires SS.Shape(s.sdram, PORTS)
  {
    s.sdram.arb.served[0] ==> s.cache.regs.gap
  }

  lemma PoliteStep(s: Sys, e: Env, cfg: SS.Config)
    requires Inv(s, cfg) && EnvOk(s, e) && Polite(s)
    ensures SS.Shape(Step(s, e, cfg).sdram, PORTS) && Polite(Step(s, e, cfg))
  {
    hide SS.Inv, CM.EnvOk, C.StepData, C.StepTags, C.StepValid, C.StepPlru, C.StepFsm, C.StepQueue, C.StepPoison;
    hide C.Victim, C.HitData, C.HitAny, CM.NextMem, S.ChipStep, SC.Step, SS.Offered, SS.Seen, SS.AccessOf;
    CacheEnvOk(s, e, cfg);
  }

  lemma {:induction false} RunPolite(states: seq<Sys>, envs: seq<Env>, mem: S.Mem, cfg: SS.Config, k: nat)
    requires IsRun(states, envs, mem, cfg) && k < |states|
    ensures Polite(states[k])
  {
    hide Inv, Step, EnvOk, CM.SysShape;
    if k > 0 {
      RunPolite(states, envs, mem, cfg, k - 1);
      RunInv(states, envs, mem, cfg, k - 1);
      PoliteStep(states[k - 1], envs[k - 1], cfg);
    }
  }

  predicate Refused(s: Sys, e: Env)
    requires Shape(s)
  {
    SS.Asks(CachePort(s.cache.regs)) && Answers(s, e) != Some(0)
  }

  lemma RefusedOnThePins(s: Sys, e: Env)
    requires Shape(s)
    ensures CP.Refused(s.cache, ToCache(s, e)) == Refused(s, e)
  {
    hide SS.Answers;
    CachePortIsPins(s.cache, ToCache(s, e));
  }

  // ---- the SDRAM's side of a stretch of waiting ----------------------------

  ghost function SdramStates(states: seq<Sys>): seq<SS.Sys> {
    seq(|states|, k requires 0 <= k < |states| => states[k].sdram)
  }

  ghost function SdramEnvs(states: seq<Sys>, envs: seq<Env>): seq<SS.Env>
    requires |states| >= |envs| && forall k :: 0 <= k < |states| ==> Shape(states[k])
  {
    seq(|envs|, k requires 0 <= k < |envs| => ToSdram(states[k], envs[k]))
  }

  /** Part of a run, in which the cache asks and asks in vain. */
  lemma WaitsInVain(states: seq<Sys>, envs: seq<Env>, mem: S.Mem, cfg: SS.Config, lo: nat, hi: nat)
    requires IsRun(states, envs, mem, cfg) && lo < hi < |states|
    requires forall k :: lo <= k < hi ==> Refused(states[k], envs[k])
    ensures SS.Waits(SdramStates(states[lo..hi + 1]), SdramEnvs(states[lo..hi + 1], envs[lo..hi]), cfg, 0)
  {
    hide SS.Inv, SS.EnvOk, SS.SysStep, EnvOk, CM.SysStep, CM.EnvOk, C.Shape, CachePort;
    RunPolite(states, envs, mem, cfg, lo);
    assert Refused(states[lo], envs[lo]);
    AskingIsNotGap(states[lo]);
    forall k | lo <= k <= hi
      ensures SS.Inv(states[k].sdram, cfg)
    {
      RunInv(states, envs, mem, cfg, k);
    }
    forall k | lo <= k < hi
      ensures SS.EnvOk(states[k].sdram, ToSdram(states[k], envs[k]), PORTS)
      ensures states[k + 1].sdram == SS.SysStep(states[k].sdram, ToSdram(states[k], envs[k]), cfg)
    {
      RunInv(states, envs, mem, cfg, k);
      CacheEnvOk(states[k], envs[k], cfg);
    }
  }

  lemma AskingIsNotGap(s: Sys)
    requires Shape(s) && SS.Asks(CachePort(s.cache.regs))
    ensures !s.cache.regs.gap
  {
  }

  // ---- how long the SDRAM side can take ------------------------------------

  /** From power-up, initialisation and all. */
  function Slowest(cfg: SS.Config): nat { cfg.initCycles + 62 }

  lemma DelayStep(r: SC.Regs, q: SC.Request, dq: Word, refreshCycles: nat)
    ensures var n := SC.Step(r, q, dq, refreshCycles); n.delay <= r.delay || n.delay <= 8
  {
    hide SC.RowOf, SC.ColOf;
  }

  lemma {:induction false} DelayInRun(states: seq<Sys>, envs: seq<Env>, mem: S.Mem, cfg: SS.Config, k: nat)
    requires IsRun(states, envs, mem, cfg) && k < |states|
    ensures states[k].sdram.ctl.delay <= cfg.initCycles + 8
  {
    hide Inv, EnvOk, CM.SysShape, CM.SysStep, SC.Step, S.ChipStep, SS.Offered;
    if k > 0 {
      DelayInRun(states, envs, mem, cfg, k - 1);
      RunInv(states, envs, mem, cfg, k - 1);
      var s, e := states[k - 1], envs[k - 1];
      CacheEnvOk(s, e, cfg);
      DelayStep(s.sdram.ctl, SS.Offered(s.sdram, ToSdram(s, e), PORTS),
                SS.Pins(S.ChipStep(s.sdram.chip, s.sdram.ctl), e.floating), cfg.refreshCycles);
    }
  }

  lemma SlowestFromPowerUp(states: seq<Sys>, envs: seq<Env>, mem: S.Mem, cfg: SS.Config, k: nat)
    requires IsRun(states, envs, mem, cfg) && k < |states|
    ensures ST.ToReady(states[k].sdram.ctl, cfg.refreshCycles) <= Slowest(cfg)
  {
    hide IsRun;
    DelayInRun(states, envs, mem, cfg, k);
  }

  /** Once the mode register is loaded it stays loaded. */
  lemma ModeStep(c: S.Chip, r: SC.Regs)
    requires c.mode.Some?
    ensures S.ChipStep(c, r).mode.Some?
  {
  }

  lemma {:induction false} StaysUp(states: seq<Sys>, envs: seq<Env>, mem: S.Mem, cfg: SS.Config, lo: nat, k: nat)
    requires IsRun(states, envs, mem, cfg) && lo <= k < |states|
    requires states[lo].sdram.chip.mode.Some?
    ensures states[k].sdram.chip.mode.Some?
  {
    hide EnvOk, Inv, CM.SysShape, CM.SysStep, SC.Step, S.ChipStep, SS.Offered;
    if k > lo {
      StaysUp(states, envs, mem, cfg, lo, k - 1);
      RunInv(states, envs, mem, cfg, k - 1);
      ModeStep(states[k - 1].sdram.chip, states[k - 1].sdram.ctl);
    }
  }

  lemma QuickOnceUp(states: seq<Sys>, envs: seq<Env>, mem: S.Mem, cfg: SS.Config, lo: nat, k: nat)
    requires IsRun(states, envs, mem, cfg) && lo <= k < |states|
    requires states[lo].sdram.chip.mode.Some?
    ensures ST.ToReady(states[k].sdram.ctl, cfg.refreshCycles) <= 30
  {
    hide EnvOk, Step, CM.SysShape, S.Legal, ST.ToReady, S.Tracks, S.Latched, S.ChipStep;
    StaysUp(states, envs, mem, cfg, lo, k);
    RunInv(states, envs, mem, cfg, k);
    var s := states[k].sdram;
    ModeStep(s.chip, s.ctl);
    SS.UpIsNear(s.ctl, S.ChipStep(s.chip, s.ctl), SS.Held(s), cfg);
  }

  // ---- the cache's memory is prompt ----------------------------------------

  /** The run as the cache sees it, from clock `lo` on. */
  ghost function From(states: seq<Sys>, envs: seq<Env>, lo: nat): (t: CM.Trace)
    requires lo < |states| == |envs| + 1 && forall k :: 0 <= k < |states| ==> Shape(states[k])
    ensures |t.states| == |states| - lo && |t.env| == |envs| - lo
    ensures forall k :: 0 <= k < |t.states| ==> t.states[k] == states[lo + k].cache
    ensures forall k :: 0 <= k < |t.env| ==> t.env[k] == ToCache(states[lo + k], envs[lo + k])
  {
    CacheTrace(states[lo..], envs[lo..])
  }

  lemma CacheRunsFrom(states: seq<Sys>, envs: seq<Env>, mem: S.Mem, cfg: SS.Config, lo: nat)
    requires IsRun(states, envs, mem, cfg) && lo < |states|
    ensures CP.Run(From(states, envs, lo))
  {
    hide CM.SysShape, CM.EnvOk, CM.SysStep, EnvOk, ToCache, Inv, Step, From;
    CacheRuns(states, envs, mem, cfg);
    var all, t := CacheTrace(states, envs), From(states, envs, lo);
    forall k | 0 <= k < |t.env|
      ensures CM.EnvOk(t.states[k], t.env[k]) && t.states[k + 1] == CM.SysStep(t.states[k], t.env[k])
    {
      assert t.states[k] == all.states[lo + k] && t.env[k] == all.env[lo + k];
      assert t.states[k + 1] == all.states[lo + k + 1];
    }
  }

  /** The clocks that `Waited` counts are clocks of waiting. */
  lemma {:induction false} RefusedSince(t: CM.Trace, k: nat, j: nat)
    requires CP.Run(t) && k < |t.states|
    requires k - CP.Waited(t, k) <= j < k
    ensures CP.Refused(t.states[j], t.env[j])
  {
    hide CM.SysStep, CM.EnvOk, CP.Refused;
    if j < k - 1 {
      RefusedSince(t, k - 1, j);
    }
  }

  /** Some clocks of asking in vain, and no more than the SDRAM side can take. */
  lemma VainIsShort(states: seq<Sys>, envs: seq<Env>, mem: S.Mem, cfg: SS.Config, lo: nat, hi: nat)
    requires IsRun(states, envs, mem, cfg) && lo < hi < |states| && cfg.refreshCycles >= 10
    requires forall k :: lo <= k < hi ==> Refused(states[k], envs[k])
    ensures hi - lo <= ST.ToReady(states[lo].sdram.ctl, cfg.refreshCycles) + 48
  {
    hide Step, EnvOk, Shape, SS.Waits, SS.Inv, ST.ToReady, Refused, CM.SysShape, SS.Shape;
    WaitsInVain(states, envs, mem, cfg, lo, hi);
    SS.AnsweredInTime(SdramStates(states[lo..hi + 1]), SdramEnvs(states[lo..hi + 1], envs[lo..hi]), cfg, 0);
  }

  lemma RefusedIsShort(states: seq<Sys>, envs: seq<Env>, mem: S.Mem, cfg: SS.Config, lo: nat, k: nat)
    requires IsRun(states, envs, mem, cfg) && cfg.refreshCycles >= 10 && lo + k < |envs|
    requires CP.Run(From(states, envs, lo))
    requires CP.Refused(From(states, envs, lo).states[k], From(states, envs, lo).env[k])
    ensures var w := CP.Waited(From(states, envs, lo), k);
      w + 1 <= ST.ToReady(states[lo + k - w].sdram.ctl, cfg.refreshCycles) + 48
  {
    hide Step, EnvOk, SS.Waits, SS.Inv, ST.ToReady, Refused, CP.Refused, CM.SysShape, SS.Shape, From, ToCache, CP.Run;
    hide CP.Waited;
    var t := From(states, envs, lo);
    var w := CP.Waited(t, k);
    forall j | lo + k - w <= j < lo + k + 1
      ensures Refused(states[j], envs[j])
    {
      if j < lo + k { RefusedSince(t, k, j - lo); }
      assert CP.Refused(t.states[j - lo], t.env[j - lo]);
      RefusedOnThePins(states[j], envs[j]);
    }
    VainIsShort(states, envs, mem, cfg, lo + k - w, lo + k + 1);
  }

  /** THE CACHE'S MEMORY IS PROMPT, refreshes and two other masters included. */
  lemma PromptFrom(states: seq<Sys>, envs: seq<Env>, mem: S.Mem, cfg: SS.Config, lo: nat, near: nat)
    requires IsRun(states, envs, mem, cfg) && lo < |states| && cfg.refreshCycles >= 10
    requires forall k :: lo <= k < |states| ==> ST.ToReady(states[k].sdram.ctl, cfg.refreshCycles) <= near
    ensures CP.Run(From(states, envs, lo)) && CP.Prompt(From(states, envs, lo), near + 49)
  {
    hide Step, EnvOk, Inv, CP.Refused, Refused, ST.ToReady, CP.Waited, CM.SysShape, SS.Shape, From, CP.Run;
    CacheRunsFrom(states, envs, mem, cfg, lo);
    var t := From(states, envs, lo);
    forall k | 0 <= k < |t.env| && CP.Refused(t.states[k], t.env[k])
      ensures CP.Waited(t, k) + 1 < near + 49
    {
      RefusedIsShort(states, envs, mem, cfg, lo, k);
    }
  }

  // ---- what the CPU gets ---------------------------------------------------

  /** The longest a request of the cache can take once the chip is up, and the
      longest the CPU and its stores can then wait. */
  const PROMPT: nat := 79
  const ANSWER: nat := 642
  const STORE: nat := 2255

  /** The cycle the CPU put on the bus ends in this clock. */
  ghost predicate Answered(s: Sys, e: Env, q: CM.Request)
    requires Shape(s)
  {
    s.cache.bus == CM.Waiting(q) && CM.Ports(s.cache, ToCache(s, e)).cReady
  }

  lemma StartIsSound(states: seq<Sys>, envs: seq<Env>, mem: S.Mem, cfg: SS.Config, k: nat)
    requires IsRun(states, envs, mem, cfg) && k < |states|
    ensures CP.Sound(states[k].cache)
  {
    hide Step, EnvOk, Inv, CM.SysShape, CM.EnvOk, CM.SysStep, CP.Sound, From;
    CacheRunsFrom(states, envs, mem, cfg, 0);
    assert CP.Sound(CM.Init(Low(mem))) by { InitIsSound(Low(mem)); }
    var t := From(states, envs, 0);
    assert t.states[0] == CM.Init(Low(mem));
    CP.RunSound(t, k);
    assert t.states[k] == states[k].cache;
  }

  lemma InitIsSound(m: CM.Mem)
    ensures CP.Sound(CM.Init(m))
  {
  }

  lemma AnsweredFrom(states: seq<Sys>, envs: seq<Env>, mem: S.Mem, cfg: SS.Config, k: nat, near: nat)
    requires IsRun(states, envs, mem, cfg) && cfg.refreshCycles >= 10
    requires k + 8 * (near + 49) + 10 < |envs| && states[k].cache.bus.Asserted?
    requires forall j :: k <= j < |states| ==> ST.ToReady(states[j].sdram.ctl, cfg.refreshCycles) <= near
    ensures exists j :: k < j <= k + 8 * (near + 49) + 10 && Answered(states[j], envs[j], states[k].cache.bus.q)
  {
    hide Step, EnvOk, Inv, ST.ToReady, CM.SysShape, SS.Shape, From, CP.Run, CP.Prompt, CP.Sound, ToCache, CM.Ports;
    PromptFrom(states, envs, mem, cfg, k, near);
    StartIsSound(states, envs, mem, cfg, k);
    var t := From(states, envs, k);
    CP.CyclesAreAnswered(t, near + 49, 0);
    var j :| 0 < j <= 8 * (near + 49) + 10 && CP.AnsweredAt(t, j, t.states[0].bus.q);
    assert t.states[j] == states[k + j].cache && t.env[j] == ToCache(states[k + j], envs[k + j]);
    assert Answered(states[k + j], envs[k + j], states[k].cache.bus.q);
  }

  /** THE CPU NEVER HANGS ON MEMORY. Every RAM cycle it puts on the bus ends,
      even one begun while the chip is still being initialised, whatever the
      other masters and the snoop port do. */
  lemma CpuIsAlwaysAnswered(states: seq<Sys>, envs: seq<Env>, mem: S.Mem, cfg: SS.Config, k: nat)
    requires IsRun(states, envs, mem, cfg) && cfg.refreshCycles >= 10
    requires k + 8 * (cfg.initCycles + 111) + 10 < |envs| && states[k].cache.bus.Asserted?
    ensures exists j :: k < j <= k + 8 * (cfg.initCycles + 111) + 10
                        && Answered(states[j], envs[j], states[k].cache.bus.q)
  {
    hide Step, EnvOk, Inv, ST.ToReady, CM.SysShape, SS.Shape, Answered;
    forall j | k <= j < |states|
      ensures ST.ToReady(states[j].sdram.ctl, cfg.refreshCycles) <= Slowest(cfg)
    {
      SlowestFromPowerUp(states, envs, mem, cfg, j);
    }
    AnsweredFrom(states, envs, mem, cfg, k, Slowest(cfg));
  }

  /** ... and once the chip is up it ends within 642 clocks. */
  lemma CpuIsAnsweredSoon(states: seq<Sys>, envs: seq<Env>, mem: S.Mem, cfg: SS.Config, k: nat)
    requires IsRun(states, envs, mem, cfg) && cfg.refreshCycles >= 10
    requires k + ANSWER < |envs| && states[k].cache.bus.Asserted? && states[k].sdram.chip.mode.Some?
    ensures exists j :: k < j <= k + ANSWER && Answered(states[j], envs[j], states[k].cache.bus.q)
  {
    hide Step, EnvOk, Inv, ST.ToReady, CM.SysShape, SS.Shape, Answered;
    forall j | k <= j < |states|
      ensures ST.ToReady(states[j].sdram.ctl, cfg.refreshCycles) <= 30
    {
      QuickOnceUp(states, envs, mem, cfg, k, j);
    }
    AnsweredFrom(states, envs, mem, cfg, k, 30);
  }

  /** THE CPU GETS TO READ ITS OWN WRITES, and within 642 clocks of asking. */
  lemma CpuGetsItsOwnWrites(states: seq<Sys>, envs: seq<Env>, mem: S.Mem, cfg: SS.Config, k: nat)
    requires IsRun(states, envs, mem, cfg) && cfg.refreshCycles >= 10 && WritesAboveCpu(envs)
    requires k + ANSWER < |envs| && states[k].sdram.chip.mode.Some?
    requires states[k].cache.bus.Asserted? && !states[k].cache.bus.q.wr
    ensures CM.IsRun(CM.Init(Low(mem)), CacheTrace(states, envs))
    ensures exists j :: (
      && k < j <= k + ANSWER && Answered(states[j], envs[j], states[k].cache.bus.q)
      && CM.Ports(states[j].cache, ToCache(states[j], envs[j])).cRdata
           == CM.Arch(Low(mem), CacheTrace(states, envs), j)[states[k].cache.bus.q.addr / 2])
  {
    hide Step, EnvOk, Inv, CM.SysShape, SS.Shape, ToCache, CM.Ports, CM.IsRun, CM.Arch;
    CacheRuns(states, envs, mem, cfg);
    CpuIsAnsweredSoon(states, envs, mem, cfg, k);
    var j :| k < j <= k + ANSWER && Answered(states[j], envs[j], states[k].cache.bus.q);
    CpuReadsItsOwnWrites(states, envs, mem, cfg, j);
  }

  /** In this clock the chip takes the stored bytes into the CPU's share of the
      array, and changes nothing else of it. */
  predicate ChipTakes(s: Sys, n: Sys, q: CM.Request) {
    && q.addr < C.CPU_BYTES
    && Low(n.sdram.chip.mem) == CM.Write(Low(s.sdram.chip.mem), q.addr / 2, q.data, q.be)
  }

  lemma CacheMemIsLow(states: seq<Sys>, envs: seq<Env>, mem: S.Mem, cfg: SS.Config, k: nat)
    requires IsRun(states, envs, mem, cfg) && k < |states|
    ensures states[k].cache.mem == Low(states[k].sdram.chip.mem)
  {
    hide Step, EnvOk, SS.Inv;
    RunInv(states, envs, mem, cfg, k);
  }

  /** STORES REACH THE CHIP: within 2255 clocks of the CPU raising wr. */
  lemma StoresReachTheChip(states: seq<Sys>, envs: seq<Env>, mem: S.Mem, cfg: SS.Config, k: nat)
    requires IsRun(states, envs, mem, cfg) && cfg.refreshCycles >= 10 && WritesAboveCpu(envs)
    requires k + STORE <= |envs| && states[k].sdram.chip.mode.Some?
    requires states[k].cache.bus.Asserted? && states[k].cache.bus.q.wr
    ensures exists j :: k < j < k + STORE && ChipTakes(states[j], states[j + 1], states[k].cache.bus.q)
  {
    hide Step, EnvOk, Inv, ST.ToReady, CM.SysShape, SS.Shape, From, CP.Run, CP.Prompt, ToCache, CM.Ports, CM.Inv;
    hide CM.RaceFree, CM.Write, Low;
    forall j | k <= j < |states|
      ensures ST.ToReady(states[j].sdram.ctl, cfg.refreshCycles) <= 30
    {
      QuickOnceUp(states, envs, mem, cfg, k, j);
    }
    PromptFrom(states, envs, mem, cfg, k, 30);
    StartIsCoherent(states, envs, mem, cfg, k);
    var t := From(states, envs, k);
    CP.StoresReachMemory(t, PROMPT, 0);
    var j :| 0 < j < STORE && CP.Stored(t.states[j], t.states[j + 1], t.states[0].bus.q);
    assert t.states[j] == states[k + j].cache && t.states[j + 1] == states[k + j + 1].cache;
    CacheMemIsLow(states, envs, mem, cfg, k + j);
    CacheMemIsLow(states, envs, mem, cfg, k + j + 1);
    assert ChipTakes(states[k + j], states[k + j + 1], states[k].cache.bus.q);
  }

  lemma StartIsCoherent(states: seq<Sys>, envs: seq<Env>, mem: S.Mem, cfg: SS.Config, k: nat)
    requires IsRun(states, envs, mem, cfg) && WritesAboveCpu(envs) && k < |states|
    ensures CP.Run(From(states, envs, k)) && CM.RaceFree(From(states, envs, k)) && CM.Inv(states[k].cache)
  {
    hide Step, EnvOk, Inv, CM.SysShape, ToCache, CM.Inv, CM.Race, CM.IsRun, From;
    CacheRunsFrom(states, envs, mem, cfg, k);
    CacheRuns(states, envs, mem, cfg);
    forall j | 0 <= j < |envs|
      ensures !CM.Race(states[j].cache, ToCache(states[j], envs[j]))
    {
      AboveCpuIsUnseen(states[j], envs[j]);
    }
    var all := CacheTrace(states, envs);
    CM.InitInv(Low(mem));
    CM.RunInv(CM.Init(Low(mem)), all, k);
    assert all.states[k] == states[k].cache;
  }
}
