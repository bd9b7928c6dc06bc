/** The one way reads go wrong, from power-up on: a run of a few clocks that ends in
    the race, and the wrong answer that follows it. */
module CacheRace {
  import opened Machine
  import opened Cache
  import opened CacheMemory

  // ---- longer runs ----------------------------------------------------------------------

  ghost function Last(t: Trace): Sys
    requires |t.states| > 0
  {
    t.states[|t.states| - 1]
  }

  ghost predicate Calmly(m: Mem, t: Trace) { IsRun(Init(m), t) && RaceFree(t) }

  lemma OneMoreClock(m: Mem, t: Trace, e: Env) returns (u: Trace)
    requires Calmly(m, t) && EnvOk(Last(t), e) && !e.snoopWr
    ensures Calmly(m, u) && |u.states| > 0 && Last(u) == SysStep(Last(t), e)
  {
    hide EnvOk, SysStep, SysShape, HitNow;
    NoSnoopNoRace(Last(t), e);
    var n := SysStep(Last(t), e);
    u := Trace(t.states + [n], t.env + [e]);
    forall k | 0 <= k < |u.env|
      ensures EnvOk(u.states[k], u.env[k]) && u.states[k + 1] == SysStep(u.states[k], u.env[k])
      ensures !Race(u.states[k], u.env[k])
    {
      if k < |t.env| { assert u.states[k] == t.states[k] && u.env[k] == t.env[k]; }
    }
  }

  lemma NoSnoopNoRace(s: Sys, e: Env)
    requires SysShape(s) && !e.snoopWr
    ensures !Race(s, e)
  {
    hide HitNow, Hazard;
  }

  // ---- the first read of a word: a miss, and its line comes in -------------------------------

  /** Nothing posted, nothing under way, memory as it was. */
  ghost predicate Still(s: Sys, m: Mem, bus: Bus) {
    SysShape(s) && s.regs.fsm == Idle && s.regs.queue == [] && s.mem == m && s.bus == bus
  }

  ghost predicate Cold(s: Sys, m: Mem, bus: Bus) {
    && Still(s, m, bus) && !s.regs.arrayWritten
    && forall t, k :: 0 <= t < SETS && 0 <= k < WAYS ==> !s.regs.valid[t][k]
  }

  lemma ColdAsks(s: Sys, m: Mem, w: nat)
    requires Cold(s, m, Quiet) && w < CPU_WORDS
    ensures EnvOk(s, Ask(w)) && Cold(SysStep(s, Ask(w)), m, Addressed(ReadOf(w)))
  {
    hide HitAny, HitData, HitWay, StepPlru, StepTags, PlruTouch, Victim;
  }

  lemma ColdAddresses(s: Sys, m: Mem, w: nat)
    requires Cold(s, m, Addressed(ReadOf(w))) && w < CPU_WORDS
    ensures EnvOk(s, CALM) && Cold(SysStep(s, CALM), m, Asserted(ReadOf(w))) && SysStep(s, CALM).regs.rWord == w
  {
    hide HitAny, HitData, HitWay, StepPlru, StepTags, PlruTouch, Victim;
  }

  /** `n` words of `w`'s line are in; the memory port rests after each. */
  ghost predicate Loading(s: Sys, m: Mem, w: nat, n: nat, resting: bool) {
    && SysShape(s) && s.mem == m && w < CPU_WORDS
    && s.regs.fsm == Fill && s.regs.queue == [] && !s.regs.fPoison && s.regs.gap == resting
    && s.regs.fTag == TagOf(w) && s.regs.fSet == SetOf(w) && s.regs.fCnt == n
    && s.bus == if n == 0 then Waiting(ReadOf(w)) else Quiet
  }

  lemma ColdMisses(s: Sys, m: Mem, w: nat)
    requires Cold(s, m, Asserted(ReadOf(w))) && s.regs.rWord == w < CPU_WORDS
    ensures EnvOk(s, CALM) && Loading(SysStep(s, CALM), m, w, 0, false)
  {
    hide HitData, HitWay, StepPlru, StepTags, PlruTouch, PlruWay, StepData, StepValid;
  }

  lemma FillInside(r: Regs)
    requires Shape(r)
    ensures WordOf(r.fTag, r.fSet, r.fOff) < CPU_WORDS
  {
  }

  lemma Halves(n: nat)
    ensures 2 * n / 2 == n
  {
  }

  /** The word asked for, as memory holds it. */
  function Deliver(s: Sys): Env
    requires SysShape(s)
  {
    FillInside(s.regs);
    CALM.(mReady := true, mRdata := s.mem[WordOf(s.regs.fTag, s.regs.fSet, s.regs.fOff)])
  }

  lemma DeliverOk(s: Sys, m: Mem, w: nat, n: nat)
    requires Loading(s, m, w, n, false)
    ensures EnvOk(s, Deliver(s))
  {
    hide HitAny, HitData, HitWay, WordOf, TagOf, SetOf;
    FillInside(s.regs);
    Halves(WordOf(s.regs.fTag, s.regs.fSet, s.regs.fOff));
  }

  lemma WordComes(s: Sys, m: Mem, w: nat, n: nat)
    requires Loading(s, m, w, n, false) && n < LINE_WORDS - 1
    ensures EnvOk(s, Deliver(s)) && Loading(SysStep(s, Deliver(s)), m, w, n + 1, true)
  {
    hide HitAny, HitData, HitWay, StepPlru, StepTags, PlruTouch, Victim, StepData, StepValid, TagOf, SetOf, WordOf;
    DeliverOk(s, m, w, n);
  }

  lemma PortRests(s: Sys, m: Mem, w: nat, n: nat)
    requires Loading(s, m, w, n, true) && n > 0
    ensures EnvOk(s, CALM) && Loading(SysStep(s, CALM), m, w, n, false)
  {
    hide HitAny, HitData, HitWay, StepPlru, StepTags, PlruTouch, Victim, StepData, StepValid, TagOf, SetOf, WordOf;
  }

  /** The line of `w` is in way `k`. */
  ghost predicate Warm(s: Sys, m: Mem, bus: Bus, w: nat, k: nat) {
    && Still(s, m, bus) && w < CPU_WORDS && k < WAYS
    && s.regs.valid[SetOf(w)][k] && s.regs.tags[k][SetOf(w)] == TagOf(w)
  }

  lemma LineIsIn(s: Sys, m: Mem, w: nat)
    requires Loading(s, m, w, LINE_WORDS - 1, false)
    ensures EnvOk(s, Deliver(s)) && Warm(SysStep(s, Deliver(s)), m, Quiet, w, s.regs.fWay)
  {
    hide HitAny, HitData, HitWay, StepPlru, PlruTouch, Victim, StepData, TagOf, SetOf, WordOf;
    DeliverOk(s, m, w, LINE_WORDS - 1);
  }

  // ---- the second read: a hit, and the snoop ------------------------------------------------

  lemma WarmAsks(s: Sys, m: Mem, w: nat, k: nat)
    requires Warm(s, m, Quiet, w, k)
    ensures EnvOk(s, Ask(w)) && Warm(SysStep(s, Ask(w)), m, Addressed(ReadOf(w)), w, k)
    ensures !SysStep(s, Ask(w)).regs.arrayWritten
  {
    hide HitAny, HitData, HitWay, StepPlru, PlruTouch, Victim, TagOf, SetOf;
  }

  lemma WarmAddresses(s: Sys, m: Mem, w: nat, k: nat)
    requires Warm(s, m, Addressed(ReadOf(w)), w, k) && !s.regs.arrayWritten
    ensures var n := SysStep(s, CALM);
      && EnvOk(s, CALM) && Warm(n, m, Asserted(ReadOf(w)), w, k)
      && !n.regs.arrayWritten && n.regs.rWord == w && n.regs.rTags[k] == TagOf(w)
  {
    hide HitAny, HitData, HitWay, StepPlru, PlruTouch, Victim, TagOf, SetOf;
  }

  /** Another master writes somewhere in the CPU's memory. */
  const SNOOP := CALM.(snoopWr := true)

  lemma WarmRaces(s: Sys, m: Mem, w: nat, k: nat)
    requires Warm(s, m, Asserted(ReadOf(w)), w, k)
    requires !s.regs.arrayWritten && s.regs.rWord == w && s.regs.rTags[k] == TagOf(w)
    ensures EnvOk(s, SNOOP) && Race(s, SNOOP)
    ensures Flat(s) == m && Flat(SysStep(s, SNOOP)) == m && s.bus == Asserted(ReadOf(w))
  {
    hide HitData, HitWay, StepPlru, StepTags, PlruTouch, Victim, StepData, StepValid, TagOf, SetOf;
    assert WayHit(s.regs, k);
  }

  // ---- from power-up ----------------------------------------------------------------------

  lemma StartsCold(m: Mem) returns (t: Trace)
    ensures Calmly(m, t) && |t.states| > 0 && Cold(Last(t), m, Quiet)
  {
    t := Trace([Init(m)], []);
  }

  /** The word's line, one word and one rest at a time. */
  lemma {:induction false} LoadsOn(m: Mem, t: Trace, w: nat, n: nat) returns (u: Trace)
    requires Calmly(m, t) && Loading(Last(t), m, w, n, false) && n < LINE_WORDS
    ensures Calmly(m, u) && |u.states| > 0 && Loading(Last(u), m, w, LINE_WORDS - 1, false)
    decreases LINE_WORDS - n
  {
    hide Calmly, Loading, SysStep, EnvOk, Deliver;
    u := t;
    HasLast(m, t);
    if n < LINE_WORDS - 1 {
      WordComes(Last(t), m, w, n);
      DeliverIsCalm(Last(t));
      u := OneMoreClock(m, t, Deliver(Last(t)));
      PortRests(Last(u), m, w, n + 1);
      u := OneMoreClock(m, u, CALM);
      u := LoadsOn(m, u, w, n + 1);
    }
  }

  lemma HasLast(m: Mem, t: Trace)
    requires Calmly(m, t)
    ensures |t.states| > 0 && SysShape(Last(t))
  {
    hide SysShape;
  }

  lemma CalmIsRun(m: Mem, t: Trace)
    requires Calmly(m, t)
    ensures IsRun(Init(m), t) && RaceFree(t)
  {
    hide EnvOk, SysStep, SysShape;
  }

  lemma DeliverIsCalm(s: Sys)
    requires SysShape(s)
    ensures !Deliver(s).snoopWr
  {
  }

  /** THE RACE IS REACHABLE from power-up, on a read of any word of any memory, by a
      run in which nothing has gone wrong before. */
  lemma RaceIsReachable(m: Mem, w: nat) returns (t: Trace)
    requires w < CPU_WORDS
    ensures IsRun(Init(m), t) && RaceFree(t)
    ensures EnvOk(Last(t), SNOOP) && Race(Last(t), SNOOP)
    ensures Flat(SysStep(Last(t), SNOOP)) == m && Last(t).bus == Asserted(ReadOf(w))
  {
    hide Calmly, Cold, Loading, Warm, SysStep, SysShape, EnvOk, Deliver, IsRun, RaceFree, Race, Flat;
    t := StartsCold(m);
    ColdAsks(Last(t), m, w);
    t := OneMoreClock(m, t, Ask(w));
    ColdAddresses(Last(t), m, w);
    t := OneMoreClock(m, t, CALM);
    ColdMisses(Last(t), m, w);
    t := OneMoreClock(m, t, CALM);
    t := LoadsOn(m, t, w, 0);
    HasLast(m, t);
    LineIsIn(Last(t), m, w);
    DeliverIsCalm(Last(t));
    var k := Last(t).regs.fWay;
    t := OneMoreClock(m, t, Deliver(Last(t)));
    WarmAsks(Last(t), m, w, k);
    t := OneMoreClock(m, t, Ask(w));
    WarmAddresses(Last(t), m, w, k);
    t := OneMoreClock(m, t, CALM);
    WarmRaces(Last(t), m, w, k);
    CalmIsRun(m, t);
  }

  /** ... and so is a wrong answer, for any two words of memory that differ: the fifth
      clock after the race hands a read something its word never held. */
  lemma WrongAnswerIsReachable(m: Mem, w: nat, b: nat) returns (t: Trace, u: Trace)
    requires w < CPU_WORDS && b < CPU_WORDS && m[b] != m[w]
    ensures IsRun(Init(m), t) && RaceFree(t) && EnvOk(Last(t), SNOOP)
    ensures IsRun(SysStep(Last(t), SNOOP), u) && RaceFree(u) && |u.env| == 5 && ReadWrong(Flat(Last(t)), u, 4)
  {
    hide SysStep, EnvOk, Race, Flat, ReadWrong, Inv;
    t := RaceIsReachable(m, w);
    InitInv(m);
    RunInv(Init(m), t, |t.states| - 1);
    u := RaceMisleads(Last(t), SNOOP, b);
  }
}
