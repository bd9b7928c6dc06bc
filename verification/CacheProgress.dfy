/** modules/cache.sv: the cache gets on with it. Whatever the CPU asks and in
    whatever order, if memory answers every request within a bounded time then
    every bus cycle is answered, and every posted write reaches memory, within
    a bounded time too. */
module CacheProgress {
  import opened Machine
  import opened Cache
  import opened CacheMemory

  // ---- a memory that answers ----------------------------------------------

  /** The cache asks memory for something, and is not answered this clock. */
  predicate Refused(s: Sys, e: Env)
    requires SysShape(s)
  {
    (Ports(s, e).mRd || Ports(s, e).mWr) && !e.mReady
  }

  ghost predicate Run(t: Trace) { |t.states| > 0 && IsRun(t.states[0], t) }

  /** For how many clocks before clock `k` without a break. */
  ghost function Waited(t: Trace, k: nat): (clocks: nat)
    requires Run(t) && k < |t.states|
    ensures clocks <= k
  {
    if k > 0 && Refused(t.states[k - 1], t.env[k - 1]) then Waited(t, k - 1) + 1 else 0
  }

  /** No request goes unanswered for `bound` clocks. */
  ghost predicate Prompt(t: Trace, bound: nat)
    requires Run(t)
  {
    bound > 0 && forall k :: 0 <= k < |t.env| && Refused(t.states[k], t.env[k]) ==> Waited(t, k) + 1 < bound
  }

  // ---- what holds in every state, raced or not ----------------------------

  ghost predicate Sound(s: Sys) {
    && SysShape(s)
    && (s.regs.fsm == Fill ==> s.regs.fCnt < LINE_WORDS)
    && (s.regs.fsm == Drain ==> |s.regs.queue| > 0)
  }

  lemma SoundStep(s: Sys, e: Env)
    requires Sound(s) && EnvOk(s, e)
    ensures Sound(SysStep(s, e))
  {
    hide StepData, StepTags, StepValid, StepPlru, Victim, HitWay, HitData, HitAny, NextMem, Merge;
  }

  lemma {:induction false} RunSound(t: Trace, k: nat)
    requires Run(t) && k < |t.states| && Sound(t.states[0])
    ensures Sound(t.states[k])
  {
    hide SysStep, EnvOk, Sound;
    if k > 0 {
      RunSound(t, k - 1);
      SoundStep(t.states[k - 1], t.env[k - 1]);
    }
  }

  lemma {:induction false} WaitedInBound(t: Trace, bound: nat, k: nat)
    requires Run(t) && Prompt(t, bound) && k < |t.states|
    ensures Waited(t, k) < bound
  {
    hide Refused, SysStep, EnvOk;
  }

  // ---- how far the CPU's answer can be -------------------------------------

  /** To the end of the access under way, or about to start behind the gap. */
  function Access(r: Regs, waited: nat, bound: nat): nat {
    if r.gap then bound + 1 else if waited < bound then bound - waited else 0
  }

  /** To the end of a line, one word of which is under way. */
  function Rest(cnt: nat, bound: nat): nat {
    match cnt
    case 0 => 3 * (bound + 1)
    case 1 => 2 * (bound + 1)
    case 2 => bound + 1
    case _ => 0
  }

  /** With nothing under way: drain `queued` writes if they are in the way, and
      then one access. */
  function Free(queued: nat, bound: nat): nat {
    if queued == 0 then bound + 1 else bound + 1 + Free(queued - 1, bound)
  }

  /** An upper bound on the clocks until the cycle on the bus is answered. */
  function ToAnswer(r: Regs, waited: nat, bound: nat): nat {
    if r.hitAck then 0 else
      match r.fsm
      case Idle => Free(|r.queue|, bound) + (if r.arrayWritten then 1 else 0)
      case Drain => Access(r, waited, bound) + (if |r.queue| > 0 then Free(|r.queue| - 1, bound) else 0)
      case Fill =>
        if r.fCnt == 0 then Access(r, waited, bound)
        else Access(r, waited, bound) + Rest(r.fCnt, bound) + 1 + Free(|r.queue|, bound)
  }

  function NextWaited(s: Sys, e: Env, waited: nat): nat
    requires SysShape(s)
  {
    if Refused(s, e) then waited + 1 else 0
  }

  lemma CloserToAnswer(s: Sys, e: Env, waited: nat, bound: nat)
    requires Sound(s) && EnvOk(s, e) && s.bus.Waiting? && !Ports(s, e).cReady
    requires waited < bound && (Refused(s, e) ==> waited + 1 < bound)
    ensures var n := SysStep(s, e);
      && n.bus == s.bus
      && ToAnswer(n.regs, NextWaited(s, e, waited), bound) < ToAnswer(s.regs, waited, bound)
  {
    hide StepData, StepTags, StepValid, StepPlru, Victim, HitWay, HitData, HitAny, NextMem, Merge, WordOf;
  }

  lemma FreeIsLinear(queued: nat, bound: nat)
    requires queued <= DEPTH
    ensures Free(queued, bound) <= 5 * (bound + 1)
    ensures queued == 0 ==> Free(queued, bound) == bound + 1
  {
    if queued > 0 { FreeIsLinear(queued - 1, bound); }
    assert Free(0, bound) == bound + 1;
    assert queued > 0 ==> Free(1, bound) == 2 * (bound + 1);
    assert queued > 1 ==> Free(2, bound) == 3 * (bound + 1);
    assert queued > 2 ==> Free(3, bound) == 4 * (bound + 1);
  }

  lemma AnswerIsNear(s: Sys, waited: nat, bound: nat)
    requires Sound(s)
    ensures ToAnswer(s.regs, waited, bound) <= 8 * bound + 9
  {
    FreeIsLinear(|s.regs.queue|, bound);
    if |s.regs.queue| > 0 { FreeIsLinear(|s.regs.queue| - 1, bound); }
  }

  /** The cycle on the bus is answered in clock `j`, and the bus falls quiet. */
  ghost predicate AnsweredAt(t: Trace, j: nat, q: Request)
    requires Run(t) && j < |t.env|
  {
    t.states[j].bus == Waiting(q) && Ports(t.states[j], t.env[j]).cReady && t.states[j + 1].bus.Quiet?
  }

  lemma {:induction false} AnsweredBy(t: Trace, bound: nat, k: nat)
    requires Run(t) && Sound(t.states[0]) && Prompt(t, bound)
    requires k < |t.env| && t.states[k].bus.Waiting?
    requires k + ToAnswer(t.states[k].regs, Waited(t, k), bound) < |t.env|
    ensures exists j :: k <= j <= k + ToAnswer(t.states[k].regs, Waited(t, k), bound)
                        && AnsweredAt(t, j, t.states[k].bus.q)
    decreases |t.env| - k
  {
    hide ToAnswer, Step, Sound, NextMem, EnvOk, Outputs;
    RunSound(t, k);
    var s, e := t.states[k], t.env[k];
    assert SysShape(s);
    if Ports(s, e).cReady {
      assert AnsweredAt(t, k, s.bus.q);
    } else {
      WaitedInBound(t, bound, k);
      CloserToAnswer(s, e, Waited(t, k), bound);
      AnsweredBy(t, bound, k + 1);
    }
  }

  /** EVERY CYCLE IS ANSWERED. From the clock the bus unit raises rd or wr,
      stores into a full queue and reads behind a queued write included. */
  lemma CyclesAreAnswered(t: Trace, bound: nat, k: nat)
    requires Run(t) && Sound(t.states[0]) && Prompt(t, bound)
    requires k + 8 * bound + 10 < |t.env| && t.states[k].bus.Asserted?
    ensures exists j :: k < j <= k + 8 * bound + 10 && AnsweredAt(t, j, t.states[k].bus.q)
  {
    hide ToAnswer, Step, Sound, NextMem, EnvOk, Outputs, AnsweredAt;
    RunSound(t, k + 1);
    AnswerIsNear(t.states[k + 1], Waited(t, k + 1), bound);
    AnsweredBy(t, bound, k + 1);
  }

  // ---- how far the oldest posted write can be from memory ------------------

  predicate Reading(s: Sys) { (s.bus.Asserted? || s.bus.Waiting?) && !s.bus.q.wr }

  /** An upper bound on the clocks until the oldest posted write is in memory. A
      read may come first, even one that misses, but never a second: the bus
      cannot go from one read to the next without a clock that asks for nothing. */
  function ToLand(s: Sys, waited: nat, bound: nat): nat {
    match s.regs.fsm
    case Drain => Access(s.regs, waited, bound)
    case Fill => Access(s.regs, waited, bound) + Rest(s.regs.fCnt, bound) + bound + 1
    case Idle =>
      if !Reading(s) || s.regs.arrayWritten then bound + 1
      else 5 * bound + 4 + (if s.bus.Asserted? then 3 else if s.regs.hitAck then 1 else 2)
  }

  /** The oldest posted write reaches memory in this clock and leaves the queue. */
  predicate Lands(s: Sys, n: Sys, e: Entry) {
    && e.addr < CPU_BYTES && |s.regs.queue| > 0 && s.regs.queue[0] == e
    && n.mem == Apply(s.mem, e) && n.regs.queue == s.regs.queue[1..]
  }

  lemma CloserToLanding(s: Sys, e: Env, waited: nat, bound: nat)
    requires Sound(s) && EnvOk(s, e) && |s.regs.queue| > 0
    requires waited < bound && (Refused(s, e) ==> waited + 1 < bound)
    ensures var n := SysStep(s, e);
      || Lands(s, n, s.regs.queue[0])
      || (s.regs.queue <= n.regs.queue
          && ToLand(n, NextWaited(s, e, waited), bound) < ToLand(s, waited, bound))
  {
    hide StepData, StepTags, StepValid, StepPlru, Victim, HitWay, HitData, HitAny, Merge, WordOf;
  }

  lemma {:induction false} LandsBy(t: Trace, bound: nat, k: nat)
    requires Run(t) && Sound(t.states[0]) && Prompt(t, bound)
    requires k < |t.env| && |t.states[k].regs.queue| > 0
    requires k + ToLand(t.states[k], Waited(t, k), bound) < |t.env|
    ensures exists j :: k <= j <= k + ToLand(t.states[k], Waited(t, k), bound)
                        && t.states[k].regs.queue <= t.states[j].regs.queue
                        && Lands(t.states[j], t.states[j + 1], t.states[k].regs.queue[0])
    decreases |t.env| - k
  {
    hide ToLand, Step, Sound, EnvOk, NextMem, Outputs, Lands;
    RunSound(t, k);
    WaitedInBound(t, bound, k);
    CloserToLanding(t.states[k], t.env[k], Waited(t, k), bound);
    if !Lands(t.states[k], t.states[k + 1], t.states[k].regs.queue[0]) {
      LandsBy(t, bound, k + 1);
    }
  }

  /** A turn of the queue, from one landing to the next. */
  function Turns(n: nat, bound: nat): (clocks: nat) { n * (5 * bound + 8) }

  lemma LandingIsNear(s: Sys, waited: nat, bound: nat)
    requires Sound(s)
    ensures ToLand(s, waited, bound) < 5 * bound + 8
  {
  }

  lemma OldestLands(t: Trace, bound: nat, k: nat)
    requires Run(t) && Sound(t.states[0]) && Prompt(t, bound)
    requires k < |t.states| && |t.states[k].regs.queue| > 0 && k + 5 * bound + 8 <= |t.env|
    ensures exists j :: k <= j < k + 5 * bound + 8
                        && t.states[k].regs.queue <= t.states[j].regs.queue
                        && Lands(t.states[j], t.states[j + 1], t.states[k].regs.queue[0])
  {
    hide ToLand, Step, Sound, EnvOk, NextMem, Outputs, Lands, SysShape, SysStep, Prompt;
    RunSound(t, k);
    LandingIsNear(t.states[k], Waited(t, k), bound);
    LandsBy(t, bound, k);
  }

  /** EVERY POSTED WRITE REACHES MEMORY, in its turn, whatever the CPU does
      meanwhile. */
  lemma {:induction false} PostedWritesLand(t: Trace, bound: nat, k: nat, n: nat)
    requires Run(t) && Sound(t.states[0]) && Prompt(t, bound)
    requires k < |t.states| && n < |t.states[k].regs.queue|
    requires k + Turns(n + 1, bound) <= |t.env|
    ensures exists j :: k <= j < k + Turns(n + 1, bound)
                        && Lands(t.states[j], t.states[j + 1], t.states[k].regs.queue[n])
    decreases n
  {
    hide Step, Sound, EnvOk, NextMem, Outputs, SysShape, SysStep, Prompt, Apply;
    assert Turns(n + 1, bound) == Turns(n, bound) + 5 * bound + 8;
    OldestLands(t, bound, k);
    var i :| k <= i < k + 5 * bound + 8 && t.states[k].regs.queue <= t.states[i].regs.queue
             && Lands(t.states[i], t.states[i + 1], t.states[k].regs.queue[0]);
    if n > 0 {
      assert t.states[i + 1].regs.queue[n - 1] == t.states[k].regs.queue[n];
      PostedWritesLand(t, bound, i + 1, n - 1);
    }
  }

  // ---- from the bus to memory ----------------------------------------------

  /** A store the bus unit sees answered has been posted, behind all others. */
  lemma AnsweredStoreIsPosted(s: Sys, e: Env)
    requires SysShape(s) && EnvOk(s, e) && FillAwaited(s) && HitStands(s)
    requires s.bus.Waiting? && s.bus.q.wr && Ports(s, e).cReady
    ensures SysStep(s, e).regs.queue == s.regs.queue + [Entry(s.bus.q.addr, s.bus.q.data, s.bus.q.be)]
    ensures |s.regs.queue| < DEPTH
  {
    hide StepData, StepTags, StepValid, StepPlru, Victim, HitWay, HitData, HitAny, NextMem, Merge, WordOf;
  }

  lemma AnsweredStoreInRun(t: Trace, j: nat, q: Request)
    requires Run(t) && Inv(t.states[0]) && RaceFree(t)
    requires j < |t.env| && AnsweredAt(t, j, q) && q.wr
    ensures var queue := t.states[j + 1].regs.queue;
      0 < |queue| <= DEPTH && queue[|queue| - 1] == Entry(q.addr, q.data, q.be)
  {
    hide Step, EnvOk, NextMem, Outputs, Sound, SysStep, Flat, Race, Coherent, Filling;
    RunInv(t.states[0], t, j);
    AnsweredStoreIsPosted(t.states[j], t.env[j]);
  }

  /** In clock `j` memory takes the word of the store `q`, and nothing else. */
  predicate Stored(s: Sys, n: Sys, q: Request) {
    q.addr < CPU_BYTES && n.mem == Write(s.mem, q.addr / 2, q.data, q.be)
  }

  lemma PostedStoreLands(t: Trace, bound: nat, k: nat, q: Request)
    requires Run(t) && Sound(t.states[0]) && Prompt(t, bound)
    requires k < |t.states| && 0 < |t.states[k].regs.queue| <= DEPTH
    requires t.states[k].regs.queue[|t.states[k].regs.queue| - 1] == Entry(q.addr, q.data, q.be)
    requires k + 20 * bound + 32 <= |t.env|
    ensures exists j :: k <= j < k + 20 * bound + 32 && Stored(t.states[j], t.states[j + 1], q)
  {
    hide Step, Sound, EnvOk, NextMem, Outputs, SysShape, SysStep, Prompt;
    var n := |t.states[k].regs.queue| - 1;
    assert Turns(n + 1, bound) <= 20 * bound + 32;
    PostedWritesLand(t, bound, k, n);
    var j :| k <= j < k + Turns(n + 1, bound)
             && Lands(t.states[j], t.states[j + 1], t.states[k].regs.queue[n]);
    assert Stored(t.states[j], t.states[j + 1], q);
  }

  /** EVERY STORE REACHES MEMORY. From the clock the bus unit raises wr: it is
      accepted, however full the queue, and drained, however busy the CPU. */
  lemma StoresReachMemory(t: Trace, bound: nat, k: nat)
    requires Run(t) && Inv(t.states[0]) && RaceFree(t) && Prompt(t, bound)
    requires k + 28 * bound + 43 <= |t.env| && t.states[k].bus.Asserted? && t.states[k].bus.q.wr
    ensures exists j :: k < j < k + 28 * bound + 43 && Stored(t.states[j], t.states[j + 1], t.states[k].bus.q)
  {
    hide Step, EnvOk, NextMem, Outputs, SysShape, SysStep, Prompt, Inv, RaceFree, AnsweredAt, Stored;
    assert Sound(t.states[0]) by { InvIsSound(t.states[0]); }
    hide Sound;
    var q := t.states[k].bus.q;
    CyclesAreAnswered(t, bound, k);
    var i :| k < i <= k + 8 * bound + 10 && AnsweredAt(t, i, q);
    AnsweredStoreInRun(t, i, q);
    PostedStoreLands(t, bound, i + 1, q);
  }

  lemma InvIsSound(s: Sys)
    requires Inv(s)
    ensures Sound(s)
  {
    hide Flat, Coherent, TagsOk, Distinct, LookupCurrent, FillMatches;
  }
}
