/** The cache between the BIU and the SDRAM: what it keeps in every run, and
    that reads through it see a flat memory. */
module CacheMemory {
  import opened Machine
  import opened Cache

  // ---- memory with posted writes in front of it --------------------------

  type Mem = m: seq<Word> | |m| == CPU_WORDS witness seq(CPU_WORDS, _ => ZERO)

  predicate Posted(q: seq<Entry>) { forall n :: 0 <= n < |q| ==> q[n].addr < CPU_BYTES }

  function Write(m: Mem, w: nat, data: Word, be: Lanes): (n: Mem)
    requires w < CPU_WORDS
  {
    m[w := Merge(m[w], data, be)]
  }

  function Apply(m: Mem, e: Entry): Mem
    requires e.addr < CPU_BYTES
  {
    Write(m, e.addr / 2, e.data, e.be)
  }

  /** Memory as it will be once every queued write has drained, oldest first. */
  function Overlay(m: Mem, q: seq<Entry>): Mem
    requires Posted(q)
    decreases |q|
  {
    if q == [] then m else Overlay(Apply(m, q[0]), q[1..])
  }

  lemma {:induction false} OverlayAppend(m: Mem, q: seq<Entry>, e: Entry)
    requires Posted(q) && e.addr < CPU_BYTES
    ensures Posted(q + [e]) && Overlay(m, q + [e]) == Apply(Overlay(m, q), e)
    decreases |q|
  {
    if q == [] {
      assert [] + [e] == [e] && [e][1..] == [];
    } else {
      assert (q + [e])[1..] == q[1..] + [e];
      OverlayAppend(Apply(m, q[0]), q[1..], e);
    }
  }

  lemma {:induction false} OverlayUntouched(m: Mem, q: seq<Entry>, w: nat)
    requires Posted(q) && w < CPU_WORDS
    requires forall n :: 0 <= n < |q| ==> q[n].addr / 2 != w
    ensures Overlay(m, q)[w] == m[w]
    decreases |q|
  {
    if q != [] {
      assert forall n :: 0 <= n < |q[1..]| ==> q[1..][n] == q[n + 1];
      OverlayUntouched(Apply(m, q[0]), q[1..], w);
    }
  }

  // ---- the system around the cache ---------------------------------------

  datatype Request = Request(addr: nat, wr: bool, data: Word, be: Lanes)

  /** The BIU's side of a RAM cycle: the address goes out in T1, rd or wr in T2,
      and ready is looked at from T3 on. `Quiet` is T4, idle, or a cycle for
      some other region, with anything at all on the address lines. */
  datatype Bus = Quiet | Addressed(q: Request) | Asserted(q: Request) | Waiting(q: Request)

  datatype Sys = Sys(regs: Regs, bus: Bus, mem: Mem)

  datatype Foreign = Foreign(word: nat, data: Word, be: Lanes)

  /** Everything the environment chooses in one clock: the address lines while
      the bus is quiet, the next request, the memory's answer, the snoop port,
      and another master's write reaching memory below 1 MB. */
  datatype Env = Env(
    quietAddr: nat, quietData: Word, quietBe: Lanes, next: Option<Request>,
    mReady: bool, mRdata: Word,
    snoopWr: bool, snoopAddr: nat, lands: Option<Foreign>)

  predicate RequestOk(q: Request) { q.addr < CPU_BYTES }

  function Drive(bus: Bus, e: Env): In {
    match bus
    case Quiet =>
      In(e.quietAddr, e.quietData, false, false, e.quietBe,
         e.mRdata, e.mReady, e.snoopWr, e.snoopAddr)
    case Addressed(q) =>
      In(q.addr, q.data, false, false, q.be, e.mRdata, e.mReady, e.snoopWr, e.snoopAddr)
    case _ =>
      In(bus.q.addr, bus.q.data, !bus.q.wr, bus.q.wr, bus.q.be,
         e.mRdata, e.mReady, e.snoopWr, e.snoopAddr)
  }

  ghost predicate SysShape(s: Sys) {
    && Shape(s.regs) && Posted(s.regs.queue)
    && (s.bus.Quiet? || RequestOk(s.bus.q))
  }

  function Ports(s: Sys, e: Env): Out
    requires SysShape(s)
  {
    Outputs(s.regs, Drive(s.bus, e))
  }

  /** What the rest of the machine guarantees: `ready` only answers a request,
      read data is what memory holds, one access completes at a time, and a
      foreign write to CPU memory is on the snoop port while it lands. */
  predicate EnvOk(s: Sys, e: Env)
    requires SysShape(s)
  {
    var o := Ports(s, e);
    && e.quietAddr < CPU_BYTES
    && (e.next.Some? ==> RequestOk(e.next.value))
    && (e.mReady ==> o.mRd || o.mWr)
    && (e.mReady && o.mRd ==> o.mAddr / 2 < CPU_WORDS && e.mRdata == s.mem[o.mAddr / 2])
    && (e.lands.Some? ==>
          e.lands.value.word < CPU_WORDS && SnoopFlush(Drive(s.bus, e)) && !e.mReady)
  }

  function NextBus(s: Sys, e: Env): Bus
    requires SysShape(s)
  {
    match s.bus
    case Quiet => if e.next.Some? then Addressed(e.next.value) else Quiet
    case Addressed(q) => Asserted(q)
    case Asserted(q) => Waiting(q)
    case Waiting(q) => if Ports(s, e).cReady then Quiet else Waiting(q)
  }

  function NextMem(s: Sys, e: Env): Mem
    requires SysShape(s) && EnvOk(s, e)
  {
    var o := Ports(s, e);
    match e.lands
    case Some(f) => Write(s.mem, f.word, f.data, f.be)
    case None =>
      if e.mReady && o.mWr && o.mAddr / 2 < CPU_WORDS
      then Write(s.mem, o.mAddr / 2, o.mWdata, o.mBe) else s.mem
  }

  function SysStep(s: Sys, e: Env): (n: Sys)
    requires SysShape(s) && EnvOk(s, e)
    ensures SysShape(n)
  {
    Sys(Step(s.regs, Drive(s.bus, e)), NextBus(s, e), NextMem(s, e))
  }

  function Init(m: Mem): Sys { Sys(Reset(), Quiet, m) }

  /** The memory the CPU is meant to see. */
  function Flat(s: Sys): Mem
    requires SysShape(s)
  {
    Overlay(s.mem, s.regs.queue)
  }

  // ---- the invariant -----------------------------------------------------

  ghost predicate TagsOk(r: Regs)
    requires Shape(r)
  {
    forall k, t :: 0 <= k < WAYS && 0 <= t < SETS ==> r.tags[k][t] < CPU_WORDS / 512
  }

  /** With no array write behind it, the registered lookup is current. */
  ghost predicate LookupCurrent(r: Regs)
    requires Shape(r)
  {
    !r.arrayWritten ==>
      forall k :: 0 <= k < WAYS ==>
        r.rTags[k] == r.tags[k][SetOf(r.rWord)] && r.rData[k] == r.data[k][SaOf(r.rWord)]
  }

  /** The BIU drives the address a cycle before it asks. */
  predicate LookupAnswersBus(s: Sys) {
    s.bus.Asserted? || s.bus.Waiting? ==> s.regs.rWord == s.bus.q.addr / 2
  }

  /** A tag is in a set at most once: way_hit is one-hot. */
  ghost predicate Distinct(r: Regs)
    requires Shape(r)
  {
    forall t, j, k :: 0 <= t < SETS && 0 <= j < k < WAYS && r.valid[t][j] && r.valid[t][k]
      ==> r.tags[j][t] != r.tags[k][t]
  }

  ghost predicate LineMatches(r: Regs, flat: Mem, k: nat, t: nat)
    requires Shape(r) && TagsOk(r) && k < WAYS && t < SETS
  {
    forall o :: 0 <= o < LINE_WORDS ==> r.data[k][t * 4 + o] == flat[WordOf(r.tags[k][t], t, o)]
  }

  ghost predicate Coherent(r: Regs, flat: Mem)
    requires Shape(r) && TagsOk(r)
  {
    forall k, t :: 0 <= k < WAYS && 0 <= t < SETS && r.valid[t][k] ==> LineMatches(r, flat, k, t)
  }

  /** Has word `o` of the line being filled landed? */
  predicate Landed(r: Regs, o: nat)
    requires r.fOff < 4 && o < 4
  {
    (r.fOff + 3 - o) % 4 < r.fCnt
  }

  /** The landed words of the line being filled are the flat memory's. */
  ghost predicate FillMatches(r: Regs, flat: Mem)
    requires Shape(r)
  {
    forall o :: 0 <= o < LINE_WORDS && Landed(r, o) ==>
      r.data[r.fWay][r.fSet * 4 + o] == flat[WordOf(r.fTag, r.fSet, o)]
  }

  ghost predicate Filling(r: Regs, flat: Mem)
    requires Shape(r)
  {
    r.fsm == Fill ==>
      && r.fCnt < LINE_WORDS
      && !r.valid[r.fSet][r.fWay]
      && (forall k :: 0 <= k < WAYS && r.valid[r.fSet][k] ==> r.tags[k][r.fSet] != r.fTag)
      && (forall n :: 0 <= n < |r.queue| ==> !Covers(r.queue[n], r.fTag * 128 + r.fSet))
      && (!r.fPoison ==> FillMatches(r, flat))
  }

  /** The first word of a fill is awaited by the read that missed. */
  predicate FillAwaited(s: Sys)
  {
    s.regs.fsm == Fill && s.regs.fCnt == 0 ==>
      && s.bus.Waiting? && !s.bus.q.wr
      && s.bus.q.addr / 2 == WordOf(s.regs.fTag, s.regs.fSet, s.regs.fOff)
  }

  /** A hit about to be taken by the BIU has not turned into a miss meanwhile. */
  predicate HitStands(s: Sys)
    requires SysShape(s)
  {
    s.regs.hitAck && s.bus.Waiting? ==>
      && !s.bus.q.wr
      && (s.regs.fsm == Drain || (s.regs.fsm == Idle && !s.regs.arrayWritten && HitAny(s.regs)))
  }

  ghost predicate Inv(s: Sys) {
    && SysShape(s)
    && TagsOk(s.regs)
    && LookupCurrent(s.regs)
    && LookupAnswersBus(s)
    && Distinct(s.regs)
    && Coherent(s.regs, Flat(s))
    && Filling(s.regs, Flat(s))
    && FillAwaited(s)
    && HitStands(s)
    && (s.regs.fsm == Drain ==> |s.regs.queue| > 0)
  }

  // ---- one step ----------------------------------------------------------

  /** What one clock does to the flat memory: a store the CPU has just posted,
      or another master's write. Drains, fills and flushes do nothing to it. */
  lemma FlatStep(s: Sys, e: Env)
    requires Inv(s) && EnvOk(s, e)
    ensures e.lands.None? ==>
      Flat(SysStep(s, e)) ==
        if Push(s.regs, Drive(s.bus, e))
        then Write(Flat(s), s.bus.q.addr / 2, s.bus.q.data, s.bus.q.be) else Flat(s)
    ensures e.lands.Some? && !Push(s.regs, Drive(s.bus, e)) ==>
      Flat(SysStep(s, e)) == Overlay(NextMem(s, e), s.regs.queue)
    ensures e.lands.Some? && Push(s.regs, Drive(s.bus, e)) ==>
      Flat(SysStep(s, e)) ==
        Write(Overlay(NextMem(s, e), s.regs.queue), s.bus.q.addr / 2, s.bus.q.data, s.bus.q.be)
  {
    hide HitData, HitWay, StepPlru, StepData, StepValid, StepTags, StepFsm, Victim, Coherent;
    hide Distinct, LookupCurrent, Filling, TagsOk, LineMatches;
    var i := Drive(s.bus, e);
    if Push(s.regs, i) {
      OverlayAppend(NextMem(s, e), s.regs.queue, Entry(i.cAddr, i.cWdata, i.cBe));
    }
  }

  lemma StepTagsOk(r: Regs, i: In)
    requires Shape(r) && InOk(i) && TagsOk(r)
    ensures TagsOk(Step(r, i))
  {
    hide StepData, StepValid, StepPlru, HitData, HitWay, Victim, WordOf;
  }

  lemma StepLookup(r: Regs, i: In)
    requires Shape(r) && InOk(i)
    ensures LookupCurrent(Step(r, i))
  {
    hide StepValid, StepPlru, HitData, HitWay, Victim, WordOf, SetOf, SaOf;
    var n := Step(r, i);
    if !n.arrayWritten {
      assert StepTags(r, i) == r.tags;
      forall k | 0 <= k < WAYS
        ensures n.data[k] == r.data[k]
      {
        var w := ArrayPort(r, i);
        assert Merge(r.data[w.way][w.sa], w.data, w.be) == r.data[w.way][w.sa];
      }
    }
  }

  /** Exactly one way answers, so the OR of the masked ways is that way. */
  lemma {:induction false} OrOfNone(hits: seq<bool>, words: seq<Word>)
    requires |hits| == |words|
    requires forall n :: 0 <= n < |hits| ==> !hits[n]
    ensures OrWays(hits, words) == ZERO
  {
    if hits != [] { OrOfNone(hits[1..], words[1..]); }
  }

  lemma {:induction false} OrOfOne(hits: seq<bool>, words: seq<Word>, k: nat)
    requires |hits| == |words| && k < |hits|
    requires forall n :: 0 <= n < |hits| ==> hits[n] == (n == k)
    ensures OrWays(hits, words) == words[k]
  {
    if k == 0 {
      OrOfNone(hits[1..], words[1..]);
    } else {
      OrOfOne(hits[1..], words[1..], k - 1);
    }
  }

  lemma HitIsOneHot(r: Regs, k: nat)
    requires Shape(r) && LookupCurrent(r) && Distinct(r)
    requires !r.arrayWritten && k < WAYS && WayHit(r, k)
    ensures forall j :: 0 <= j < WAYS && j != k ==> !WayHit(r, j)
    ensures HitWay(r) == k
    ensures HitData(r) == r.data[k][SaOf(r.rWord)]
    ensures r.tags[k][SetOf(r.rWord)] == TagOf(r.rWord)
  {
    OrOfOne(HitVector(r), r.rData, k);
  }

  /** A store that hits changes the cached word and the flat word together. */
  lemma StoreKeepsLine(r: Regs, i: In, flat: Mem, k: nat, t: nat)
    requires Shape(r) && InOk(i) && TagsOk(r) && LookupCurrent(r) && Distinct(r)
    requires Push(r, i) && r.rWord == i.cAddr / 2
    requires k < WAYS && t < SETS && r.valid[t][k] && LineMatches(r, flat, k, t)
    ensures var after := Write(flat, r.rWord, i.cWdata, i.cBe);
      forall o :: 0 <= o < LINE_WORDS ==>
        StepData(r, i)[k][t * 4 + o] == after[WordOf(r.tags[k][t], t, o)]
  {
    hide Step, HitData, HitWay, TagOf, SetOf, SaOf, LineOf;
    var after := Write(flat, r.rWord, i.cWdata, i.cBe);
    var tag := r.tags[k][t];
    if HitAny(r) {
      var j :| 0 <= j < WAYS && WayHit(r, j);
      HitIsOneHot(r, j);
    }
    forall o | 0 <= o < LINE_WORDS
      ensures StepData(r, i)[k][t * 4 + o] == after[WordOf(tag, t, o)]
    {
      SameWord(tag, t, o, r.rWord);
      if WordOf(tag, t, o) == r.rWord {
        assert WayHit(r, k);
      }
    }
  }

  /** A word that lands touches no other way's line. */
  lemma FillSparesLine(r: Regs, i: In, flat: Mem, k: nat, t: nat)
    requires Shape(r) && InOk(i) && TagsOk(r) && r.fsm == Fill
    requires k < WAYS && t < SETS && (k != r.fWay || t != r.fSet) && LineMatches(r, flat, k, t)
    ensures TagsOk(Step(r, i)) && LineMatches(Step(r, i), flat, k, t)
  {
    assert Step(r, i).tags[k][t] == r.tags[k][t];
    forall o | 0 <= o < LINE_WORDS
      ensures Step(r, i).data[k][t * 4 + o] == flat[WordOf(r.tags[k][t], t, o)]
    {
    }
  }

  lemma FillAdvances(r: Regs, i: In, flat: Mem, o: nat)
    requires Shape(r) && InOk(i) && r.fsm == Fill && i.mReady && r.fCnt < LINE_WORDS && o < LINE_WORDS
    requires FillMatches(r, flat)
    requires i.mRdata == flat[WordOf(r.fTag, r.fSet, r.fOff)]
    requires Landed(r, o) || o == r.fOff
    ensures StepData(r, i)[r.fWay][r.fSet * 4 + o] == flat[WordOf(r.fTag, r.fSet, o)]
  {
  }

  lemma FillCompletesLine(r: Regs, i: In, flat: Mem)
    requires Shape(r) && InOk(i) && TagsOk(r)
    requires FillLast(r, i) && !r.fPoison && !SnoopFlush(i)
    requires FillMatches(r, flat)
    requires i.mRdata == flat[WordOf(r.fTag, r.fSet, r.fOff)]
    ensures TagsOk(Step(r, i)) && LineMatches(Step(r, i), flat, r.fWay, r.fSet)
  {
    hide HitData, HitWay, StepPlru, StepQueue, StepValid, PlruTouch, Victim;
    assert Step(r, i).tags[r.fWay][r.fSet] == r.fTag;
    forall o | 0 <= o < LINE_WORDS
      ensures StepData(r, i)[r.fWay][r.fSet * 4 + o] == flat[WordOf(r.fTag, r.fSet, o)]
    {
      FillAdvances(r, i, flat, o);
    }
  }

  /** One clock keeps every valid line equal to the flat memory: while a line fills ... */
  lemma FillStepCoherent(r: Regs, i: In, flat: Mem)
    requires Shape(r) && InOk(i) && TagsOk(r) && r.fsm == Fill && !SnoopFlush(i)
    requires Coherent(r, flat) && Filling(r, flat)
    requires i.mReady ==> i.mRdata == flat[WordOf(r.fTag, r.fSet, r.fOff)]
    ensures TagsOk(Step(r, i)) && Coherent(Step(r, i), flat)
  {
    var n := Step(r, i);
    assert TagsOk(n);
    forall k, t | 0 <= k < WAYS && 0 <= t < SETS && n.valid[t][k]
      ensures LineMatches(n, flat, k, t)
    {
      if k == r.fWay && t == r.fSet {
        FillCompletesLine(r, i, flat);
      } else {
        assert r.valid[t][k];
        FillSparesLine(r, i, flat, k, t);
      }
    }
  }

  /** ... and otherwise. */
  lemma IdleStepCoherent(r: Regs, i: In, flat: Mem, after: Mem)
    requires Shape(r) && InOk(i) && TagsOk(r) && LookupCurrent(r) && Distinct(r)
    requires r.fsm != Fill && !SnoopFlush(i) && Coherent(r, flat)
    requires Push(r, i) ==> r.rWord == i.cAddr / 2
    requires after == if Push(r, i) then Write(flat, i.cAddr / 2, i.cWdata, i.cBe) else flat
    ensures TagsOk(Step(r, i)) && Coherent(Step(r, i), after)
  {
    var n := Step(r, i);
    assert n.tags == r.tags;
    forall k, t | 0 <= k < WAYS && 0 <= t < SETS && n.valid[t][k]
      ensures LineMatches(n, after, k, t)
    {
      assert r.valid[t][k] && LineMatches(r, flat, k, t);
      if Push(r, i) {
        StoreKeepsLine(r, i, flat, k, t);
      } else {
        assert n.data[k] == r.data[k];
      }
    }
  }

  lemma FlushCoherent(r: Regs, i: In, after: Mem)
    requires Shape(r) && InOk(i) && TagsOk(Step(r, i)) && SnoopFlush(i)
    ensures Coherent(Step(r, i), after)
  {
    hide StepData, StepTags, StepPlru, HitData, HitWay, Victim, WordOf;
  }

  lemma StepDistinct(r: Regs, i: In, flat: Mem)
    requires Shape(r) && InOk(i) && LookupCurrent(r) && Distinct(r) && Filling(r, flat)
    ensures Distinct(Step(r, i))
  {
    hide HitData, HitWay, PlruWay, PlruTouch, FirstInvalid, StepPlru, StepData, StepQueue, FillMatches;
  }

  lemma StartsFilling(r: Regs, i: In, after: Mem)
    requires Shape(r) && InOk(i) && LookupCurrent(r) && Distinct(r)
    requires MissNow(r, i) && r.rWord == i.cAddr / 2
    ensures Filling(Step(r, i), after)
  {
    hide HitData, HitWay, PlruWay, PlruTouch, FirstInvalid, StepPlru, StepData;
    var n := Step(r, i);
    SplitWord(r.rWord);
    forall k | 0 <= k < WAYS && n.valid[n.fSet][k]
      ensures n.tags[k][n.fSet] != n.fTag
    {
      assert !WayHit(r, k);
    }
  }

  lemma KeepsFilling(r: Regs, i: In, flat: Mem)
    requires Shape(r) && InOk(i) && r.fsm == Fill && Filling(r, flat)
    requires i.mReady ==> i.mRdata == flat[WordOf(r.fTag, r.fSet, r.fOff)]
    ensures var n := Step(r, i); n.fsm == Fill && !n.fPoison ==> FillMatches(n, flat)
  {
    hide HitData, HitWay, Victim, StepPlru, StepValid, StepQueue;
    var n := Step(r, i);
    if n.fsm == Fill && !n.fPoison {
      forall o | 0 <= o < LINE_WORDS && Landed(n, o)
        ensures n.data[n.fWay][n.fSet * 4 + o] == flat[WordOf(n.fTag, n.fSet, o)]
      {
        if i.mReady {
          FillAdvances(r, i, flat, o);
        } else {
          assert Landed(r, o);
        }
      }
    }
  }

  lemma StepFilling(r: Regs, i: In, flat: Mem, after: Mem)
    requires Shape(r) && InOk(i) && TagsOk(r) && LookupCurrent(r) && Distinct(r) && Filling(r, flat)
    requires i.cRd ==> r.rWord == i.cAddr / 2
    requires r.fsm == Fill && i.mReady ==> i.mRdata == flat[WordOf(r.fTag, r.fSet, r.fOff)]
    requires !SnoopFlush(i) && r.fsm == Fill ==> after == flat
    ensures Filling(Step(r, i), after)
  {
    hide HitData, HitWay, Victim, StepPlru, StepData, WordOf, HitAny;
    if MissNow(r, i) {
      StartsFilling(r, i, after);
    } else if r.fsm == Fill {
      KeepsFilling(r, i, flat);
    }
  }

  // ---- every run ---------------------------------------------------------

  /** The one way to lose a read: another master's write flushes the cache in
      the very clock a read hits, before the BIU has taken the answer. The
      request is still up a clock later, misses, and starts a fill nobody waits
      for. */
  predicate Race(s: Sys, e: Env)
    requires SysShape(s)
  {
    var i := Drive(s.bus, e);
    HitNow(s.regs, i) && SnoopFlush(i) && !Hazard(s.regs, i) && !(s.bus.Waiting? && s.regs.hitAck)
  }

  lemma InitInv(m: Mem)
    ensures Inv(Init(m)) && Flat(Init(m)) == m
  {
  }

  lemma UnpostedWord(m: Mem, q: seq<Entry>, tag: nat, t: nat, o: nat)
    requires Posted(q) && tag < CPU_WORDS / 512 && t < SETS && o < LINE_WORDS
    requires forall n :: 0 <= n < |q| ==> !Covers(q[n], tag * 128 + t)
    ensures WordOf(tag, t, o) < CPU_WORDS
    ensures Overlay(m, q)[WordOf(tag, t, o)] == m[WordOf(tag, t, o)]
  {
    JoinWord(tag, t, o);
    forall n | 0 <= n < |q|
      ensures q[n].addr / 2 != WordOf(tag, t, o)
    {
      assert !Covers(q[n], tag * 128 + t);
    }
    OverlayUntouched(m, q, WordOf(tag, t, o));
  }

  lemma FillWordIsFlat(s: Sys, e: Env)
    requires Inv(s) && EnvOk(s, e) && s.regs.fsm == Fill && e.mReady
    ensures e.mRdata == Flat(s)[WordOf(s.regs.fTag, s.regs.fSet, s.regs.fOff)]
  {
    UnpostedWord(s.mem, s.regs.queue, s.regs.fTag, s.regs.fSet, s.regs.fOff);
  }

  lemma StepHitStands(s: Sys, e: Env)
    requires Inv(s) && EnvOk(s, e) && !Race(s, e)
    ensures HitStands(SysStep(s, e))
  {
    var r, i := s.regs, Drive(s.bus, e);
    var n := SysStep(s, e);
    if HitNow(r, i) && n.bus.Waiting? && !Hazard(r, i) {
      var k :| 0 <= k < WAYS && WayHit(r, k);
      assert n.regs.tags == r.tags && n.regs.rWord == r.rWord;
      assert WayHit(n.regs, k);
    }
  }

  lemma MissIsAwaited(s: Sys, e: Env)
    requires Inv(s) && EnvOk(s, e) && MissNow(s.regs, Drive(s.bus, e))
    ensures FillAwaited(SysStep(s, e))
  {
    hide HitData, HitWay, Victim, StepPlru, StepQueue, StepValid, StepData, StepTags;
    hide Overlay, Coherent, Distinct, LookupCurrent, TagsOk, NextMem, Filling, WordOf, TagOf, SetOf, OffOf;
    SplitWord(s.regs.rWord);
  }

  lemma StepFillAwaited(s: Sys, e: Env)
    requires Inv(s) && EnvOk(s, e)
    ensures FillAwaited(SysStep(s, e))
  {
    hide HitData, HitWay, Victim, StepPlru, StepQueue, StepValid, StepData, StepTags;
    hide Overlay, Coherent, Distinct, LookupCurrent, TagsOk, NextMem, WordOf, TagOf, SetOf, OffOf;
    if MissNow(s.regs, Drive(s.bus, e)) {
      MissIsAwaited(s, e);
    }
  }

  lemma StepInv(s: Sys, e: Env)
    requires Inv(s) && EnvOk(s, e) && !Race(s, e)
    ensures Inv(SysStep(s, e))
  {
    hide Outputs, Overlay, WordOf, Coherent, Distinct, LookupCurrent, FillAwaited;
    hide StepData, StepTags, StepPlru, HitData, HitWay, Victim;
    var r, i := s.regs, Drive(s.bus, e);
    var n := SysStep(s, e);
    if r.fsm == Fill && e.mReady {
      FillWordIsFlat(s, e);
    }
    StepTagsOk(r, i);
    StepLookup(r, i);
    StepHitStands(s, e);
    StepFillAwaited(s, e);
    StepDistinct(r, i, Flat(s));
    FlatStep(s, e);
    StepFilling(r, i, Flat(s), Flat(n));
    if SnoopFlush(i) {
      FlushCoherent(r, i, Flat(n));
    } else if r.fsm == Fill {
      FillStepCoherent(r, i, Flat(s));
    } else {
      IdleStepCoherent(r, i, Flat(s), Flat(n));
    }
  }

  /** A run: one more state than clocks. */
  datatype Trace = Trace(states: seq<Sys>, env: seq<Env>)

  ghost predicate IsRun(s0: Sys, t: Trace) {
    && |t.states| == |t.env| + 1
    && t.states[0] == s0
    && (forall k :: 0 <= k < |t.states| ==> SysShape(t.states[k]))
    && (forall k :: 0 <= k < |t.env| ==>
          EnvOk(t.states[k], t.env[k]) && t.states[k + 1] == SysStep(t.states[k], t.env[k]))
  }

  ghost predicate RaceFree(t: Trace)
    requires |t.states| == |t.env| + 1 && forall k :: 0 <= k < |t.states| ==> SysShape(t.states[k])
  {
    forall k :: 0 <= k < |t.env| ==> !Race(t.states[k], t.env[k])
  }

  lemma {:induction false} RunInv(s0: Sys, t: Trace, k: nat)
    requires Inv(s0) && IsRun(s0, t) && RaceFree(t) && k < |t.states|
    ensures Inv(t.states[k])
  {
    if k > 0 {
      RunInv(s0, t, k - 1);
      StepInv(t.states[k - 1], t.env[k - 1]);
    }
  }

  /** Is the CPU handed a read's answer in this clock? */
  predicate ReadAnswered(s: Sys, e: Env)
    requires SysShape(s)
  {
    s.bus.Waiting? && !s.bus.q.wr && Ports(s, e).cReady
  }

  predicate WriteAccepted(s: Sys, e: Env)
    requires SysShape(s)
  {
    s.bus.Waiting? && s.bus.q.wr && Ports(s, e).cReady
  }

  lemma HitIsFlat(r: Regs, flat: Mem)
    requires Shape(r) && TagsOk(r) && LookupCurrent(r) && Distinct(r) && Coherent(r, flat)
    requires !r.arrayWritten && HitAny(r)
    ensures HitData(r) == flat[r.rWord]
  {
    hide HitData, HitWay;
    var k :| 0 <= k < WAYS && WayHit(r, k);
    HitIsOneHot(r, k);
    SplitWord(r.rWord);
    assert LineMatches(r, flat, k, SetOf(r.rWord));
  }

  /** A hit was looked up one clock before it is delivered. */
  lemma HitHoldsFlat(s: Sys, e: Env)
    requires Inv(s) && EnvOk(s, e) && HitNow(s.regs, Drive(s.bus, e))
    ensures SysStep(s, e).regs.hold == Flat(s)[s.regs.rWord]
  {
    hide HitData, Coherent, Distinct, LookupCurrent, Filling, StepData, StepTags;
    hide StepValid, StepPlru, StepQueue, Victim;
    HitIsFlat(s.regs, Flat(s));
  }

  /** The answer is the flat memory's word, now or in the clock of the lookup. */
  lemma AnswerIsFlat(p: Sys, d: Env, e: Env)
    requires Inv(p) && EnvOk(p, d) && !Race(p, d)
    requires var s := SysStep(p, d); EnvOk(s, e) && ReadAnswered(s, e)
    ensures var s := SysStep(p, d);
      var a := s.bus.q.addr / 2;
      || Ports(s, e).cRdata == Flat(s)[a]
      || (p.bus in {Asserted(s.bus.q), Waiting(s.bus.q)} && Ports(s, e).cRdata == Flat(p)[a])
  {
    hide Overlay, Coherent, Distinct, LookupCurrent, HitData, StepData, StepValid, StepPlru;
    hide StepTags, PlruTouch, PlruWay, FirstInvalid, Victim;
    StepInv(p, d);
    var s := SysStep(p, d);
    if FillAck(s.regs, Drive(s.bus, e)) {
      FillWordIsFlat(s, e);
    } else {
      HitHoldsFlat(p, d);
    }
  }

  // ---- the flat memory the CPU and the other masters share ---------------

  /** Lanes of word `w` that a posted write is still going to overwrite. */
  function Shadow(q: seq<Entry>, w: nat): Lanes {
    if q == [] then Lanes(false, false) else
      var rest := Shadow(q[1..], w);
      if q[0].addr / 2 == w then Lanes(rest.lo || q[0].be.lo, rest.hi || q[0].be.hi) else rest
  }

  function Minus(be: Lanes, hidden: Lanes): Lanes {
    Lanes(be.lo && !hidden.lo, be.hi && !hidden.hi)
  }

  /** A write slipped in under posted ones only shows in the lanes they leave. */
  lemma {:induction false} OverlayUnderneath(m: Mem, q: seq<Entry>, w: nat, d: Word, be: Lanes)
    requires Posted(q) && w < CPU_WORDS
    ensures Overlay(Write(m, w, d, be), q) == Write(Overlay(m, q), w, d, Minus(be, Shadow(q, w)))
    decreases |q|
  {
    if q != [] {
      var e := q[0];
      var left := if e.addr / 2 == w then Minus(be, e.be) else be;
      assert Apply(Write(m, w, d, be), e) == Write(Apply(m, e), w, d, left);
      OverlayUnderneath(Apply(m, e), q[1..], w, d, left);
    }
  }

  /** The reference: a memory written by accepted CPU stores and by foreign
      writes, in the order they happen; a foreign write loses the lanes an
      earlier CPU store has yet to drain to. */
  function ArchStep(a: Mem, s: Sys, e: Env): Mem
    requires SysShape(s) && EnvOk(s, e)
  {
    var seen := match e.lands
      case Some(f) => Write(a, f.word, f.data, Minus(f.be, Shadow(s.regs.queue, f.word)))
      case None => a;
    if WriteAccepted(s, e) then Write(seen, s.bus.q.addr / 2, s.bus.q.data, s.bus.q.be) else seen
  }

  ghost function Arch(m: Mem, t: Trace, k: nat): Mem
    requires IsRun(Init(m), t) && k < |t.states|
  {
    if k == 0 then m else ArchStep(Arch(m, t, k - 1), t.states[k - 1], t.env[k - 1])
  }

  /** While a store is on the bus it may already be posted (even twice). */
  predicate Agree(bus: Bus, flat: Mem, arch: Mem)
    requires bus.Quiet? || RequestOk(bus.q)
  {
    if (bus.Asserted? || bus.Waiting?) && bus.q.wr then
      Write(flat, bus.q.addr / 2, bus.q.data, bus.q.be)
        == Write(arch, bus.q.addr / 2, bus.q.data, bus.q.be)
    else flat == arch
  }

  /** Two memories that agree but for lanes about to be written agree so after
      any one write. */
  lemma WriteKeepsAgreement(x: Mem, y: Mem, q: Request, w: nat, d: Word, be: Lanes)
    requires RequestOk(q) && w < CPU_WORDS
    requires Write(x, q.addr / 2, q.data, q.be) == Write(y, q.addr / 2, q.data, q.be)
    ensures Write(Write(x, w, d, be), q.addr / 2, q.data, q.be)
      == Write(Write(y, w, d, be), q.addr / 2, q.data, q.be)
  {
    var c := q.addr / 2;
    var x', y' := Write(Write(x, w, d, be), c, q.data, q.be), Write(Write(y, w, d, be), c, q.data, q.be);
    forall n | 0 <= n < CPU_WORDS
      ensures x'[n] == y'[n]
    {
      assert Write(x, c, q.data, q.be)[n] == Write(y, c, q.data, q.be)[n];
    }
  }

  lemma StepAgrees(s: Sys, e: Env, arch: Mem)
    requires Inv(s) && EnvOk(s, e) && Agree(s.bus, Flat(s), arch)
    ensures Agree(SysStep(s, e).bus, Flat(SysStep(s, e)), ArchStep(arch, s, e))
  {
    hide Step, Overlay, WordOf, Coherent, Distinct, LookupCurrent, LookupAnswersBus, Shadow, LineMatches, TagsOk;
    FlatStep(s, e);
    var flat := Flat(s);
    match e.lands {
      case Some(f) =>
        OverlayUnderneath(s.mem, s.regs.queue, f.word, f.data, f.be);
        var be := Minus(f.be, Shadow(s.regs.queue, f.word));
        if s.bus.Asserted? || s.bus.Waiting? {
          if s.bus.q.wr {
            WriteKeepsAgreement(flat, arch, s.bus.q, f.word, f.data, be);
          }
        }
      case None =>
    }
  }

  lemma {:induction false} RunAgrees(m: Mem, t: Trace, k: nat)
    requires IsRun(Init(m), t) && RaceFree(t) && k < |t.states|
    ensures Inv(t.states[k]) && Agree(t.states[k].bus, Flat(t.states[k]), Arch(m, t, k))
  {
    hide SysStep, EnvOk, ArchStep, Race, Overlay;
    InitInv(m);
    RunInv(Init(m), t, k);
    if k > 0 {
      RunAgrees(m, t, k - 1);
      StepAgrees(t.states[k - 1], t.env[k - 1], Arch(m, t, k - 1));
    }
  }

  lemma AnswerIsArch(p: Sys, d: Env, e: Env, arch: Mem)
    requires Inv(p) && EnvOk(p, d) && !Race(p, d) && Agree(p.bus, Flat(p), arch)
    requires var s := SysStep(p, d); EnvOk(s, e) && ReadAnswered(s, e)
    ensures var s := SysStep(p, d);
      var a, got := s.bus.q.addr / 2, Ports(s, e).cRdata;
      || got == ArchStep(arch, p, d)[a]
      || (p.bus in {Asserted(s.bus.q), Waiting(s.bus.q)} && got == arch[a])
    ensures d.lands.None? ==>
      Ports(SysStep(p, d), e).cRdata == ArchStep(arch, p, d)[SysStep(p, d).bus.q.addr / 2]
  {
    AnswerIsFlat(p, d, e);
    StepAgrees(p, d, arch);
    FlatStep(p, d);
  }

  /** THE CACHE IS INVISIBLE. In every run, whatever the memory's latency, the
      snoops and the foreign writes, and provided no race: a read is answered
      with the reference memory's word at that moment, or, for a hit, at the
      clock before, when the same read was already on the bus. */
  lemma ReadsSeeFlatMemory(m: Mem, t: Trace, k: nat)
    requires IsRun(Init(m), t) && RaceFree(t) && k < |t.env|
    requires ReadAnswered(t.states[k], t.env[k])
    ensures k > 0
    ensures var q := t.states[k].bus.q;
      var got := Ports(t.states[k], t.env[k]).cRdata;
      || got == Arch(m, t, k)[q.addr / 2]
      || (t.states[k - 1].bus in {Asserted(q), Waiting(q)} && got == Arch(m, t, k - 1)[q.addr / 2])
    ensures t.env[k - 1].lands.None? ==>
      Ports(t.states[k], t.env[k]).cRdata == Arch(m, t, k)[t.states[k].bus.q.addr / 2]
  {
    hide SysStep, EnvOk, Flat, Agree, ArchStep, Race, Ports;
    if k > 0 {
      RunAgrees(m, t, k - 1);
      AnswerIsArch(t.states[k - 1], t.env[k - 1], t.env[k], Arch(m, t, k - 1));
    }
  }

  // ---- ... and exactly what a race costs ---------------------------------

  const CALM := Env(0, ZERO, BOTH, None, false, ZERO, false, 0, None)

  /** Did clock `k` of a run hand a read something its word never held, in that
      clock or the one before? */
  ghost predicate ReadWrong(before: Mem, t: Trace, k: nat)
    requires |t.states| == |t.env| + 1 && k < |t.env|
    requires forall j :: 0 <= j < |t.states| ==> SysShape(t.states[j])
  {
    var s := t.states[k];
    var last := if k == 0 then before else Flat(t.states[k - 1]);
    && ReadAnswered(s, t.env[k])
    && Ports(s, t.env[k]).cRdata != Flat(s)[s.bus.q.addr / 2]
    && Ports(s, t.env[k]).cRdata != last[s.bus.q.addr / 2]
  }

  /** A fill nobody waits for, sitting still while the memory is busy. */
  predicate Stray(f: Sys, w: nat)
    requires SysShape(f)
  {
    && f.regs.fsm == Fill && f.regs.fCnt == 0 && !f.regs.gap && !f.regs.hitAck
    && WordOf(f.regs.fTag, f.regs.fSet, f.regs.fOff) == w < CPU_WORDS
  }

  /** After a race the BIU has its answer and leaves, but a fill of the old
      address is under way. */
  lemma RaceLeavesStrayFill(s: Sys, e: Env)
    requires Inv(s) && EnvOk(s, e) && Race(s, e)
    ensures var n := SysStep(s, e); var f := SysStep(n, CALM); var w := s.bus.q.addr / 2;
      && EnvOk(n, CALM) && !Race(n, CALM)
      && f.bus == Quiet && Stray(f, w)
      && Flat(f) == Flat(n) && f.mem[w] == Flat(f)[w]
  {
    hide HitData, HitWay, PlruTouch, PlruWay, FirstInvalid, StepPlru, StepData, StepTags;
    hide Coherent, Distinct, Filling, LineMatches;
    var n := SysStep(s, e);
    SplitWord(n.regs.rWord);
    UnpostedWord(n.mem, n.regs.queue, TagOf(n.regs.rWord), SetOf(n.regs.rWord), OffOf(n.regs.rWord));
  }

  lemma StrayWaits(f: Sys, e: Env, w: nat)
    requires SysShape(f) && Stray(f, w) && EnvOk(f, e) && !e.mReady && !e.snoopWr
    ensures var n := SysStep(f, e);
      Stray(n, w) && n.mem == f.mem && n.regs.queue == f.regs.queue && !Race(f, e)
        && n.bus == NextBus(f, e)
  {
    hide HitData, HitWay, Victim, StepPlru, StepData, StepValid, StepTags;
  }

  function ReadOf(b: nat): Request { Request(2 * b, false, ZERO, BOTH) }

  function Ask(b: nat): Env { CALM.(next := Some(ReadOf(b))) }

  function Prepend(n: Sys, e: Env, t: Trace): Trace { Trace([n] + t.states, [e] + t.env) }

  /** A bad run stays bad with a clock in front of it. */
  lemma PrependClock(n: Sys, e: Env, t: Trace, k: nat, before: Mem)
    requires SysShape(n) && EnvOk(n, e) && !Race(n, e)
    requires IsRun(SysStep(n, e), t) && RaceFree(t) && k < |t.env| && ReadWrong(Flat(n), t, k)
    ensures IsRun(n, Prepend(n, e, t)) && RaceFree(Prepend(n, e, t))
    ensures ReadWrong(before, Prepend(n, e, t), k + 1)
  {
    hide EnvOk, SysStep, Race, Flat, Ports, SysShape, ReadAnswered;
    var p := Prepend(n, e, t);
    assert forall j :: 0 <= j < |t.states| ==> p.states[j + 1] == t.states[j];
    assert forall j :: 0 <= j < |t.env| ==> p.env[j + 1] == t.env[j];
    forall j | 0 <= j < |p.states|
      ensures SysShape(p.states[j])
    {
      if j > 0 { assert p.states[j] == t.states[j - 1]; }
    }
    forall j | 0 <= j < |p.env|
      ensures EnvOk(p.states[j], p.env[j]) && p.states[j + 1] == SysStep(p.states[j], p.env[j])
      ensures !Race(p.states[j], p.env[j])
    {
      if j > 0 { assert p.states[j] == t.states[j - 1] && p.env[j] == t.env[j - 1]; }
    }
  }

  /** Meanwhile the BIU asks for another word and reaches T3, where it is handed
      the stray fill's. */
  lemma StrayAnswersNextRead(i: Sys, w: nat, b: nat, before: Mem) returns (t: Trace)
    requires SysShape(i) && Stray(i, w) && i.bus == Waiting(ReadOf(b)) && b < CPU_WORDS
    requires Flat(i)[b] != i.mem[w] && before[b] != i.mem[w]
    ensures IsRun(i, t) && RaceFree(t) && |t.env| == 1 && ReadWrong(before, t, 0)
  {
    hide Step, WordOf, Overlay, Posted;
    var deliver := CALM.(mReady := true, mRdata := i.mem[w]);
    assert EnvOk(i, deliver);
    t := Trace([i, SysStep(i, deliver)], [deliver]);
  }

  lemma StrayMeetsRead(f: Sys, w: nat, b: nat, before: Mem) returns (t: Trace)
    requires SysShape(f) && f.bus == Quiet && Stray(f, w) && b < CPU_WORDS
    requires Flat(f)[b] != f.mem[w]
    ensures IsRun(f, t) && RaceFree(t) && |t.env| == 4 && ReadWrong(before, t, 3)
  {
    hide Step, Race, WordOf, Overlay, NextMem;
    StrayWaits(f, Ask(b), w);
    var g := SysStep(f, Ask(b));
    StrayWaits(g, CALM, w);
    var h := SysStep(g, CALM);
    StrayWaits(h, CALM, w);
    var i := SysStep(h, CALM);
    t := StrayAnswersNextRead(i, w, b, Flat(h));
    PrependClock(h, CALM, t, 0, Flat(g));
    t := Prepend(h, CALM, t);
    PrependClock(g, CALM, t, 1, Flat(f));
    t := Prepend(g, CALM, t);
    PrependClock(f, Ask(b), t, 2, before);
    t := Prepend(f, Ask(b), t);
  }

  lemma RaceMisleads(s: Sys, e: Env, b: nat) returns (t: Trace)
    requires Inv(s) && EnvOk(s, e) && Race(s, e) && b < CPU_WORDS
    requires Flat(SysStep(s, e))[b] != Flat(SysStep(s, e))[s.bus.q.addr / 2]
    ensures IsRun(SysStep(s, e), t) && RaceFree(t) && |t.env| == 5 && ReadWrong(Flat(s), t, 4)
  {
    RaceLeavesStrayFill(s, e);
    var n := SysStep(s, e);
    t := StrayMeetsRead(SysStep(n, CALM), s.bus.q.addr / 2, b, Flat(n));
    PrependClock(n, CALM, t, 3, Flat(s));
    t := Prepend(n, CALM, t);
  }

  lemma {:induction false} RunNeverWrong(s: Sys, e: Env, t: Trace, k: nat)
    requires Inv(s) && EnvOk(s, e) && !Race(s, e)
    requires IsRun(SysStep(s, e), t) && RaceFree(t) && k < |t.env|
    ensures !ReadWrong(Flat(s), t, k)
  {
    StepInv(s, e);
    if k == 0 {
      if ReadAnswered(t.states[0], t.env[0]) {
        AnswerIsFlat(s, e, t.env[0]);
      }
    } else {
      RunInv(SysStep(s, e), t, k - 1);
      if ReadAnswered(t.states[k], t.env[k]) {
        AnswerIsFlat(t.states[k - 1], t.env[k - 1], t.env[k]);
      }
    }
  }

  /** THE RACE IS EXACTLY WHAT GOES WRONG. From any good state whose memory is
      not all one word, a clock leaves some later read open to a wrong answer
      if and only if it is a race. */
  lemma ReadsGoWrongExactlyByRace(s: Sys, e: Env)
    requires Inv(s) && EnvOk(s, e)
    requires forall w :: 0 <= w < CPU_WORDS ==>
      exists b :: 0 <= b < CPU_WORDS && Flat(SysStep(s, e))[b] != Flat(SysStep(s, e))[w]
    ensures Race(s, e) <==>
      exists t: Trace, k :: 0 <= k < |t.env| && IsRun(SysStep(s, e), t) && RaceFree(t)
        && ReadWrong(Flat(s), t, k)
  {
    hide SysStep, Flat, ReadWrong;
    if Race(s, e) {
      var b :| 0 <= b < CPU_WORDS && Flat(SysStep(s, e))[b] != Flat(SysStep(s, e))[s.bus.q.addr / 2];
      var t := RaceMisleads(s, e, b);
      assert 4 < |t.env|;
    } else {
      forall t: Trace, k | 0 <= k < |t.env| && IsRun(SysStep(s, e), t) && RaceFree(t)
        ensures !ReadWrong(Flat(s), t, k)
      {
        RunNeverWrong(s, e, t, k);
      }
    }
  }
}