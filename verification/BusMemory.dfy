/** modules/biu.sv in front of modules/memory_controller.sv: the bus unit over the
    whole memory path. To the CPU, RAM is plain bytes. */
module BusMemory {
  import opened Machine
  import B = Biu
  import BR = BiuRuns
  import C = Cache
  import CM = CacheMemory
  import MP = MemoryProgress
  import MS = MemorySystem
  import S = Sdram
  import SS = SdramSystem

  predicate IsRam(c: B.Cycle) { !c.io && c.addr < 0xA_0000 }

  /** What the stores to RAM among a bus's cycles leave of some bytes. */
  function BytesAfter(was: BR.Bytes, seen: seq<BR.Seen>): BR.Bytes
    requires BR.Reachable(seen)
  {
    if seen == [] then was
    else
      var before, c := BytesAfter(was, seen[..|seen| - 1]), seen[|seen| - 1].c;
      if c.wr && IsRam(c) then BR.WriteLanes(before, c) else before
  }

  /** Every cycle that reads RAM shows the two bytes the stores before it left. */
  ghost predicate PlainMemory(was: BR.Bytes, seen: seq<BR.Seen>)
    requires BR.Reachable(seen)
  {
    forall n :: 0 <= n < |seen| && IsRam(seen[n].c) && !seen[n].c.wr ==>
      seen[n].din == BR.BusData(BytesAfter(was, seen[..n]), seen[n].c.addr)
  }

  // ---- one clock of the wires ----------------------------------------------------------

  /** The cache's ready and data are the bus unit's in its RAM cycles, and what the cache
      is next asked is the bus unit's next RAM cycle. */
  predicate Wired(r: B.Regs, i: B.In, s: MS.Sys, e: MS.Env)
    requires B.Shape(r) && MS.Shape(s)
  {
    var out := CM.Ports(s.cache, MS.ToCache(s, e));
    && (!BR.CacheBus(r).Quiet? ==> i.ready == out.cReady)
    && (BR.CacheBus(r).Waiting? && !r.cur.wr && i.ready ==> i.din == out.cRdata)
    && (BR.CacheBus(r).Quiet? ==>
          e.next == match BR.CacheBus(B.Step(r, i)) case Addressed(q) => Some(q) case _ => None)
  }

  datatype Run = Run(regs: seq<B.Regs>, ins: seq<B.In>, books: seq<BR.Books>, states: seq<MS.Sys>, envs: seq<MS.Env>)

  /** Both halves from power-up, clock by clock on the same wires. */
  ghost predicate IsRun(u: Run, mem: S.Mem, cfg: SS.Config) {
    && BR.IsBookedRun(u.regs, u.ins, u.books) && MS.IsRun(u.states, u.envs, mem, cfg)
    && |u.ins| == |u.envs|
    && forall k :: 0 <= k < |u.ins| ==> Wired(u.regs[k], u.ins[k], u.states[k], u.envs[k])
  }

  lemma {:induction false} BusesAgree(u: Run, mem: S.Mem, cfg: SS.Config, k: nat)
    requires IsRun(u, mem, cfg) && k < |u.regs|
    ensures u.states[k].cache.bus == BR.CacheBus(u.regs[k])
  {
    hide MS.Inv, MS.EnvOk, B.Step, CM.SysShape, CM.EnvOk, SS.SysStep, C.Step, CM.NextMem, MS.ToCache, CM.Ports;
    hide BR.BooksStep, SS.Shape, B.Shape;
    if k > 0 {
      BusesAgree(u, mem, cfg, k - 1);
      MS.RunInv(u.states, u.envs, mem, cfg, k - 1);
      var r, i, s, e := u.regs[k - 1], u.ins[k - 1], u.states[k - 1], u.envs[k - 1];
      assert Wired(r, i, s, e);
      NextIsPassedOn(s, e);
      BR.DrivesTheCacheBus(r, i, s.cache, MS.ToCache(s, e));
      assert u.states[k] == MS.Step(s, e, cfg);
    }
  }

  lemma NextIsPassedOn(s: MS.Sys, e: MS.Env)
    requires MS.Shape(s)
    ensures MS.ToCache(s, e).next == e.next
  {
    hide SS.Answers;
  }

  // ---- the log of the bus ---------------------------------------------------------------

  lemma {:induction false} BusInSpace(u: Run, mem: S.Mem, cfg: SS.Config, k: nat)
    requires IsRun(u, mem, cfg) && k < |u.books|
    ensures BR.Reachable(u.books[k].bus)
  {
    hide MS.IsRun, B.Step, Wired;
    if k > 0 { BusInSpace(u, mem, cfg, k - 1); }
  }

  /** The reference memory the cache answers from, as bytes. */
  ghost function Reference(u: Run, mem: S.Mem, cfg: SS.Config, k: nat): BR.Bytes
    requires IsRun(u, mem, cfg) && k < |u.states|
  {
    MS.CacheRuns(u.states, u.envs, mem, cfg);
    BR.ByteView(CM.Arch(MS.Low(mem), MS.CacheTrace(u.states, u.envs), k))
  }

  /** One clock of the reference, by what completes on the bus. */
  lemma ReferenceStep(u: Run, mem: S.Mem, cfg: SS.Config, k: nat)
    requires IsRun(u, mem, cfg) && MS.WritesAboveCpu(u.envs) && k < |u.ins|
    ensures var r, i := u.regs[k], u.ins[k];
      Reference(u, mem, cfg, k + 1) ==
        if B.Transfers(r, i) && r.cur.wr && IsRam(r.cur) then BR.WriteLanes(Reference(u, mem, cfg, k), r.cur)
        else Reference(u, mem, cfg, k)
  {
    hide MS.Inv, MS.EnvOk, MS.Step, B.Step, CM.SysShape, CM.EnvOk, SS.SysStep, CM.SysStep, CM.NextMem, MS.ToCache;
    hide CM.Ports, BR.BooksStep, SS.Shape, BR.ByteView, BR.WriteLanes, CM.Shadow, CM.Write, CM.Race;
    MS.CacheRuns(u.states, u.envs, mem, cfg);
    BusesAgree(u, mem, cfg, k);
    var r, i, s, e := u.regs[k], u.ins[k], u.states[k], u.envs[k];
    assert Wired(r, i, s, e);
    MS.AboveCpuIsUnseen(s, e);
    var t := MS.CacheTrace(u.states, u.envs);
    var a := CM.Arch(MS.Low(mem), t, k);
    assert t.states[k] == s.cache && t.env[k] == MS.ToCache(s, e);
    BR.RamCyclesReachTheCache(r, a);
  }

  /** What a read of RAM finds on the bus. */
  lemma ReadIsReference(u: Run, mem: S.Mem, cfg: SS.Config, k: nat)
    requires IsRun(u, mem, cfg) && MS.WritesAboveCpu(u.envs) && k < |u.ins|
    requires B.Transfers(u.regs[k], u.ins[k]) && IsRam(u.regs[k].cur) && !u.regs[k].cur.wr
    ensures u.regs[k].cur.addr < B.SPACE
    ensures u.ins[k].din == BR.BusData(Reference(u, mem, cfg, k), u.regs[k].cur.addr)
  {
    hide MS.Inv, MS.EnvOk, MS.Step, B.Step, CM.SysShape, CM.EnvOk, SS.SysStep, CM.SysStep, MS.ToCache;
    hide CM.Ports, BR.BooksStep, SS.Shape, BR.ByteView, CM.Arch, BR.BusData, MS.IsRun;
    HalfShape(u, mem, cfg);
    MS.CacheRuns(u.states, u.envs, mem, cfg);
    BusesAgree(u, mem, cfg, k);
    var r, i, s, e := u.regs[k], u.ins[k], u.states[k], u.envs[k];
    assert Wired(r, i, s, e);
    MS.CpuReadsItsOwnWrites(u.states, u.envs, mem, cfg, k);
    BR.RamCyclesReachTheCache(r, CM.Arch(MS.Low(mem), MS.CacheTrace(u.states, u.envs), k));
  }

  lemma HalfShape(u: Run, mem: S.Mem, cfg: SS.Config)
    requires IsRun(u, mem, cfg)
    ensures |u.states| == |u.envs| + 1 && forall j :: 0 <= j < |u.states| ==> MS.Shape(u.states[j])
  {
  }

  lemma OneMoreCycle(was: BR.Bytes, seen: seq<BR.Seen>, x: BR.Seen)
    requires BR.Reachable(seen) && x.c.addr < B.SPACE
    ensures BR.Reachable(seen + [x])
    ensures BytesAfter(was, seen + [x])
      == if x.c.wr && IsRam(x.c) then BR.WriteLanes(BytesAfter(was, seen), x.c) else BytesAfter(was, seen)
    ensures PlainMemory(was, seen + [x]) <== (
      && PlainMemory(was, seen)
      && (IsRam(x.c) && !x.c.wr ==> x.din == BR.BusData(BytesAfter(was, seen), x.c.addr)))
  {
    hide BR.WriteLanes, BR.BusData;
    var more := seen + [x];
    assert more[..|seen|] == seen;
    assert forall n :: 0 <= n < |seen| ==> more[..n] == seen[..n] && more[n] == seen[n];
  }

  /** RAM IS PLAIN BYTES. Through cache, posted writes, arbiter, controller and chip, with
      other masters above 1 MB: of all bus cycles completed, fetches included, each that
      reads RAM shows what the stores before it, in the order of the bus, left there. */
  lemma {:induction false} BusIsMemory(u: Run, mem: S.Mem, cfg: SS.Config, k: nat)
    requires IsRun(u, mem, cfg) && MS.WritesAboveCpu(u.envs) && k < |u.books|
    ensures BR.Reachable(u.books[k].bus)
    ensures Reference(u, mem, cfg, k) == BytesAfter(BR.ByteView(MS.Low(mem)), u.books[k].bus)
    ensures PlainMemory(BR.ByteView(MS.Low(mem)), u.books[k].bus)
  {
    hide MS.IsRun, MS.WritesAboveCpu, B.Step, B.Shape, Wired, BR.WriteLanes, BR.ByteView, MS.Low;
    if k > 0 {
      hide Reference, PlainMemory, BytesAfter;
      BusIsMemory(u, mem, cfg, k - 1);
      BusInSpace(u, mem, cfg, k);
      ReferenceStep(u, mem, cfg, k - 1);
      var r, i := u.regs[k - 1], u.ins[k - 1];
      if B.Transfers(r, i) {
        if IsRam(r.cur) && !r.cur.wr { ReadIsReference(u, mem, cfg, k - 1); }
        CycleInSpace(u, mem, cfg, k - 1);
        OneMoreCycle(BR.ByteView(MS.Low(mem)), u.books[k - 1].bus, BR.Seen(r.cur, i.din));
      }
    } else {
      hide Reference;
      StartsEmpty(u, mem, cfg);
    }
  }

  lemma StartsEmpty(u: Run, mem: S.Mem, cfg: SS.Config)
    requires IsRun(u, mem, cfg)
    ensures Reference(u, mem, cfg, 0) == BR.ByteView(MS.Low(mem)) && u.books[0].bus == []
  {
    hide MS.IsRun, B.Step, Wired, BR.ByteView;
    MS.CacheRuns(u.states, u.envs, mem, cfg);
  }

  lemma CycleInSpace(u: Run, mem: S.Mem, cfg: SS.Config, k: nat)
    requires IsRun(u, mem, cfg) && k < |u.regs|
    ensures u.regs[k].cur.addr < B.SPACE
  {
    hide MS.IsRun, Wired;
  }

  // ---- whole transfers ---------------------------------------------------------------------

  /** All its bytes are RAM. */
  predicate ForRam(q: B.Request) { !q.io && q.addr < 0xA_0000 && (q.word ==> q.addr + 1 < 0xA_0000) }

  lemma CyclesInRam(t: BR.Transfer)
    requires BR.Faithful(t) && ForRam(t.q)
    ensures forall n :: 0 <= n < |t.cycles| ==> IsRam(t.cycles[n].c) && t.cycles[n].c.wr == t.q.wr
  {
    hide BR.ReadValue;
    forall n | 0 <= n < |t.cycles|
      ensures IsRam(t.cycles[n].c) && t.cycles[n].c.wr == t.q.wr
    {
      assert t.cycles[n].c == BR.CyclesOf(t.q)[n];
    }
  }

  /** In RAM, a stretch of cycles does to the bytes what it does to its space. */
  lemma {:induction false} RamIsItsSpace(was: BR.Bytes, before: seq<BR.Seen>, cycles: seq<BR.Seen>, io: BR.Bytes)
    requires BR.Reachable(before) && BR.Reachable(cycles)
    requires forall n :: 0 <= n < |cycles| ==> IsRam(cycles[n].c)
    ensures BR.Reachable(before + cycles)
    ensures BytesAfter(was, before + cycles) == BR.ApplyAll(BR.Spaces(BytesAfter(was, before), io), cycles).mem
    decreases |cycles|
  {
    hide BR.WriteLanes;
    if cycles == [] {
      assert before + cycles == before;
    } else {
      var rest, x := cycles[..|cycles| - 1], cycles[|cycles| - 1];
      RamIsItsSpace(was, before, rest, io);
      OneMoreCycle(was, before + rest, x);
      assert before + cycles == (before + rest) + [x];
    }
  }

  /** Reads leave the bytes alone, so all of them saw the same. */
  lemma ReadsSawTheSame(was: BR.Bytes, before: seq<BR.Seen>, cycles: seq<BR.Seen>, io: BR.Bytes)
    requires BR.Reachable(before + cycles) && PlainMemory(was, before + cycles)
    requires forall n :: 0 <= n < |cycles| ==> IsRam(cycles[n].c) && !cycles[n].c.wr
    ensures BR.Reachable(before) && BR.Reachable(cycles)
    ensures BytesAfter(was, before + cycles) == BytesAfter(was, before)
    ensures BR.ReadFrom(BR.Spaces(BytesAfter(was, before), io), cycles)
  {
    hide BR.BusData, BytesAfter;
    var all := before + cycles;
    forall n | 0 <= n < |before|
      ensures before[n].c.addr < B.SPACE
    {
      assert all[n] == before[n];
    }
    forall n | 0 <= n < |cycles|
      ensures cycles[n].c.addr < B.SPACE
    {
      assert all[|before| + n] == cycles[n];
    }
    forall n | 0 <= n < |cycles|
      ensures cycles[n].din == BR.BusData(BytesAfter(was, before), cycles[n].c.addr)
    {
      assert all[|before| + n] == cycles[n] && all[..|before| + n] == before + cycles[..n];
      ReadsKeep(was, before, cycles[..n]);
    }
    ReadsKeep(was, before, cycles);
  }

  lemma {:induction false} ReadsKeep(was: BR.Bytes, before: seq<BR.Seen>, cycles: seq<BR.Seen>)
    requires BR.Reachable(before) && BR.Reachable(cycles)
    requires forall n :: 0 <= n < |cycles| ==> !cycles[n].c.wr
    ensures BR.Reachable(before + cycles) && BytesAfter(was, before + cycles) == BytesAfter(was, before)
    decreases |cycles|
  {
    if cycles == [] {
      assert before + cycles == before;
    } else {
      var rest, x := cycles[..|cycles| - 1], cycles[|cycles| - 1];
      ReadsKeep(was, before, rest);
      OneMoreCycle(was, before + rest, x);
      assert before + cycles == (before + rest) + [x];
    }
  }

  /** What a finished transfer has done, told by bytes. */
  ghost predicate DoneInBytes(was: BR.Bytes, bus: seq<BR.Seen>, t: BR.Transfer)
    requires BR.Reachable(bus) && |t.cycles| <= |bus| && t.q.addr < B.SPACE
  {
    var before, after := BytesAfter(was, bus[..|bus| - |t.cycles|]), BytesAfter(was, bus);
    if t.q.wr then after == BR.Store(before, t.q) else after == before && t.rdata == BR.Load(before, t.q)
  }

  lemma CarriedInBytes(was: BR.Bytes, bus: seq<BR.Seen>, t: BR.Transfer)
    requires BR.Reachable(bus) && PlainMemory(was, bus) && |t.cycles| <= |bus| && t.q.addr < B.SPACE
    requires bus[|bus| - |t.cycles|..] == t.cycles && BR.Faithful(t) && ForRam(t.q)
    ensures DoneInBytes(was, bus, t)
  {
    hide BR.Faithful, BR.Store, BR.Load, BR.ReadFrom, PlainMemory, BytesAfter, BR.ApplyAll;
    var n := |bus| - |t.cycles|;
    var before := bus[..n];
    assert bus == before + t.cycles;
    CyclesInRam(t);
    if t.q.wr {
      RamIsItsSpace(was, before, t.cycles, was);
      BR.CyclesStore(BR.Spaces(BytesAfter(was, before), was), t);
    } else {
      ReadsSawTheSame(was, before, t.cycles, was);
      BR.CyclesLoad(BR.Spaces(BytesAfter(was, before), was), t);
    }
  }

  /** EVERY TRANSFER IS ON PLAIN BYTES. Each req_done for RAM reports a store that has put
      its byte or word, at any address, where it should be and nothing else anywhere since
      it began, or a load of the bytes last stored there: odd words, posted writes, hits,
      misses and refreshes make no difference. */
  lemma TransfersArePlain(u: Run, mem: S.Mem, cfg: SS.Config, k: nat)
    requires IsRun(u, mem, cfg) && MS.WritesAboveCpu(u.envs) && k < |u.ins| && u.regs[k + 1].done
    ensures u.books[k].owner.Some? && BR.Reachable(u.books[k].bus)
    ensures var t := BR.Transfer(u.books[k].owner.value, u.books[k].cycles, u.regs[k + 1].rdata);
      && t.q.addr < B.SPACE && |t.cycles| <= |u.books[k].bus|
      && (ForRam(t.q) ==> DoneInBytes(BR.ByteView(MS.Low(mem)), u.books[k].bus, t))
  {
    hide MS.IsRun, MS.WritesAboveCpu, B.Step, B.Shape, Wired, BR.ByteView, MS.Low, BR.Carries, BR.Faithful;
    hide BR.BooksStep, BR.Tracks, PlainMemory, DoneInBytes, BytesAfter, Reference;
    BR.DoneIsFaithful(u.regs, u.ins, u.books, k);
    BR.RunBooksOk(u.regs, u.ins, u.books, k + 1);
    BR.OwnerInSpace(u.regs, u.ins, u.books, k);
    BusIsMemory(u, mem, cfg, k);
    var t := BR.Transfer(u.books[k].owner.value, u.books[k].cycles, u.regs[k + 1].rdata);
    var f := u.books[k + 1].finished;
    assert f[|f| - 1] == t;
    if ForRam(t.q) { CarriedInBytes(BR.ByteView(MS.Low(mem)), u.books[k].bus, t); }
  }

  /** ... and each RAM cycle of the bus ends within 642 clocks of T2 once the chip is up. */
  lemma RamCyclesEnd(u: Run, mem: S.Mem, cfg: SS.Config, k: nat)
    requires IsRun(u, mem, cfg) && cfg.refreshCycles >= 10 && k + MP.ANSWER < |u.ins|
    requires u.regs[k].state == B.T2 && IsRam(u.regs[k].cur) && u.states[k].sdram.chip.mode.Some?
    ensures exists j :: k < j <= k + MP.ANSWER
                        && B.Transfers(u.regs[j], u.ins[j]) && u.regs[j].cur.addr == u.regs[k].cur.addr
  {
    hide MS.IsRun, BR.IsBookedRun, B.Step, B.Shape, CM.Ports, MS.ToCache, MS.Shape;
    HalfShape(u, mem, cfg);
    BooksShape(u, mem, cfg);
    BusesAgree(u, mem, cfg, k);
    MP.CpuIsAnsweredSoon(u.states, u.envs, mem, cfg, k);
    var j :| k < j <= k + MP.ANSWER && MP.Answered(u.states[j], u.envs[j], u.states[k].cache.bus.q);
    BusesAgree(u, mem, cfg, j);
    assert Wired(u.regs[j], u.ins[j], u.states[j], u.envs[j]);
  }

  lemma BooksShape(u: Run, mem: S.Mem, cfg: SS.Config)
    requires IsRun(u, mem, cfg)
    ensures |u.regs| == |u.ins| + 1 && forall j :: 0 <= j < |u.regs| ==> B.Shape(u.regs[j])
  {
    hide MS.IsRun, Wired;
  }
}
