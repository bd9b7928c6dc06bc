/** modules/execUnit.sv, S_STR_*: a string instruction ends. Only the bus and the
    interrupt handlers can hold it up, and each interrupt taken costs a fixed
    number of clocks besides its handler. */
module StringProgress {
  import opened Machine
  import opened StringEngine
  import BR = BiuRuns

  /** A clock in which the engine waits for the bus or for a handler's return. */
  predicate Idles(s: Sys, e: Env, op: Op) {
    (Asking(s.regs, op).Some? && !e.done) || (s.regs.state == Away && !e.resume)
  }

  /** A clock in which it gives way to an interrupt. */
  predicate GivesWay(s: Sys, e: Env, op: Op) { s.regs.state == Check && op.rep && s.regs.cx != 0 && e.hwInt }

  /** How many elements are left at most, going by CX. */
  function Left(cx: nat, op: Op): nat { if op.rep then cx else 1 }

  /** Through the write-back and out of it. */
  function WayOut(r: Regs): nat {
    match r.state
    case Wb => 5 - (if r.wbStep <= 3 then r.wbStep else 3)
    case Retire => 1
    case _ => 0
  }

  /** An upper bound on the clocks to the end, were nothing to hold it up. */
  function ToEnd(r: Regs, op: Op): nat {
    match r.state
    case Prep1 => 8 * Left(r.file.cx, op) + 8
    case Prep2 => 8 * Left(r.file.cx, op) + 7
    case Check => 8 * Left(r.cx, op) + 6
    case Rd1 => 8 * Left(r.cx, op) + 5
    case G1 => 8 * Left(r.cx, op) + 4
    case Rd2 => 8 * Left(r.cx, op) + 3
    case G2 => 8 * Left(r.cx, op) + 2
    case Wr => 8 * Left(r.cx, op) + 1
    case G3 => 8 * Left(r.cx, op)
    case Exec => 8 * Left(r.cx, op) - (if Left(r.cx, op) > 0 then 1 else 0)
    case Wb => WayOut(r) + if r.doJump then 9 + 8 * Left(r.cx, op) else 0
    case Retire => WayOut(r) + if r.doJump then 9 + 8 * Left(r.file.cx, op) else 0
    case Away => 9 + 8 * Left(r.file.cx, op)
    case Finished => 0
  }

  /** What an interrupt taken adds. */
  const DETOUR: nat := 9

  predicate Closer(s: Sys, e: Env, op: Op) {
    ToEnd(SysStep(s, e, op).regs, op) + 1
      <= ToEnd(s.regs, op) + (if Idles(s, e, op) then 1 else 0) + (if GivesWay(s, e, op) then DETOUR else 0)
  }

  lemma CloserOutside(s: Sys, e: Env, op: Op, goal: Arch)
    requires s.regs.state in {Prep1, Prep2, Wb, Retire, Away} && Inv(s, op, goal)
    ensures Closer(s, e, op)
  {
    hide Complete, BR.Load, BR.Store, Element, Source, Target, CmpFlags, Move, LoadAx, Reply, Live;
  }

  predicate InLoop(state: State) { state in {Rd1, G1, Rd2, G2, Wr, G3, Exec} }

  lemma CxInLoop(s: Sys, op: Op, goal: Arch)
    requires (s.regs.state == Check || InLoop(s.regs.state)) && Inv(s, op, goal)
    ensures s.regs.cx < W16 && !s.regs.doJump
    ensures InLoop(s.regs.state) ==> Left(s.regs.cx, op) > 0
    ensures s.regs.state == Check && !s.regs.dirty ==> s.regs.file.cx == s.regs.cx
  {
    hide Complete, BR.Load, BR.Store, Element, Source, Target;
  }

  lemma CloserInside(s: Sys, e: Env, op: Op)
    requires s.regs.state == Check || InLoop(s.regs.state)
    requires s.regs.cx < W16 && !s.regs.doJump && (InLoop(s.regs.state) ==> Left(s.regs.cx, op) > 0)
    requires s.regs.state == Check && !s.regs.dirty ==> s.regs.file.cx == s.regs.cx
    ensures Closer(s, e, op)
  {
    hide BR.Load, BR.Store, CmpFlags, Move, Reply, Live;
  }

  lemma CloserToEnd(s: Sys, e: Env, op: Op, goal: Arch)
    requires Inv(s, op, goal) && s.regs.state != Finished
    ensures Closer(s, e, op)
  {
    hide Inv, Closer;
    if s.regs.state in {Prep1, Prep2, Wb, Retire, Away} {
      CloserOutside(s, e, op, goal);
    } else {
      CxInLoop(s, op, goal);
      CloserInside(s, e, op);
    }
  }

  function IdlesIn(states: seq<Sys>, envs: seq<Env>, op: Op, k: nat): (clocks: nat)
    requires k <= |envs| <= |states|
    ensures clocks <= k
  {
    if k == 0 then 0 else
      IdlesIn(states, envs, op, k - 1) + if Idles(states[k - 1], envs[k - 1], op) then 1 else 0
  }

  function Interrupts(states: seq<Sys>, envs: seq<Env>, op: Op, k: nat): (times: nat)
    requires k <= |envs| <= |states|
    ensures times <= k
  {
    if k == 0 then 0 else
      Interrupts(states, envs, op, k - 1) + if GivesWay(states[k - 1], envs[k - 1], op) then 1 else 0
  }

  lemma {:induction false} Budget(states: seq<Sys>, envs: seq<Env>, op: Op, a: Arch, k: nat)
    requires IsRun(states, envs, op, a) && k <= |envs|
    requires forall j :: 0 <= j < k ==> states[j].regs.state != Finished
    ensures k + ToEnd(states[k].regs, op)
      <= 8 * Left(a.cx, op) + 8 + IdlesIn(states, envs, op, k) + DETOUR * Interrupts(states, envs, op, k)
  {
    hide Inv, SysStep, Complete, Reached, ToEnd, Idles, GivesWay;
    if k == 0 {
      BeginsFar(a, op);
    } else {
      Budget(states, envs, op, a, k - 1);
      RunInv(states, envs, op, a, k - 1);
      CloserToEnd(states[k - 1], envs[k - 1], op, Complete(a, op));
    }
  }

  lemma BeginsFar(a: Arch, op: Op)
    ensures ToEnd(Begin(a).regs, op) == 8 * Left(a.cx, op) + 8
  {
  }

  /** EVERY STRING INSTRUCTION ENDS: eight clocks an element and eight for the
      rest, one more for each clock of waiting and nine for each interrupt. */
  lemma FinishesInTime(states: seq<Sys>, envs: seq<Env>, op: Op, a: Arch, k: nat)
    requires IsRun(states, envs, op, a) && k <= |envs|
    requires k >= 8 * (if op.rep then a.cx else 1) + 8
                  + IdlesIn(states, envs, op, k) + DETOUR * Interrupts(states, envs, op, k)
    ensures exists j :: 0 <= j <= k && states[j].regs.state == Finished && Visible(states[j]) == Complete(a, op)
  {
    hide Complete, SysStep, ToEnd, Visible, Inv;
    if j :| 0 <= j <= k && states[j].regs.state == Finished {
      FinishesAsDefined(states, envs, op, a, j);
    } else {
      Budget(states, envs, op, a, k);
      RunInv(states, envs, op, a, k);
      StillToGo(states[k], op, Complete(a, op));
      assert false;
    }
  }

  lemma StillToGo(s: Sys, op: Op, goal: Arch)
    requires Inv(s, op, goal) && s.regs.state != Finished
    ensures ToEnd(s.regs, op) > 0
  {
    hide Complete, BR.Load, BR.Store, Element, Source, Target;
  }
}
