/** modules/execUnit.sv, S_STR_*: the string engine. SI, DI, CX and AX live in the
    engine while it loops and go back to the register file only on the way out,
    whether done or interrupted. */
module StringEngine {
  import opened Machine
  import opened BiuRuns
  import B = Biu

  const W16: nat := 0x1_0000

  datatype Kind = Movs | Cmps | Stos | Lods | Scas | Ins | Outs

  /** The instruction with everything that stays put while it runs: prefixes,
      width, direction flag, segment bases, the port in DX, and what a device
      would hand to successive reads of each port. */
  datatype Op = Op(kind: Kind, word: bool, rep: bool, repZ: bool, down: bool,
                   srcBase: nat, esBase: nat, port: nat, input: (nat, nat) -> Word)

  predicate ReadsSrc(op: Op) { op.kind in {Movs, Cmps, Lods, Outs} }
  predicate ReadsDst(op: Op) { op.kind in {Cmps, Scas} }
  predicate WritesDst(op: Op) { op.kind in {Movs, Stos, Ins} }
  predicate Compares(op: Op) { op.kind in {Cmps, Scas} }
  predicate MovesSi(op: Op) { op.kind in {Movs, Cmps, Lods, Outs} }
  predicate MovesDi(op: Op) { op.kind in {Movs, Cmps, Stos, Scas, Ins} }

  datatype Flags = Flags(cf: bool, pf: bool, af: bool, zf: bool, sf: bool, of: bool)

  function Value(w: Word, word: bool): nat {
    if word then w.hi as nat * 0x100 + w.lo as nat else w.lo as nat
  }

  predicate EvenParity(b: Byte) {
    var x := b ^ (b >> 4);
    var y := x ^ (x >> 2);
    (y ^ (y >> 1)) & 1 == 0
  }

  /** The flags of `a - b`. */
  function CmpFlags(a: Word, b: Word, word: bool): Flags {
    var m := if word then W16 else 0x100;
    var x, y := Value(a, word), Value(b, word);
    var d := (x - y) % m;
    Flags(x < y, EvenParity(a.lo - b.lo), x % 16 < y % 16, x == y, d >= m / 2,
          (x >= m / 2) != (y >= m / 2) && (d >= m / 2) != (x >= m / 2))
  }

  // ---- the per-iteration definition ----------------------------------------

  /** The architectural state a string instruction works on; `outputs` are ports and
      what was put out to them. */
  datatype Arch = Arch(mem: Bytes, si: nat, di: nat, cx: nat, ax: Word, flags: Flags,
                       inputs: nat, outputs: seq<(nat, Word)>)

  function Delta(op: Op): nat {
    if op.down then (if op.word then 0xFFFE else 0xFFFF) else (if op.word then 2 else 1)
  }

  function Move(x: nat, op: Op): nat { (x + Delta(op)) % W16 }

  function At(op: Op, base: nat, offset: nat, wr: bool, data: Word): (q: B.Request)
    ensures q.addr < B.SPACE
  {
    B.Request(wr, false, op.word, (base + offset) % B.SPACE, data)
  }

  function Source(a: Arch, op: Op): Word {
    if op.kind == Ins then op.input(op.port % B.SPACE, a.inputs) else Load(a.mem, At(op, op.srcBase, a.si, false, ZERO))
  }

  function Target(a: Arch, op: Op): Word { Load(a.mem, At(op, op.esBase, a.di, false, ZERO)) }

  function LoadAx(ax: Word, data: Word, word: bool): Word {
    if word then data else Word(data.lo, ax.hi)
  }

  /** One element, as the instruction set defines it. */
  function Element(a: Arch, op: Op): Arch {
    var src := Source(a, op);
    Arch(
      if WritesDst(op) then
        Store(a.mem, At(op, op.esBase, a.di, true, if op.kind == Stos then a.ax else src))
      else a.mem,
      if MovesSi(op) then Move(a.si, op) else a.si,
      if MovesDi(op) then Move(a.di, op) else a.di,
      if op.rep then (a.cx + 0xFFFF) % W16 else a.cx,
      if op.kind == Lods then LoadAx(a.ax, src, op.word) else a.ax,
      if Compares(op) then CmpFlags(if op.kind == Scas then a.ax else src, Target(a, op), op.word) else a.flags,
      if op.kind == Ins then a.inputs + 1 else a.inputs,
      if op.kind == Outs then a.outputs + [(op.port % B.SPACE, src)] else a.outputs)
  }

  /** REP stops when CX is used up, REPE and REPNE also when the comparison says so. */
  predicate Again(a: Arch, op: Op) {
    op.rep && a.cx != 0 && (Compares(op) ==> a.flags.zf == op.repZ)
  }

  function Repeat(a: Arch, op: Op): Arch
    requires op.rep
    decreases if a.cx < W16 then a.cx else W16 + a.cx
  {
    if a.cx == 0 || a.cx >= W16 then a
    else
      var n := Element(a, op);
      if Again(n, op) then Repeat(n, op) else n
  }

  /** The whole instruction. */
  function Complete(a: Arch, op: Op): Arch { if op.rep then Repeat(a, op) else Element(a, op) }

  // ---- the engine ----------------------------------------------------------

  datatype State = Prep1 | Prep2 | Check | Rd1 | G1 | Rd2 | G2 | Wr | G3 | Exec | Wb | Retire | Away | Finished

  /** The register file's share. */
  datatype File = File(si: nat, di: nat, cx: nat, ax: Word, flags: Flags)

  datatype Regs = Regs(
    state: State, file: File,
    si: nat, di: nat, cx: nat, ax: Word,
    src: Word, dst: Word, wbStep: nat, dirty: bool,
    flagsVal: Flags, flagsMask: bool, doJump: bool)

  /** `resume`: the handler has returned to the first prefix. */
  datatype In = In(done: bool, rdata: Word, hwInt: bool, resume: bool)

  function Enter(file: File): Regs {
    Regs(Prep1, file, 0, 0, 0, ZERO, ZERO, ZERO, 0, false,
         Flags(false, false, false, false, false, false), false, false)
  }

  /** str_again: decided on what CX and ZF are about to become. */
  predicate GoesRound(r: Regs, op: Op, f: Flags) {
    var cx := if op.rep then (r.cx + 0xFFFF) % W16 else r.cx;
    op.rep && cx != 0 && (Compares(op) ==> f.zf == op.repZ)
  }

  function StepCheck(r: Regs, i: In, op: Op): Regs {
    var out := if r.dirty then Wb else Retire;
    if op.rep && r.cx == 0 then r.(wbStep := 0, state := out)
    else if op.rep && i.hwInt then r.(doJump := true, wbStep := 0, state := out)
    else r.(state := if ReadsSrc(op) || op.kind == Ins then Rd1 else if ReadsDst(op) then Rd2 else Wr)
  }

  function StepExec(r: Regs, op: Op): Regs {
    var f := CmpFlags(if op.kind == Scas then r.ax else r.src, r.dst, op.word);
    r.(flagsVal := if Compares(op) then f else r.flagsVal,
       flagsMask := if Compares(op) then true else r.flagsMask,
       ax := if op.kind == Lods then r.src else r.ax,
       si := if MovesSi(op) then Move(r.si, op) else r.si,
       di := if MovesDi(op) then Move(r.di, op) else r.di,
       cx := if op.rep then (r.cx + 0xFFFF) % W16 else r.cx,
       dirty := true, wbStep := 0,
       state := if GoesRound(r, op, f) then Check else Wb)
  }

  /** One register a clock; AX by halves for a byte operation. */
  function WriteBack(r: Regs, op: Op): File {
    if r.wbStep == 0 then r.file.(si := r.si)
    else if r.wbStep == 1 then r.file.(di := r.di)
    else if r.wbStep == 2 then r.file.(cx := r.cx)
    else r.file.(ax := LoadAx(r.file.ax, r.ax, op.word))
  }

  function StepWb(r: Regs, op: Op): Regs {
    r.(file := WriteBack(r, op),
       state := if r.wbStep == 3 then Retire else Wb,
       wbStep := if r.wbStep == 3 then 3 else r.wbStep + 1)
  }

  function AfterReads(op: Op): State { if WritesDst(op) || op.kind == Outs then Wr else Exec }

  function Step(r: Regs, i: In, op: Op): Regs {
    match r.state
    case Prep1 => r.(si := r.file.si, di := r.file.di, state := Prep2)
    case Prep2 =>
      r.(cx := r.file.cx, ax := if op.word then r.file.ax else Word(r.file.ax.lo, 0),
         wbStep := 0, dirty := false, state := Check)
    case Check => StepCheck(r, i, op)
    case Rd1 => if i.done then r.(src := i.rdata, state := G1) else r
    case G1 => r.(state := if ReadsDst(op) then Rd2 else AfterReads(op))
    case Rd2 => if i.done then r.(dst := i.rdata, state := G2) else r
    case G2 => r.(state := AfterReads(op))
    case Wr => if i.done then r.(state := G3) else r
    case G3 => r.(state := Exec)
    case Exec => StepExec(r, op)
    case Wb => StepWb(r, op)
    case Retire =>
      r.(file := if r.flagsMask then r.file.(flags := r.flagsVal) else r.file,
         state := if r.doJump then Away else Finished)
    case Away => if i.resume then Enter(r.file) else r
    case Finished => r
  }

  /** The bus request, if the engine is making one. */
  function Asking(r: Regs, op: Op): Option<B.Request> {
    match r.state
    case Rd1 =>
      if op.kind == Ins then Some(B.Request(false, true, op.word, op.port % B.SPACE, ZERO))
      else Some(At(op, op.srcBase, r.si, false, ZERO))
    case Rd2 => Some(At(op, op.esBase, r.di, false, ZERO))
    case Wr =>
      if op.kind == Outs then Some(B.Request(true, true, op.word, op.port % B.SPACE, r.src))
      else Some(At(op, op.esBase, r.di, true, if op.kind == Stos then r.ax else r.src))
    case _ => None
  }

  // ---- the engine on its bus -------------------------------------------------

  /** `began` is the architectural state as the current iteration found it, and
      `count` how many elements have been done, over all resumptions. */
  datatype Sys = Sys(regs: Regs, mem: Bytes, inputs: nat, outputs: seq<(nat, Word)>, began: Arch, count: nat)

  /** One clock's bus latency, interrupt request and return from the handler. */
  datatype Env = Env(done: bool, hwInt: bool, resume: bool)

  function Reply(s: Sys, op: Op): Word {
    match Asking(s.regs, op)
    case None => ZERO
    case Some(q) => if q.io then op.input(q.addr, s.inputs) else if q.addr < B.SPACE then Load(s.mem, q) else ZERO
  }

  /** What the registers in the engine and in the file amount to. */
  function Live(s: Sys, op: Op): Arch {
    var r := s.regs;
    Arch(s.mem, r.si, r.di, r.cx, LoadAx(r.file.ax, r.ax, op.word),
         if r.flagsMask then r.flagsVal else r.file.flags, s.inputs, s.outputs)
  }

  /** What a program would see: the register file. */
  function Visible(s: Sys): Arch {
    var f := s.regs.file;
    Arch(s.mem, f.si, f.di, f.cx, f.ax, f.flags, s.inputs, s.outputs)
  }

  function SysStep(s: Sys, e: Env, op: Op): Sys {
    var q := Asking(s.regs, op);
    var hit := q.Some? && e.done;
    Sys(Step(s.regs, In(e.done, Reply(s, op), e.hwInt, e.resume), op),
        if hit && q.value.wr && !q.value.io && q.value.addr < B.SPACE then Store(s.mem, q.value) else s.mem,
        if hit && q.value.io && !q.value.wr then s.inputs + 1 else s.inputs,
        if hit && q.value.io && q.value.wr then s.outputs + [(q.value.addr, q.value.wdata)] else s.outputs,
        if s.regs.state == Check then Live(s, op) else s.began,
        if s.regs.state == Exec then s.count + 1 else s.count)
  }

  function Begin(a: Arch): Sys {
    Sys(Enter(File(a.si, a.di, a.cx, a.ax, a.flags)), a.mem, a.inputs, a.outputs, a, 0)
  }

  // ---- what holds, state by state ---------------------------------------------

  /** The engine's registers are still those the iteration began with. */
  predicate Untouched(s: Sys, op: Op) {
    var l := Live(s, op);
    && l.si == s.began.si && l.di == s.began.di && l.cx == s.began.cx && l.ax == s.began.ax
    && l.flags == s.began.flags
    && (op.rep ==> 0 < s.began.cx < W16)
  }

  predicate SrcIn(s: Sys, op: Op) { ReadsSrc(op) || op.kind == Ins ==> s.regs.src == Source(s.began, op) }
  predicate DstIn(s: Sys, op: Op) { ReadsDst(op) ==> s.regs.dst == Target(s.began, op) }

  predicate MemoryAsBegan(s: Sys, op: Op, srcRead: bool) {
    && s.mem == s.began.mem && s.outputs == s.began.outputs
    && s.inputs == if srcRead && op.kind == Ins then s.began.inputs + 1 else s.began.inputs
  }

  predicate MemoryDone(s: Sys, op: Op) {
    var n := Element(s.began, op);
    s.mem == n.mem && s.outputs == n.outputs && s.inputs == n.inputs
  }

  /** What the rest of the way must lead to. */
  predicate Leads(a: Arch, op: Op, goal: Arch, jump: bool) {
    if jump then op.rep && Complete(a, op) == goal else a == goal
  }

  /** The file holds the first `n` of SI, DI, CX and AX. */
  predicate WrittenBack(r: Regs, op: Op, n: nat) {
    && (n > 0 ==> r.file.si == r.si)
    && (n > 1 ==> r.file.di == r.di)
    && (n > 2 ==> r.file.cx == r.cx)
    && (n > 3 ==> r.file.ax == LoadAx(r.file.ax, r.ax, op.word))
  }

  predicate Inv(s: Sys, op: Op, goal: Arch) {
    var r := s.regs;
    && r.file.cx < W16
    && (r.state in {Check, Rd1, G1, Rd2, G2, Wr, G3, Exec, Wb} ==> r.cx < W16)
    && (r.state !in {Wb, Retire, Away, Finished} ==> !r.doJump)
    && match r.state
       case Prep1 => Complete(Visible(s), op) == goal && !r.flagsMask
       case Prep2 =>
         Complete(Visible(s), op) == goal && !r.flagsMask && r.si == r.file.si && r.di == r.file.di
       case Check =>
         && Complete(Live(s, op), op) == goal
         && (!op.rep ==> !r.dirty)
         && (!r.dirty ==> Live(s, op) == Visible(s) && !r.flagsMask)
       case Rd1 => Complete(s.began, op) == goal && Untouched(s, op) && MemoryAsBegan(s, op, false)
       case G1 => Complete(s.began, op) == goal && Untouched(s, op) && MemoryAsBegan(s, op, true) && SrcIn(s, op)
       case Rd2 =>
         Complete(s.began, op) == goal && Untouched(s, op) && MemoryAsBegan(s, op, true) && SrcIn(s, op)
       case G2 =>
         Complete(s.began, op) == goal && Untouched(s, op) && MemoryAsBegan(s, op, true)
         && SrcIn(s, op) && DstIn(s, op)
       case Wr =>
         Complete(s.began, op) == goal && Untouched(s, op) && MemoryAsBegan(s, op, true)
         && SrcIn(s, op) && DstIn(s, op) && (WritesDst(op) || op.kind == Outs)
       case G3 =>
         Complete(s.began, op) == goal && Untouched(s, op) && MemoryDone(s, op) && SrcIn(s, op) && DstIn(s, op)
       case Exec =>
         Complete(s.began, op) == goal && Untouched(s, op) && MemoryDone(s, op) && SrcIn(s, op) && DstIn(s, op)
       case Wb => Leads(Live(s, op), op, goal, r.doJump) && r.wbStep <= 3 && WrittenBack(r, op, r.wbStep)
       case Retire =>
         Leads(Visible(s).(flags := if r.flagsMask then r.flagsVal else r.file.flags), op, goal, r.doJump)
       case Away => Complete(Visible(s), op) == goal
       case Finished => Visible(s) == goal
  }

  predicate Kept(s: Sys, e: Env, op: Op, goal: Arch) { Inv(SysStep(s, e, op), op, goal) }

  lemma PrepKeeps(s: Sys, e: Env, op: Op, goal: Arch)
    requires s.regs.state in {Prep1, Prep2, Away, Finished} && Inv(s, op, goal)
    ensures Kept(s, e, op, goal)
  {
    hide Complete, Load, Store;
  }

  lemma CheckKeeps(s: Sys, e: Env, op: Op, goal: Arch)
    requires s.regs.state == Check && Inv(s, op, goal)
    ensures Kept(s, e, op, goal)
  {
    hide Element, Load, Store;
  }

  lemma ReadKeeps(s: Sys, e: Env, op: Op, goal: Arch)
    requires s.regs.state in {Rd1, Rd2} && Inv(s, op, goal)
    ensures Kept(s, e, op, goal)
  {
    hide Complete, Element, Load, Store;
  }

  lemma GapKeeps(s: Sys, e: Env, op: Op, goal: Arch)
    requires s.regs.state in {G1, G2, G3} && Inv(s, op, goal)
    ensures Kept(s, e, op, goal)
  {
    hide Complete, Load, Store, Source, Target, LoadAx, CmpFlags, At, Move;
  }

  lemma WriteKeeps(s: Sys, e: Env, op: Op, goal: Arch)
    requires s.regs.state == Wr && Inv(s, op, goal)
    ensures Kept(s, e, op, goal)
  {
    hide Complete, Load, CmpFlags, Move, Source, Target;
  }

  /** A byte comparison never looks at the upper half. */
  lemma CmpLowHalf(a: Word, c: Word, b: Word, word: bool)
    requires if word then a == c else a.lo == c.lo
    ensures CmpFlags(a, b, word) == CmpFlags(c, b, word)
  {
    hide EvenParity;
  }

  lemma ExecFlags(s: Sys, op: Op)
    requires s.regs.state == Exec && Untouched(s, op) && SrcIn(s, op) && DstIn(s, op) && Compares(op)
    ensures Element(s.began, op).flags
      == CmpFlags(if op.kind == Scas then s.regs.ax else s.regs.src, s.regs.dst, op.word)
  {
    hide CmpFlags, Store, Load, Source, Target, Move, At;
    if op.kind == Scas { CmpLowHalf(s.regs.ax, s.began.ax, s.regs.dst, op.word); }
  }

  lemma ExecAx(s: Sys, e: Env, op: Op)
    requires s.regs.state == Exec && Untouched(s, op) && SrcIn(s, op)
    ensures Live(SysStep(s, e, op), op).ax == Element(s.began, op).ax
  {
    hide CmpFlags, Store, Load, Source, Target, Move, At, GoesRound;
  }

  /** An iteration ends: the engine now holds what one more element leaves. */
  lemma ExecIsElement(s: Sys, e: Env, op: Op, goal: Arch)
    requires s.regs.state == Exec && Inv(s, op, goal)
    ensures Live(SysStep(s, e, op), op) == Element(s.began, op)
    ensures Compares(op) ==>
      Element(s.began, op).flags == CmpFlags(if op.kind == Scas then s.regs.ax else s.regs.src, s.regs.dst, op.word)
    ensures op.rep ==> Element(s.began, op).cx == (s.regs.cx + 0xFFFF) % W16
  {
    hide Complete, Load, Store, Source, Target, Move, CmpFlags, LoadAx, GoesRound, SrcIn, DstIn, At;
    ExecAx(s, e, op);
    if Compares(op) { ExecFlags(s, op); }
  }

  lemma ExecKeeps(s: Sys, e: Env, op: Op, goal: Arch)
    requires s.regs.state == Exec && Inv(s, op, goal)
    ensures Kept(s, e, op, goal)
  {
    hide Element, Live, CmpFlags, Source, Target, Untouched, MemoryDone;
    ExecIsElement(s, e, op, goal);
    UntouchedCx(s, op);
    if op.rep { RepeatUnfolds(s.began, op); }
  }

  lemma UntouchedCx(s: Sys, op: Op)
    requires Untouched(s, op)
    ensures op.rep ==> 0 < s.began.cx < W16
  {
  }

  lemma RepeatUnfolds(a: Arch, op: Op)
    requires op.rep && 0 < a.cx < W16
    ensures Repeat(a, op) == if Again(Element(a, op), op) then Repeat(Element(a, op), op) else Element(a, op)
  {
  }

  lemma WriteBackKeeps(s: Sys, e: Env, op: Op, goal: Arch)
    requires s.regs.state in {Wb, Retire} && Inv(s, op, goal)
    ensures Kept(s, e, op, goal)
  {
    hide Complete, Load, Store;
  }

  lemma InvStep(s: Sys, e: Env, op: Op, goal: Arch)
    requires Inv(s, op, goal)
    ensures Inv(SysStep(s, e, op), op, goal)
  {
    hide Inv, SysStep;
    match s.regs.state {
      case Prep1 => PrepKeeps(s, e, op, goal);
      case Prep2 => PrepKeeps(s, e, op, goal);
      case Away => PrepKeeps(s, e, op, goal);
      case Finished => PrepKeeps(s, e, op, goal);
      case Check => CheckKeeps(s, e, op, goal);
      case Rd1 => ReadKeeps(s, e, op, goal);
      case Rd2 => ReadKeeps(s, e, op, goal);
      case Wr => WriteKeeps(s, e, op, goal);
      case Exec => ExecKeeps(s, e, op, goal);
      case Wb => WriteBackKeeps(s, e, op, goal);
      case Retire => WriteBackKeeps(s, e, op, goal);
      case _ => GapKeeps(s, e, op, goal);
    }
  }

  // ---- how far it has got ------------------------------------------------------

  function After(a: Arch, n: nat, op: Op): Arch {
    if n == 0 then a else Element(After(a, n - 1, op), op)
  }

  /** What will be visible once the engine has let go. */
  function Committed(s: Sys): Arch {
    Visible(s).(flags := if s.regs.flagsMask then s.regs.flagsVal else s.regs.file.flags)
  }

  predicate Reached(s: Sys, op: Op, a: Arch) {
    match s.regs.state
    case Check => Live(s, op) == After(a, s.count, op)
    case Wb => Live(s, op) == After(a, s.count, op)
    case Retire => Committed(s) == After(a, s.count, op)
    case Prep1 => Visible(s) == After(a, s.count, op)
    case Prep2 => Visible(s) == After(a, s.count, op)
    case Away => Visible(s) == After(a, s.count, op)
    case Finished => Visible(s) == After(a, s.count, op)
    case _ => s.began == After(a, s.count, op)
  }

  lemma ReachedOutside(s: Sys, e: Env, op: Op, goal: Arch, a: Arch)
    requires s.regs.state in {Prep1, Prep2, Wb, Retire, Away, Finished} && Inv(s, op, goal) && Reached(s, op, a)
    ensures Reached(SysStep(s, e, op), op, a)
  {
    hide Complete, After, Load, Store;
  }

  lemma ReachedInside(s: Sys, e: Env, op: Op, goal: Arch, a: Arch)
    requires s.regs.state in {Check, Rd1, G1, Rd2, G2, Wr, G3} && Inv(s, op, goal) && Reached(s, op, a)
    ensures Reached(SysStep(s, e, op), op, a)
  {
    hide Complete, After, Load, Store, Source, Target, Element, At;
  }

  lemma ReachedStep(s: Sys, e: Env, op: Op, goal: Arch, a: Arch)
    requires Inv(s, op, goal) && Reached(s, op, a)
    ensures Reached(SysStep(s, e, op), op, a)
  {
    hide Inv, Element, Live, Visible;
    if s.regs.state == Exec {
      ExecIsElement(s, e, op, goal);
    } else if s.regs.state in {Prep1, Prep2, Wb, Retire, Away, Finished} {
      ReachedOutside(s, e, op, goal, a);
    } else {
      ReachedInside(s, e, op, goal, a);
    }
  }

  // ---- whole instructions -------------------------------------------------------

  /** Any bus latency and any interrupts, each resumed from the first prefix with
      registers and memory as they were left. */
  ghost predicate IsRun(states: seq<Sys>, envs: seq<Env>, op: Op, a: Arch) {
    && |states| == |envs| + 1
    && a.cx < W16
    && states[0] == Begin(a)
    && (forall k :: 0 <= k < |envs| ==> states[k + 1] == SysStep(states[k], envs[k], op))
  }

  lemma {:induction false} RunInv(states: seq<Sys>, envs: seq<Env>, op: Op, a: Arch, k: nat)
    requires IsRun(states, envs, op, a) && k < |states|
    ensures Inv(states[k], op, Complete(a, op)) && Reached(states[k], op, a)
  {
    hide Inv, SysStep, Complete, Reached;
    if k == 0 {
      BeginInv(a, op);
    } else {
      RunInv(states, envs, op, a, k - 1);
      InvStep(states[k - 1], envs[k - 1], op, Complete(a, op));
      ReachedStep(states[k - 1], envs[k - 1], op, Complete(a, op), a);
    }
  }

  lemma BeginInv(a: Arch, op: Op)
    requires a.cx < W16
    ensures Inv(Begin(a), op, Complete(a, op)) && Reached(Begin(a), op, a)
  {
  }

  /** ONE INSTRUCTION, HOWEVER OFTEN INTERRUPTED. When it retires, memory,
      registers, flags and ports are what the element-by-element definition,
      run once without a break, leaves: early stops, overlap and CX = 0 included. */
  lemma FinishesAsDefined(states: seq<Sys>, envs: seq<Env>, op: Op, a: Arch, k: nat)
    requires IsRun(states, envs, op, a) && k < |states| && states[k].regs.state == Finished
    ensures Visible(states[k]) == Complete(a, op)
  {
    hide Complete, SysStep;
    RunInv(states, envs, op, a, k);
  }

  /** WHAT THE HANDLER SEES. Wherever the instruction is abandoned, the register
      file is exactly so many elements on from the start, and running it to the
      end from there is running it to the end. */
  lemma AbandonsBetweenElements(states: seq<Sys>, envs: seq<Env>, op: Op, a: Arch, k: nat)
    requires IsRun(states, envs, op, a) && k < |states| && states[k].regs.state == Away
    ensures Visible(states[k]) == After(a, states[k].count, op)
    ensures Complete(Visible(states[k]), op) == Complete(a, op)
  {
    hide Complete, SysStep, After, Visible;
    RunInv(states, envs, op, a, k);
  }

  // ---- the engine's registers -----------------------------------------------------

  class Engine {
    var state: State
    var file: File
    var si: nat
    var di: nat
    var cx: nat
    var ax: Word
    var src: Word
    var dst: Word
    var wbStep: nat
    var dirty: bool
    var flagsVal: Flags
    var flagsMask: bool
    var doJump: bool

    ghost function View(): Regs
      reads this
    {
      Regs(state, file, si, di, cx, ax, src, dst, wbStep, dirty, flagsVal, flagsMask, doJump)
    }

    constructor (registers: File)
      ensures View() == Enter(registers)
    {
      state, file := Prep1, registers;
      si, di, cx, ax, src, dst := 0, 0, 0, ZERO, ZERO, ZERO;
      wbStep, dirty := 0, false;
      flagsVal, flagsMask, doJump := Flags(false, false, false, false, false, false), false, false;
    }

    method TickCheck(i: In, op: Op)
      modifies `doJump, `wbStep, `state
      ensures View() == StepCheck(old(View()), i, op)
    {
      var out := if dirty then Wb else Retire;
      if op.rep && cx == 0 {
        wbStep, state := 0, out;
      } else if op.rep && i.hwInt {
        doJump, wbStep, state := true, 0, out;
      } else {
        state := if ReadsSrc(op) || op.kind == Ins then Rd1 else if ReadsDst(op) then Rd2 else Wr;
      }
    }

    /** The pointers, CX and AX step; the file is left alone. */
    method Advance(op: Op)
      modifies `si, `di, `cx, `ax
      ensures si == (if MovesSi(op) then Move(old(si), op) else old(si))
      ensures di == (if MovesDi(op) then Move(old(di), op) else old(di))
      ensures cx == (if op.rep then (old(cx) + 0xFFFF) % W16 else old(cx))
      ensures ax == if op.kind == Lods then src else old(ax)
    {
      if op.kind == Lods { ax := src; }
      if MovesSi(op) { si := Move(si, op); }
      if MovesDi(op) { di := Move(di, op); }
      if op.rep { cx := (cx + 0xFFFF) % W16; }
    }

    method TickExec(op: Op)
      modifies `flagsVal, `flagsMask, `ax, `si, `di, `cx, `dirty, `wbStep, `state
      ensures View() == StepExec(old(View()), op)
    {
      hide CmpFlags, Move;
      var f := CmpFlags(if op.kind == Scas then ax else src, dst, op.word);
      var next := if op.rep then (cx + 0xFFFF) % W16 else cx;
      var again := op.rep && next != 0 && (Compares(op) ==> f.zf == op.repZ);
      if Compares(op) { flagsVal, flagsMask := f, true; }
      Advance(op);
      dirty, wbStep := true, 0;
      state := if again then Check else Wb;
    }

    method TickWb(op: Op)
      modifies `file, `state, `wbStep
      ensures View() == StepWb(old(View()), op)
    {
      if wbStep == 0 {
        file := file.(si := si);
      } else if wbStep == 1 {
        file := file.(di := di);
      } else if wbStep == 2 {
        file := file.(cx := cx);
      } else {
        file := file.(ax := LoadAx(file.ax, ax, op.word));
      }
      if wbStep == 3 { state := Retire; } else { wbStep := wbStep + 1; state := Wb; }
    }

    method Reenter()
      modifies this
      ensures View() == Enter(old(file))
    {
      state := Prep1;
      si, di, cx, ax, src, dst := 0, 0, 0, ZERO, ZERO, ZERO;
      wbStep, dirty := 0, false;
      flagsVal, flagsMask, doJump := Flags(false, false, false, false, false, false), false, false;
    }

    method TickTransfer(i: In, op: Op)
      requires state in {Rd1, G1, Rd2, G2, Wr, G3}
      modifies `src, `dst, `state
      ensures View() == Step(old(View()), i, op)
    {
      match state {
        case Rd1 => if i.done { src, state := i.rdata, G1; }
        case G1 => state := if ReadsDst(op) then Rd2 else AfterReads(op);
        case Rd2 => if i.done { dst, state := i.rdata, G2; }
        case G2 => state := AfterReads(op);
        case Wr => if i.done { state := G3; }
        case G3 => state := Exec;
      }
    }

    method TickEnds(i: In, op: Op)
      requires state in {Prep1, Prep2, Retire}
      modifies `si, `di, `cx, `ax, `wbStep, `dirty, `file, `state
      ensures View() == Step(old(View()), i, op)
    {
      match state {
        case Prep1 => si, di, state := file.si, file.di, Prep2;
        case Prep2 =>
          cx, ax := file.cx, if op.word then file.ax else Word(file.ax.lo, 0);
          wbStep, dirty, state := 0, false, Check;
        case Retire =>
          if flagsMask { file := file.(flags := flagsVal); }
          state := if doJump then Away else Finished;
      }
    }

    method Tick(i: In, op: Op)
      modifies this
      ensures View() == Step(old(View()), i, op)
    {
      hide StepCheck, StepExec, StepWb, Enter, AfterReads;
      match state {
        case Check => TickCheck(i, op);
        case Exec => TickExec(op);
        case Wb => TickWb(op);
        case Away => if i.resume { Reenter(); }
        case Finished =>
        case Prep1 => TickEnds(i, op);
        case Prep2 => TickEnds(i, op);
        case Retire => TickEnds(i, op);
        case _ => TickTransfer(i, op);
      }
    }
  }
}
