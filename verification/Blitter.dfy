/** modules/blitter.sv: rectangle fills and copies through a framebuffer port
    the CPU may take at any clock. */
module Blitter {
  import opened Machine

  const APERTURE: nat := 0x1_0000    // byte offsets; every pointer wraps here

  type Frame = f: seq<Byte> | |f| == APERTURE witness seq(APERTURE, _ => 0)

  const FILL: nat := 0
  const KEYED: nat := 2              // 1, and 3 as well, copy every pixel

  /** The registers software sets; `fill` and `key` share one. */
  datatype Setup = Setup(dst: nat, src: nat, width: nat, height: nat, dstStep: nat, srcStep: nat,
                         fill: Byte, key: Byte)

  predicate SetupOk(s: Setup) {
    && s.dst < APERTURE && s.src < APERTURE && s.width < APERTURE && s.height < APERTURE
    && s.dstStep < APERTURE && s.srcStep < APERTURE
  }

  // ---- the rectangle, as a program would draw it --------------------------------

  function Wrap(n: nat): (a: nat)
    ensures a < APERTURE
  {
    n % APERTURE
  }

  function DstAt(s: Setup, y: nat, x: nat): (a: nat)
    ensures a < APERTURE
  {
    Wrap(s.dst + y * s.dstStep + x)
  }

  function SrcAt(s: Setup, y: nat, x: nat): (a: nat)
    ensures a < APERTURE
  {
    Wrap(s.src + y * s.srcStep + x)
  }

  function Pixel(f: Frame, s: Setup, op: nat, y: nat, x: nat): Frame {
    var p := f[SrcAt(s, y, x)];
    if op == FILL then f[DstAt(s, y, x) := s.fill]
    else if op == KEYED && p == s.key then f
    else f[DstAt(s, y, x) := p]
  }

  /** One pixel by the operation's number: 0 fills, 2 copies all but the key's colour,
      1 and 3 copy; and it is at row `y`, column `x` of its rectangle, mod 64K. */
  lemma PixelByNumber(f: Frame, s: Setup, op: nat, y: nat, x: nat)
    requires op < 4
    ensures var to_, from_ := (s.dst + y * s.dstStep + x) % 0x1_0000, (s.src + y * s.srcStep + x) % 0x1_0000;
      Pixel(f, s, op, y, x) == match op
        case 0 => f[to_ := s.fill]
        case 2 => if f[from_] == s.key then f else f[to_ := f[from_]]
        case _ => f[to_ := f[from_]]
  {
  }

  /** The first `x` pixels of row `y`, left to right. */
  function Row(f: Frame, s: Setup, op: nat, y: nat, x: nat): Frame {
    if x == 0 then f else Pixel(Row(f, s, op, y, x - 1), s, op, y, x - 1)
  }

  /** The first `y` rows, top to bottom. */
  function Rows(f: Frame, s: Setup, op: nat, y: nat): Frame {
    if y == 0 then f else Row(Rows(f, s, op, y - 1), s, op, y - 1, s.width)
  }

  /** The loop stopped just before pixel (x, y). */
  function Drawn(f: Frame, s: Setup, op: nat, y: nat, x: nat): Frame { Row(Rows(f, s, op, y), s, op, y, x) }

  // ---- the registers ----------------------------------------------------------------

  datatype State = Idle | Wr | Rd | RdW

  datatype Regs = Regs(setup: Setup, op: nat, state: State,
                       dstRow: nat, srcRow: nat, dstCur: nat, srcCur: nat, x: nat, y: nat, pixel: Byte)

  /** An I/O write: a setup register, or the command. */
  datatype RegWrite = NoWrite | Set(setup: Setup) | Command(go: bool, op: nat)

  /** `q` is the framebuffer's registered output. */
  datatype In = In(write: RegWrite, stall: bool, q: Word)

  function Reset(): Regs { Regs(Setup(0, 0, 0, 0, 0, 0, 0, 0), FILL, Idle, 0, 0, 0, 0, 0, 0, 0) }

  function SrcByte(r: Regs, q: Word): Byte { if r.srcCur % 2 == 1 then q.hi else q.lo }

  predicate Transparent(r: Regs, q: Word) { r.op == KEYED && SrcByte(r, q) == r.setup.key }

  /** A pixel is finished this clock; whether anything is written with it. */
  predicate Steps(r: Regs, i: In) { r.state == Wr && !i.stall }
  predicate Writes(r: Regs, i: In) { Steps(r, i) && !Transparent(r, i.q) }

  function Accept(r: Regs, w: RegWrite): Regs {
    match w
    case NoWrite => r
    case Set(s) => r.(setup := s)
    case Command(go, op) =>
      if go && r.setup.width != 0 && r.setup.height != 0 then
        var s := r.setup;
        Regs(s, op, if op == FILL then Wr else Rd, s.dst, s.src, s.dst, s.src, 0, 0, s.fill)
      else r
  }

  /** On to the next pixel, the next row, or done. */
  function Walk(r: Regs): Regs {
    var s := r.setup;
    var next := if r.op == FILL then Wr else Rd;
    var pixel := if r.op == FILL then s.fill else r.pixel;
    if r.x + 1 >= s.width && r.y + 1 >= s.height then r.(state := Idle, pixel := pixel)
    else if r.x + 1 >= s.width then
      r.(x := 0, y := r.y + 1, dstRow := Wrap(r.dstRow + s.dstStep), srcRow := Wrap(r.srcRow + s.srcStep),
         dstCur := Wrap(r.dstRow + s.dstStep), srcCur := Wrap(r.srcRow + s.srcStep), state := next, pixel := pixel)
    else
      r.(x := r.x + 1, dstCur := Wrap(r.dstCur + 1), srcCur := Wrap(r.srcCur + 1), state := next, pixel := pixel)
  }

  function Step(r: Regs, i: In): Regs {
    match r.state
    case Idle => Accept(r, i.write)
    case Rd => if i.stall then r else r.(state := RdW)
    case RdW => r.(pixel := SrcByte(r, i.q), state := Wr)
    case Wr => if i.stall then r else Walk(r)
  }

  // ---- with the framebuffer -----------------------------------------------------------

  /** `steps` counts pixels finished since the last command. */
  datatype Sys = Sys(regs: Regs, frame: Frame, q: Word, steps: nat)

  /** A clock in which the CPU may take the port, to read whatever it likes. */
  datatype Env = Env(write: RegWrite, stall: bool, cpuAddr: nat)

  predicate EnvOk(e: Env) {
    && e.cpuAddr < APERTURE && (e.write.Set? ==> SetupOk(e.write.setup)) && (e.write.Command? ==> e.write.op < 4)
  }

  function WordAt(f: Frame, a: nat): Word
    requires a < APERTURE
  {
    Word(f[a - a % 2], f[a - a % 2 + 1])
  }

  function PortAddr(r: Regs): nat { if r.state == Rd || r.state == RdW then r.srcCur else r.dstCur }

  predicate PointersOk(r: Regs) { SetupOk(r.setup) && r.dstCur < APERTURE && r.srcCur < APERTURE && r.op < 4 }

  function SysStep(s: Sys, e: Env): Sys
    requires PointersOk(s.regs) && EnvOk(e)
  {
    var i := In(e.write, e.stall, s.q);
    Sys(Step(s.regs, i),
        if Writes(s.regs, i) then s.frame[s.regs.dstCur := s.regs.pixel] else s.frame,
        WordAt(s.frame, if e.stall then e.cpuAddr else PortAddr(s.regs)),
        if s.regs.state == Idle then 0 else if Steps(s.regs, i) then s.steps + 1 else s.steps)
  }

  // ---- the walk ----------------------------------------------------------------------

  /** The pointers are where the loop's arithmetic puts them. */
  predicate Placed(r: Regs) {
    && SetupOk(r.setup) && r.x < r.setup.width && r.y < r.setup.height
    && r.dstRow == DstAt(r.setup, r.y, 0) && r.srcRow == SrcAt(r.setup, r.y, 0)
    && r.dstCur == DstAt(r.setup, r.y, r.x) && r.srcCur == SrcAt(r.setup, r.y, r.x)
  }

  lemma WrapAdd(a: nat, b: nat)
    ensures Wrap(Wrap(a) + b) == Wrap(a + b)
  {
  }

  lemma NextRow(base: nat, y: nat, step: nat)
    ensures (y + 1) * step == y * step + step
    ensures Wrap(Wrap(base + y * step) + step) == Wrap(base + (y + 1) * step)
  {
    WrapAdd(base + y * step, step);
  }

  lemma WalkPlaced(r: Regs)
    requires Placed(r) && r.state == Wr
    ensures var n := Walk(r);
      && n.setup == r.setup && n.op == r.op
      && (n.state == Idle <==> r.x + 1 == r.setup.width && r.y + 1 == r.setup.height)
      && (n.state != Idle ==> Placed(n) && n.state == if r.op == FILL then Wr else Rd)
      && (n.state != Idle ==> n.y * r.setup.width + n.x == r.y * r.setup.width + r.x + 1)
  {
    hide Wrap;
    var s := r.setup;
    NextRow(s.dst, r.y, s.dstStep);
    NextRow(s.src, r.y, s.srcStep);
    NextRow(0, r.y, s.width);
    WrapAdd(s.dst + r.y * s.dstStep + r.x, 1);
    WrapAdd(s.src + r.y * s.srcStep + r.x, 1);
  }

  /** What the frame holds as the walk goes on, from `f` when it started. */
  predicate Drawing(s: Sys, f: Frame) {
    var r := s.regs;
    && Placed(r) && r.op < 4
    && s.frame == Drawn(f, r.setup, r.op, r.y, r.x)
    && s.steps == r.y * r.setup.width + r.x
    && (r.op == FILL ==> r.state == Wr && r.pixel == r.setup.fill)
    && (r.op != FILL && r.state == Wr ==> r.pixel == s.frame[r.srcCur])
    && (r.state == RdW ==> SrcByte(r, s.q) == s.frame[r.srcCur])
  }

  predicate Done(s: Sys, f: Frame, setup: Setup, op: nat) {
    && s.regs.state == Idle && s.frame == Rows(f, setup, op, setup.height)
    && s.steps == setup.width * setup.height
  }

  /** What the frame becomes when the pixel at hand is finished. */
  function Finish(s: Sys): Frame
    requires PointersOk(s.regs)
  {
    if Transparent(s.regs, s.q) then s.frame else s.frame[s.regs.dstCur := s.regs.pixel]
  }

  /** Finishing a pixel is the loop's next pixel, exactly when the byte a keyed
      copy judges by agrees with the source's, or the two look alike anyway. */
  lemma PixelExactly(s: Sys, f: Frame)
    requires Drawing(s, f) && s.regs.state == Wr
    ensures var r := s.regs;
      Finish(s) == Drawn(f, r.setup, r.op, r.y, r.x + 1)
      <==> (r.op == KEYED ==>
              || (SrcByte(r, s.q) == r.setup.key <==> s.frame[r.srcCur] == r.setup.key)
              || s.frame[r.dstCur] == s.frame[r.srcCur])
  {
    hide DstAt, SrcAt;
    var r := s.regs;
    var old_, new_ := s.frame[r.dstCur], s.frame[r.srcCur];
    if r.op == KEYED && old_ != new_ {
      assert s.frame[r.dstCur := new_][r.dstCur] != s.frame[r.dstCur];
    } else if r.op == KEYED {
      assert s.frame[r.dstCur := new_] == s.frame;
    }
  }

  /** A keyed copy is judging by its own source byte. */
  predicate Judges(s: Sys)
    requires PointersOk(s.regs)
  {
    s.regs.op == KEYED && s.regs.state == Wr ==> SrcByte(s.regs, s.q) == s.frame[s.regs.srcCur]
  }

  /** The CPU stays away in the two clocks a keyed copy cannot share. */
  predicate Undisturbed(s: Sys, e: Env) {
    s.regs.op == KEYED && (s.regs.state == RdW || s.regs.state == Wr) ==> !e.stall
  }

  lemma WaitDraws(s: Sys, e: Env, f: Frame)
    requires PointersOk(s.regs) && Drawing(s, f) && Judges(s) && EnvOk(e) && Undisturbed(s, e)
    requires s.regs.state in {Rd, RdW} || (s.regs.state == Wr && e.stall)
    ensures PointersOk(SysStep(s, e).regs)
    ensures Drawing(SysStep(s, e), f) && Judges(SysStep(s, e)) && SysStep(s, e).regs.state != Idle
  {
    hide Drawn, DstAt, SrcAt;
  }

  /** The frame and the count, whatever the walk does next. */
  lemma FinishFrame(s: Sys, e: Env, f: Frame)
    requires PointersOk(s.regs) && Drawing(s, f) && Judges(s) && EnvOk(e) && s.regs.state == Wr && !e.stall
    ensures var t, r := SysStep(s, e), s.regs;
      && t.regs == Walk(r) && t.frame == Drawn(f, r.setup, r.op, r.y, r.x + 1)
      && t.steps == r.y * r.setup.width + r.x + 1
  {
    hide Placed, DstAt, SrcAt, Drawn, Walk;
    PixelExactly(s, f);
  }

  lemma WalkPixel(r: Regs)
    ensures Walk(r).pixel == if r.op == FILL then r.setup.fill else r.pixel
    ensures Walk(r).setup == r.setup && Walk(r).op == r.op
  {
  }

  lemma FinishDraws(s: Sys, e: Env, f: Frame)
    requires PointersOk(s.regs) && Drawing(s, f) && Judges(s) && EnvOk(e) && s.regs.state == Wr && !e.stall
    ensures PointersOk(SysStep(s, e).regs)
    ensures var t := SysStep(s, e);
      if t.regs.state == Idle then Done(t, f, s.regs.setup, s.regs.op) else Drawing(t, f) && Judges(t)
    ensures SysStep(s, e).regs.setup == s.regs.setup && SysStep(s, e).regs.op == s.regs.op
  {
    hide Placed, SysStep, Walk, Drawn, SetupOk;
    FinishFrame(s, e, f);
    WalkPixel(s.regs);
    WalkPlaced(s.regs);
    WalkPointers(s.regs);
    RowEnds(s.regs, f);
    NextRow(0, s.regs.y, s.regs.setup.width);
  }

  lemma WalkPointers(r: Regs)
    requires PointersOk(r)
    ensures PointersOk(Walk(r))
  {
  }

  /** The last pixel of a row leaves the loop at the start of the next. */
  lemma RowEnds(r: Regs, f: Frame)
    requires Placed(r) && r.state == Wr
    ensures var n, s := Walk(r), r.setup;
      && (n.state == Idle ==> Drawn(f, s, r.op, r.y, r.x + 1) == Rows(f, s, r.op, s.height))
      && (n.state != Idle ==> Drawn(f, s, r.op, r.y, r.x + 1) == Drawn(f, s, r.op, n.y, n.x))
  {
    hide DstAt, SrcAt, Pixel;
  }

  // ---- whole blits -----------------------------------------------------------------

  /** A command accepted in the first clock, then any schedule. */
  ghost predicate IsBlit(states: seq<Sys>, envs: seq<Env>) {
    && |states| == |envs| + 1 && |envs| > 0
    && (forall k :: 0 <= k < |states| ==> PointersOk(states[k].regs))
    && (forall k :: 0 <= k < |envs| ==> EnvOk(envs[k]) && states[k + 1] == SysStep(states[k], envs[k]))
    && states[0].regs.state == Idle && envs[0].write.Command? && envs[0].write.go
    && states[0].regs.setup.width != 0 && states[0].regs.setup.height != 0
    && (forall k :: 0 < k < |envs| ==> states[k].regs.state != Idle)
  }

  lemma StartDraws(s: Sys, e: Env)
    requires PointersOk(s.regs) && EnvOk(e) && s.regs.state == Idle && e.write.Command? && e.write.go
    requires s.regs.setup.width != 0 && s.regs.setup.height != 0
    ensures var t := SysStep(s, e);
      Drawing(t, s.frame) && t.regs.setup == s.regs.setup && t.regs.op == e.write.op
      && t.regs.state == if t.regs.op == FILL then Wr else Rd
  {
    assert 0 * s.regs.setup.dstStep == 0 && 0 * s.regs.setup.srcStep == 0 && 0 * s.regs.setup.width == 0;
  }

  /** FILL AND COPY, EXACTLY, under any stalls; and keyed copy wherever the CPU
      keeps out of its read-wait and write clocks. After each clock the frame is
      the row-major loop so far, overlap and 16-bit wrap included, and at the end
      all of it, after exactly width times height pixels. */
  lemma {:induction false} BlitDraws(states: seq<Sys>, envs: seq<Env>, k: nat)
    requires IsBlit(states, envs) && 0 < k < |states|
    requires forall j :: 0 < j < |envs| ==> Undisturbed(states[j], envs[j])
    ensures var s, f, setup, op := states[k], states[0].frame, states[0].regs.setup, envs[0].write.op;
      && s.regs.setup == setup && s.regs.op == op
      && (if s.regs.state == Idle then k == |envs| && Done(s, f, setup, op)
          else Drawing(s, f) && Judges(s))
  {
    hide Drawing, Done, SysStep, Drawn;
    if k == 1 {
      StartDraws(states[0], envs[0]);
      DrawingIsBusy(states[1], states[0].frame);
    } else {
      BlitDraws(states, envs, k - 1);
      var s, e, f := states[k - 1], envs[k - 1], states[0].frame;
      if s.regs.state == Wr && !e.stall {
        FinishDraws(s, e, f);
      } else {
        WaitDraws(s, e, f);
        WaitKeeps(s, e);
      }
    }
  }

  /** The byte of the source's lane in the word the CPU reads at `p`. */
  function LaneAt(f: Frame, setup: Setup, p: nat): Byte
    requires p < APERTURE
  {
    f[p - p % 2 + setup.src % 2]
  }

  /** In the middle of a one-pixel keyed copy, the frame as it was. */
  predicate OnePixel(s: Sys, f: Frame, setup: Setup, state: State) {
    && PointersOk(s.regs) && s.frame == f
    && s.regs == Regs(setup, KEYED, state, setup.dst, setup.src, setup.dst, setup.src, 0, 0, s.regs.pixel)
    && setup.width == 1 && setup.height == 1
  }

  lemma OnePixelStep(s: Sys, e: Env, f: Frame, setup: Setup)
    requires OnePixel(s, f, setup, s.regs.state) && EnvOk(e) && (s.regs.state == Rd || s.regs.state == RdW)
    requires e.stall <==> s.regs.state == RdW
    ensures OnePixel(SysStep(s, e), f, setup, if s.regs.state == Rd then RdW else Wr)
    ensures e.stall ==> SrcByte(SysStep(s, e).regs, SysStep(s, e).q) == LaneAt(f, setup, e.cpuAddr)
  {
  }

  lemma OnePixelLost(s: Sys, e: Env, f: Frame, setup: Setup)
    requires OnePixel(s, f, setup, Wr) && EnvOk(e) && !e.stall && SrcByte(s.regs, s.q) == setup.key
    ensures PointersOk(SysStep(s, e).regs) && SysStep(s, e).regs.state == Idle && SysStep(s, e).frame == f
  {
  }

  /** The loop on a rectangle of one pixel. */
  lemma OnePixelLoop(f: Frame, setup: Setup)
    requires SetupOk(setup) && setup.width == 1
    ensures Rows(f, setup, KEYED, 1) == if f[setup.src] == setup.key then f else f[setup.dst := f[setup.src]]
  {
    assert 0 * setup.srcStep == 0 && 0 * setup.dstStep == 0;
    assert Row(f, setup, KEYED, 0, 1) == Pixel(Row(f, setup, KEYED, 0, 0), setup, KEYED, 0, 0);
  }

  /** A KEYED COPY LOSES A PIXEL TO ONE STALL: in a one-pixel copy of a byte that
      shows, let the CPU read a word holding the key in the read-wait clock. */
  lemma StallLosesAPixel(s: Sys, p: nat)
    requires PointersOk(s.regs) && s.regs.state == Idle && s.regs.setup.width == 1 == s.regs.setup.height
    requires p < APERTURE && LaneAt(s.frame, s.regs.setup, p) == s.regs.setup.key
    requires var shown := s.frame[s.regs.setup.src];
      shown != s.regs.setup.key && shown != s.frame[s.regs.setup.dst]
    ensures exists states: seq<Sys>, envs: seq<Env> ::
      && IsBlit(states, envs) && |envs| == 4 && states[0] == s && states[4].regs.state == Idle
      && states[4].frame == s.frame != Rows(s.frame, s.regs.setup, KEYED, 1)
      && forall k :: 0 <= k < 4 ==> (envs[k].stall <==> k == 2)
  {
    hide SysStep, LaneAt, SrcByte, Rows;
    var f, setup := s.frame, s.regs.setup;
    var go, free, read := Env(Command(true, KEYED), false, p), Env(NoWrite, false, p), Env(NoWrite, true, p);
    OnePixelStart(s, go);
    var a := SysStep(s, go);
    OnePixelStep(a, free, f, setup);
    var b := SysStep(a, free);
    OnePixelStep(b, read, f, setup);
    var c := SysStep(b, read);
    OnePixelLost(c, free, f, setup);
    var states, envs := [s, a, b, c, SysStep(c, free)], [go, free, read, free];
    OnePixelLoop(f, setup);
    assert Rows(f, setup, KEYED, 1)[setup.dst] != f[setup.dst];
    assert IsBlit(states, envs);
  }

  lemma OnePixelStart(s: Sys, e: Env)
    requires PointersOk(s.regs) && s.regs.state == Idle && s.regs.setup.width == 1 == s.regs.setup.height
    requires EnvOk(e) && e.write == Command(true, KEYED)
    ensures OnePixel(SysStep(s, e), s.frame, s.regs.setup, Rd)
  {
  }

  lemma DrawingIsBusy(s: Sys, f: Frame)
    requires PointersOk(s.regs) && Drawing(s, f) && s.regs.state == if s.regs.op == FILL then Wr else Rd
    ensures Judges(s)
  {
  }

  lemma WaitKeeps(s: Sys, e: Env)
    requires PointersOk(s.regs) && EnvOk(e) && s.regs.state != Idle && !(s.regs.state == Wr && !e.stall)
    ensures SysStep(s, e).regs.setup == s.regs.setup && SysStep(s, e).regs.op == s.regs.op
    ensures SysStep(s, e).regs.state != Idle
  {
  }

  /** An empty rectangle draws nothing and is over at once. */
  lemma EmptyDoesNothing(s: Sys, e: Env)
    requires PointersOk(s.regs) && EnvOk(e) && s.regs.state == Idle && e.write.Command?
    requires s.regs.setup.width == 0 || s.regs.setup.height == 0
    ensures SysStep(s, e).regs == s.regs && SysStep(s, e).frame == s.frame
  {
  }

  // ---- how long it takes --------------------------------------------------------------

  /** Clocks still needed if the CPU keeps out: one a pixel for a fill, three
      for a copy. */
  function ClocksLeft(r: Regs): int {
    var pixels := (r.setup.height - r.y) * r.setup.width - r.x;
    match r.state
    case Idle => 0
    case Wr => if r.op == FILL then pixels else 3 * pixels - 2
    case Rd => 3 * pixels
    case RdW => 3 * pixels - 1
  }

  /** Every clock the port is free is progress, and a stall undoes none. */
  lemma FreeClocksProgress(s: Sys, e: Env, f: Frame)
    requires Drawing(s, f) && EnvOk(e) && PointersOk(s.regs) && s.regs.state != Idle
    ensures ClocksLeft(s.regs) > 0
    ensures !e.stall ==> ClocksLeft(SysStep(s, e).regs) == ClocksLeft(s.regs) - 1
    ensures e.stall ==> ClocksLeft(SysStep(s, e).regs) <= ClocksLeft(s.regs)
  {
    hide Drawn, DstAt, SrcAt, Placed;
    if s.regs.state == Wr { WalkPlaced(s.regs); }
    PixelsLeft(s.regs);
    var r := s.regs;
    NextRow(0, r.setup.height - r.y - 1, r.setup.width);
  }

  lemma AtLeastOneRow(rows: nat, width: nat)
    requires rows >= 1
    ensures rows * width >= width
  {
  }

  lemma PixelsLeft(r: Regs)
    requires Placed(r)
    ensures r.y < r.setup.height && r.x < r.setup.width
    ensures (r.setup.height - r.y) * r.setup.width - r.x >= 1
  {
    AtLeastOneRow(r.setup.height - r.y, r.setup.width);
  }

  // ---- the engine itself -----------------------------------------------------------------

  class Engine {
    var setup: Setup
    var op: nat
    var state: State
    var dstRow: nat
    var srcRow: nat
    var dstCur: nat
    var srcCur: nat
    var x: nat
    var y: nat
    var pixel: Byte

    ghost function View(): Regs
      reads this
    {
      Regs(setup, op, state, dstRow, srcRow, dstCur, srcCur, x, y, pixel)
    }

    constructor ()
      ensures View() == Reset()
    {
      setup, op, state := Setup(0, 0, 0, 0, 0, 0, 0, 0), FILL, Idle;
      dstRow, srcRow, dstCur, srcCur, x, y, pixel := 0, 0, 0, 0, 0, 0, 0;
    }

    method Write(w: RegWrite)
      requires state == Idle
      modifies this
      ensures View() == Accept(old(View()), w)
    {
      match w {
        case NoWrite =>
        case Set(s) => setup := s;
        case Command(go, operation) =>
          if go && setup.width != 0 && setup.height != 0 {
            op := operation;
            dstRow, dstCur := setup.dst, setup.dst;
            srcRow, srcCur := setup.src, setup.src;
            x, y, pixel := 0, 0, setup.fill;
            state := if operation == FILL then Wr else Rd;
          }
      }
    }

    method NextPixel()
      modifies `x, `y, `dstRow, `srcRow, `dstCur, `srcCur, `state, `pixel
      ensures View() == Walk(old(View()))
    {
      var lastX, lastY := x + 1 >= setup.width, y + 1 >= setup.height;
      var next := if op == FILL then Wr else Rd;
      if op == FILL { pixel := setup.fill; }
      if lastX && lastY {
        state := Idle;
      } else if lastX {
        x, y := 0, y + 1;
        dstRow, srcRow := Wrap(dstRow + setup.dstStep), Wrap(srcRow + setup.srcStep);
        dstCur, srcCur, state := dstRow, srcRow, next;
      } else {
        x, dstCur, srcCur, state := x + 1, Wrap(dstCur + 1), Wrap(srcCur + 1), next;
      }
    }

    /** One clock; the framebuffer port's write enable, byte address and data. */
    method Tick(i: In) returns (we: bool, addr: nat, data: Byte)
      modifies this
      ensures View() == Step(old(View()), i)
      ensures we == Writes(old(View()), i)
      ensures we ==> addr == old(dstCur) && data == old(pixel)
    {
      hide Walk, Accept;
      var srcByte := if srcCur % 2 == 1 then i.q.hi else i.q.lo;
      we := state == Wr && !i.stall && !(op == KEYED && srcByte == setup.key);
      addr, data := dstCur, pixel;
      match state {
        case Idle => Write(i.write);
        case Rd => if !i.stall { state := RdW; }
        case RdW => pixel, state := srcByte, Wr;
        case Wr => if !i.stall { NextPixel(); }
      }
    }
  }
}
