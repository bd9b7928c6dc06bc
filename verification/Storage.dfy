/** modules/storage.sv with its SDRAM backend: a block device of 512-byte sectors
    behind a 256-word buffer. */
module Storage {
  import opened Machine
  import S = Sdram
  import SC = SdramController

  const WORDS: nat := 256            // in a sector, and in the buffer
  const ADDRESSES: nat := 0x100_0000 // the 24-bit byte address
  const CPU_BYTES: nat := 0x10_0000

  type Buffer = b: seq<Word> | |b| == WORDS witness seq(WORDS, _ => ZERO)

  datatype Config = Config(sectors: nat, base: nat)

  predicate ConfigOk(c: Config) { c.sectors < ADDRESSES && c.base < ADDRESSES && c.base % 2 == 0 }

  datatype T = Idle | RdRq | RdNx | WrSu | WrRq | WrNx | Done

  datatype Regs = Regs(
    sbuf: Buffer, qCpu: Word, qXfer: Word,
    lbaSet: nat, lbaCur: nat, windex: nat, drq: bool, err: bool,
    tstate: T, tidx: nat, isRead: bool)

  /** One completed register access, or none. */
  datatype Access =
    | Quiet
    | LbaLo(n: nat)
    | LbaHi(n: nat)
    | Command(n: nat)
    | PutData(w: Word)
    | GetData
    | Other                       // status, size and the unused registers

  const CMD_READ: nat := 1
  const CMD_WRITE: nat := 2

  datatype In = In(access: Access, rdata: Word, ready: bool)

  predicate Shape(r: Regs) { r.lbaSet < ADDRESSES && r.lbaCur < ADDRESSES && r.windex < WORDS && r.tidx < WORDS }

  predicate AccessOk(a: Access) {
    (a.LbaLo? || a.Command? ==> a.n < 0x1_0000) && (a.LbaHi? ==> a.n < 0x100)
  }

  function Reset(): Regs {
    Regs(seq(WORDS, _ => ZERO), ZERO, ZERO, 0, 0, 0, false, false, Idle, 0, true)
  }

  predicate Busy(r: Regs) { r.tstate != Idle }

  /** The byte address of word `i` of sector `lba`: a 24-bit sum of 15 bits of
      sector number. */
  function XferAddr(c: Config, lba: nat, i: nat): (a: nat)
    ensures a < ADDRESSES
  {
    (c.base + lba % 0x8000 * 512 + 2 * i) % ADDRESSES
  }

  predicate Reads(r: Regs) { r.tstate == RdRq }
  predicate Writes(r: Regs) { r.tstate == WrRq }

  /** What a DATA access does to the index: filling always, reading only while a
      sector is on offer. */
  predicate TakesData(r: Regs, a: Access) { !Busy(r) && (a.PutData? || (a.GetData? && r.drq)) }

  predicate Accepts(r: Regs, a: Access, c: Config) {
    !Busy(r) && a.Command? && (a.n == CMD_READ || a.n == CMD_WRITE) && r.lbaSet < c.sectors
  }

  predicate Refuses(r: Regs, a: Access, c: Config) { !Busy(r) && a.Command? && !Accepts(r, a, c) }

  /** The transfer engine's states, once it has been set going. */
  function NextT(t: T, tidx: nat, ready: bool): T {
    match t
    case RdRq => if ready then RdNx else RdRq
    case RdNx => if tidx == WORDS - 1 then Done else RdRq
    case WrSu => WrRq
    case WrRq => if ready then WrNx else WrRq
    case WrNx => if tidx == WORDS - 1 then Done else WrSu
    case _ => Idle
  }

  function StepT(r: Regs, i: In, c: Config): T {
    if Busy(r) then NextT(r.tstate, r.tidx, i.ready)
    else if Accepts(r, i.access, c) then (if i.access.n == CMD_READ then RdRq else WrSu)
    else Idle
  }

  function StepBuf(r: Regs, i: In): Buffer
    requires Shape(r)
  {
    if !Busy(r) && i.access.PutData? then r.sbuf[r.windex := i.access.w]
    else if Reads(r) && i.ready then r.sbuf[r.tidx := i.rdata]
    else r.sbuf
  }

  function StepWindex(r: Regs, i: In): nat {
    if r.tstate == Done || (!Busy(r) && i.access.LbaLo?) then 0
    else if TakesData(r, i.access) then (r.windex + 1) % WORDS
    else r.windex
  }

  function StepDrq(r: Regs, i: In, c: Config): bool {
    if r.tstate == Done then r.isRead
    else if !Busy(r) && i.access.Command? then false
    else if TakesData(r, i.access) && r.windex == WORDS - 1 then false
    else r.drq
  }

  function StepLba(r: Regs, a: Access): nat {
    if Busy(r) then r.lbaSet
    else if a.LbaLo? then r.lbaSet / 0x1_0000 * 0x1_0000 + a.n
    else if a.LbaHi? then a.n * 0x1_0000 + r.lbaSet % 0x1_0000
    else r.lbaSet
  }

  function StepTidx(r: Regs, i: In, c: Config): nat {
    if Accepts(r, i.access, c) then 0
    else if r.tstate in {RdNx, WrNx} && r.tidx != WORDS - 1 then r.tidx + 1
    else r.tidx
  }

  function Step(r: Regs, i: In, c: Config): Regs
    requires Shape(r)
  {
    var go := Accepts(r, i.access, c);
    Regs(StepBuf(r, i), r.sbuf[r.windex], r.sbuf[r.tidx],
         StepLba(r, i.access), if go then r.lbaSet else r.lbaCur,
         StepWindex(r, i), StepDrq(r, i, c),
         if Refuses(r, i.access, c) then true else if go then false else r.err,
         StepT(r, i, c), StepTidx(r, i, c),
         if go then i.access.n == CMD_READ else r.isRead)
  }

  // ---- the address map ------------------------------------------------------------

  const DISK_BASE: nat := CPU_BYTES

  /** EVERY SECTOR ABOVE THE CPU'S MEGABYTE, exactly as long as the sector number,
      taken to 15 bits, is below 30720: from there the sum wraps to zero. */
  lemma AboveCpuExactly(c: Config, lba: nat, i: nat)
    requires c.base == DISK_BASE && i < WORDS
    ensures XferAddr(c, lba, i) >= CPU_BYTES <==> lba % 0x8000 < 30720
    ensures lba < 30720 ==> XferAddr(c, lba, i) == DISK_BASE + lba * 512 + 2 * i
  {
  }

  lemma OffsetsAreDistinct(base: nat, a: nat, b: nat)
    requires base < ADDRESSES && a < ADDRESSES && b < ADDRESSES
    requires (base + a) % ADDRESSES == (base + b) % ADDRESSES
    ensures a == b
  {
  }

  /** No two words of the disk share an address. */
  lemma AddressesAreDistinct(c: Config, l: nat, i: nat, m: nat, j: nat)
    requires ConfigOk(c) && i < WORDS && j < WORDS && XferAddr(c, l, i) == XferAddr(c, m, j)
    ensures l % 0x8000 == m % 0x8000 && i == j
  {
    var p, q := l % 0x8000, m % 0x8000;
    OffsetsAreDistinct(c.base, p * 512 + 2 * i, q * 512 + 2 * j);
  }

  lemma AddressesAreEven(c: Config, l: nat, i: nat)
    requires ConfigOk(c)
    ensures XferAddr(c, l, i) % 2 == 0
  {
  }

  // ---- sectors ----------------------------------------------------------------------

  function Cell(c: Config, lba: nat, i: nat): (w: nat)
    ensures w < SC.WORDS
  {
    XferAddr(c, lba, i) / 2
  }

  lemma CellsAreDistinct(c: Config, l: nat, i: nat, m: nat, j: nat)
    requires ConfigOk(c) && i < WORDS && j < WORDS && Cell(c, l, i) == Cell(c, m, j)
    ensures l % 0x8000 == m % 0x8000 && i == j
  {
    hide XferAddr;
    AddressesAreEven(c, l, i);
    AddressesAreEven(c, m, j);
    AddressesAreDistinct(c, l, i, m, j);
  }

  function ReadSector(mem: S.Mem, c: Config, lba: nat): Buffer {
    seq(WORDS, i requires 0 <= i < WORDS => mem[Cell(c, lba, i)])
  }

  /** The first `n` words of a sector written, in order. */
  function WriteWords(mem: S.Mem, c: Config, lba: nat, words: Buffer, n: nat): S.Mem
    requires n <= WORDS
  {
    if n == 0 then mem else WriteWords(mem, c, lba, words, n - 1)[Cell(c, lba, n - 1) := words[n - 1]]
  }

  function WriteSector(mem: S.Mem, c: Config, lba: nat, words: Buffer): S.Mem {
    WriteWords(mem, c, lba, words, WORDS)
  }

  lemma {:induction false} WrittenWord(mem: S.Mem, c: Config, lba: nat, words: Buffer, n: nat, i: nat)
    requires ConfigOk(c) && i < n <= WORDS
    ensures WriteWords(mem, c, lba, words, n)[Cell(c, lba, i)] == words[i]
  {
    if i < n - 1 {
      WrittenWord(mem, c, lba, words, n - 1, i);
      if Cell(c, lba, i) == Cell(c, lba, n - 1) { CellsAreDistinct(c, lba, i, lba, n - 1); }
    }
  }

  lemma {:induction false} UnwrittenWord(mem: S.Mem, c: Config, lba: nat, words: Buffer, n: nat, w: nat)
    requires n <= WORDS && w < SC.WORDS && forall i :: 0 <= i < n ==> w != Cell(c, lba, i)
    ensures WriteWords(mem, c, lba, words, n)[w] == mem[w]
  {
    if n > 0 { UnwrittenWord(mem, c, lba, words, n - 1, w); }
  }

  /** What is written is what is read, and no other sector notices. */
  lemma SectorsAreKept(mem: S.Mem, c: Config, lba: nat, words: Buffer, other: nat)
    requires ConfigOk(c)
    ensures ReadSector(WriteSector(mem, c, lba, words), c, lba) == words
    ensures other % 0x8000 != lba % 0x8000 ==>
      ReadSector(WriteSector(mem, c, lba, words), c, other) == ReadSector(mem, c, other)
  {
    forall i | 0 <= i < WORDS
      ensures WriteSector(mem, c, lba, words)[Cell(c, lba, i)] == words[i]
    {
      WrittenWord(mem, c, lba, words, WORDS, i);
    }
    if other % 0x8000 != lba % 0x8000 {
      forall i | 0 <= i < WORDS
        ensures WriteSector(mem, c, lba, words)[Cell(c, other, i)] == mem[Cell(c, other, i)]
      {
        forall j | 0 <= j < WORDS
          ensures Cell(c, other, i) != Cell(c, lba, j)
        {
          if Cell(c, other, i) == Cell(c, lba, j) { CellsAreDistinct(c, other, i, lba, j); }
        }
        UnwrittenWord(mem, c, lba, words, WORDS, Cell(c, other, i));
      }
    }
  }

  /** SECTOR 30720 IS THE FIRST TO GO WRONG: on a disk of 32768 sectors at 1 MB the
      command to write it is taken, and its first word lands on the CPU's word 0. */
  lemma Sector30720HitsTheCpu(r: Regs, mem: S.Mem, words: Buffer)
    requires !Busy(r) && r.lbaSet == 30720
    ensures var c := Config(32768, DISK_BASE);
      && ConfigOk(c) && Accepts(r, Command(CMD_WRITE), c)
      && WriteSector(mem, c, r.lbaSet, words)[0] == words[0]
  {
    var c := Config(32768, DISK_BASE);
    assert XferAddr(c, 30720, 0) == 0;
    WrittenWord(mem, c, 30720, words, WORDS, 0);
  }

  // ---- with its memory ---------------------------------------------------------------

  datatype Sys = Sys(regs: Regs, mem: S.Mem)

  /** One clock: what software does, and whether the arbiter says ready. */
  datatype Env = Env(access: Access, ready: bool)

  predicate EnvOk(s: Sys, e: Env) { AccessOk(e.access) && (e.ready ==> Reads(s.regs) || Writes(s.regs)) }

  function Target(s: Sys, c: Config): (w: nat)
    ensures w < SC.WORDS
  {
    Cell(c, s.regs.lbaCur, s.regs.tidx)
  }

  function SysStep(s: Sys, e: Env, c: Config): Sys
    requires Shape(s.regs)
  {
    Sys(Step(s.regs, In(e.access, s.mem[Target(s, c)], e.ready), c),
        if e.ready && Writes(s.regs) then s.mem[Target(s, c) := s.regs.qXfer] else s.mem)
  }

  lemma StepShape(s: Sys, e: Env, c: Config)
    requires Shape(s.regs) && EnvOk(s, e) && ConfigOk(c)
    ensures Shape(SysStep(s, e, c).regs)
  {
  }

  // ---- a write, from the command on -----------------------------------------------------

  /** The words of `words` that have reached memory; nothing else has changed. */
  predicate Storing(s: Sys, c: Config, was: S.Mem, words: Buffer, lba: nat) {
    var r := s.regs;
    && Shape(r) && r.sbuf == words && r.lbaCur == lba && !r.isRead && !r.err && !r.drq
    && (match r.tstate
        case WrSu => s.mem == WriteWords(was, c, lba, words, r.tidx)
        case WrRq => s.mem == WriteWords(was, c, lba, words, r.tidx) && r.qXfer == words[r.tidx]
        case WrNx => s.mem == WriteWords(was, c, lba, words, r.tidx + 1)
        case Done => s.mem == WriteSector(was, c, lba, words)
        case _ => false)
  }

  predicate Stored(s: Sys, c: Config, was: S.Mem, words: Buffer, lba: nat) {
    var r := s.regs;
    && Shape(r) && !Busy(r) && !r.err && !r.drq && r.windex == 0 && r.sbuf == words
    && s.mem == WriteSector(was, c, lba, words)
  }

  lemma StoringStep(s: Sys, e: Env, c: Config, was: S.Mem, words: Buffer, lba: nat)
    requires ConfigOk(c) && Storing(s, c, was, words, lba) && EnvOk(s, e)
    ensures var t := SysStep(s, e, c);
      if s.regs.tstate == Done then Stored(t, c, was, words, lba) else Storing(t, c, was, words, lba)
  {
    hide XferAddr;
  }

  // ---- a read, from the command on --------------------------------------------------------

  predicate Loading(s: Sys, c: Config, lba: nat) {
    var r := s.regs;
    var n := if r.tstate == RdRq then r.tidx else r.tidx + 1;
    && Shape(r) && r.lbaCur == lba && r.isRead && !r.err && !r.drq
    && r.tstate in {RdRq, RdNx, Done}
    && (r.tstate == Done ==> r.tidx == WORDS - 1)
    && (forall i :: 0 <= i < n ==> r.sbuf[i] == s.mem[Cell(c, lba, i)])
  }

  predicate OnOffer(r: Regs, sector: Buffer) {
    Shape(r) && !Busy(r) && !r.err && r.drq && r.windex == 0 && r.sbuf == sector
  }

  lemma LoadingStep(s: Sys, e: Env, c: Config, lba: nat)
    requires Loading(s, c, lba) && EnvOk(s, e)
    ensures var t := SysStep(s, e, c);
      && t.mem == s.mem
      && if s.regs.tstate == Done then OnOffer(t.regs, ReadSector(s.mem, c, lba)) else Loading(t, c, lba)
  {
    hide XferAddr, Cell;
  }

  // ---- whole runs ------------------------------------------------------------------------

  ghost predicate IsRun(states: seq<Sys>, envs: seq<Env>, c: Config) {
    && ConfigOk(c) && |states| == |envs| + 1
    && (forall k :: 0 <= k < |states| ==> Shape(states[k].regs))
    && (forall k :: 0 <= k < |envs| ==> EnvOk(states[k], envs[k]) && states[k + 1] == SysStep(states[k], envs[k], c))
  }

  /** From clock `b` on to `k` software stages data: it fills the buffer, and
      whatever else it does is neither a command, nor LBA_LO, nor a data read. */
  ghost predicate Stages(envs: seq<Env>, b: nat, k: nat)
    requires b <= k <= |envs|
  {
    forall j :: b <= j < k ==> !envs[j].access.Command? && !envs[j].access.LbaLo? && !envs[j].access.GetData?
  }

  /** The words put, in order. */
  ghost function Put(envs: seq<Env>, b: nat, k: nat): seq<Word>
    requires b <= k <= |envs|
  {
    if k == b then []
    else Put(envs, b, k - 1) + (if envs[k - 1].access.PutData? then [envs[k - 1].access.w] else [])
  }

  /** `put` is in the buffer and the index just past it. */
  predicate Staged(s: Sys, mem: S.Mem, put: seq<Word>) {
    && Shape(s.regs) && !Busy(s.regs) && s.mem == mem && |put| <= WORDS
    && s.regs.windex == |put| % WORDS
    && (forall i :: 0 <= i < |put| ==> s.regs.sbuf[i] == put[i])
  }

  lemma StageStep(s: Sys, e: Env, c: Config, mem: S.Mem, put: seq<Word>)
    requires Staged(s, mem, put) && EnvOk(s, e)
    requires !e.access.Command? && !e.access.LbaLo? && !e.access.GetData?
    requires e.access.PutData? ==> |put| < WORDS
    ensures Staged(SysStep(s, e, c), mem, if e.access.PutData? then put + [e.access.w] else put)
  {
    hide Cell;
  }

  lemma {:induction false} StagingFills(states: seq<Sys>, envs: seq<Env>, c: Config, b: nat, k: nat)
    requires IsRun(states, envs, c) && b <= k <= |envs| && Stages(envs, b, k)
    requires !Busy(states[b].regs) && states[b].regs.windex == 0 && |Put(envs, b, k)| <= WORDS
    ensures Staged(states[k], states[b].mem, Put(envs, b, k))
  {
    hide SysStep;
    if k > b {
      StagingFills(states, envs, c, b, k - 1);
      StageStep(states[k - 1], envs[k - 1], c, states[b].mem, Put(envs, b, k - 1));
    }
  }

  /** Setting LBA anchors the index, whatever was left half read. */
  lemma LbaAnchors(s: Sys, e: Env, c: Config)
    requires Shape(s.regs) && !Busy(s.regs) && e.access.LbaLo?
    ensures SysStep(s, e, c).regs.windex == 0 && !Busy(SysStep(s, e, c).regs)
    ensures SysStep(s, e, c).mem == s.mem || e.ready
  {
  }

  lemma {:induction false} TransferStores(states: seq<Sys>, envs: seq<Env>, c: Config, b: nat, k: nat)
    requires IsRun(states, envs, c) && b < k <= |envs|
    requires Accepts(states[b].regs, envs[b].access, c) && envs[b].access.n == CMD_WRITE
    requires forall j :: b < j < k ==> Busy(states[j].regs)
    ensures var r := states[b].regs;
      if Busy(states[k].regs) then Storing(states[k], c, states[b].mem, r.sbuf, r.lbaSet)
      else k > b + 1 && Stored(states[k], c, states[b].mem, r.sbuf, r.lbaSet)
  {
    hide XferAddr, WriteWords, Cell;
    if k == b + 1 {
      CommandStores(states[b], envs[b], c);
    } else {
      TransferStores(states, envs, c, b, k - 1);
      StoringStep(states[k - 1], envs[k - 1], c, states[b].mem, states[b].regs.sbuf, states[b].regs.lbaSet);
    }
  }

  lemma CommandStores(s: Sys, e: Env, c: Config)
    requires Shape(s.regs) && ConfigOk(c) && EnvOk(s, e)
    requires Accepts(s.regs, e.access, c) && e.access.n == CMD_WRITE
    ensures Storing(SysStep(s, e, c), c, s.mem, s.regs.sbuf, s.regs.lbaSet)
  {
  }

  /** A SECTOR IS WRITTEN, WHATEVER CAME BEFORE. Set LBA, put 256 words, CMD=2:
      once the device is idle again those words are in that sector in order and
      no other location has changed, whatever the memory's latency and whatever
      a half-drained read left in the index. */
  lemma WritesTheSector(states: seq<Sys>, envs: seq<Env>, c: Config, a: nat, b: nat, d: nat, words: Buffer)
    requires IsRun(states, envs, c) && a < b < d <= |envs|
    requires !Busy(states[a].regs) && envs[a].access.LbaLo?
    requires Stages(envs, a + 1, b) && Put(envs, a + 1, b) == words
    requires Accepts(states[b].regs, envs[b].access, c) && envs[b].access.n == CMD_WRITE
    requires (forall j :: b < j < d ==> Busy(states[j].regs)) && !Busy(states[d].regs)
    ensures var l := states[b].regs.lbaSet;
      && l < c.sectors
      && states[d].mem == WriteSector(states[a].mem, c, l, words)
      && ReadSector(states[d].mem, c, l) == words
      && !states[d].regs.err
  {
    hide XferAddr, WriteWords, Cell, Step, Busy, Accepts;
    IdleKeepsMemory(states[a], envs[a], c);
    LbaAnchors(states[a], envs[a], c);
    StagingFills(states, envs, c, a + 1, b);
    assert states[b].regs.sbuf == words;
    TransferStores(states, envs, c, b, d);
    SectorsAreKept(states[a].mem, c, states[b].regs.lbaSet, words, 0);
    AcceptedIsInside(states[b].regs, envs[b].access, c);
  }

  lemma AcceptedIsInside(r: Regs, a: Access, c: Config)
    requires Accepts(r, a, c)
    ensures r.lbaSet < c.sectors
  {
  }

  lemma IdleKeepsMemory(s: Sys, e: Env, c: Config)
    requires Shape(s.regs) && EnvOk(s, e) && !Busy(s.regs)
    ensures SysStep(s, e, c).mem == s.mem
  {
  }

  lemma {:induction false} TransferLoads(states: seq<Sys>, envs: seq<Env>, c: Config, b: nat, k: nat)
    requires IsRun(states, envs, c) && b < k <= |envs|
    requires Accepts(states[b].regs, envs[b].access, c) && envs[b].access.n == CMD_READ
    requires forall j :: b < j < k ==> Busy(states[j].regs)
    ensures states[k].mem == states[b].mem
    ensures if Busy(states[k].regs) then Loading(states[k], c, states[b].regs.lbaSet)
      else OnOffer(states[k].regs, ReadSector(states[b].mem, c, states[b].regs.lbaSet))
  {
    hide XferAddr, Cell, ReadSector;
    if k == b + 1 {
      CommandLoads(states[b], envs[b], c);
    } else {
      TransferLoads(states, envs, c, b, k - 1);
      LoadingStep(states[k - 1], envs[k - 1], c, states[b].regs.lbaSet);
    }
  }

  lemma CommandLoads(s: Sys, e: Env, c: Config)
    requires Shape(s.regs) && ConfigOk(c) && EnvOk(s, e)
    requires Accepts(s.regs, e.access, c) && e.access.n == CMD_READ
    ensures Loading(SysStep(s, e, c), c, s.regs.lbaSet) && SysStep(s, e, c).mem == s.mem
  {
  }

  /** A later read offers the sector. */
  lemma ReadsTheSector(states: seq<Sys>, envs: seq<Env>, c: Config, b: nat, d: nat)
    requires IsRun(states, envs, c) && b < d <= |envs|
    requires Accepts(states[b].regs, envs[b].access, c) && envs[b].access.n == CMD_READ
    requires (forall j :: b < j < d ==> Busy(states[j].regs)) && !Busy(states[d].regs)
    ensures OnOffer(states[d].regs, ReadSector(states[b].mem, c, states[b].regs.lbaSet))
  {
    hide XferAddr, Cell, ReadSector, Step, Accepts;
    TransferLoads(states, envs, c, b, d);
  }

  // ---- it ends ---------------------------------------------------------------------------

  /** Clocks to the end of a transfer whose memory answers at once. */
  function ToIdle(r: Regs): nat
    requires Shape(r)
  {
    match r.tstate
    case RdRq => 2 * (WORDS - r.tidx) + 1
    case RdNx => 2 * (WORDS - r.tidx)
    case WrSu => 3 * (WORDS - r.tidx) + 1
    case WrRq => 3 * (WORDS - r.tidx)
    case WrNx => 3 * (WORDS - r.tidx) - 1
    case Done => 1
    case Idle => 0
  }

  /** The memory keeps a request waiting. */
  predicate HeldUp(s: Sys, e: Env) { (Reads(s.regs) || Writes(s.regs)) && !e.ready }

  ghost function HeldUpFor(states: seq<Sys>, envs: seq<Env>, b: nat, k: nat): (clocks: nat)
    requires b <= k <= |envs| <= |states|
    decreases k
  {
    if k == b then 0 else HeldUpFor(states, envs, b, k - 1) + if HeldUp(states[k - 1], envs[k - 1]) then 1 else 0
  }

  lemma CloserToIdle(s: Sys, e: Env, c: Config)
    requires Shape(s.regs) && EnvOk(s, e) && Busy(s.regs) && Shape(SysStep(s, e, c).regs)
    ensures ToIdle(SysStep(s, e, c).regs) + 1 <= ToIdle(s.regs) + if HeldUp(s, e) then 1 else 0
  {
    hide XferAddr, StepBuf, StepLba, StepDrq, StepWindex;
  }

  lemma CommandStarts(s: Sys, e: Env, c: Config)
    requires Shape(s.regs) && EnvOk(s, e) && Accepts(s.regs, e.access, c) && Shape(SysStep(s, e, c).regs)
    ensures ToIdle(SysStep(s, e, c).regs) == if e.access.n == 1 then 513 else 769
    ensures !HeldUp(s, e)
  {
    hide XferAddr, StepBuf, StepLba, StepDrq, StepWindex;
  }

  lemma {:induction false} TransferBudget(states: seq<Sys>, envs: seq<Env>, c: Config, b: nat, k: nat)
    requires IsRun(states, envs, c) && b < k <= |envs|
    requires Accepts(states[b].regs, envs[b].access, c)
    requires forall j :: b < j < k ==> Busy(states[j].regs)
    ensures k + ToIdle(states[k].regs)
      <= b + (if envs[b].access.n == 1 then 514 else 770) + HeldUpFor(states, envs, b, k)
    decreases k
  {
    hide SysStep, Accepts, ToIdle, HeldUp, Busy, EnvOk, ConfigOk;
    assert states[k] == SysStep(states[k - 1], envs[k - 1], c) && Shape(states[k].regs);
    if k == b + 1 {
      CommandStarts(states[b], envs[b], c);
    } else {
      TransferBudget(states, envs, c, b, k - 1);
      CloserToIdle(states[k - 1], envs[k - 1], c);
    }
  }

  /** EVERY COMMAND ENDS: two clocks a word for a read, three for a write, two at the
      ends, and those the memory takes. */
  lemma CommandsFinish(states: seq<Sys>, envs: seq<Env>, c: Config, b: nat, k: nat)
    requires IsRun(states, envs, c) && b < k <= |envs|
    requires Accepts(states[b].regs, envs[b].access, c)
    requires k >= b + (if envs[b].access.n == 1 then 514 else 770) + HeldUpFor(states, envs, b, k)
    ensures exists d :: b < d <= k && !Busy(states[d].regs) && forall j :: b < j < d ==> Busy(states[j].regs)
  {
    hide SysStep, Accepts, ToIdle, HeldUp, EnvOk, ConfigOk;
    var d := b + 1;
    while d < k && Busy(states[d].regs)
      invariant b < d <= k && forall j :: b < j < d ==> Busy(states[j].regs)
    {
      d := d + 1;
    }
    if Busy(states[d].regs) {
      TransferBudget(states, envs, c, b, k);
      BusyHasToGo(states[k].regs);
      assert false;
    }
  }

  lemma BusyHasToGo(r: Regs)
    requires Shape(r) && Busy(r)
    ensures ToIdle(r) > 0
  {
  }

  /** The two registers hold the two parts of the sector number, and each keeps the other's. */
  lemma LbaHalves(s: Sys, e: Env, c: Config)
    requires Shape(s.regs) && EnvOk(s, e)
    ensures var was, now := s.regs.lbaSet, SysStep(s, e, c).regs.lbaSet;
      && now % 0x1_0000 == (if !Busy(s.regs) && e.access.LbaLo? then e.access.n else was % 0x1_0000)
      && now / 0x1_0000 == (if !Busy(s.regs) && e.access.LbaHi? then e.access.n else was / 0x1_0000)
  {
    hide XferAddr, StepBuf, StepT, StepDrq, StepWindex, StepTidx;
  }

  /** Out of range, or not a command: an error, and nothing moves. */
  lemma RefusalMovesNothing(s: Sys, e: Env, c: Config)
    requires Shape(s.regs) && EnvOk(s, e) && Refuses(s.regs, e.access, c)
    ensures var t := SysStep(s, e, c);
      && t.mem == s.mem && t.regs.err && !t.regs.drq && !Busy(t.regs) && t.regs.sbuf == s.regs.sbuf
    ensures s.regs.lbaSet >= c.sectors || (e.access.n != CMD_READ && e.access.n != CMD_WRITE)
  {
  }

  // ---- draining --------------------------------------------------------------------------

  /** Reads of DATA with a clock between them, and status polls anywhere. */
  ghost predicate Drains(envs: seq<Env>, b: nat, k: nat)
    requires b <= k <= |envs|
  {
    && (forall j :: b <= j < k ==> envs[j].access.Quiet? || envs[j].access.Other? || envs[j].access.GetData?)
    && (forall j :: b <= j < k && envs[j].access.GetData? ==> b < j && !envs[j - 1].access.GetData?)
  }

  /** What software has read so far. */
  ghost function Got(states: seq<Sys>, envs: seq<Env>, b: nat, k: nat): seq<Word>
    requires b <= k <= |envs| <= |states|
  {
    if k == b then []
    else Got(states, envs, b, k - 1) + (if envs[k - 1].access.GetData? then [states[k - 1].regs.qCpu] else [])
  }

  /** `n` words of `sector` have been read. */
  predicate Draining(r: Regs, sector: Buffer, n: nat) {
    && Shape(r) && !Busy(r) && r.sbuf == sector && n <= WORDS
    && r.windex == n % WORDS && (r.drq <==> n < WORDS)
  }

  lemma DrainStep(s: Sys, e: Env, c: Config, sector: Buffer, n: nat)
    requires Draining(s.regs, sector, n) && EnvOk(s, e)
    requires e.access.Quiet? || e.access.Other? || (e.access.GetData? && n < WORDS)
    ensures var t := SysStep(s, e, c);
      && Draining(t.regs, sector, if e.access.GetData? then n + 1 else n)
      && (!e.access.GetData? && n < WORDS ==> t.regs.qCpu == sector[n])
  {
    hide Cell;
  }

  /** THE SECTOR COMES OUT IN ORDER: the n-th read of DATA returns its n-th word,
      and with the last one DRQ falls. */
  lemma {:induction false} DrainsInOrder(states: seq<Sys>, envs: seq<Env>, c: Config, b: nat, k: nat, sector: Buffer)
    requires IsRun(states, envs, c) && b <= k <= |envs| && Drains(envs, b, k)
    requires OnOffer(states[b].regs, sector) && |Got(states, envs, b, k)| <= WORDS
    ensures var n := |Got(states, envs, b, k)|;
      Draining(states[k].regs, sector, n) && Got(states, envs, b, k) == sector[..n]
    ensures k > b && !envs[k - 1].access.GetData? && |Got(states, envs, b, k)| < WORDS ==>
      states[k].regs.qCpu == sector[|Got(states, envs, b, k)|]
  {
    hide SysStep;
    if k > b {
      DrainsInOrder(states, envs, c, b, k - 1, sector);
      DrainStep(states[k - 1], envs[k - 1], c, sector, |Got(states, envs, b, k - 1)|);
    }
  }

  /** Past the end nothing is on offer and the index stays. */
  lemma NothingPastTheEnd(s: Sys, e: Env, c: Config, sector: Buffer)
    requires Draining(s.regs, sector, WORDS) && EnvOk(s, e) && e.access.GetData?
    ensures Draining(SysStep(s, e, c).regs, sector, WORDS)
  {
  }

  // ---- as a master of the shared memory ------------------------------------------------------

  /** The request on the arbiter's port; the data lines mean nothing in a read. */
  function Port(r: Regs, c: Config): SC.Request {
    SC.Request(Reads(r), Writes(r), XferAddr(c, r.lbaCur, r.tidx), if Writes(r) then r.qXfer else ZERO, BOTH)
  }

  /** While a word is asked to be written, the buffer's output register holds it. */
  predicate WordIsOut(r: Regs)
    requires Shape(r)
  {
    Writes(r) ==> r.qXfer == r.sbuf[r.tidx]
  }

  lemma WordIsOutStep(s: Sys, e: Env, c: Config)
    requires Shape(s.regs) && EnvOk(s, e) && WordIsOut(s.regs)
    ensures var t := SysStep(s, e, c).regs;
      Shape(t) ==> WordIsOut(t)
  {
    hide XferAddr, Cell;
  }

  /** The clock before each write request puts its word in that register. */
  lemma {:induction false} WordIsOutInRuns(states: seq<Sys>, envs: seq<Env>, c: Config, k: nat)
    requires IsRun(states, envs, c) && k < |states| && !Busy(states[0].regs)
    ensures WordIsOut(states[k].regs)
  {
    hide SysStep;
    if k > 0 {
      WordIsOutInRuns(states, envs, c, k - 1);
      WordIsOutStep(states[k - 1], envs[k - 1], c);
    }
  }

  lemma HoldsRequestStep(s: Sys, e: Env, c: Config)
    requires Shape(s.regs) && EnvOk(s, e) && (Reads(s.regs) || Writes(s.regs)) && WordIsOut(s.regs)
    ensures var n := Port(SysStep(s, e, c).regs, c);
      if e.ready then !n.rd && !n.wr else n == Port(s.regs, c)
  {
    hide XferAddr, Cell;
  }

  /** THE ARBITER'S CONTRACT, in every run: a request, address and data alike,
      stands unchanged until it is answered, and is then let go for a clock. */
  lemma HoldsRequest(states: seq<Sys>, envs: seq<Env>, c: Config, k: nat)
    requires IsRun(states, envs, c) && k < |envs| && !Busy(states[0].regs)
    requires Reads(states[k].regs) || Writes(states[k].regs)
    ensures var n := Port(states[k + 1].regs, c);
      if envs[k].ready then !n.rd && !n.wr else n == Port(states[k].regs, c)
  {
    hide SysStep, Port;
    WordIsOutInRuns(states, envs, c, k);
    HoldsRequestStep(states[k], envs[k], c);
  }

  predicate InRange(r: Regs, c: Config) { Busy(r) ==> r.lbaCur < c.sectors }

  /** With the disk at 1 MB and no more than 30720 sectors, the device never
      reaches memory the CPU can see, in any run. */
  lemma {:induction false} StaysAboveCpu(states: seq<Sys>, envs: seq<Env>, c: Config, k: nat)
    requires IsRun(states, envs, c) && k < |states|
    requires c.base == DISK_BASE && c.sectors <= 30720 && !Busy(states[0].regs)
    ensures InRange(states[k].regs, c)
    ensures Port(states[k].regs, c).wr ==> Port(states[k].regs, c).addr >= CPU_BYTES
  {
    hide Cell, XferAddr, StepBuf, StepWindex, StepDrq;
    if k > 0 { StaysAboveCpu(states, envs, c, k - 1); }
    AboveCpuExactly(c, states[k].regs.lbaCur, states[k].regs.tidx);
  }

  // ---- the device itself -----------------------------------------------------------------------

  class Device {
    const cfg: Config
    const sbuf: array<Word>
    var qCpu: Word
    var qXfer: Word
    var lbaSet: nat
    var lbaCur: nat
    var windex: nat
    var drq: bool
    var err: bool
    var tstate: T
    var tidx: nat
    var isRead: bool

    ghost predicate Valid()
      reads this, sbuf
    {
      sbuf.Length == WORDS && Shape(View())
    }

    ghost function View(): Regs
      requires sbuf.Length == WORDS
      reads this, sbuf
    {
      Regs(sbuf[..], qCpu, qXfer, lbaSet, lbaCur, windex, drq, err, tstate, tidx, isRead)
    }

    constructor (c: Config)
      ensures Valid() && cfg == c && View() == Reset() && fresh(sbuf)
    {
      cfg := c;
      sbuf := new Word[WORDS](_ => ZERO);
      qCpu, qXfer, lbaSet, lbaCur, windex := ZERO, ZERO, 0, 0, 0;
      drq, err, tstate, tidx, isRead := false, false, Idle, 0, true;
    }

    /** Both ports of the block RAM. */
    method ClockBuffer(i: In)
      requires Valid()
      modifies `qCpu, `qXfer, sbuf
      ensures Valid() && sbuf[..] == old(StepBuf(View(), i))
      ensures qCpu == old(sbuf[windex]) && qXfer == old(sbuf[tidx])
    {
      qCpu, qXfer := sbuf[windex], sbuf[tidx];
      if tstate == Idle && i.access.PutData? {
        sbuf[windex] := i.access.w;
      } else if tstate == RdRq && i.ready {
        sbuf[tidx] := i.rdata;
      }
    }

    /** The transfer engine. */
    method ClockTransfer(i: In)
      requires tidx < WORDS && tstate != Idle
      modifies `tstate, `tidx, `drq, `windex
      ensures tstate == NextT(old(tstate), old(tidx), i.ready)
      ensures tidx == if old(tstate) in {RdNx, WrNx} && old(tidx) != WORDS - 1 then old(tidx) + 1 else old(tidx)
      ensures drq == if old(tstate) == Done then isRead else old(drq)
      ensures windex == if old(tstate) == Done then 0 else old(windex)
    {
      match tstate {
        case RdRq => if i.ready { tstate := RdNx; }
        case RdNx => if tidx == WORDS - 1 { tstate := Done; } else { tidx, tstate := tidx + 1, RdRq; }
        case WrSu => tstate := WrRq;
        case WrRq => if i.ready { tstate := WrNx; }
        case WrNx => if tidx == WORDS - 1 { tstate := Done; } else { tidx, tstate := tidx + 1, WrSu; }
        case Done => drq, windex, tstate := isRead, 0, Idle;
      }
    }

    /** A register access while idle. */
    method ClockAccess(a: Access)
      requires tstate == Idle && windex < WORDS
      modifies `lbaSet, `lbaCur, `windex, `drq, `err, `tstate, `tidx, `isRead
      ensures var go := a.Command? && (a.n == CMD_READ || a.n == CMD_WRITE) && old(lbaSet) < cfg.sectors;
        && tstate == (if !go then Idle else if a.n == CMD_READ then RdRq else WrSu)
        && lbaCur == (if go then old(lbaSet) else old(lbaCur))
        && tidx == (if go then 0 else old(tidx))
        && isRead == (if go then a.n == CMD_READ else old(isRead))
        && err == (if a.Command? then !go else old(err))
      ensures lbaSet == if a.LbaLo? then old(lbaSet) / 0x1_0000 * 0x1_0000 + a.n
        else if a.LbaHi? then a.n * 0x1_0000 + old(lbaSet) % 0x1_0000 else old(lbaSet)
      ensures var takes := a.PutData? || (a.GetData? && old(drq));
        && windex == (if a.LbaLo? then 0 else if takes then (old(windex) + 1) % WORDS else old(windex))
        && drq == if a.Command? || (takes && old(windex) == WORDS - 1) then false else old(drq)
    {
      match a {
        case LbaLo(n) => lbaSet, windex := lbaSet / 0x1_0000 * 0x1_0000 + n, 0;
        case LbaHi(n) => lbaSet := n * 0x1_0000 + lbaSet % 0x1_0000;
        case Command(n) =>
          drq := false;
          if (n == CMD_READ || n == CMD_WRITE) && lbaSet < cfg.sectors {
            lbaCur, tidx, err, isRead := lbaSet, 0, false, n == CMD_READ;
            tstate := if n == CMD_READ then RdRq else WrSu;
          } else {
            err := true;
          }
        case PutData(_) =>
          if windex == WORDS - 1 { drq := false; }
          windex := (windex + 1) % WORDS;
        case GetData =>
          if drq {
            if windex == WORDS - 1 { drq := false; }
            windex := (windex + 1) % WORDS;
          }
        case _ =>
      }
    }

    method ClockIdle(i: In, ghost was: Regs)
      requires Valid() && AccessOk(i.access) && tstate == Idle
      requires View() == was.(sbuf := sbuf[..], qCpu := qCpu, qXfer := qXfer)
      modifies `lbaSet, `lbaCur, `windex, `drq, `err, `tstate, `tidx, `isRead
      ensures Valid() && Shape(was)
      ensures View() == Step(was, i, cfg).(sbuf := sbuf[..], qCpu := qCpu, qXfer := qXfer)
    {
      hide StepBuf;
      ClockAccess(i.access);
    }

    method ClockBusy(i: In, ghost was: Regs)
      requires Valid() && tstate != Idle
      requires View() == was.(sbuf := sbuf[..], qCpu := qCpu, qXfer := qXfer)
      modifies `tstate, `tidx, `drq, `windex
      ensures Valid() && Shape(was)
      ensures View() == Step(was, i, cfg).(sbuf := sbuf[..], qCpu := qCpu, qXfer := qXfer)
    {
      hide StepBuf;
      ClockTransfer(i);
    }

    method Tick(i: In)
      requires Valid() && AccessOk(i.access)
      modifies this, sbuf
      ensures Valid() && View() == Step(old(View()), i, cfg)
    {
      hide StepBuf, StepT, StepLba, StepWindex, StepDrq, StepTidx, Accepts, Refuses;
      ghost var was := View();
      ClockBuffer(i);
      if tstate == Idle {
        ClockIdle(i, was);
      } else {
        ClockBusy(i, was);
      }
    }
  }
}
