# What an 80186 PC promises, proved

The repository is an 80186-compatible PC in SystemVerilog with the Python tools
that build its ROM and disks. This project models the parts of it that are hard to
get right and proves what they are for: the memory path, the instruction fetch, the
multi-cycle engines, the JTAG loader, and the disk and assembler tools.

Each clocked module is a record of its registers with a function `Step` for one
clock edge, and a class whose fields are those registers and whose `Tick` changes
them in place; `Tick` is proved to be `Step`. Combinational blocks are functions.
The theorems speak about every run: a sequence of states and a sequence of what
the surroundings did in each clock, with memory latency, stalls, interrupts, bus
requests and clock interleaving left open. They say what holds in every state, and
how soon what is waited for comes: an answer from memory, a posted write in the chip,
the next instruction, the end of a transfer, of a string instruction, of a disk command
or of a load. The Python tools are methods over arrays and a class, with their exceptions
as results.

| part | modules |
|---|---|
| cache, write queue, snoop | Cache, CacheUnit (RAMs and ring in place), CacheMemory (invariant and runs), CacheRace (the race from power-up), CacheProgress (nothing waits for ever) |
| arbiter, SDRAM controller, chip | SdramArbiter, SdramController, Sdram, SdramTiming, SdramSystem |
| the whole memory path | MemorySystem, MemoryProgress |
| bus unit and queue | PrefetchQueue, Biu, BiuRuns, BiuProgress |
| bus unit over the memory path | BusMemory |
| decoding and capture | Decode, OpcodeMap (the 80186 map), DecodeLen, OpcodeLengths, InstructionFetch |
| branch prediction | BranchPredictor, Speculation |
| the whole fetch path | FetchPath, FetchProgress |
| engines | Divider, StringEngine, StringMeaning, StringProgress, Blitter, Storage |
| interrupts | InterruptController, InterruptDelivery |
| JTAG | JtagFraming, JtagLoader, JtagPace |
| disk tools | FatTable, FatVolume, FatImage, FatWriter, FatLinks, FatEdit, FatEditRead, FatEditList, FatRoundTrip |
| assembler | Asm86, Asm86Forms, AsmFixups |
| shared values | Machine |

The environment of each part is stated where it is used (`EnvOk`, `EventOk`,
`Orderly`, `Undisturbed`, `Stages`). Where two parts meet, one's assumption is the
other's theorem: the bus unit drives the cache's bus as the cache expects
(`BiuRuns.DrivesTheCacheBus`), the cache holds its requests as the arbiter expects
(`MemorySystem.CacheHoldsRequest`), so does the disk (`Storage.HoldsRequest`), and
the SDRAM side answers as the cache expects (`MemorySystem.CacheEnvOk`) and in the
time its progress needs (`MemoryProgress.PromptFrom`). Bus unit, cache and SDRAM run on
the same wires in `BusMemory`, where RAM is plain bytes to every transfer. The front
end is joined the same way: bus unit, queue, decode_len, the fetch states and the
prediction logic run as one machine in `FetchPath`, and its runs are runs of the
fetch control (`FetchPath.RefinesFetchControl`).

## Where the code and its documentation part

The model follows the code in each case. The condition under which the code does what
is said of it is exact, and most of them come with a lemma that has an input failing it.

- The cache's header calls a snoop a matter of speed. A flush in the very clock a read
  hits, before the bus unit has taken the answer, starts a fill nobody waits for, and
  its first word answers a later read of some other address.
  `CacheMemory.ReadsGoWrongExactlyByRace`: that one clock is the only way, from any good
  state, for a later read to go wrong. `CacheRace.RaceIsReachable` and
  `CacheRace.WrongAnswerIsReachable` lead there from power-up. With the other masters
  writing above 1 MB, as the disk does, it cannot arise
  (`MemorySystem.CpuReadsItsOwnWrites`).
- decode_len.sv has no arm for a three-byte immediate (ENTER) and looks at three
  prefixes only. `DecodeLen.CapturesExactly` is the condition under which what it
  reports is the instruction; `DecodeLen.WrongCaptures` has one of each that is not.
- A segment load is said to shadow the next instruction from interrupts, SS:SP pairs
  above all. The flag is cleared by the first clock that looks for the instruction,
  even if the queue is empty and nothing is found: `InstructionFetch.ShadowHoldsExactly`.
- `fetch_ptr` is a 20-bit linear address and IP has 16 bits: straight-line fetch is
  right exactly when IP does not wrap (`Speculation.StraightOnExactly`).
- A timer pulse is said never to be lost; it is, exactly when it arrives in the clock
  that acknowledges an earlier pulse of the same timer
  (`InterruptController.TimerPulseLostExactly`, `InterruptController.TwoPulsesBecomeOne`).
- The blitter's header gives two clocks a pixel for a copy; the state machine takes
  three (`Blitter.FreeClocksProgress`). A keyed copy judges by whatever the
  framebuffer shows in the clock it writes (`Blitter.PixelExactly`), and one stall can
  cost it a pixel (`Blitter.StallLosesAPixel`).
- storage.sv adds sector and base in 24 bits: from sector 30720 on the sum wraps into
  the CPU's megabyte (`Storage.AboveCpuExactly`, `Storage.Sector30720HitsTheCpu`).
- The loader's header calls a false sync impossible; it happens exactly when SYNC itself
  is in the junk, which takes a lead-in of sixteen bits or more
  (`JtagFraming.RecoversExactly`, `JtagFraming.ShortLeadInIsSafe`,
  `JtagFraming.SyncAsLeadIn`).
- fat12.py sizes its table one byte short when an odd number of entries fills the
  sectors exactly (`FatTable.SizedTableFitsExactly`, `FatVolume.AcceptedButNotWritable`).
- The readers end a chain at FF0 and the builder numbers clusters up to FF5: a file
  comes back whole exactly when it is empty or none of its clusters is that high
  (`FatImage.WholeExactly`, `FatImage.CutAtFF0`).
- addfile.py cuts a name at its second dot and fat12.py keeps it
  (`FatEditRead.NamesAgreeExactly`, `FatEditRead.TwoDotsDisagree`).
- addfile.py looks for the name behind the end mark of the directory as well: a file
  replaced there is listed by no reader (`FatEditList.EditedUnseen`), and entries left
  behind the mark come back when the mark itself is taken (`FatEditList.EditedListing`).
- asm86.py says an index may stand alone; it raises an error (`Asm86.TakesExactly`). Its
  shifts and exchanges drop a segment override, two registers of different widths are
  taken and encoded as one, a byte register pushed is the word register of that number,
  and POP CS comes out as an opcode the decoder calls illegal
  (`Asm86.DecodesAsAssembled`, `Asm86Forms.FormsDecode`, `Asm86Forms.LostAndRefused`).

## Model

| member | source | states |
|---|---|---|
| Cache.SplitWord | modules/cache.sv:146-150 | tag, set and offset of a CPU word address put together again give the address back |
| Cache.JoinWord | modules/cache.sv:411-412 | the address a fill drives from its tag, set and offset splits into just those |
| Cache.PlruSparesRecentlyUsed | modules/cache.sv:262-289 | the replacement tree never offers the way used last, nor that way's half, nor the way before it in the same half |
| Cache.LastUsedIsSpared | modules/cache.sv:497-523 | after a hit, by a read or a store, the next replacement in that set is some other way |
| Cache.FilledIsSpared | modules/cache.sv:497-523 | and after a fill it is some other than the line just filled |
| CacheUnit.CacheUnit.Tick | modules/cache.sv:165-662 | one clock of the RAMs, the ring buffer and the flops moves them to exactly the abstract next state, and the outputs are the abstract ones |
| CacheMemory.HitIsOneHot | modules/cache.sv:199-230 | with the invariant, at most one way answers, and the OR-ed way number and data word are that way's |
| CacheMemory.FlatStep | modules/cache.sv:355-389 | what one clock does to memory overlaid with the queued writes: a posted store or a foreign write, and nothing for drains, fills and flushes |
| CacheMemory.OverlayAppend | modules/cache.sv:529-551 | a store pushed at the back of the queue is the newest write of the flat memory |
| CacheMemory.FillStepCoherent | modules/cache.sv:447-484 | while a line fills, every valid line still equals the flat memory |
| CacheMemory.IdleStepCoherent | modules/cache.sv:447-523 | in every other clock too, a store that hits changing line and flat memory alike |
| CacheMemory.StepDistinct | modules/cache.sv:205-214 | a tag is never in a set twice |
| CacheMemory.StepFilling | modules/cache.sv:571-638 | the landed words of a fill are the flat memory's and no queued write lies in its line, until it is poisoned |
| CacheMemory.StepInv | modules/cache.sv:184-662 | the whole invariant is kept by every clock that is not the snoop race |
| CacheMemory.RunInv | modules/cache.sv:184-662 | so it holds in every state of every race-free run |
| CacheMemory.OverlayUnderneath | modules/cache.sv:386-389 | a foreign write reaching memory under queued stores shows only in the lanes they leave |
| CacheMemory.ReadsSeeFlatMemory | modules/cache.sv:640-662 | in every race-free run each read is answered with the reference memory's word, or for a hit that of the clock before when the same read was already on the bus |
| CacheMemory.RaceLeavesStrayFill | modules/cache.sv:370-376 | after a race the bus unit leaves and a fill of the old address is under way |
| CacheMemory.ReadsGoWrongExactlyByRace | modules/cache.sv:318-342 | from any good state whose memory is not all one word, some continuation misanswers a read if and only if this clock is the race |
| CacheRace.RaceIsReachable | modules/cache.sv:368-389 | from power-up with any memory, and on a read of any word, a run with nothing wrong in it ends in the race: a miss, its fill word by word, and a second read that hits as another master writes |
| CacheRace.WrongAnswerIsReachable | modules/cache.sv:370-376 | and for any two words that differ, the fifth clock after it hands a read something its word never held |
| CacheProgress.CloserToAnswer | modules/cache.sv:571-662 | each clock in which the cycle on the bus goes unanswered brings its answer nearer, raced or not, as long as memory answers within the bound |
| CacheProgress.CyclesAreAnswered | modules/cache.sv:571-662 | if memory answers every request within B clocks, every cycle the bus unit asserts gets c_ready within 8B + 10, a store with the queue full and a read behind a queued write included |
| CacheProgress.CloserToLanding | modules/cache.sv:578-648 | each clock either puts the oldest posted write into memory or brings that nearer, whatever the CPU does: one read may come first, and no second |
| CacheProgress.PostedWritesLand | modules/cache.sv:578-648 | so the n-th posted write, whether or not the bus falls quiet, is in memory and off the queue within n turns of 5B + 8 clocks |
| CacheProgress.AnsweredStoreIsPosted | modules/cache.sv:366-381 | a store the bus unit sees answered is in the queue, behind all others |
| CacheProgress.StoresReachMemory | modules/cache.sv:318-342 | in every race-free run the word of every store the bus unit asserts is merged into memory within 28B + 43 clocks |
| SdramArbiter.ScanFindsNearest | modules/sdram_arbiter.sv:83-96 | the scan finds an eligible port if there is one, and none is nearer the front |
| SdramArbiter.TurnsFall | modules/sdram_arbiter.sv:79-154 | the turns ahead of a waiting port never grow and fall with every turn another completes |
| SdramArbiter.AtMostOneTurnEach | modules/sdram_arbiter.sv:75-154 | while an unserved port keeps asking, the others complete at most NREQ-1 turns in all |
| SdramArbiter.SelectionHolds | modules/sdram_arbiter.sv:98-107 | the selected port stays selected until memory is ready |
| SdramArbiter.ServedUntilDropped | modules/sdram_arbiter.sv:129-153 | a request held past its ready stays marked served and gets no second access |
| SdramArbiter.Arbiter.FindWinner | modules/sdram_arbiter.sv:83-96 | the scan loop computes the winner |
| SdramArbiter.Arbiter.Tick | modules/sdram_arbiter.sv:104-154 | one clock of active, cur, rotate and the served bits, and the port selected in it |
| SdramController.ReadsIgnoreWriteData | modules/sdram_controller.sv:213-351 | outside the write state the data lines are not looked at |
| SdramController.Controller.Tick | modules/sdram_controller.sv:186-353 | one clock of every flop of the controller |
| Sdram.CellOfRequest | modules/sdram_controller.sv:151-157 | row and column together are the word address, inside the chip |
| Sdram.ModeFields | modules/sdram_controller.sv:110-112 | the mode word asks for bursts of one, sequential, at the CAS latency the chip answers with, and a precharge names every bank |
| Sdram.StaysInStep | modules/sdram_controller.sv:204-351 | while a served request is held, the next command is legal and controller and chip stay in step |
| Sdram.Answered | modules/sdram_controller.sv:310-335 | when ready is up the access has happened: a write's lanes are in the array, a read's word is on rdata; in no other clock does the array change |
| SdramTiming.OnTimeStep | modules/sdram_controller.sv:184-218 | the bound on the clocks to the next REFRESH survives every clock, whatever is asked |
| SdramTiming.NeverLate | modules/sdram_controller.sv:252-267 | so no two REFRESH commands are more than the interval plus 14 clocks apart |
| SdramTiming.CloserToReady | modules/sdram_controller.sv:252-340 | every clock of a waiting request brings its ready nearer, refreshes included |
| SdramTiming.StarvesBelowTen | modules/sdram_controller.sv:252-267 | with fewer than ten clocks between refreshes the controller goes from one refresh to the next whatever is asked |
| SdramSystem.InvStep | modules/memory_controller.sv:232-273 | arbiter, controller and chip keep their joint invariant under any requests |
| SdramSystem.ReadsSeeCompletedWrites | modules/sdram_arbiter.sv:109-121 | whoever asks and however requests interleave, a read returns what the writes completed before it left in that word |
| SdramSystem.OneCommandPerRequest | modules/sdram_arbiter.sv:23-30 | the chip's column commands are exactly the completed requests, in order, and at most the read under way |
| SdramSystem.CommandsAlwaysLegal | sim/sdram_model.sv:102-150 | in every run READ and WRITE hit the open row, ACTIVE finds none open, REFRESH finds none open, initialisation comes first |
| SdramSystem.RefreshNeverLate | modules/sdram_controller.sv:184-347 | the deadline holds in every run from power-up |
| SdramSystem.RefreshRate | modules/sdram_controller.sv:252-347 | any stretch of a run holds at least its length over the deadline in refreshes |
| SdramSystem.EveryWindowIsRefreshed | modules/FPGA80186.sv:119-139 | at 25 and 40 MHz with 7 us, every 64 ms holds 8192 refreshes |
| SdramSystem.AnsweredInTime | modules/sdram_arbiter.sv:75-154 | a port that keeps asking waits at most the controller's distance to ready and one turn of 24 clocks for each other port |
| SdramSystem.NothingAnsweredBelowTen | modules/sdram_controller.sv:252-267 | ten clocks between refreshes are exactly what answering takes: with fewer no run from power-up answers anything |
| SdramSystem.ThreePortsWaitAtMost78 | modules/memory_controller.sv:232-249 | with three ports, after initialisation, at most 78 clocks |
| MemorySystem.CachePortIsPins | modules/memory_controller.sv:204-209 | port 0's request is what the cache's pins say and stays below 1 MB |
| MemorySystem.CacheHoldsRequest | modules/cache.sv:403-436 | an unanswered request of the cache is the same a clock later |
| MemorySystem.CacheEnvOk | modules/memory_controller.sv:161-227 | everything the cache's correctness assumes the arbiter, the SDRAM and the snoop wiring provide |
| MemorySystem.InvStep | modules/memory_controller.sv:135-273 | the SDRAM side's invariant, the cache's picture of memory and its held request survive every clock, race or no race |
| MemorySystem.CacheRuns | modules/memory_controller.sv:151-227 | seen from the CPU, a run of the whole path is a run of the cache over the bottom of the chip |
| MemorySystem.CpuReadsItsOwnWrites | modules/cache.sv:340-342 | with the other masters writing above 1 MB, every word the CPU reads is the last its program wrote there, or the chip's original |
| MemorySystem.CpuReadsAreFlat | modules/memory_controller.sv:161-176 | with masters writing below 1 MB the same in every race-free run, up to the clock a hit is registered |
| MemoryProgress.PoliteStep | modules/sdram_arbiter.sv:75-154 | the arbiter remembers having served the cache only over the clock in which the cache asks for nothing, so every request of the cache counts as new |
| MemoryProgress.PromptFrom | modules/memory_controller.sv:135-273 | the SDRAM side, refreshes and both other masters included, is a memory that answers each of the cache's requests within 49 clocks more than the controller's distance to ready |
| MemoryProgress.CpuIsAlwaysAnswered | modules/memory_controller.sv:135-273 | in every run from power-up every RAM cycle the CPU asserts ends, within 8(I + 111) + 10 clocks for an initialisation wait of I, whatever the other masters do |
| MemoryProgress.CpuIsAnsweredSoon | modules/memory_controller.sv:135-273 | and once the chip's mode is set within 642 |
| MemoryProgress.CpuGetsItsOwnWrites | modules/cache.sv:340-342 | with the other masters writing above 1 MB, every read the CPU asserts is answered within those 642 clocks, and with the word its own program left there last |
| MemoryProgress.StoresReachTheChip | modules/cache.sv:318-342 | and within 2255 clocks of asserting a store the bytes stored, and no others of the CPU's megabyte in that clock, are in the chip |
| PrefetchQueue.StepIsFifo | modules/prefetch_queue.sv:66-137 | pop, word or byte push and both at once act on the queue's bytes as on a FIFO; a flush empties it |
| PrefetchQueue.Queue.Tick | modules/prefetch_queue.sv:116-137 | the ring of six bytes changed in place, with the bytes it then holds |
| Biu.StepShape | modules/biu.sv:217-343 | pointers and addresses stay in their 20 bits |
| Biu.BusUnit.Tick | modules/biu.sv:160-343 | one clock of the bus state machine, transfer registers and queue |
| BiuRuns.ArrivesInOrder | modules/biu.sv:194-200 | a byte or word pushed is the next of memory from fetch_ptr, and only with room for it |
| BiuRuns.NeverOverflows | modules/prefetch_queue.sv:94-97 | what arrives always fits |
| BiuRuns.FrontStep | modules/biu.sv:243-253 | each clock the front of the stream moves on by just the bytes consumed, or to the target of a redirect with the queue empty, whatever bus cycle is under way |
| BiuRuns.QueueIsMemory | modules/biu.sv:194-332 | in every clock of every run the queue holds exactly memory from fetch_ptr - cnt to fetch_ptr, at most six bytes |
| BiuRuns.StreamFromTarget | modules/biu.sv:243-253 | after a redirect in any T-state the n-th byte consumed is the one at target + n |
| BiuRuns.DoneIsFaithful | modules/biu.sv:255-338 | every req_done reports a transfer whose cycles, with nothing between them, are all of its own kind and all in the space it asked for, memory or I/O; each of its bytes is enabled once, in order, and no other; a write leaves its byte or word there and both spaces otherwise alone, and a read brings back what that space holds |
| BiuRuns.StaysTaken | modules/biu.sv:241-274 | a request held after it was taken starts no second transfer |
| BiuRuns.CyclesStore | modules/biu.sv:268-297 | of the two spaces, memory and I/O, the lanes of a transfer's one or two cycles write exactly its byte or word in the one it names, aligned or not |
| BiuRuns.CyclesLoad | modules/biu.sv:210-215 | and a faithful read returns it from there |
| BiuRuns.CyclesTouch | modules/biu.sv:268-297 | its cycles run from its address on, enable exactly the bytes asked for in order, and each carries the request's direction and space |
| BiuRuns.DrivesTheCacheBus | modules/biu.sv:179-183 | address in T1, rd or wr from T2, ready from T3, and quiet in cycles for I/O or anything but RAM, whoever makes those ready: the bus contract the cache relies on |
| BiuRuns.RamCyclesReachTheCache | modules/memory_controller.sv:118-130 | cycles for I/O and for 0A0000h up never reach the cache; of the others it gets address and direction, its byte enables store exactly the bytes the cycle's lanes do, and the word it reads is those two bytes of memory |
| BiuProgress.RequestsBegin | modules/biu.sv:255-297 | a request is begun at most nine clocks after it is raised, besides wait states and holds: no prefetch gets in ahead of it |
| BiuProgress.TransfersEnd | modules/biu.sv:268-338 | once begun, req_done comes in the fifth clock, the tenth for an odd word, and one later for each clock held up |
| BiuProgress.BytesArrive | modules/biu.sv:286-332 | with room for a word, nothing asked for and no redirect, the next bytes of the stream are pushed within thirteen clocks besides those |
| BusMemory.BusesAgree | modules/memory_controller.sv:118-234 | wired to the memory path, the bus unit's cycles and what the cache takes to be on its bus are the same in every clock |
| BusMemory.ReferenceStep | modules/memory_controller.sv:118-234 | and the memory the cache answers from changes by exactly the byte lanes of each RAM store as it completes |
| BusMemory.BusIsMemory | modules/memory_controller.sv:118-234 | of all bus cycles completed from power-up, fetches included, each that reads RAM shows the two bytes that the stores before it, in the order of the bus, left there, with other masters busy above 1 MB |
| BusMemory.TransfersArePlain | modules/biu.sv:255-338 | each req_done for RAM reports a store that has put its byte or word, at any address, in its place and nothing else anywhere since it began, or a load of the bytes last stored there |
| BusMemory.RamCyclesEnd | modules/memory_controller.sv:118-234 | and once the chip is up each RAM cycle ends within 642 clocks of T2 |
| Decode.ModrmMattersOnlyIfThere | modules/decode.sv:97-409 | whether a ModR/M byte follows, and the immediate's length, come from the opcode alone; without one the byte after changes nothing; only ENTER has three immediate bytes |
| OpcodeMap.ShapeIsMap | modules/decode.sv:97-409 | for all 256 opcodes and every ModR/M byte: whether one follows, how many immediate bytes, and which extend their sign, against the 80186 map told as sets of opcodes, Group 3 by its /reg |
| OpcodeMap.InstructionIsMap | modules/decode.sv:97-409 | each opcode but the overrides decodes to the instruction at its place in the map, and where the map has them to its ALU operation, width, direction, register and variant; with no place it is illegal |
| DecodeLen.CapturesExactly | modules/decode_len.sv:93-255 | when valid, the reported fields are the instruction's if and only if it has at most three prefixes and is no ENTER with an operand |
| DecodeLen.SeesExactly | modules/decode_len.sv:169-254 | behind at most three prefixes, valid is up if and only if the last byte of the instruction is in the queue |
| OpcodeLengths.ModrmIsMap | modules/decode.sv:57-68 | displacement length and memory operand for every ModR/M byte, as the mode table has them |
| OpcodeLengths.PrefixesAreMap | modules/decode_len.sv:93-124 | the prefixes are the seven of the map, the overrides in the order ES, CS, SS, DS |
| OpcodeLengths.LengthIsMap | modules/decode_len.sv:169-181 | the length all capture theorems speak of is the map's: prefixes, opcode, ModR/M, displacement and what follows |
| OpcodeLengths.CapturesByMap | modules/decode_len.sv:93-255 | so a whole capture takes exactly the bytes the map gives the instruction |
| OpcodeLengths.KindIsMap | modules/execUnit.sv:1121-1139 | what the fetch control predicts are the map's conditional jumps and loops, and what it redirects early its near and short jumps and near calls |
| OpcodeLengths.DistanceIsMap | modules/execUnit.sv:543-544 | how far a relative branch jumps is the byte behind its opcode as a signed number, or for CALL and JMP near the word |
| OpcodeLengths.RepeatIsNamed | modules/decode_len.sv:128-155 | of the last repeat prefix F3 asks for ZF set and F2 for ZF clear |
| DecodeLen.WrongCaptures | modules/decode_len.sv:242-248 | ENTER 16, 0 is captured with its frame size gone, and MOVSB behind a REP and three overrides as another opcode |
| DecodeLen.LooksNoFurther | modules/decode_len.sv:156-186 | valid and the fields depend on the bytes that have arrived alone |
| InstructionFetch.ReadingStep | modules/execUnit.sv:1393-1560 | every clock of either road keeps what has been read in its register |
| InstructionFetch.CapturesTheInstruction | modules/execUnit.sv:80-111 | however the bytes arrive, what is captured is the instruction at the head of the stream, with the next IP just past it |
| InstructionFetch.FastEqualsSlow | modules/execUnit.sv:452-503 | whole-instruction capture and the byte-at-a-time states agree on opcode, ModR/M, displacement, immediates, prefixes, length and next IP |
| InstructionFetch.InterruptsBetween | modules/execUnit.sv:1419-1470 | an interrupt taken from the fetch states returns to the boundary the capture began at, never behind a prefix |
| InstructionFetch.ShadowHoldsExactly | modules/execUnit.sv:1433-1460 | after a segment load no interrupt comes before the next instruction if a byte of it is in the queue in the first fetch clock; with the queue empty then and in the next, one is taken exactly if it is requested |
| InstructionFetch.InstructionsArrive | modules/execUnit.sv:1393-1560 | without interrupts an instruction is in hand within its length in clocks and one more, besides those the queue was empty in |
| InstructionFetch.Sequencer.Tick | modules/execUnit.sv:1393-1560 | one clock of the capture registers |
| BranchPredictor.CountersStayInRange | modules/bpred.sv:105-134 | counters saturate |
| BranchPredictor.EntriesAreTheirOwn | modules/bpred.sv:74-100 | after any updates an entry that answers for an address holds that branch's own last taken target |
| BranchPredictor.PredictsItsOwnLastTarget | modules/bpred.sv:94-100 | so a predicted target is never another branch's |
| BranchPredictor.OneSurpriseIsForgiven | modules/bpred.sv:114-123 | a settled branch survives one not-taken, not two |
| BranchPredictor.TwiceTakenIsPredicted | modules/bpred.sv:105-134 | whatever the table held, a branch taken twice running is predicted, to where it went last |
| BranchPredictor.TwiceNotTakenIsNotPredicted | modules/bpred.sv:105-134 | and one that fell through twice running is not |
| BranchPredictor.OthersUnaffected | modules/bpred.sv:74-100 | an update changes no prediction for an address of another remainder mod 256 |
| BranchPredictor.Predictor.Lookup | modules/bpred.sv:94-100 | the arrays answer as the table does |
| BranchPredictor.Predictor.Learn | modules/bpred.sv:105-134 | one update in place |
| Speculation.RetireKeeps | modules/execUnit.sv:2196-2228 | right guess, wrong direction, wrong target, stray guess or none: after retire and redirect the fetch is on the program's path |
| Speculation.InvStep | modules/execUnit.sv:493-549 | every clock keeps the fetch where the instruction in hand says, early and speculative redirects included |
| Speculation.TakesOnlyTheProgram | modules/execUnit.sv:1121-1139 | in every run each instruction is taken from exactly where the last one or an interrupt left control, bytes and all |
| Speculation.RightHistoryIsTrace | modules/execUnit.sv:427-515 | such a history is the architecture's trace of how the instructions ended |
| Speculation.PredictionIsInvisible | modules/bpred.sv:42-46 | two runs of one program, each outcome decided by those before it, with any predictions in either: up to an instruction in progress, one run's history - instructions, addresses, how they end, interrupts - is a prefix of the other's |
| Speculation.StraightOnExactly | modules/biu.sv:318-325 | straight-line fetch stays with CS:IP if and only if IP does not wrap |
| Speculation.SegmentsOverlap | modules/execUnit.sv:673-674 | a linear address is the offset in segment 0, and a segment one higher is sixteen bytes on |
| Speculation.RelativeBranchesLand | modules/execUnit.sv:543-544 | in every run a taken relative branch leaves control at its own address plus its length plus its distance, mod 64K |
| Speculation.Rejoins | modules/execUnit.sv:2196-2228 | within two clocks of retiring, however the guess turned out, the next instruction is captured or the fetch stands at its address |
| Speculation.FetchControl.Tick | modules/execUnit.sv:493-549 | one clock of the fetch-control registers |
| FetchPath.WholeReads | modules/execUnit.sv:493-503 | a whole capture from a queue that shows memory leaves the registers holding the instruction there, and pops just its length |
| FetchPath.BytesRead | modules/execUnit.sv:1393-1560 | bytes taken the long way never pass the end of the instruction in memory, and all are taken when it is in hand |
| FetchPath.InvStep | modules/execUnit.sv:1121-1139 | each clock of bus unit, queue, decode_len, fetch states and prediction together keeps their joint invariant, and does what the fetch control takes for granted |
| FetchPath.RefinesFetchControl | modules/execUnit.sv:493-549 | every run of the whole front end, with the lengths decode_len finds and the bytes the bus brings, is a run of the fetch control over the program in memory |
| FetchPath.InHandIsMemory | modules/execUnit.sv:80-111 | in every run, for any predictor, bus timing and mix of captures, an instruction in hand has the fields, the length and the next IP of the one in memory at the program's CS:IP |
| FetchPath.ConsumesMemoryAtIp | modules/biu.sv:318-332 | and each byte the sequencer takes in while it reads is memory from CS:IP on |
| FetchProgress.OneClock | modules/execUnit.sv:1393-1560 | every clock of reading an instruction in is paid for: a byte taken, or one clock less until the bus unit has the next in the queue |
| FetchProgress.NextInstructionComes | modules/execUnit.sv:1393-1560 | in every run of the joined front end, with no interrupt and the bus left alone, the last byte of the next instruction is in within fourteen clocks a byte and twenty-eight more, besides wait states and holds |
| FetchProgress.ThenItIsInHand | modules/execUnit.sv:1480-1560 | and a clock later at most it is in the registers |
| Divider.TruncatedDivision | modules/ALU.sv:351-382 | the quotient and remainder meant: q*d + r = n, smaller than the divisor, remainder signed as the dividend |
| Divider.IterateDivides | modules/ALU.sv:274-340 | one restoring step keeps the division identity for one more bit |
| Divider.FullyDivided | modules/ALU.sv:334-340 | after 16 or 32 steps the registers hold quotient and remainder of the magnitudes |
| Divider.SignsFixedUp | modules/ALU.sv:354-382 | the sign fix-up gives the truncated results and byte_ok holds exactly when the quotient fits, 8000h and 80h allowed |
| Divider.DivideUnit.Divide | modules/ALU.sv:281-385 | from start to result in exactly 16 or 32 clocks, or at once for a zero divisor, signed and unsigned, byte and word |
| StringEngine.ExecIsElement | modules/execUnit.sv:2407-2434 | an iteration leaves in the engine what one element of the definition leaves |
| StringEngine.InvStep | modules/execUnit.sv:2341-2434 | every clock keeps what remains to be done equal to the whole |
| StringEngine.FinishesAsDefined | modules/execUnit.sv:1157-1222 | interrupted anywhere, resumed from the first prefix, any latency: memory, SI, DI, CX, AX, flags and ports are those of the element-by-element definition run once |
| StringEngine.AbandonsBetweenElements | modules/execUnit.sv:2355-2382 | a handler sees a whole number of elements done, and finishing from there is finishing the whole |
| StringMeaning.ComparisonFlags | modules/execUnit.sv:2407-2434 | CF is unsigned below, OF a signed difference out of range, ZF and SF those of the difference, PF an even number of ones in its low byte, AF a borrow from the low four bits; and the conditions after it mean the orders they are named for |
| StringMeaning.ElementSteps | modules/execUnit.sv:2415-2416 | SI and DI, where the instruction uses them, move by 1 or 2 up with DF clear and down with it set, mod 64K, and REP counts CX down by one |
| StringMeaning.ElementDoes | modules/execUnit.sv:1157-1222 | one element by what is at DS:SI and ES:DI: the bytes MOVS, STOS and INS leave, what LODS loads, what CMPS and SCAS compare, what goes to and from the port, and nothing else |
| StringMeaning.RepeatStops | modules/execUnit.sv:2407-2434 | a repeated instruction does the elements up to the first at which CX is used up or the comparison says to stop |
| StringMeaning.RepeatStores | modules/execUnit.sv:1157-1222 | REP STOS and REP MOVS whole, where the source is not overwritten first: which address holds which byte for every element in either direction, every other byte as it was, CX zero and the pointers moved by CX elements |
| StringProgress.FinishesInTime | modules/execUnit.sv:2341-2434 | a string instruction is done, as the definition has it, after eight clocks an element and eight more, one for each clock of waiting and nine for each interrupt taken |
| StringEngine.Engine.Tick | modules/execUnit.sv:2341-2434 | one clock of the engine's registers |
| InterruptController.BestIsBest | modules/interrupt_controller.sv:133-147 | the scan's result has the highest priority, lowest number first |
| InterruptController.EoiTargetIsTop | modules/interrupt_controller.sv:188-201 | a non-specific end of interrupt clears the one accepted last |
| InterruptController.NestedStep | modules/interrupt_controller.sv:217-247 | acceptance pushes and end of interrupt pops, even in one clock |
| InterruptController.InServiceIsStack | modules/interrupt_controller.sv:115-247 | in every run in which software leaves priorities and in-service bits alone, masks changed at any time, the in-service bits are exactly those accepted and not ended, each outranking all it interrupted |
| InterruptController.NestingIsBounded | modules/interrupt_controller.sv:115-131 | never deeper than there are priorities |
| InterruptController.PresentsTheBest | modules/interrupt_controller.sv:125-149 | if any source may interrupt, one is presented, and none that may is better |
| InterruptDelivery.WinnerExactly | modules/interrupt_controller.sv:125-149 | a source is presented if and only if its own line or latch is up, it is neither masked nor in service, within the priority mask, above everything in service, and no other such source has a higher priority, or the same and a lower number |
| InterruptDelivery.SilentExactly | modules/interrupt_controller.sv:125-149 | and none exactly when no source is so placed |
| InterruptDelivery.MaskedIsSilent | modules/interrupt_controller.sv:125-131 | a masked source is never presented |
| InterruptDelivery.VectorNamesSource | modules/interrupt_controller.sv:153-163 | each source has its own vector: 8, 18 or 19 for the first latched timer, whose latch and no other the acknowledge clears, 10 and 11 for DMA, 12 to 15 for the pins |
| InterruptDelivery.ControlWrites | modules/interrupt_controller.sv:257-263 | a source's control register sets its mask from bit 3 and its priority from the low three, touches no other source, and reads back |
| InterruptDelivery.MaskWrites | modules/interrupt_controller.sv:248-249 | the mask register sets every mask and the priority mask its three bits; both read back, and no other register but a source's own changes a mask |
| InterruptDelivery.ServiceWrites | modules/interrupt_controller.sv:250-250 | the in-service bits can be set by software and read back |
| InterruptDelivery.RequestWrites | modules/interrupt_controller.sv:251-255 | a write to the request register sets the two DMA latches alone, and a read shows every line and latch that is up |
| InterruptController.TimerPulseLostExactly | modules/interrupt_controller.sv:217-233 | for each of the three timers: a pulse is lost if and only if this clock acknowledges an earlier latched pulse of that timer |
| InterruptController.TwoPulsesBecomeOne | modules/interrupt_controller.sv:224-233 | from reset, two pulses of timer 0 in successive clocks, the first acknowledged as the second arrives, leave nothing latched |
| InterruptController.DmaPulseLostExactly | modules/interrupt_controller.sv:221-255 | on either channel: a DMA pulse is lost if and only if this clock acknowledges its source, or software writes the request bit clear |
| InterruptController.Controller.Tick | modules/interrupt_controller.sv:96-265 | one clock of the controller, with what it presents |
| Blitter.PixelExactly | modules/blitter.sv:129-136 | finishing a pixel is the loop's next pixel if and only if a keyed copy's live byte judges as its source byte would |
| Blitter.PixelByNumber | modules/blitter.sv:88-134 | one pixel of the loop by operation number, 0 fill, 2 all but the key, 1 and 3 copy, at its row and column mod 64K |
| Blitter.StallLosesAPixel | modules/blitter.sv:129-136 | a one-pixel keyed copy of a byte that shows, with one CPU read of a word holding the key in its read-wait clock, draws nothing |
| Blitter.BlitDraws | modules/blitter.sv:142-218 | after every clock the frame is the row-major loop so far, and at the end all of it after width times height pixels: fill and copy under any stalls, keyed copy with none in its two clocks |
| Blitter.EmptyDoesNothing | modules/blitter.sv:168-180 | a zero width or height draws nothing and is never busy |
| Blitter.FreeClocksProgress | modules/blitter.sv:184-216 | one clock a pixel for a fill and three for a copy, and a stall costs no more than itself |
| Blitter.Engine.Tick | modules/blitter.sv:121-218 | one clock of the walk, and the write on the framebuffer port |
| Storage.AboveCpuExactly | modules/storage.sv:156-159 | a word's address is at or above 1 MB if and only if the sector, in 15 bits, is below 30720; below that it is base + 512*lba + 2*i |
| Storage.Sector30720HitsTheCpu | modules/storage.sv:311-318 | on a disk of 32768 sectors at 1 MB a write to sector 30720 is accepted and its first word is the CPU's word 0 |
| Storage.AddressesAreDistinct | modules/storage.sv:156-159 | no two words of the disk share an address |
| Storage.SectorsAreKept | modules/storage.sv:156-159 | a sector written reads back, and no other sector changes |
| Storage.LbaAnchors | modules/storage.sv:298-301 | setting the LBA brings the index back, whatever was half read |
| Storage.LbaHalves | modules/storage.sv:298-302 | LBA_LO sets the sector number mod 65536 and LBA_HI the rest, each keeping the other's, and a busy device neither |
| Storage.WritesTheSector | modules/storage.sv:226-339 | LBA, 256 words, CMD=2: those words are in that sector in order and nothing else has changed, from any history and at any latency |
| Storage.ReadsTheSector | modules/storage.sv:246-291 | CMD=1 ends with the sector on offer |
| Storage.CommandsFinish | modules/storage.sv:246-294 | a command taken ends: 514 clocks for a read and 770 for a write, and one for each clock the memory keeps it waiting |
| Storage.DrainsInOrder | modules/storage.sv:226-339 | the n-th DATA read returns the n-th word, and with the last DRQ falls |
| Storage.NothingPastTheEnd | modules/storage.sv:226-232 | past the end nothing moves |
| Storage.RefusalMovesNothing | modules/storage.sv:303-329 | out of range or unknown: error, and nothing moves |
| Storage.WordIsOutInRuns | modules/storage.sv:273-276 | in every state of every run a write request has the buffer's word on the data lines |
| Storage.HoldsRequest | modules/storage.sv:161-165 | in every run an unanswered memory request stays, address and data, and an answered one is dropped for a clock |
| Storage.StaysAboveCpu | modules/storage.sv:311-318 | with at most 30720 sectors no run of the device writes below 1 MB |
| Storage.Device.Tick | modules/storage.sv:205-341 | one clock of the sector buffer, the registers and the transfer engine |
| JtagFraming.Hunting | modules/jtag_loader.sv:273-278 | until SYNC goes by, no word comes out |
| JtagFraming.SyncedFrames | modules/jtag_loader.sv:279-281 | once in step, sixteen bits are a word |
| JtagFraming.RecoversExactly | modules/jtag_loader.sv:254-284 | zeros, SYNC and words behind any junk come out as exactly those words if and only if SYNC is not in the junk |
| JtagFraming.ShortLeadInIsSafe | modules/jtag_loader.sv:50-55 | a lead-in shorter than sixteen bits cannot hold it |
| JtagFraming.SyncAsLeadIn | modules/jtag_loader.sv:273-281 | led in by the sixteen bits of SYNC, any scan comes out with two words too many in front: the host's own zeros and SYNC |
| JtagFraming.SyncIsItsNumber | modules/jtag_loader.sv:129-129 | the sixteen bits hunted for are 0B2C1h, lowest first |
| JtagLoader.ToggleStep | modules/jtag_loader.sv:287-297 | any edge of either clock keeps the toggle handshake: one word in flight or none, or the overflow flag |
| JtagLoader.OverflowSticks | modules/jtag_loader.sv:293-297 | the flag stays set |
| JtagLoader.LoadsAPrefix | modules/jtag_loader.sv:389-448 | over any number of scans, under any interleaving and latency, either overflow is set or memory holds exactly the first so many of all the words framed at base + 2k, and the counter says how many |
| JtagLoader.HostScansFrame | tools/jtag_load.tcl:181-200 | the host's scans, each behind a short lead-in of its own and its own zeros and SYNC, frame to its chunks of words end to end |
| JtagLoader.MatchingCountMeansLoaded | modules/jtag_loader.sv:199-206 | however the host cuts the image into scans, no overflow and a matching count mean the whole image is in memory |
| JtagLoader.LoadedAt | modules/jtag_loader.sv:437-441 | word k of an image that fits is at base + 2k |
| JtagPace.PacedNeverOverflows | modules/jtag_loader.sv:287-297 | if in any stretch of twelve TCK edges the system clock has four edges the memory does not hold up, no load overflows |
| JtagPace.PacedLoadsComplete | modules/jtag_loader.sv:369-449 | and four such edges after the last word, the whole image, in however many scans, is in memory, the count is its length and the flag is clear |
| JtagLoader.Domains.TckEdge | modules/jtag_loader.sv:219-330 | one TCK edge of its registers: still, capturing or shifting |
| JtagLoader.Domains.SysEdge | modules/jtag_loader.sv:369-449 | one system clock edge of its registers |
| FatTable.PutSame | tools/addfile.py:37-45 | an entry stored reads back, on either parity |
| FatTable.PutOther | tools/addfile.py:37-45 | no other entry changes |
| FatTable.TwoEntriesInThreeBytes | tools/fat12.py:197-207 | three bytes of the table are one little-endian number, the even entry its low twelve bits and the odd one its high |
| FatTable.PackFat | tools/fat12.py:197-207 | packing fails exactly when the last pair does not fit; otherwise every entry reads back and the rest is zero |
| FatTable.SizedTableFitsExactly | tools/fat12.py:98-104 | the constructor's size is enough for the packing unless an odd table fills it exactly |
| FatVolume.SizeFat | tools/fat12.py:91-104 | the sizing loop ends within two rounds, with one sector or what one sector would have needed, which is enough |
| FatVolume.NeedFalls | tools/fat12.py:87-104 | a bigger table leaves fewer clusters and needs no bigger one, which is why |
| FatVolume.Plan | tools/fat12.py:64-118 | the constructor's geometry, or which error |
| FatVolume.PickClusterSize | tools/mkdisk.py:133-143 | the smallest cluster size the constructor accepts, or none |
| FatVolume.AcceptedButNotWritable | tools/fat12.py:98-104 | 343 sectors with 16 root entries: accepted, with a table packing cannot fill |
| FatVolume.RegionsAreApart | tools/fat12.py:106-109 | boot sector, FATs, root and every cluster lie apart and inside the volume |
| FatVolume.FirstOfGrows | tools/fat12.py:144-149 | each file starts behind the clusters of those before it |
| FatVolume.Volume.AddFile | tools/fat12.py:137-165 | a file takes the next clusters in a row; or exactly the error raised, with nothing changed |
| FatVolume.ChainsAreApart | tools/fat12.py:148-154 | chains are disjoint, inside, linked in order and ended |
| FatImage.DirentReadsBack | tools/fat12.py:156-163 | a directory entry's fields are read as written |
| FatImage.LowByteFirst | tools/fat12.py:156-163 | two- and four-byte numbers on disk are little-endian |
| FatImage.ChainReads | tools/mkdisk.py:120-127 | the reader's walk collects a file's clusters in order up to FF0 |
| FatImage.ReadsBack | tools/mkdisk.py:97-130 | reading an image lists the files added, in order, with contents cut only at FF0 |
| FatImage.WholeExactly | tools/mkdisk.py:125 | a file is whole if and only if it is empty or all its clusters are below FF0 |
| FatImage.CutAtFF0 | tools/mkdisk.py:125 | on a disk of 4110 sectors that the constructor takes, a file behind one of 4078 clusters is added and reads back empty |
| FatImage.SmallVolumesReadBackWhole | tools/fat12.py:53-58 | so up to 4078 clusters every file is |
| FatWriter.NameReadsBackExactly | tools/fat12.py:37-47 | a reader gets both parts of the upper-case name back if and only if neither ends in white space |
| FatWriter.BootSectorReads | tools/fat12.py:168-195 | the fields a reader or the editor uses, sector size and count among them, are in the boot sector at their offsets |
| FatWriter.Image | tools/fat12.py:209-228 | image() succeeds exactly when the counts fit their fields and the table its sectors, and then a reader lists just the files |
| FatWriter.WalkChain | tools/mkdisk.py:120-128 | the walk's loop |
| FatWriter.ReadImage | tools/mkdisk.py:97-130 | the directory loop, and where it fails |
| FatWriter.PlainFilesAllListed | tools/mkdisk.py:112-129 | plain files in clusters below FF0 are all listed, whole and in order |
| FatLinks.FreedExactly | tools/addfile.py:53-59 | freeing zeroes exactly the clusters the loop visits, for any in-range links, cycles included, and ends |
| FatLinks.TrailOfChain | tools/addfile.py:53-59 | a sound chain is visited whole and once |
| FatLinks.FreesAreAll | tools/addfile.py:68 | every free cluster is found |
| FatLinks.LinkOfTaken | tools/addfile.py:72-77 | each cluster taken names the next and the last ends the chain |
| FatLinks.FreedCount | tools/addfile.py:53-70 | for any links, the clusters free once the old chain is back: those before and the used ones of that chain |
| FatLinks.FreeCount | tools/addfile.py:53-77 | free clusters afterwards: those before, plus the old chain's, less those taken |
| FatLinks.OtherChainKept | tools/addfile.py:53-77 | a chain apart from the one freed keeps every link |
| FatEdit.PutEntry | tools/addfile.py:37-45 | every copy of the FAT gets the entry, and nothing outside them changes |
| FatEdit.FreeChain | tools/addfile.py:55-59 | the freeing loop, on all copies |
| FatEdit.FindSlot | tools/addfile.py:51-65 | the first entry of that name, failing that the first unused one |
| FatEdit.Allocate | tools/addfile.py:72-77 | contents and links of the clusters taken; other clusters, directory and boot sector as they were |
| FatEdit.AddFile | tools/addfile.py:32-85 | which error, or the edited image: links, equal copies, contents, entry, and everything else as it was |
| FatEditRead.NamesAgreeExactly | tools/addfile.py:47-49 | editor and builder store the same eleven bytes if and only if the name has at most one dot |
| FatEditRead.TwoDotsDisagree | tools/addfile.py:47-49 | A.B.C is a name the builder takes and the editor stores otherwise, with B for its extension |
| FatEditRead.OtherFileReads | tools/addfile.py:53-77 | a file on a chain apart from the one freed reads the same before and after |
| FatEditRead.NewFileReadsExactly | tools/addfile.py:67-83 | the new file reads back if and only if it is empty or its last cluster is below FF0 |
| FatEditList.EditedListing | tools/addfile.py:50-83 | the listing afterwards is what came before the slot, the new file as the reader's walk finds it, and all entries behind the slot up to the next end mark, stale ones included; the file is whole if and only if it is empty or its last cluster is below FF0 |
| FatEditList.EditedUnseen | tools/addfile.py:51-60 | a name found behind the end mark is replaced there, and the listing stays as it was |
| FatEditList.ListsNothingExactly | tools/mkdisk.py:112-119 | nothing is listed from an entry on if and only if all up to the next end mark are deleted or volume labels |
| FatRoundTrip.BuiltDisk | tools/fat12.py:209-228 | a built image is one the editor can work on, with equal copies, in-range links, and the count of clusters the editor reads off it the builder's |
| FatRoundTrip.CountReads | tools/addfile.py:25-30 | the editor's count of clusters, from the sectors in the boot sector, is the builder's |
| FatRoundTrip.EditOfBuilt | tools/addfile.py:32-85 | build, edit, read, where no file reaches FF0: the named file replaced where it stood or added at the end, all else the same; the new one whole if and only if it is empty or the last cluster it takes is below FF0 |
| FatRoundTrip.BuiltFrees | tools/addfile.py:53-71 | on a built image the clusters an edit may take are, in order, the replaced file's own and then all never used |
| FatRoundTrip.AddToBuilt | tools/addfile.py:50-85 | the edit run on a built image: directory full, out of clusters or done, each exactly when, the first cluster it reports, and what every reader then lists |
| Asm86.ModrmMeans | tools/asm86.py:160-196 | the decoder finds the register field, the displacement length, and the register or the address asked for, mod 65536 |
| Asm86.NamesMeanWhatTheySay | tools/asm86.py:323-324 | the numbers the assembler gives the ALU operations and shifts are those by which the decoder knows just these operations |
| Asm86.DecodesAsAssembled | tools/asm86.py:198-438 | an assembled ALU, move or shift decodes to just its own bytes, and to the operation named on the operands asked for if and only if register widths agree and no shift had an override |
| Asm86.TakesExactly | tools/asm86.py:171-184 | which operands are refused |
| Asm86Forms.FormsDecode | tools/asm86.py:278-421 | LEA, XCHG, PUSH, POP, TEST, INC, DEC, NEG, MUL and DIV likewise, if and only if widths agree, byte registers are not pushed or popped, no exchange had an override, LEA has memory, and it is not POP CS |
| Asm86Forms.LostAndRefused | tools/asm86.py:278-421 | XCHG of BX with a word in ES is assembled without the ES, and POP CS as a byte the decoder calls illegal |
| Asm86Forms.ConditionsMeanWhatTheySay | tools/asm86.py:445-447 | the number the assembler gives each of the sixteen conditions makes the hardware test that condition of the flags |
| Asm86Forms.JumpLandsOnLabel | modules/execUnit.sv:541-544 | a resolved relative jump is one instruction of the kind and condition asked for; the IP behind it is the one the reference was resolved from, and adding the extended immediate gives its label, mod 65536 |
| AsmFixups.PatchLands | tools/asm86.py:142-155 | the bytes patched in take the hardware to the label |
| AsmFixups.Assembler.Ref | tools/asm86.py:130-136 | room for a reference, remembered with the end of its instruction |
| AsmFixups.Assembler.Resolve | tools/asm86.py:138-157 | it succeeds exactly when all labels are placed and short jumps in range; then every reference not overwritten by a later one lands on its label, and no other byte changes |

## Left out

- DMA and its arbitration with the CPU (modules/dma.sv, modules/cpu_top.sv): a
  prefetch may start between its fetch and its deposit, so the atomicity it is said to
  have does not hold.
- Execution of ENTER, and byte DIV and IDIV as the sequencer issues them; the divider is
  proved at the ALU's own ports.
- The acknowledge path between core and interrupt controller: acceptance is the
  controller's, with `iack` only for what it presents and priorities left alone.
- ALU operations other than division, and the multiplier.
- BIOS, boot sector and kernel generators, video, palette, PS/2, pins, clocks and PLL,
  file input and output, command lines.
- The cache with PREFETCH set, its statistics outputs, and the path without a cache.
- Framebuffer writes by the CPU during a blit (its reads may come at any clock), and
  reading the blitter's registers back.
- The ROM backend of the block device, and DATA reads without a clock between them.
- JTAG PEEK, PROF and CTRL, and a new pointer while a word is still in flight.
- What else an interrupt handler does to the memory and registers a suspended string
  instruction will use; instructions other than the string ones on the same registers.
- Code bytes that change while they wait in the queue (`BiuRuns.Stable`), or, in the
  joined front end, at all (`FetchPath`).
- Other masters' writes below 1 MB in runs with the snoop race, beyond the statement that
  the race is what goes wrong.
- SdramSystem.AnsweredInTime: for 10 or more clocks between refreshes falling due, which is
  exact (`SdramSystem.NothingAnsweredBelowTen`); the top level has 175 and 280.
- Speculation.TakesOnlyTheProgram: instructions appear as their length and kind; that no
  instruction runs past the end of its segment is assumed, and shown to be needed.
- FatImage.ReadsBack: where an image is too short for what its boot sector claims, the
  model's reader reports failure at the entry or cluster, where Python reads on into
  nothing or raises.
- FatWriter.NameReadsBackExactly: names are ASCII bytes; upper-casing of other
  characters is not modelled.
- FatEdit.AddFile: the header's fields and the count of entries are handed in, and describe
  an image with equal FAT copies, in-range links and room for all they say; for a built
  image they are what the boot sector says (`FatRoundTrip.BuiltDisk`).
- The assembler's instructions without operands, far jumps and interrupts: each emits
  fixed bytes, or its numbers as they are.
- Chip timing in nanoseconds: spacing is counted in clocks.
