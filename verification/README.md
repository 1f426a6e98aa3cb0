# ThreadKraken: model and proofs

ThreadKraken is an eight-thread, five-stage processor that switches threads in
every clock, with an assembler and simulator in Python, a DMA engine, an
instruction cache for the Zedboard, and a general assembler in C++. This project
models their logic in Dafny and proves what they promise, and where they do not
keep a promise, exactly when they do.

| module | what it models |
|---|---|
| Isa | instruction fields and control signals, ALU, branch targets |
| Scheduler | the thread pointer over any number of threads, and the simulator's search |
| Core | every register of `rtl/main` and its next value; `Step` is one clock |
| Hardware | the same as objects that update their registers in place, proved to take that step |
| Storage | what loads bring back |
| Refinement, Runs | the sequential machine, the invariant, and the refinement for clocks and runs |
| Witnesses, Duets | programs of one thread and of two that run into the limits, from reset |
| Static, Rotation | programs and schedules for which no condition on the run is left |
| Limits | precise misses, and the exact conditions of the refinement's guards |
| ThreadTable, Slots | life of threads, back-off, conservation of fetch slots |
| Fifo, Dma | the FIFO as a bounded queue and the DMA engine on top of it |
| ICache | the instruction cache and its handshake with the host |
| Bits, Tkb, Agreement, Assembly | digit strings, the TKB assembler, its agreement with the decoder, labels |
| Reference | the instruction set word by word |
| Notation, Numerals | commands and numbers as they are written, and what is read back |
| EndToEnd | from assembly text to the committed state of the pipeline |
| Hex, Mif, Mips | hexadecimal text, memory initialisation files, and the two MIPS passes |
| Manual | the words of the MIPS passes as the architecture manual draws them |

How the main results fit together: `Hardware.Processor.Clock` shows that the
blocks, updated in place, take one `Core.Step`. `Refinement.ClockRefines` and
`Refinement.InvKept` relate that step to the sequential machine, with thread
creation as one of its instructions; `Runs.ResetRunRefines` lifts it to runs from
reset, and `Slots.FetchOrderRefines` ties the commit order to the fetch order. Its
guards (`Refinement.Clean`) name the places where the pipeline loses a value, a
slot or a jump; `Limits` gives the exact condition behind each of them (and
`ThreadTable` for the full table), and `Witnesses` and `Duets` run a short program into
each of them from reset.
`Static.ScheduledRefines` replaces them by a check of each instruction and its
successor, and `Rotation` by two threads in rotation, which such a program
enters by itself (`Rotation.EntersRotation`). `Agreement.AssembledMeans`
says that each assembled word does what its command says, and `EndToEnd` puts
the two together, down to `EndToEnd.FileRuns`. What the machines share is tied to
something outside both: arithmetic and shifts to numbers (`Isa`), loads to the history
of stores (`Storage`), the reading of commands to their printed form (`Notation`).

The sequential machine executes one instruction of one thread at a time. A
creation takes the lowest free slot of the table; writes to r0 and r1 are
dropped; the link value of the jumps is the jump's own PC.

The instruction and the data memory are separate, as on the Zedboard, and answer in
the next clock; in every clock each access may hit or miss, freely. A load of an
address never stored brings 0. (The memory of the testbench,
`rtl/testbench/miss_mem.sv`, answers in the same way, but is one array with 12-bit
addresses for both, so that stores there can change instructions and loads can read
them; and it leaves its data-miss flag up until an idle clock when a store hits.)

## What the code does against its description

- A stall does not hold the register read ports (`rtl/main/regfile.sv:137-149`),
  so that an operand can be lost: `Limits.StallOperandExact`,
  `Witnesses.StallLosesRegister`.
- A stall fetches the address in DEC again, and does not move the thread's PC
  (`Limits.StallSkips`). When the thread there has stopped being runnable its slot is
  skipped, which takes a `slp` or `kill` (`Slots.SkipNeedsStop`,
  `Duets.StallSkipsSlot`). When DEC holds a bubble, because the slot was flushed or
  missed, and its thread is runnable again, the bubble's address is fetched: if it is
  the thread's next address, the instruction is fetched a second time and executed
  twice (`Duets.StallDuplicates`); if not, it comes before the one the thread was sent
  back to (`Duets.StallRevives`).
- A stall request gives way to a jump and to the flush of another thread, so that a
  branch or an indirect jump can go by the value a load is about to replace:
  `Limits.JumpWaitsExact`, `Limits.JumpOperandExact`, `Witnesses.BranchDoesNotWait`.
  In the clock of such a flush any other instruction moves on with that value as well:
  `Limits.LoadWaitsExact`, `Duets.StaleUseLeaves`.
- Writes to r0 and r1 are dropped, but the bypass forwards r0 and r1 and the
  forwarding network r1: `Limits.BypassExact`, `Limits.ForwardExact`,
  `Witnesses.BypassLeaksR0`, `Witnesses.ForwardLeaksR1`.
- MEM forwards the ALU output of `nt`, the conjunction of its operands, not the new
  thread's id: `Limits.CreateForwardExact`, `Witnesses.CreateForwardsNoId`.
- A taken jump keeps its wrong-path slots, in DEC and in the fetch of its clock, when
  another thread's data miss is flushed in the same clock. It loses its target when
  its own wrong-path fetch missed the clock before, and when, in a clock with such a
  flush, the wrong path is fetched and misses: `Limits.JumpExact`,
  `Witnesses.MissLosesJump`, `Duets.FlushKeepsWrongPath`.
- `slp` and `kill` flush the thread that executes them, whichever thread they stop, and
  do not take its PC back: its instructions in flight are lost. `Limits.StopFlushes`,
  `Limits.StopLosesExact`, `Duets.SleepLosesSlot`.
- A thread created in a full table overwrites the root:
  `ThreadTable.InitOverwritesExactlyWhenFull`, `Witnesses.FullTableRestartsRoot`.
- The assembler's comments describe the link value as PC + 1; the hardware links
  PC. The comment of `shrt` calls it arithmetic; it is the logical shift.
- `blt` takes the sign of the 32-bit difference, which is signed less-than only
  when the difference does not overflow: `Isa.LessThanExact`.
- The assembler refuses the immediate -2^(n-1), has no atomic `shra`, never finds
  a label with a capital letter, and turns unreadable commands into word 0
  (`Assembly`).
- The DMA engine loses the start address of a write transfer when the user writes
  in the clock of `wr_go`: `Dma.WriteStartExact`. The FIFO shows `full` for one
  clock after reset, and refuses writes in it.
- `sll` and `srl` of the MIPS assembler name their operand in the wrong field:
  `Mips.ShiftOperandExact`. A hexadecimal file of several instructions converts
  back in the opposite order: `Hex.HexFileComesBackwards`.

## Model

| member | source | states |
|---|---|---|
| Isa.LessThanExact | rtl/main/alu.sv:141-143 | the `lt` flag is the signed comparison of the operands exactly when their difference does not overflow 32 bits |
| Isa.EqualExact | rtl/main/alu.sv:141-142 | the `eq` flag holds exactly for equal operands: no difference of distinct words wraps to zero |
| Isa.LogicDigits | rtl/main/alu.sv:102-104 | each of the 32 digits of and, or, xor and not comes from that digit of the operands as it should |
| Isa.DigitsDecide | rtl/main/alu.sv:102-104 | which determines the word: words with the same digits are equal |
| Isa.ShiftLeftExact | rtl/main/alu.sv:111-116 | the five stages of the left shifter multiply by the power of 2 that the low five bits name, modulo 2^32 |
| Isa.ShiftRightExact | rtl/main/alu.sv:118-123 | those of the right shifter divide by it |
| Isa.ShiftArithExact | rtl/main/alu.sv:125-130 | those of the arithmetic shifter divide the signed value by it, rounding down |
| Scheduler.EightWayIsNext | rtl/main/thread_ctrl.sv:239-324 | the eight-way case statement chooses the nearest runnable thread in cyclic order, as `Next` does over any number of threads |
| Scheduler.NextIsNearest | rtl/main/thread_ctrl.sv:239-324 | no runnable thread is nearer, round the ring, than the one chosen |
| Scheduler.FindNextThread | sw/simulator.py:26-33 | the simulator's search returns that same thread, and none exactly when no thread is runnable |
| Scheduler.WaitIsBounded | rtl/main/thread_ctrl.sv:219-238 | a thread that stays runnable is fetched within as many un-held clocks as it is steps away, whatever the other threads do |
| Scheduler.BoundedWaiting | rtl/main/thread_ctrl.sv:219-324 | n un-held clocks are always enough among n threads, from any state of the pointer and with any holds in between |
| Scheduler.SlotsDistinct | rtl/main/thread_ctrl.sv:238-324 | with k runnable threads any k consecutive slots belong to different threads |
| Scheduler.RotationPeriod | rtl/main/thread_ctrl.sv:238-324 | the rotation comes back to a thread after exactly k slots, not sooner |
| Scheduler.NeighboursDiffer | rtl/main/thread_ctrl.sv:238-324 | two runnable threads keep neighbouring slots apart, three keep slots at distance two apart |
| Core.FreeFromIsLowest | rtl/main/thread_ctrl.sv:330-340 | the new-thread priority chain yields the lowest free slot, and slot 0 when all are taken |
| Refinement.ClockRefines | rtl/main/threadkraken_top.sv:119-319 | one clock of the pipeline changes committed registers, memory and thread table by exactly one sequential instruction of a live thread when MEM commits, and by nothing otherwise, through stalls, flushes, misses and thread creation |
| Refinement.InvKept | rtl/main/threadkraken_top.sv:119-319 | every clock outside the named guards keeps the invariant that ties the slots in flight to the sequential execution |
| Refinement.RegsStep | rtl/main/regfile.sv:74-149 | the register files together with the write in WB move only when an instruction commits, and then as in the sequential machine |
| Refinement.MemoryStep | rtl/main/mem.sv:50-52 | the data memory changes only by the store that commits |
| Refinement.FilesCatchUp | rtl/main/regfile.sv:101-135 | the write or the initialisation in WB lands in the register file where the abstraction already showed it |
| Refinement.TableCatchesUp | rtl/main/thread_csr.sv:77-99 | the thread table takes a pending creation and nothing else |
| Refinement.NewSlot | rtl/main/thread_ctrl.sv:327-343 | the slot a creation takes is free, is not the creator's, and nothing of it is in flight |
| Refinement.PcFromDecStep | rtl/main/pc_sel.sv:98-114 | where a thread's path continues after a clock: the target of its own taken jump, the held slot of a stall, or the fetch PC |
| Refinement.CommitPcStep | rtl/main/pc_sel.sv:98-114 | a thread's committed PC moves exactly when an instruction of it commits, to that instruction's successor; a new thread's is its start address |
| Refinement.ReplayedPc | rtl/main/flush_stall.sv:35-41 | after the flush of a data miss no stage holds a slot of the thread and it fetches the access again |
| Refinement.OperandsRead | rtl/main/alu.sv:97-139 | two executions that agree on the operands an instruction reads agree on all it goes on to use |
| Refinement.RegisterNext | rtl/main/exe.sv:66-96 | the register as it stands when the instruction in EXE reaches MEM, from the writes still ahead of it |
| Refinement.ForwardIsRegister | rtl/main/exe.sv:66-96 | the forwarding network delivers exactly that register |
| Refinement.EntersMem | rtl/main/exe.sv:61-185 | what enters MEM is what the instruction computes from the committed registers |
| Refinement.LiveInvKept | rtl/main/insfetch.sv:78-78 | only valid threads ever have slots in flight, and the root stays valid |
| Storage.LoadBringsLast | rtl/testbench/miss_mem.sv:160-175 | from reset, whatever the order of turns, a load puts the data of the last store to its address into its register, and 0 when there was none |
| Storage.StoreThenLoad | rtl/testbench/miss_mem.sv:160-175 | a store and a later load of the same address, with no store to it between, give the stored register back, across threads as well |
| Storage.AccessBringsLast | rtl/main/mem.sv:50-52 | in every run of every program the data that enters WB for a load is that of the last write the memory took for its address |
| Storage.CommittedStores | rtl/main/mem.sv:50-52 | over a clean run from reset those writes are the stores of the instructions that commit, in commit order |
| Runs.RunRefines | rtl/main/threadkraken_top.sv:119-319 | over every run outside the guards, from every state of the invariant, the result is that of executing the committed instructions one at a time in commit order |
| Runs.FirstClock | rtl/main/thread_ctrl.sv:233-237 | the first clock after reset starts thread 0, and only it, in the initial state of the sequential machine |
| Runs.ResetRunRefines | rtl/main/threadkraken_top.sv:119-319 | the same from reset on, with all the threads the program creates |
| Runs.QuietIsPhysical | rtl/main/regfile.sv:131-133 | once WB is empty the committed state is the physical state |
| Static.NothingStalls | rtl/main/exe.sv:66-96 | in a program whose loads and creations are not named by the next instruction the load-use stall is never requested, whatever the schedule |
| Static.StaticClean | rtl/main/exe.sv:66-96 | such a program, with r0 and r1 never written, meets no guard of the refinement as long as the memories hit and no thread is created in a full table |
| Static.ScheduledRefines | rtl/main/threadkraken_top.sv:119-319 | from reset, such a program runs as on the sequential machine for every interleaving of the threads it creates |
| Rotation.TwoThreadsNeverStall | rtl/main/exe.sv:72-92 | with two or more threads in rotation no instruction in EXE requests a load-use stall, whatever the program; only a load of r0 can still request one over a bubble |
| Rotation.PointerMoves | rtl/main/thread_ctrl.sv:219-238 | with r0 and r1 left alone and nothing atomic, the pointer then moves on in every clock |
| Rotation.AwakeKept | rtl/main/thread_ctrl.sv:204-217 | the runnable set stays what it is while nothing misses, until the back-off counter wraps beside an awake waiting thread |
| Rotation.RotInvKept | rtl/main/thread_ctrl.sv:219-238 | the rotation of the slots in flight is kept by every clock |
| Rotation.TwoThreadsRefine | rtl/main/exe.sv:66-96 | as long as the runnable set of two or more threads does not change, whatever others sleep or back off, the pipeline is the sequential machine, with no guard left |
| Rotation.ThreeThreadsNeverFlush | rtl/main/flush_stall.sv:42-45 | with three or more a taken jump flushes no stage and every clock fetches |
| Rotation.FillsInThree | rtl/main/insfetch.sv:181-190 | the pipeline is full after three clocks |
| Rotation.EntersRotation | rtl/main/thread_ctrl.sv:219-238 | three clocks after the set of runnable threads last changed, a scheduled program is in rotation, however its threads came to be created |
| Rotation.CommitsEveryClock | README.md:4-4 | a full pipeline commits in every clock, thread by thread in rotation |
| Rotation.OneInstructionPerClock | README.md:4-4 | the promise of fine-grained multithreading: while the runnable set of three or more threads does not change, n clocks do exactly what n turns of strict round robin do on the sequential machine |
| Limits.PreciseReplay | rtl/main/flush_stall.sv:35-41 | in any state of any program, a data miss leaves no trace: in the next clock no register is written and its thread stores nothing, after it no stage holds a slot of the thread, and its PC is the access's, even with a younger jump in EXE |
| Limits.ReplayIsExact | rtl/main/pc_sel.sv:98-102 | in a state of the invariant the thread's registers are then those before the access, which is its next instruction to commit |
| Limits.StopFlushes | rtl/main/flush_stall.sv:35-41 | in any state of any program, `slp` or `kill` in WB removes every slot in flight of the thread that executes it and no other, and that thread goes on behind them |
| Limits.StopLosesExact | rtl/main/flush_stall.sv:35-41 | its next instruction to commit is still the next one if and only if none of it was in flight, or its fetches have come back to that address |
| Limits.ForwardExact | rtl/main/exe.sv:66-96 | forwarding of a register is right for all data if and only if it is not a dropped write of r1, an unfinished load or the id of a thread being created |
| Limits.CreateForwardExact | rtl/main/exe.sv:66-96 | what MEM forwards of `nt` is the conjunction of the operands it had in EXE, and right if and only if that is the lowest slot the clock leaves free |
| Limits.NextIdIsLowestFree | rtl/main/thread_ctrl.sv:330-340 | the id of the next thread, from the thread registers before the clock |
| Limits.JumpOperandExact | rtl/main/exe.sv:66-115 | a jump goes where it should for all data if and only if it does not take its target from, or compare with another register, one that forwarding cannot know; comparing a register with itself goes well |
| Limits.JumpWaitsExact | rtl/main/flush_stall.sv:35-46 | a jump behind unfinished loads is, if it leaves EXE, right for every loaded word if and only if it does not depend on the load, or is flushed itself, or is neither taken on the old value nor let through by the flush of another thread |
| Limits.LoadWaitsExact | rtl/main/flush_stall.sv:35-46 | any other instruction behind unfinished loads leaves EXE with the right operands for every loaded word if and only if it reads no register being loaded or no other thread is flushed in the clock |
| Limits.BypassExact | rtl/main/regfile.sv:143-147 | the write-through of the register file is right for all data, on either read port, if and only if it is not r0 or r1 that is written and read |
| Limits.JumpExact | rtl/main/flush_stall.sv:35-46 | whatever the fetch of its clock brings, a taken jump removes its wrong-path slots if and only if none was in DEC or is fetched with a hit while another thread's miss is flushed, and reaches its target if and only if no wrong-path fetch, missing in the clock before or in that one, sends it back elsewhere |
| Limits.StallSkips | rtl/main/insfetch.sv:78-78 | a stall leaves the way of the thread in DEC alone (its next address, and what is fetched after it) if and only if the thread is runnable exactly when DEC holds a slot of it, or a bubble at the thread's own address is fetched again and misses; for a fetch that hits, exactly under the guard of the refinement. Otherwise the slot is skipped, or a bubble's address is fetched and nobody moves past it: executed twice when it is the thread's next one, out of turn when not |
| Limits.StallOperandExact | rtl/main/regfile.sv:137-149 | after a load-use stall, of an untaken branch as well, either operand is right for all register contents if and only if the load brings it or the slot in DEC reads the same register of the same thread on that port |
| Witnesses.SoloClock | rtl/main/threadkraken_top.sv:119-319 | one clock of the pipeline while one thread runs, in terms of that thread's stages and registers |
| Witnesses.StallLosesRegister | rtl/main/regfile.sv:137-149 | from reset, with hits: ld r5, r0, 0 and add r6, r2, r5 leave 0 in r6, where sequential execution leaves r2 |
| Witnesses.BypassLeaksR0 | rtl/main/regfile.sv:143-147 | from reset, with hits: addi r0, r2, 0 is dropped, and yet add r6, r0, r0 three instructions later gets it |
| Witnesses.CreateForwardsNoId | rtl/main/exe.sv:77-77 | from reset, with hits: nt r5, r0, r0 and add r6, r5, r0 leave 0 in r6, where sequential execution leaves the id 1 |
| Witnesses.MissLosesJump | rtl/main/pc_sel.sv:98-114 | from reset: a taken beq whose next fetch misses goes on behind itself, and not at its target |
| Witnesses.ForwardLeaksR1 | rtl/main/exe.sv:66-96 | from reset, with hits: addi r1, r2, 0 is dropped, and yet the next instruction is forwarded its result |
| Witnesses.BranchDoesNotWait | rtl/main/flush_stall.sv:35-46 | from reset, with hits: a beq behind the load of its operand asks for a stall and is taken on the old value all the same, where sequential execution does not take it |
| Witnesses.FullTableRestartsRoot | rtl/main/thread_csr.sv:77-99 | from reset, with hits: the eighth nta in a row meets a full table and starts the root again at START_PC |
| Duets.FlushKeepsWrongPath | rtl/main/flush_stall.sv:35-45 | from reset, two threads: thread 1 jumps while the data miss of thread 0 is flushed; the word behind its jump is fetched and stays, or, when that fetch misses, thread 1 goes on there |
| Duets.StaleUseLeaves | rtl/main/flush_stall.sv:35-46 | from reset, two threads: a branch or an addition of thread 0 behind the load of its operand is not held while the data miss of thread 1 is flushed, and goes by the old value, where sequential execution branches elsewhere or writes another sum |
| Duets.StallDuplicates | rtl/main/insfetch.sv:78-78 | from reset, two threads: a stall of thread 0 fetches the load of thread 1 over a bubble, and the next clock fetches it again, so that DEC and EXE hold the same instruction |
| Duets.StallRevives | rtl/main/insfetch.sv:78-78 | from reset, two threads: such a stall fetches the second word behind a load of thread 1 that is to be replayed, before the load |
| Duets.StallSkipsSlot | rtl/main/insfetch.sv:78-78 | from reset, two threads, with hits: thread 1 is put to sleep in the clock before its stall, its slot in DEC is gone, and it will go on behind that slot |
| Duets.SleepLosesSlot | rtl/main/flush_stall.sv:35-41 | from reset, two threads, with hits: thread 0 puts thread 1 to sleep, and its own next instruction is flushed and never fetched again |
| ThreadTable.FetchIsSafe | rtl/main/insfetch.sv:69-78 | in every reachable state of every program a fetch is issued only for a valid, awake thread that is neither backing off nor missing |
| ThreadTable.ChildrenPartition | rtl/main/thread_ctrl.sv:114-185 | the eight child sets partition the valid threads |
| ThreadTable.InitOverwritesExactlyWhenFull | rtl/main/thread_csr.sv:113-119 | a creation hits a live slot exactly when the table is full, and that is exactly when both error wires report it |
| ThreadTable.OnlyAuthorityStops | rtl/main/thread_csr.sv:88-98 | a thread is stopped only by `kill` or `slp` from itself or its parent |
| ThreadTable.OnlyRootStopsRoot | rtl/main/thread_csr.sv:77-99 | along every run without overflow in which the root stays valid, its parent stays 0 and only the root can put itself to sleep or kill itself |
| ThreadTable.ManagesNamed | rtl/main/thread_csr.sv:77-99 | `wk` from anybody wakes the valid thread it names; `slp` and `kill` from the thread itself or its parent stop it, or end it; from anybody else they do nothing, and nobody else's life changes |
| ThreadTable.OperationFromExe | rtl/main/exe.sv:169-183 | the thread named in write-back is the operand the operation had in EXE |
| ThreadTable.StacksApart | rtl/main/regfile.sv:56-130 | r2 and r3 of a new thread are the top of its stack, and the stacks of the eight threads do not overlap: each begins where the one before ends |
| ThreadTable.CreateThread | rtl/main/thread_csr.sv:83-107 | `nt` in write-back fills the lowest free slot, gives the child its PC, r1 to r4 and zeros, gives the parent the id, and changes nobody else's life or registers |
| ThreadTable.CreateFromExe | rtl/main/exe.sv:169-183 | three clocks from EXE to the child: its start address and r4 are the operands `nt` had in EXE |
| ThreadTable.WaitEnds | rtl/main/thread_ctrl.sv:200-217 | a waiting thread is released when the free-running counter wraps, after the number of clocks the counter has left |
| ThreadTable.WaitExact | rtl/main/thread_ctrl.sv:200-217 | after a clock exactly those wait who waited or have just missed, and nobody when the counter stood at 0 |
| ThreadTable.WaitLasts | rtl/main/thread_ctrl.sv:200-217 | a thread that has missed is not runnable in any clock before the counter wraps, whatever happens to it |
| ThreadTable.PointedIsFetched | rtl/main/thread_ctrl.sv:219-238 | the threads the core points at are those of the scheduler's run |
| ThreadTable.BackOffIsBounded | rtl/main/thread_ctrl.sv:200-238 | a thread that missed is runnable again within 64 clocks and current within eight un-held clocks more |
| Slots.ClockConserves | rtl/main/insfetch.sv:181-190 | in one clock, slots entering MEM and in flight are those that were in flight and the one fetched, in the same order, without those dropped |
| Slots.SlotsConserved | rtl/main/insfetch.sv:181-190 | over every run, stalls included, every fetched (thread, PC) enters MEM exactly once, is in flight or was dropped, and nothing else enters |
| Slots.SlotsInOrder | rtl/main/insfetch.sv:181-190 | over every run, whatever is dropped, slots enter MEM in fetch order: what entered and what is in flight is a subsequence of what was in flight and fetched |
| Slots.DroppedByOwnThread | rtl/main/flush_stall.sv:35-45 | a slot is dropped only by write-back flushing its own thread, by a taken jump of its own thread, or by missing when a stall fetches it again |
| Slots.CommitsInFetchOrder | rtl/main/threadkraken_top.sv:119-319 | over every run instructions commit in fetch order |
| Slots.FetchOrderRefines | rtl/main/threadkraken_top.sv:119-319 | from reset, a clean run is the sequential execution of the fetched instructions, in fetch order, without those flushed or missed |
| Slots.LastIsDec | rtl/main/thread_ctrl.sv:221-231 | in every reachable state of every program last_trd and last_pc are the slot in DEC, so that a stall fetches exactly that slot |
| Slots.SkipNeedsStop | rtl/main/insfetch.sv:78-78 | from reset, in every run of a program without `slp` and `kill` a stall finds the thread of a slot in DEC runnable, so that it never skips an instruction |
| Hardware.Regfile.Clock | rtl/main/regfile.sv:74-149 | the register array after a clock, in place: initialisation, write, dropped write, and both read ports with write-through |
| Hardware.RegfileSet.Clock | rtl/main/regfile_set.sv:38-209 | the eight files take the same ports; file 0 is never initialised |
| Hardware.ThreadCtrl.ClockTable | rtl/main/thread_ctrl.sv:366-533 | the eight thread registers after a clock; thread 0 starts at START_PC |
| Hardware.ThreadCtrl.ClockPointer | rtl/main/thread_ctrl.sv:200-351 | back-off counter and mask, last and next thread, last PC |
| Hardware.Processor.Clock | rtl/main/threadkraken_top.sv:119-319 | all blocks together, updated in place, take exactly one step of the function the theorems are about |
| Hardware.Reset | rtl/main/threadkraken_top.sv:119-319 | the blocks in reset are the initial state of that function |
| Fifo.Clog2 | contrib/dma_loopback/hw/fifo.sv:74-76 | the address width is the least one that covers the depth |
| Fifo.Fifo.Ram | contrib/dma_loopback/hw/fifo.sv:87-93 | the block RAM writes before it reads |
| Fifo.Fifo.Clock | contrib/dma_loopback/hw/fifo.sv:83-156 | one clock of the circular buffer, for any depth from 2, is one step of a bounded queue, pointer wrap and prefetch included |
| Fifo.Fifo.WiresShowQueue | contrib/dma_loopback/hw/fifo.sv:101-159 | count is the queue's length, count + space the depth, the flags are exact, and rd_data is the head whenever there is one |
| Fifo.FirstInFirstOut | contrib/dma_loopback/hw/fifo.sv:40-55 | over every run, values read followed by the contents are the first contents followed by the accepted writes |
| Fifo.TakesUpToDepth | contrib/dma_loopback/hw/fifo.sv:83-156 | written without being read it takes exactly as many values as it has places left, down to the last |
| Fifo.GivesAll | contrib/dma_loopback/hw/fifo.sv:83-156 | read as often as it holds values it gives all of them, in order, and is empty |
| Dma.CciDma.ReadSide | contrib/dma_loopback/hw/cci_dma.sv:82-112 | the read registers after a clock, with later assignments overruling earlier ones |
| Dma.CciDma.Clock | contrib/dma_loopback/hw/cci_dma.sv:180-245 | registers and FIFO together take one step of the engine's function |
| Dma.AnswersAccepted | contrib/dma_loopback/hw/cci_dma.sv:110-135 | no answer of the host meets a full FIFO |
| Dma.ReadInvKept | contrib/dma_loopback/hw/cci_dma.sv:82-112 | lines left to deliver = left to request + pending + stored, pending fits the FIFO's space, and delivered, stored and requested lines are the next ones of the transfer in order |
| Dma.TransfersExact | contrib/dma_loopback/hw/cci_dma.sv:162-226 | over every run with in-order answers, `rd_done` is up exactly when the user has received lines addr .. addr+size-1, in order |
| Dma.LineOfByte | contrib/dma_loopback/hw/cci_dma.sv:195-195 | a line holds the 64 bytes from 64 times its address on |
| Dma.TransferCompletes | contrib/dma_loopback/hw/cci_dma.sv:82-226 | a read transfer that is asked for starts at the line of its byte address, and is done with all its lines in order within four clocks a line, when channel, host and user do not stand still |
| Dma.FillsFifo | contrib/dma_loopback/hw/cci_dma.sv:82-112 | without a reader the engine fills the FIFO to its last place, or with all that is left of the transfer |
| Dma.WriteStartExact | contrib/dma_loopback/hw/cci_dma.sv:200-231 | a write transfer takes its start address if and only if the user does not write in the clock of `wr_go` (or would have come to the same address) |
| Dma.WriteInvKept | contrib/dma_loopback/hw/cci_dma.sv:144-160 | otherwise every clock keeps the lines written and the lines sent in step |
| Dma.WritesExact | contrib/dma_loopback/hw/cci_dma.sv:144-245 | over every run in which the user waits for the start, the i-th line written goes to the i-th address of the transfer, and all are sent exactly when none remains, as when `wr_done` is up |
| Dma.WriteCompletes | contrib/dma_loopback/hw/cci_dma.sv:144-245 | a write transfer that is asked for sends the lines the user then writes, whenever the channel has room, from the line of its byte address on, and is done a clock after the last one |
| ICache.ICacheZed.Fill | rtl/i_cache_zed.sv:72-82 | eight words are written in place at the miss address and their line becomes valid |
| ICache.ICacheZed.Clock | rtl/i_cache_zed.sv:41-106 | one clock of the cache, flags that stay up included |
| ICache.MmuZed.Clock | rtl/mmu_zed.sv:115-140 | one clock of the handshake around it |
| ICache.SegfaultIsOutOfRange | rtl/i_cache_zed.sv:41-46 | the segfault wire is exact for the 512 words of program memory |
| ICache.InvKept | rtl/mmu_zed.sv:115-140 | with in-range fetches and a host that answers the address it took, the miss address is aligned and every valid line equals program memory |
| ICache.HitsReturnHostWord | rtl/i_cache_zed.sv:55-58 | every hit returns the host's word |
| ICache.RequestIsStable | rtl/i_cache_zed.sv:98-105 | from the request to its fill the miss address does not move, and then its line is valid |
| ICache.MissExact | rtl/i_cache_zed.sv:41-70 | a fetch of program memory whose line is not valid raises the miss flag, a fetch elsewhere the segfault flag, and both stay up while something is fetched; the data of the last hit stays as well |
| ICache.MissIsServed | rtl/mmu_zed.sv:115-140 | a miss with nothing under way is asked for two clocks later at its aligned address, and whenever the host takes the request and answers, its line is valid and holds the answered word in the clock after the answer |
| ICache.OneFillPerRequest | rtl/mmu_zed.sv:120-140 | over every run requests and fills balance: each request causes exactly one fill or is still open |
| ICache.RequestRangeExact | rtl/i_cache_zed.sv:98-101 | a request names a line of program memory if and only if the last fetch was in range |
| ICache.FillExact | rtl/i_cache_zed.sv:72-82 | a fill agrees with every host if and only if its address is in range |
| Bits.Bin | sw/assembler.py:22-33 | the shortest binary numeral of a number |
| Bits.BinDigits | sw/assembler.py:30-33 | two's complement digits: exactly n of them, with the value modulo 2^n |
| Bits.FieldWidth | sw/assembler.py:22-27 | a padded field has its width exactly when the number fits, and is longer otherwise |
| Bits.Slice | sw/assembler.py:75-75 | a slice of a digit string is the same bit slice of the number |
| Bits.Invert | sw/simulator.py:40-47 | inverting the digits is 2^n - 1 minus the value |
| Bits.FullAdder | sw/simulator.py:49-66 | the ripple-carry loop is addition modulo 2^32 |
| Bits.TwosCompLessThan | sw/simulator.py:68-80 | signed less-than of the 32-bit words for all arguments that are such words, signed or unsigned, and for others exactly when dropping their high bits keeps their order |
| Tkb.Immediate | sw/assembler.py:37-56 | an accepted immediate is in the range of its field; a signed field refuses -2^(n-1) |
| Tkb.ReadRanges | sw/assembler.py:65-461 | every command that can be read has its immediates in range |
| Notation.ReadExact | sw/assembler.py:63-461 | a command is read from a mnemonic and operands if and only if the mnemonic is its own and the operands, in their order, mean its registers, numbers and target |
| Notation.ImmediateBack | sw/assembler.py:37-56 | a number written in decimal or hexadecimal, with its sign, is read as itself if and only if it is in the range of its field |
| Notation.RegisterBack | sw/assembler.py:65-80 | `r` and the decimal number of a register is read as that register |
| Notation.LineRead | sw/assembler.py:567-592 | a line of mnemonic, atomic suffix and operands between commas is read as its command, in any case but that of the atomic `shra` |
| Notation.PrintedReadsBack | sw/assembler.py:63-461 | every command whose immediates fit their fields, printed in either notation, is read back as itself |
| Notation.AnyCase | sw/assembler.py:567-580 | capitals are read as small letters, throughout a line |
| Notation.CommentDropped | sw/assembler.py:530-541 | a comment and the space before it are cut off a line of code, and nothing else |
| Notation.ListingOf | sw/assembler.py:530-541 | the commands of a file of code, comments, labels and empty lines are its lines of code, in order, without what stands behind them |
| Tkb.FieldExact | sw/assembler.py:22-27 | a register field is five digits exactly for registers below 32 |
| Tkb.WidthExact | sw/assembler.py:65-461 | an encoding is 32 digits long if and only if all its registers exist |
| Tkb.LayoutFields | rtl/main/decode.sv:104-111 | the decoder's fields are the encoder's digit groups |
| Agreement.WordEncodes | rtl/main/decode.sv:104-182 | the decoder recovers operation, registers, immediate and atomic bit of every command that fits a word |
| Agreement.AssembledMeans | sw/assembler.py:63-461 | decoded and executed, the word of every command has the effect the command is written for, for all register contents and PCs; no assembled command is invalid |
| Agreement.UnusedIdles | rtl/main/decode.sv:119-181 | every word whose operation code and function are not in use does nothing, and is reported as invalid among the jumps and thread operations |
| Reference.EveryWord | rtl/main/decode.sv:104-182 | each of the 2^32 words, decoded and executed, has the effect that a table of the instruction set gives for its fields in numbers, for all register contents and PCs (exceptions aside) |
| Assembly.Assembler.ProcessLabels | sw/assembler.py:530-541 | one line: labels map to the number of the command that follows, the last definition winning, and commands are numbered in order |
| Assembly.Assembler.FirstRound | sw/assembler.py:524-528 | the same for a whole file |
| Assembly.Assembler.ProcessProgram | sw/assembler.py:543-565 | one word per command, in order |
| Assembly.Assembler.Compile | sw/assembler.py:515-522 | both rounds: the words of all commands under the labels of the whole file |
| Assembly.AtomicSuffixExact | sw/assembler.py:575-585 | the suffix `a` works for every mnemonic but `shra`, whose atomic form is an unknown command, and is never mistaken for part of a mnemonic |
| Assembly.UnreadableIdles | sw/assembler.py:587-597 | a command that cannot be read assembles to word 0, which does nothing and is not atomic |
| Assembly.LabelNamesNext | sw/assembler.py:530-541 | a label stands for the first command after its definition, across other labels and comments |
| Assembly.ReachExact | sw/assembler.py:350-365 | a branch or jalr to a label assembles if and only if the label is less than 2048 from the next command |
| Assembly.ReachExactJal | sw/assembler.py:309-326 | the same for jal |
| Assembly.BranchReachesLabel | rtl/main/pc_cal.sv:72-101 | an assembled branch makes the processor fetch START_PC plus the label's index when its condition holds, and the next command otherwise |
| Assembly.JalReachesLabel | rtl/main/pc_cal.sv:98-101 | an assembled jal makes the processor fetch START_PC plus the label's index and links its own PC |
| Assembly.UsableLabelExact | sw/assembler.py:532-538 | a label can be an operand if and only if it has no capital letter, comma, space or slash |
| EndToEnd.StepAgrees | sw/assembler.py:63-461 | one instruction of the loaded image is one command of the program |
| EndToEnd.PipelineRunsSource | rtl/main/threadkraken_top.sv:119-319 | from reset, over every clean run, the pipeline loaded with an assembled program has the registers, memory and threads of executing its commands as written |
| EndToEnd.PipelineRunsScheduledSource | rtl/main/threadkraken_top.sv:119-319 | the same for every run with hits and free slots, given only the word-by-word check of the program |
| EndToEnd.ListingAssembles | sw/assembler.py:543-597 | the second round emits the words of the listing's commands, each filling one word exactly when its registers exist |
| EndToEnd.FileRuns | sw/assembler.py:515-522 | from the lines of a file to the committed state: the pipeline executes the commands of an assembled file as written, labels included, over every clean run, and over every run with hits and free slots when the words are scheduled |
| Hex.DynamicHexBuilder | src/primitives.cpp:6-81 | the nibble loop prints two digits a byte, the last byte first |
| Hex.HexCat | src/primitives.cpp:6-81 | appending bytes puts their digits in front |
| Hex.GenericHexBuilder | include/primitives.h:46-115 | the shifting loop prints the hexadecimal digits of an unsigned word |
| Hex.ReadDigits | include/ustrop.h:114-126 | the nested loops with wrap-around compute the positional value modulo 2^w, and fail exactly on a non-digit |
| Hex.NumericInterpret | include/ustrop.h:72-132 | prefixes, sign and modulus of a numeral, the empty string and bare prefixes included |
| Hex.NumeralReadsBack | include/ustrop.h:72-132 | a number written in octal, decimal or hexadecimal, negative ones too, is read as itself modulo the type's modulus |
| Hex.EitherCase | include/ustrop.h:114-126 | digits above 9 mean the same in capitals |
| Hex.PrintedReadsBack | include/ustrop.h:72-132 | reading a printed word returns it, for every width |
| Hex.X2b | src/x2b.cpp:76-113 | the character loop: bytes from pairs of digits, the last pair first, and its two errors |
| Hex.ConvertedExact | src/x2b.cpp:76-113 | a text is converted if and only if it holds nothing but white space and an even number of digits, none of them a capital |
| Hex.UnhexOfHex | src/x2b.cpp:76-113 | converting printed bytes gives the bytes |
| Hex.OneLineRoundTrip | src/x2b.cpp:76-119 | a hexadecimal file of one instruction converts back to it |
| Hex.HexFileComesBackwards | src/x2b.cpp:93-119 | a file of several instructions converts to their bytes with the instructions from the last to the first |
| Mif.AsmOstream.Append | src/mtsstream.cpp:26-48 | an instruction is kept as its digits and counted |
| Mif.AsmOstream.Finalize | src/mtsstream.cpp:64-129 | the pop-and-prepend loops emit the byte stream cut into words, for any instruction lengths and any width from 1 |
| Mif.ReblockingPreserves | src/mtsstream.cpp:64-129 | reading the lines as little-endian words gives the original stream plus zeros in the last word only |
| Mif.DepthCountsLines | src/mtsstream.cpp:71-71 | the printed depth is the number of lines, and depth times width is the stream plus its padding |
| Mips.FieldsOfR | src/mips.cpp:236-244 | the register format: every field is recovered, cut to its width |
| Mips.FieldsOfI | src/mips.cpp:246-252 | the immediate format |
| Mips.FieldsOfJ | src/mips.cpp:254-258 | the jump format |
| Mips.BranchExact | src/mips.cpp:263-269 | PC + 4 + 4*sext(imm16) is the label if and only if it is within 2^15 instructions; the unsigned shift loses nothing |
| Mips.JumpExact | src/mips.cpp:358-364 | a jump reaches its label if and only if that lies in the 256 megabytes of the next instruction |
| Mips.BigEndian | src/shell.cpp:392-404 | the four bytes written are the word's, highest first |
| Mips.ShiftOperandExact | src/mips.cpp:380-445 | sll and srl name their operand in rs and leave rt zero, which is right if and only if the operand is $zero |
| Mips.SymsTable.Insert | src/syms_table.cpp:25-62 | the two maps stay inverse to each other; a second definition is refused and changes nothing |
| Mips.Shell.FirstPass | src/shell.cpp:141-175 | the first pass succeeds if and only if no label is defined twice, and then maps each label to 4 times the index of its instruction |
| Mips.Shell.SecondPass | src/shell.cpp:191-207 | the second pass writes the big-endian words at 4i, and stops exactly when some instruction cannot be assembled |
| Manual.AssembleExact | src/mips.cpp:271-477 | an instruction assembles if and only if its operands are there and can be read, and then to the word that the MIPS32 manual draws for it, field by field from its operands (the shifts with their operand in rs) |
| Manual.CodesAgree | src/mips.cpp:285-317 | the mnemonics there are, with the operation and function codes of the manual in binary |
| Manual.RegisterNamed | src/mips.cpp:25-92 | every register by its name |
| Manual.NumbersRead | src/mips.cpp:480-521 | registers by number, and immediates in octal, decimal and hexadecimal |
| Manual.AccessSplit | src/mips.cpp:396-418 | `imm(reg)` is cut at its parentheses |
| Manual.LabelDropped | src/shell.cpp:151-166 | a line beginning with `name:` defines name and keeps what follows |
| Manual.SecondLabelKept | src/shell.cpp:556-580 | of two labels on a line only the first colon counts when the label is cut off |
| Mips.ImageAt | src/shell.cpp:367-407 | the bytes at 4i are the i-th instruction's word assembled at PC 4i |
| Mips.LabelNamesNext | src/shell.cpp:151-174 | a label stands for the first instruction at or after its line |
| Mips.BranchReachesLabel | src/mips.cpp:453-466 | in an assembled program a beq or bne reaches the labelled instruction if and only if it is less than 2^15 instructions away |
| Mips.JumpReachesLabel | src/mips.cpp:358-364 | in an assembled program j and jal reach the labelled instruction if and only if it lies in the same 256 megabytes |

## Left out

- Exceptions: `epc`, `exp_mode`, the handler and the return from it; `invalid_op` of the decoder only as a flag.
- `kill`, `slp` and `wk` in the refinement: what they do to the thread table and to instructions in flight is proved of single clocks (`ThreadTable.ManagesNamed`, `Limits.StopFlushes`), and programs that use them are outside `Refinement.OrdinaryProgram`.
- Creation in a full table in the refinement: outside the guard `Refinement.Overflows`.
- The image of a program in data memory: loads see only what was stored.
- The combinational wires of `exe.sv`, `thread_ctrl.sv`, `insfetch.sv`, `pc_sel.sv` and `flush_stall.sv` are functions of the registers (`Core`), not objects; the pulse of `rst_init` is part of the reset state.
- A memory shared by fetches and data accesses, as in the testbench; its 12-bit addresses and its lasting data-miss flag.
- Segmentation faults of the data memory, the UART, cycle counters and `finish`.
- `rtl/main/d_cache.sv`, `i_cache.sv`, `mmu.sv`, `rtl/d_cache_zed.sv`, `rtl/mem_ctrl.sv` and `rtl/cpu.sv`: not in the modelled design.
- The cache's `i_miss` and `i_rd_data` timing after a miss: both flags can stay up, and only the agreement of data is claimed.
- A FIFO of depth 1, whose address has no bits; FIFO data before the first write.
- CCI-P headers, MPF, `csr_mgr`, `hal` and MMIO around the DMA engine; the host's replies are assumed to be in order.
- The simulator's instructions and its slot search; only its thread search and bit-string arithmetic are modelled.
- Numbers in TKB operands with inner signs, underscores or non-ASCII digits, which Python's `int` also accepts; they count as unreadable here.
- Hexadecimal or readable output of the TKB assembler: `Assembly.ProcessCmd` gives the binary digits.
- `chop_string` and file reading of the C++ assembler: the passes start from the parts of each line, whose text is taken to end in a newline; quotes and escapes are part of that step.
- `numeric_interpret` for signed types, whose overflow is undefined, and register numbers of MIPS operands beyond what `atoi` reads from an unterminated buffer.
- The bit operations of `generic_mips32_encode` are written as remainders and sums of disjoint fields; `reverse_endian` as a function on the word rather than on its bytes in place.
- The file names, headers and addresses printed in a memory initialisation file; line k stands for address k.
- The shell's options, breakpoints and console.
