# A verified model of the five-stage MIPS pipeline simulator

The repository simulates a MIPS R3000 subset with one thread for each of the stages IF, ID, EX, DM
and WB. A rising and a falling barrier step the threads, so a cycle has two halves, and hazards are
resolved by a scoreboard (`RegReserves`), stalls and flush tokens. This project models that program
in Dafny and proves what it computes. `dafny verify dfyconfig.toml` checks all of it.

## What is modelled

- **The pipeline** (`Pipeline.dfy`). A state machine whose steps are the ten half-cycle steps of the
  five engines and the lambdas they run, in any order that the barriers allow. `Reference.dfy` is
  the machine that executes one instruction at a time; `Instructions.dfy` groups the opcodes into
  the thirteen classes that run the same code and leaves ALU results, widths and conditions as
  functions (`Isa`). `PipelineInvariant.dfy` is the invariant; `PipelineSteps.dfy`,
  `PipelineFront.dfy`, `PipelineIssue.dfy`, `PipelineDecide.dfy` and `PipelineSecondID.dfy` prove
  that every step keeps it; `PipelineTheorems.dfy` and `Deadlines.dfy` state what follows. All of it
  is about every program, every schedule and every number of steps.
- **The object** (`Context.dfy`). `Context` with its fields and arrays, one method per stage and half
  cycle that updates them in place, each proved to do the step of the machine, and methods that run
  cycles or any list of thread turns (`Turns.dfy`).
- **The race of EX and ID.** Nothing orders the two in the second half. EX publishes a value in two
  writes, `Value` and `IDAvailable`; ID, reserving the same register for the next instruction, resets
  both. Depending on how the four writes fall, a branch just behind finds nothing on offer, the value
  that has been overwritten, or a zero. The reference machine has an oracle for these races, `race`,
  and what a branch sees of the registers, `view`; every execution decides the oracle by what it does,
  so nothing is asked of program or schedule. `StageOrder.dfy` proves that all transfers are right
  under every schedule if and only if no branch `Diverges`, and that no race is lost if ID waits for
  EX. In `Pipeline.dfy` a half-cycle step is one step, and `Overlap` is what the four writes can do
  besides; `Accesses.dfy` takes them one by one, and `AccessTheorems.dfy` proves that this reaches
  exactly the same states.
- **Accounts** (`Accounts.dfy`). Fetches, squashes, cycles and flush tokens, counted exactly.
- **Stores without data.** The EX lambda of a store ignores the forward of its data register, so some
  stores write a field that nothing has assigned; `Reference.dfy` has this as `Tainted` and `junk`.
  `Ideal.dfy` is the machine without it, and `IdealPipeline.dfy` proves that the pipeline shows that
  machine if and only if no instruction is spoiled. `Counterexamples.dfy` has a program for this, and
  one for each way to lose a race.
- **Shutdown and printer.** `Processor.dfy` is the whole processor from boot: the five threads with the
  HALT counters, the mortuary loops and both barriers, the pipeline they drive, and the queues they
  report to (`Reports.dfy`). `Shutdown.dfy` and `ShutdownRace.dfy` are the control alone, with one step
  per access to a shared variable. `BeforeHalt.dfy` and `AfterHalt.dfy` prove that the processor is the
  pipeline up to its first HALT and from there on does exactly the steps of that control;
  `Lifting.dfy` that up to there it can do all that the pipeline can. `Drain.dfy` follows registers and
  memory, `Snapshots.dfy` and `PcStream.dfy` the queues while the threads leave. `Halting.dfy` puts them
  together, and `Printer.dfy` has the printer loop as a class over its queues.
- **Words, memory and decoding** (`Words.dfy`, `Shifts.dfy`, `DataMemory.dfy`, `Decoder.dfy`). Bit
  vectors as in the source; `Integers.dfy` and `Bytes.dfy` prove their meaning in integers.
  `Decoder.Mips` is the `Isa` of a loaded program, so the pipeline theorems hold for it. ADDIU
  zero-extends its immediate, and an address outside the text fetches a NOP, as in the source.
- **The instruction set** (`Interpreter.dfy`, `Programs.dfy`). An interpreter that says opcode by opcode
  what an instruction does, in integers and apart from the code, and the proof that pipeline,
  reference machine and interpreter agree. `Termination.dfy` has total correctness on the whole
  processor, and `Examples.dfy` a program.
- **`boost::rational`** (`Divisors.dfy`, `Rational.dfy`). A class over unbounded integers with the
  truncating division of C++.

The source's comment in `tasks/ITasks.cpp` says that `LoadRegsID` is for non-branch operations and
forwards rt; for stores nobody consumes that forward, and the model follows the code.

## Model

In the rows about executions the sequential machine has the races of EX and ID as that execution has
decided them; no row about the pipeline asks anything of the program or the schedule unless it says so.

| member | source | states |
|---|---|---|
| `PipelineTheorems.PipelineRefinesReference` | `tasks/RTasks.cpp:35-129` | Main theorem. At every step of every execution of every program, under any schedule, the register file is that of the one-instruction-at-a-time machine after exactly the retired instructions, memory is that machine's memory after exactly the instructions whose DM has stored, and at most four instructions lie between. How each race between EX and ID went (won, old value, zero) is read off the execution (RacesOf) |
| `PipelineTheorems.InvariantHolds` | `ExecutionEngine.cpp:18-404` | The invariant of the five stages holds in every state of every execution of every program, for every interleaving of the ten half-cycle steps that the barriers allow |
| `PipelineTheorems.KeepFire` | `ExecutionEngine.cpp:18-404` | Each of the ten half-cycle steps of IF, ID, EX, DM and WB keeps the invariant, in any order within a half cycle |
| `PipelineSteps.KeepOverlap` | `tasks/RTasks.cpp:166-169` | So does a step of ID or EX that overlaps with the other one, where the two writes of Value come in the other order than those of IDAvailable |
| `AccessTheorems.SameStates` | `Context.h:88-95` | Main theorem. A machine that takes the accesses of EX (Value, then IDAvailable) and of ID (Reset but for IDAvailable, then that) one by one, with the steps of the others anywhere between them, has with EX and ID between no two accesses exactly the reachable states of the machine of half-cycle steps |
| `AccessTheorems.AccessesRefineReference` | `tasks/RTasks.cpp:166-169` | Between any two of those accesses registers and memory are those of the sequential machine after the retired and the stored instructions |
| `AccessTheorems.AccessesDecideRightIffNoneDiverges` | `tasks/ITasks.cpp:644-651` | The exact condition under which ID decides every transfer right holds for that machine too, at whatever point EX is when ID decides |
| `AccessTheorems.FreedIsUntouched` | `tasks/RTasks.cpp:121-124` | In the first half a register that WB is about to Reset has no flag that a branch would see or EX withdraws, and EX neither announces it nor reads a forward from it |
| `PipelineTheorems.SchedulesAgree` | `tasks/ITasks.cpp:642-676` | Two executions of one program under any two schedules have the same registers when equally many instructions have retired and the same memory when equally many have stored, though their stalls may differ, if the races among those instructions have the same outcomes |
| `PipelineTheorems.RegisterZero` | `tasks/RTasks.cpp:114-124` | $0 stays zero and is never reserved, under any schedule |
| `PipelineTheorems.OperandsReachEX` | `tasks/RTasks.cpp:145-152` | When EX takes a TaskHandle, an operand is marked EXForward exactly if ID has not loaded it. If it is marked, the instruction just ahead writes the register and its result is the Value in the scoreboard; if not, the TaskHandle has the value of the sequential machine. A left-over EXForward never delivers a stale value |
| `PipelineTheorems.ExecuteIsCorrect` | `tasks/RTasks.cpp:139-171` | What an EX lambda holds across its fence is the result, or the address, of the sequential machine at that instruction |
| `PipelineTheorems.CaptureIsSound` | `tasks/ITasks.cpp:642-661` | What a branch or JR has taken through IDAvailable before the fence is the register value of the sequential machine, or the overwritten one or zero as the race was lost, also after repeated stalls; a branch that compares a register with itself never gets its second capture |
| `PipelineTheorems.TransfersAreRight` | `tasks/ITasks.cpp:663-695` | When ID lets an instruction go it fires a transfer if and only if the sequential machine does, to the same target |
| `PipelineTheorems.HolderIsYoungestWriter` | `Context.h:88-101` | For r != 0, Holder[r] is null if and only if no instruction between ID and WB writes r, and otherwise it is the youngest of those; under any schedule |
| `PipelineTheorems.InFlightIsAnInterval` | `Context.h:108-115` | The tasks between ID and WB are exactly the instructions from the first unretired to the last issued one, each once, with allocation numbers in program order |
| `PipelineTheorems.PushesNeverFail` | `Context.h:108-115` | ID, EX and DM always find the next stage register empty before they push |
| `PipelineTheorems.FlushTokens` | `ExecutionEngine.cpp:20-34` | At a falling edge PcFlush is 2 if the instruction that has just left ID fired, and then the PC is already its successor; otherwise it is not positive and the TaskHandle in IF_ID is the next instruction |
| `PipelineTheorems.TransferFlushes` | `ExecutionEngine.cpp:24-27` | At the edge of the cycle in which an instruction has left ID and fired, PcFlush is 2 |
| `Accounts.FetchesAreCounted` | `IFEngine.cpp:75-86` | At every edge the tasks that IF has allocated are the issued instructions, one for each transfer, and those on the right path ahead of ID: exactly one wrong-path fetch is squashed for each transfer, and nothing else |
| `Accounts.CyclesAreCounted` | `ExecutionEngine.cpp:20-49` | The number of cycles is exactly that of the issued instructions, the stalls and the transfers, and one more if the next instruction has been fetched |
| `Accounts.FlushCounterFits` | `Context.h:229-244` | PcFlush fits in 32 bits as long as less than 2^30 cycles have passed since boot or since a transfer |
| `Accounts.FlushCounterFalls` | `ExecutionEngine.cpp:24-34` | Until the first transfer PcFlush falls by exactly two in every cycle, but for the first one and the stalls |
| `PipelineTheorems.HaltsAreCounted` | `IFEngine.cpp:103-105` | The HALTs that the guarded test of IF has counted are, at every edge, exactly those among the instructions of the sequential run that ID has let go, and the one that it stalls: a squashed HALT is never counted and a HALT that stalls is counted once |
| `PipelineTheorems.OnlyTheNextCounts` | `IFEngine.cpp:103-105` | IF is about to count the task in its hand if and only if it is the next instruction of the sequential run, goes on to ID in this cycle, and is a HALT |
| `PipelineTheorems.OnlyTheRightPath` | `IFEngine.cpp:75-86` | In the second half both flush tokens are consumed, and ID decides about a NOP bubble or the next instruction of the sequential machine, never about a wrong-path one |
| `PipelineTheorems.StallBound` | `ExecutionEngine.cpp:20-49` | No instruction stalls in ID for more than two consecutive cycles, whatever the program and the interleaving |
| `PipelineTheorems.Progress` | `ExecutionEngine.cpp:20-49` | After c cycles with n instructions issued, t of them transfers, c <= 3n + t + 3, and all but the last three have retired |
| `PipelineTheorems.NeverStuck` | `ExecutionEngine.cpp:18-98` | In every reachable state a stage can step or all five have met at the barrier |
| `Deadlines.ThreeMoreCycles` | `ExecutionEngine.cpp:114-404` | An instruction that has left ID has retired three cycles later |
| `Deadlines.RetiresByDeadline` | `ExecutionEngine.cpp:20-49` | After cycle 3n + t + 4 the first n instructions have retired, where t counts the control transfers among them |
| `PipelineIssue.CaptureIsCorrect` | `tasks/ITasks.cpp:644-661` | A value that ID finds available and not marked as forwarded is the register of the sequential machine as the instruction sees it, both ways to lose a race included |
| `PipelineIssue.LostRace` | `tasks/RTasks.cpp:164-169` | An instruction sees something else than the register only if the one just ahead writes that register without reading it and has left ID before the one ahead of that, which publishes the register, got through EX |
| `PipelineDecide.LostNeverWaits` | `tasks/ITasks.cpp:663-680` | An instruction that has captured what a lost race has left never stalls, so what it has captured is what decides |
| `PipelineDecide.DecideTransfers` | `tasks/RTasks.cpp:757-798` | From a scoreboard that satisfies the invariant, ID computes the transfer and target of the sequential machine |
| `PipelineDecide.TaintIsExact` | `tasks/ITasks.cpp:94-107` | ID leaves a store's rt to a forward exactly when the reference machine calls the store tainted, whatever stalls came before |
| `PipelineSecondID.KeepIssue` | `tasks/RTasks.cpp:77-91` | Leaving ID (transfer, push, reservation by Reset or Delegate) keeps the whole invariant |
| `PipelineSecondID.KeepWait` | `ExecutionEngine.cpp:47-49` | A stall in ID, with some operands already taken, keeps the whole invariant |
| `StageOrder.DecidesRightIffNoneDiverges` | `tasks/RTasks.cpp:164-169` | Main theorem. In every reachable state under every schedule ID decides the transfer of the sequential machine if and only if no branch or JR diverges: follows a publishing write of r and, in the next cycle, a write of r that does not read r, does not compare r with itself, and is decided differently by the register and by the value that was overwritten, or by zero |
| `StageOrder.DivergenceShows` | `tasks/RTasks.cpp:82-87` | For every branch that diverges by the overwritten value, or by zero, there is a schedule under which ID decides what that value says, and not what the sequential machine does |
| `StageOrder.RaceIsLost` | `tasks/RTasks.cpp:82-87` | If ID resets the reservation before EX publishes in the same half cycle, the overwritten value is on offer at the next edge; if the Reset falls between the two writes of EX, zero is |
| `StageOrder.OrderedLosesNoRace` | `tasks/RTasks.cpp:164-169` | Under every schedule in which ID waits for EX in the second half no race is ever lost, whatever the program |
| `StageOrder.SameButView` | `tasks/ITasks.cpp:663-695` | Up to the first branch that diverges the outcomes of the races change neither PC nor registers nor memory at any instruction |
| `StageOrder.AllSchedulesAgree` | `tasks/ITasks.cpp:663-695` | So up to there any two executions have the same registers when equally many instructions have retired, and the same memory when equally many have stored |
| `IdealPipeline.IdealIffUnspoiled` | `tasks/ITasks.cpp:161-171` | Main theorem. Over all contents of the unassigned fields and all schedules in which ID waits for EX, every reachable state with at most n instructions through DM shows the registers and memory of the ideal machine if and only if none of the first n instructions is spoiled: a tainted store whose data matters, or a faulting load of a register other than $0 |
| `IdealPipeline.PipelineIsIdeal` | `tasks/ITasks.cpp:32-200` | Under every schedule, registers and memory are those of the ideal machine after the retired and the stored instructions while none of those is spoiled and none of them diverges |
| `IdealPipeline.OrderedSchedulesAgree` | `tasks/ITasks.cpp:94-107` | Two schedules in which ID waits for EX agree whenever they have got equally far without a spoiled instruction, even with different contents of the unassigned fields |
| `Programs.SafeIsUnspoiled` | `tasks/ITasks.cpp:94-107` | A run with no store just behind an ALU write of its rt, and without load faults, has no spoiled instruction |
| `Counterexamples.StoreBehindWriteIsSpoiled` | `tasks/ITasks.cpp:161-171` | For addi $1,$0,5; sw $1,0($0) the word in memory is the content of a field that nothing has assigned, while $1 is 5 |
| `Counterexamples.StoreBehindWriteIsNotIdeal` | `tasks/ITasks.cpp:161-171` | So some content of that field makes a reachable state of the pipeline differ from the ideal machine |
| `Counterexamples.BranchDiverges` | `tasks/RTasks.cpp:82-87` | For addi $1,$0,5; lui $1,0; bgtz $1,+1 the overwritten 5 decides for the jump and the register against it |
| `Counterexamples.BranchGoesWrong` | `tasks/RTasks.cpp:82-87` | In some reachable state of that program ID decides to jump where the sequential machine goes on |
| `Counterexamples.ZeroDiverges` | `Context.h:88-95` | For addi $1,$0,5; addi $1,$0,3; bgtz $1,+1 both values of the register decide for the jump, and zero against it |
| `Counterexamples.BranchFallsThrough` | `Context.h:88-95` | In some reachable state of that program ID decides to go on where the sequential machine jumps |
| `PipelineEngines.Context.constructor` | `Context.h:162-205` | A new Context is the initial state of the machine: empty stages, free scoreboard, the given PC, registers and memory |
| `PipelineEngines.Context.FirstHalfIF` | `IFEngine.cpp:12-93` | Does the first-half step of IF and nothing else |
| `PipelineEngines.Context.SecondHalfIF` | `tasks/RTasks.cpp:10-28` | Pushes into IF_ID if there is room, and nothing else |
| `PipelineEngines.Context.FirstHalfID` | `ExecutionEngine.cpp:18-47` | Does the first-half step of ID and nothing else |
| `PipelineEngines.Context.SecondHalfID` | `ExecutionEngine.cpp:47-49` | Does the second-half step of ID and nothing else |
| `PipelineEngines.Context.FirstHalfEX` | `ExecutionEngine.cpp:121-157` | Does the first-half step of EX and nothing else |
| `PipelineEngines.Context.SecondHalfEX` | `tasks/RTasks.cpp:164-171` | Does the second-half step of EX and nothing else |
| `PipelineEngines.Context.FirstHalfDM` | `ExecutionEngine.cpp:235-259` | Does the first-half step of DM and nothing else |
| `PipelineEngines.Context.SecondHalfDM` | `tasks/RTasks.cpp:93-103` | Does the second-half step of DM and nothing else |
| `PipelineEngines.Context.FirstHalfWB` | `ExecutionEngine.cpp:323-347` | Does the first-half step of WB and nothing else |
| `PipelineEngines.Context.SecondHalfWB` | `ExecutionEngine.cpp:350-356` | Passes the second half with the modified register at hand, and changes nothing else |
| `PipelineEngines.Context.Step` | `ExecutionEngine.cpp:18-404` | One stage goes up to its next fence, in place; the state stays reachable |
| `PipelineEngines.Context.Meet` | `ExecutionEngine.cpp:68-73` | The barrier lets all five go on; the state stays reachable, and IF has a task in every second half |
| `PipelineEngines.Context.Run` | `ExecutionEngine.cpp:18-404` | A list of turns of the five threads, in which ID and EX may overlap, does to the object what its turns do to the machine one after the other, with the barrier whenever all have met; for every program and every list registers and memory stay those of the sequential machine, with the races as this run has decided them |
| `PipelineEngines.Context.RunRounds` | `ExecutionEngine.cpp:18-404` | If every stage has a turn in each of r rounds, in whatever order and with whatever overlaps, at least r half cycles are completed |
| `Turns.RoundsCompleteCycles` | `ExecutionEngine.cpp:68-73` | So 2c such rounds complete c cycles |
| `PipelineEngines.Context.Cycle` | `ExecutionEngine.cpp:18-98` | One clock cycle in one of the allowed orders, from edge to edge |
| `PipelineEngines.Context.RunCycles` | `ExecutionEngine.cpp:18-404` | n cycles keep the refinement and retire at least (n - t - 12) / 3 instructions |
| `PipelineEngines.Simulate` | `Context.h:162-205` | Boot and n cycles: registers and memory are those of the sequential machine |
| `Lifting.BeforeHaltIsPipeline` | `ExecutionEngine.cpp:18-98` | Main theorem. The states in which the pipeline has no HALT counted or to count are exactly those of the whole processor in its runs before the first HALT |
| `Lifting.ProcessorDecidesRightIffNoneDiverges` | `tasks/RTasks.cpp:164-169` | Before its first HALT the processor decides every transfer as the sequential machine does, under every schedule, if and only if no branch ahead of that HALT diverges |
| `Halting.CleanIffFourHalts` | `IFEngine.cpp:103-164` | Main theorem. On the whole processor, from the edge at which IF has its first HALT in hand, every interleaving of the five threads ends after a bounded number of steps with all of them gone if and only if the next three words are HALT too |
| `Halting.HaltedState` | `IFEngine.cpp:103-164` | Main theorem. Where a processor that has met four HALTs comes to its end, all five threads have left, DeadThreadNum is 5, and registers and memory are those of the sequential machine at its first HALT |
| `Halting.HaltedQueues` | `IFEngine.cpp:140-150` | Main theorem. Its queues then hold one difference and one PC for each of c + 4 cycles, only the last difference marked as terminated, and the messages of every stage with the end marker last; c counts the cycles up to the first HALT |
| `Halting.SnapshotsAreExact` | `ExecutionEngine.cpp:350-404` | The first j differences in the queue, replayed on the initial registers, give the register file at the edge of cycle j |
| `Halting.HaltedReplay` | `ExecutionEngine.cpp:350-404` | All of them give the register file at the end |
| `Halting.EndsAfterHalt` | `ExecutionEngine.cpp:98-111` | A processor that has come to its end has had a HALT in hand that IF counted |
| `Halting.EdgeOfCycle` | `ExecutionEngine.cpp:68-73` | Every cycle up to the present one has its edge in the run |
| `Halting.HaltedProgram` | `IFEngine.cpp:103-164` | When a loaded program has halted on the whole processor, under any schedule, the interpreter has come to the first word of its run with operation field 0x3F, and registers and memory are its registers and memory, if no instruction before that is spoiled, and none diverges or no race before it was lost |
| `Termination.ProgramHalts` | `IFEngine.cpp:103-164` | End to end. If the interpreter comes to a HALT after n instructions, none of them spoiled or diverging, and the next three words are HALT too, every run of the whole processor from boot, under any schedule, has at most a number of steps that is linear in n; where it ends all five threads have left, and registers and memory are those of the interpreter |
| `Termination.ProgramEnds` | `ExecutionEngine.cpp:98-111` | And every run that has not ended goes on to one that has |
| `Termination.ProgramIsCleanIff` | `IFEngine.cpp:103-164` | At its first HALT a loaded program shuts down cleanly under every schedule if and only if the three words at the next addresses have operation field 0x3F |
| `Examples.FiveInRegisterOne` | `IFEngine.cpp:103-164` | A program of five words at 0x00400000 (addi $1,$0,5 and four HALTs) ends under every schedule, with 5 in $1 and everything else as it was, and there is such a run |
| `PcStream.PcsAreExact` | `IFEngine.cpp:14-15` | Entry j of the PC queue is the PC with which IF has fetched in cycle j |
| `PcStream.LastPcIsExact` | `IFEngine.cpp:146-150` | The last entry is the one that IF pushes as it leaves: the address behind that of its last fetch |
| `BeforeHalt.BeforeHolds` | `ExecutionEngine.cpp:18-98` | Until IF has a HALT to count, every state of the processor is a reachable state of the pipeline, no thread dies or ends, and each queue has one entry per cycle |
| `AfterHalt.FirstHaltIsStart` | `IFEngine.cpp:103-105` | At the edge of the first counted HALT nothing is stalled or flushed and no other HALT is under way: the control is where the shutdown starts |
| `AfterHalt.MatchNext` | `ExecutionEngine.cpp:62-111` | From then on every step of the processor is a step of the shutdown machine, the guarded count of IF included |
| `AfterHalt.LiftNext` | `ExecutionEngine.cpp:62-111` | And every step of the shutdown machine is a step of the processor |
| `Snapshots.StreamIsExact` | `ExecutionEngine.cpp:350-404` | In every state of every run of the processor the differences in the queue, with the one that WB is about to report, replayed on the initial registers give Registers |
| `Snapshots.MarkedHolds` | `ExecutionEngine.cpp:380-404` | In every state of every run a stage has put its end marker, and WB its terminated difference, last and exactly when it has left its main loop |
| `Drain.Drained` | `ExecutionEngine.cpp:114-404` | While the threads leave one after the other, what is in flight still retires: four cycles after the first HALT all instructions before it have written registers and memory |
| `ShutdownRace.CleanIffFourHalts` | `IFEngine.cpp:103-164` | Of the control alone, for every state it can start from: every interleaving ends after a bounded number of steps with all five threads gone if and only if the next three words are HALT too |
| `ShutdownRace.LeavesThemStuck` | `IFEngine.cpp:153-164` | If IF counts its fourth HALT later, a schedule leaves the other four at a rising barrier that IF has left |
| `Shutdown.ShutdownIsClean` | `ExecutionEngine.cpp:62-111` | With four HALTs every execution is at most 195 steps long; where it ends all five have left, and IF, ID, EX, DM and WB have reported 4, 2, 3, 4 and 5 cycles and ended their queues |
| `Shutdown.EachCountsOnce` | `ExecutionEngine.cpp:62-66` | DeadThreadNum is the number of threads that have counted themselves, each once |
| `Shutdown.LastIsWB` | `ExecutionEngine.cpp:367-371` | DeadThreadNum reaches 5 only by WB, before a falling edge |
| `Shutdown.NobodyWaitsForTheExited` | `ExecutionEngine.cpp:406-417` | When a thread has left, every other has passed the last falling edge: nobody waits at a barrier |
| `Printer.PrinterLoop.PopDiff` | `Context.cpp:112-117` | Pops one difference and applies it to the copy of the registers |
| `Printer.PrinterLoop.PopMessages` | `Context.cpp:121-199` | Pops one message of each stage that has not ended |
| `Printer.PrinterLoop.Run` | `Context.cpp:89-214` | With the queues of a shutdown no pop finds an empty queue, only the end marker of WB is left over, and the j-th snapshot shows the registers after j differences and the j-th PC |
| `Printer.PrintHalted` | `Context.cpp:89-214` | On the queues that a halted processor has really left: no pop finds an empty queue, only the end marker of WB is left over, the copy ends as Registers, and the snapshot of cycle j shows Registers at the edge of cycle j and the PC with which IF fetches in it |
| `Rationals.Rational.constructor` | `include/boost/rational.hpp:153` | The conversion from an integer |
| `Rationals.Rational.Normalize` | `include/boost/rational.hpp:544-580` | Fails exactly on a zero denominator and then changes nothing; else the same value in lowest terms with positive denominator |
| `Rationals.Rational.Assign` | `include/boost/rational.hpp:256-261` | n/d in lowest terms, or failure for d = 0, which leaves the object unchanged |
| `Rationals.Rational.Add` | `include/boost/rational.hpp:278-310` | The exact sum, in lowest terms with positive denominator, also when the argument is the object itself |
| `Rationals.Rational.Subtract` | `include/boost/rational.hpp:313-330` | The exact difference, in lowest terms |
| `Rationals.Rational.Multiply` | `include/boost/rational.hpp:332-345` | The exact product, in lowest terms |
| `Rationals.Rational.Divide` | `include/boost/rational.hpp:347-374` | Fails exactly on a zero divisor and then changes nothing; else the exact quotient, in lowest terms with positive denominator |
| `Rationals.Rational.AddInt` | `include/boost/rational.hpp:185` | The exact sum with an integer, still in lowest terms |
| `Rationals.Rational.SubtractInt` | `include/boost/rational.hpp:186` | The exact difference with an integer, still in lowest terms |
| `Rationals.Rational.MultiplyInt` | `include/boost/rational.hpp:377-388` | The exact product with an integer, in lowest terms |
| `Rationals.Rational.DivideInt` | `include/boost/rational.hpp:390-411` | Fails exactly on zero; else the exact quotient by an integer, in lowest terms with positive denominator |
| `Rationals.Rational.Less` | `include/boost/rational.hpp:414-495` | The continued-fraction loop ends and returns exactly whether one value is less than the other, for positive denominators, negative numerators included |
| `Rationals.Rational.LessInt` | `include/boost/rational.hpp:497-513` | Exactly whether the value is less than the integer |
| `Rationals.Rational.GreaterInt` | `include/boost/rational.hpp:515-519` | Exactly whether the value is greater than the integer |
| `Rationals.Rational.Equals` | `include/boost/rational.hpp:521-526` | Equal fields if and only if equal values |
| `Rationals.Rational.EqualsInt` | `include/boost/rational.hpp:528-533` | Exactly whether the value is the integer |
| `Rationals.QuotTruncates` | `include/boost/rational.hpp:426-441` | Integer division truncates toward zero, and the remainder has the sign of the dividend |
| `Rationals.Expansion` | `include/boost/rational.hpp:426-441` | The first quotient and remainder, the remainder made non-negative |
| `Rationals.Canonical` | `include/boost/rational.hpp:521-526` | Two fractions in lowest terms with positive denominators have equal values only if they are the same |
| `Rationals.SumTerms` | `include/boost/rational.hpp:284-301` | Cancelling only gcd(numerator, g) is enough to have the sum in lowest terms |
| `Rationals.ProductTerms` | `include/boost/rational.hpp:339-343` | Cancelling crosswise keeps lowest terms |
| `Rationals.ReciprocalsReverse` | `include/boost/rational.hpp:443-470` | With equal whole parts the order of two fractions is the reverse of the order of the next terms of their continued fractions |
| `Rationals.InnerGcdIsGcd` | `include/boost/rational.hpp:230-234` | inner_gcd on truncated remainders is the gcd up to sign |
| `Rationals.IsNormalizedIffLowestTerms` | `include/boost/rational.hpp:247-253` | is_normalized accepts exactly the fractions in lowest terms with positive denominator |
| `Words.FieldsRebuild` | `Task.h:143-189` | The R and J fields rebuild every word and are as wide as the format says |
| `Words.ImmediateRebuilds` | `Task.h:169-182` | The I fields rebuild every word |
| `Words.NopIffOtherFieldsZero` | `IFEngine.cpp:29-35` | The NOP test accepts exactly the words whose fields other than rs are zero |
| `Words.ReverseTwice` | `Utils.h:109-122` | Reversing the bytes twice gives the word, or half word, back |
| `Words.PlusWraps` | `tasks/RTasks.cpp:160` | Addition of words is addition modulo 2^32 |
| `Words.MinusWraps` | `tasks/RTasks.cpp:238` | Subtraction of words is subtraction modulo 2^32 |
| `Words.NegateIsMinus` | `Utils.h:127-129` | twoComplement negates the signed value, but for the least integer, which it keeps |
| `Words.AddFlagIsExact` | `tasks/RTasks.cpp:160-162` | ADD sets the overflow flag if and only if the true signed sum does not fit in 32 bits |
| `Words.AddImmediateFlagIsExact` | `tasks/ITasks.cpp:228-230` | The same for ADDI with its sign-extended immediate |
| `Words.SubFlagIsExactBut` | `tasks/RTasks.cpp:238-240` | SUB sets the flag if and only if the true signed difference does not fit, for every subtrahend but 0x80000000, where the flag is exactly the opposite |
| `Words.SignExtend16Keeps` | `Utils.h:136-140` | signExtend16 keeps the signed value |
| `Words.SignExtend8Keeps` | `Utils.h:141-145` | signExtend8 keeps the signed value |
| `Words.BranchTargetIsRelative` | `tasks/ITasks.cpp:684-687` | A branch target is pc + 4 + 4 * signed immediate modulo 2^32 |
| `Words.JumpStaysInRegion` | `tasks/JTasks.cpp:54-60` | A jump target has the top four bits of pc + 4, then the address field, and is aligned |
| `DataMemory.CheckIsExactBut` | `Context.h:252-281` | The checks let through exactly the aligned accesses inside the array, and the one at the top of the address space where the 32-bit sum wraps |
| `DataMemory.GetReads` | `tasks/ITasks.cpp:278-391` | LW, LH, LHU, LB and LBU read the bytes of their range, most significant first, with the right extension |
| `DataMemory.PutWrites` | `tasks/ITasks.cpp:393-457` | SW, SH and SB write the low bytes of the word to their range, most significant first, and no other byte |
| `DataMemory.WordRoundTrip` | `tasks/ITasks.cpp:393-413` | SW then LW gives the word |
| `DataMemory.HalfRoundTrip` | `tasks/ITasks.cpp:415-435` | SH then LHU gives the low half |
| `DataMemory.ByteRoundTrip` | `tasks/ITasks.cpp:437-457` | SB then LBU gives the low byte |
| `DataMemory.PartsOfWord` | `tasks/ITasks.cpp:301-391` | The half words and bytes of a stored word, in big-endian order, with both extensions |
| `DataMemory.DisjointAreUnchanged` | `tasks/ITasks.cpp:393-457` | A store changes no load from other addresses |
| `DataMemory.Memory.constructor` | `Context.h:200-203` | The memory starts as zeros |
| `DataMemory.Memory.Load` | `Context.h:252-281` | Returns the value, or the fault with its two causes, as the checks say |
| `DataMemory.Memory.Store` | `tasks/ITasks.cpp:397-412` | Stores in place, or reports the fault and changes nothing |
| `Decoder.FieldsAreRegisters` | `Task.h:143-156` | The register fields are numbers from 0 to 31 |
| `Interpreter.FetchIs` | `IFEngine.cpp:19-30` | The k-th word of the text is what IF finds at the start address plus 4k, wherever the text starts; before the start and behind the last word IF finds a NOP |
| `Interpreter.NextAgrees` | `Context.h:245-248` | AdvancePC adds four modulo 2^32 |
| `Interpreter.SettableIff` | `Context.h:229-244` | SetPC accepts exactly the multiples of four that are not above the address of the last word of the text, this one included |
| `Interpreter.HaltIff` | `Task.cpp:36` | IF takes a word for a HALT if and only if its operation field is 0x3F |
| `Interpreter.LambdasOf` | `tasks/ITasks.cpp:204-879` | For every opcode: the registers that its lambdas take from the scoreboard in ID, resolve in ID, publish from EX and write in WB |
| `Integers.FieldsAreNumbers` | `Task.h:143-189` | Operation field, register numbers and shift amount are quotients and remainders of the number that the word stands for |
| `Integers.LowFieldsAreNumbers` | `Task.h:169-189` | So are the function field, the address field and the immediate, signed and unsigned |
| `Integers.JumpTargetIs` | `tasks/JTasks.cpp:54-60` | A jump target is the start of the 2^28-byte region of pc + 4, plus four times the address field |
| `Integers.EveryBit` | `tasks/RTasks.cpp:277` | Bit k of AND, OR and XOR of two words is the conjunction, disjunction or difference of their bits k, for every k |
| `Integers.GatesAreBitwise` | `tasks/RTasks.cpp:277` | So their values are the numbers put together bit by bit |
| `Bytes.GetIsNumber` | `tasks/ITasks.cpp:278-391` | LW, LH, LHU, LB and LBU give the big-endian number in their bytes, in two's complement where the opcode is signed |
| `Bytes.PutIsWritten` | `tasks/ITasks.cpp:393-457` | SW, SH and SB write the lowest base-256 digits of their register in big-endian order and change no other byte |
| `Bytes.FaultCauses` | `Context.h:252-281` | A fault is misaligned exactly if the address is not a multiple of the size, and an overflow exactly if the 32-bit sum of address and size is above the length of the memory |
| `Decoder.FetchFinds` | `IFEngine.cpp:19-30` | In a loaded program every fetch inside the bounds finds the word at that address, and it decodes |
| `Programs.PipelineRunsPrograms` | `ExecutionEngine.cpp:18-404` | Main theorem for loaded programs. Under every schedule, while no instruction through DM is spoiled or diverges, the registers are those of the opcode-by-opcode interpreter after the retired instructions and memory is its memory after the stored ones |
| `Programs.OrderedPipelineRunsPrograms` | `ExecutionEngine.cpp:18-404` | The same with branches of any kind, if ID waits for EX in the second half |
| `Interpreter.IdealIsInterpreter` | `tasks/ITasks.cpp:204-879` | For every opcode, one step of the ideal reference machine on a loaded program is one step of the interpreter, which computes fields, addresses, targets, results and memory with integers, faulting loads and stores included: destination register, result, memory and next PC |
| `Interpreter.IdealRunIsInterpreter` | `tasks/RTasks.cpp:133-813` | The same for runs of any length |
| `Interpreter.AluAgrees` | `tasks/RTasks.cpp:135-740` | The EX lambda of each register and immediate opcode computes what the opcode means in integers, the logical ones bit by bit |
| `Interpreter.DecodeIffEncoded` | `Task.cpp:8-53` | IF decodes a word to an opcode if and only if the number that it stands for has the operation and function fields of that opcode; words zero but for rs are NOPs |
| `Shifts.ShiftLeftMultiplies` | `tasks/RTasks.cpp:478-564` | SLL multiplies by a power of two modulo 2^32 |
| `Shifts.ShiftRightDivides` | `tasks/RTasks.cpp:639-640` | SRL divides by a power of two |
| `Shifts.ShiftRightArithmeticDivides` | `tasks/RTasks.cpp:727-728` | SRA divides the signed value by a power of two, rounding down |

## Left out

- PipelineTheorems.PipelineRefinesReference: a fault or an error of level halt interrupts all threads in the source; the model goes on, the faulting load leaving its field unassigned and the faulting store leaving memory alone, so it covers runs up to the first such error.
- PipelineTheorems.InvariantHolds: a half-cycle step is one step, but for `Overlap`. The fields of the scoreboard that two stages write in one half are taken access by access in `Accesses`; the one other field that two stages write is `PcFlush`, which is atomic and at an edge 2 or not positive, so that the order of its two decrements and tests does not matter. Reordering of memory accesses by compiler or hardware is not modelled.
- PipelineEngines.Context.Step: tasks are values with an allocation number in place of heap objects, so the sharing of one TaskHandle between IF and IF_ID during a stall, reuse of freed addresses, and `delete` are not captured.
- PipelineEngines.Context.FirstHalfDM: the memory of the pipeline is a sequence field; the byte array with its accessors is the separate class DataMemory.Memory.
- DataMemory.Memory.Load: the access at the top of the address space, which the bound check lets through, is reported as astray; what the host does then is undefined.
- DataMemory.Memory.Store: as for Load.
- Decoder.FetchFinds: programs with an undecodable word, where IF returns and the other threads wait for ever, are excluded by `Image.Valid`; so is text that runs over the end of the address space.
- Words.PlusWraps: the signed addition of ADDI overflows without being undefined, as the compiled code does.
- Rationals.Rational.Add: integers are unbounded, so overflow, and with it the singular-denominator exception of `normalize`, does not occur; the same holds for the other operators.
- Rationals.SumTerms: `integer::gcd` is not in the repository; it is taken to be the non-negative gcd.
- PipelineTheorems.FlushTokens: `PcFlush` is an `atomic_int` that two threads decrement in every cycle, so that it wraps after some 2^30 cycles without a transfer and then reads as a flush; the model's `pcFlush` is unbounded and leaves that out. `Accounts.FlushCounterFits` says for how long the two are the same.
- IdealPipeline.IdealIffUnspoiled: is about schedules in which ID waits for EX; that a spoiled instruction shows under other schedules too follows, since those are a part of them, but the other direction then asks that nothing diverges, as PipelineIsIdeal does.
- Halting.HaltedProgram: gives a sufficient condition for the state at the end, since a later instruction can hide what a spoiled or diverging one has done; that these do harm is IdealIffUnspoiled and ProcessorDecidesRightIffNoneDiverges.
- Processor: a state machine on values, while Context is the object with its fields; the thread objects and the mutex of `DeadThreadNum` are not modelled, each access being one step.
- Printer.PrintHalted: the queues are given whole, since blocking pops of FIFO queues do not depend on when the entries come; the initial copy of the registers is taken to be made before the first write back, which nothing in the source orders.
- Error queues, the error map and error levels: the printer takes at most one error per queue and cycle, so nothing is promised about them.
- Loading of images and files, `main.cpp`, command line: input and output.
- Snapshot text, messages, logging, `fwd_` and `to_be_` strings: output only. IDForward and the forwarding flags of TaskHandle only feed them.
- Thread interruption and abort: they depend on the timing of Boost.
- The remaining Boost headers, the container classes and the read-write locks: configuration or easy wrappers.
- Stream operators and increments of the rationals: input and output, or a special case of adding an integer.
