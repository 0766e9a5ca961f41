# Verified models of the SystemC examples

This Dafny project models the hard parts of the SystemC/TLM-2.0 example systems and proves what they are for. It checks
with `dafny verify dfyconfig.toml`.

Each concurrent system is a state machine whose steps are the code that a process executes between two waits, or a part of
it; invariants, safety over whole runs and termination are proved about that machine. Beside it stand the source's own
modules as classes: their methods change the same fields in place and are proved to take exactly those steps.

| files | system |
|---|---|
| `AddressMap`, `PayloadQueue`, `AtProtocol`, `AtInvariant`, `AtPhases`, `AtTotals`, `AtQueues`, `AtTiming`, `AtExclusion`, `AtProgress`, `AtModules` | the approximately-timed bus `SimpleBusAT` with `at_target_1_phase` targets |
| `Pipeline`, `PipelineModules`, `PeripheralTimer` | three peripherals in a ring: timer, FIFO, inverting copy, interrupt |
| `LittleEndian`, `HmpSignals`, `HmpModules`, `SystemBusWriter`, `RiscvModules` | the signal control blocks and their system-bus writers |
| `PingPong`, `SharedMemory` | the two-core counter program over a byte memory |
| `DmaCopy`, `DmaController`, `DmaModules` | the DMA controller |
| `AddressMap`, `LtBus`, `LtModules` | the loosely-timed bus and its memories |

The main results, hardest first:

- The bus keeps every transaction in exactly one place, its phases stay in the order of section 15.2 of IEEE Std 1666-2011,
  each request is operated once, reaches the right port at the right time, nothing deadlocks, and every run without new
  requests drains (`ReachableInv`, `PhasesInOrder`, `OperatedOnce`, `CallsOnTime`, `ResponsesExclude`, `NoDeadlock`,
  `RunsEnd`, `MaximalRunsDrain`).
- The interrupt of the pipeline means that all data is there, for any depth, size and completion order, although payloads
  alias the memory of the sender; and it does come (`InterruptMeansDone`, `AliasedByteStays`, `MaximalRunsRaise`).
- Driving only the overlapped signals agrees with decoding the whole register bank, and every signal is
  what was last written to its register (`AlwaysDriven`, `SignalsWritten`); the writer of
  `riscv_signals` loses no trigger and serves each in time (`NoLostTrigger`, `Served`, `RunsEnd`), and the one of
  `hmp_signals`, if its bus calls yield, loses one under an exact condition, which does arise (`LostDuringCall`,
  `ReachableLosses`, `LossHappens`).
- The two cores lose no increment and both finish, on words and on the bytes of the memory
  (`NoIncrementLost`, `BothFinish`, `BytesLoseNothing`, `BytesFinish`), and leave the
  code in the same window alone (`OnlyDataChanges`).
- The DMA copy is described exactly for overlapping ranges, and by the handshake it only runs while granted
  (`CopyResult`, `HandshakeKept`, `TransferAsProgrammed`).
- The LT bus is one flat memory, and direct-memory ranges are translated exactly (`ReadsLastWritten`, `RangeExact`).

Behaviour that a reader may not expect; the model follows the code:

- The address test of the LT memories refuses an access that touches the last byte (`memory.cpp:243-275`); `FailsExactly`
  states the boundary.
- `SimpleBusLT` and `SimpleBusAT` leave the masked address in the payload; `ResentGoesToPortZero` states what follows.
- `hmp_signals` stores a write to the Arm reset-request register, which its documentation calls read-only; `ReadsBack`
  proves that an Arm core never sees such a value, and that on the RISC-V side the byte is plain storage.

## Model

| member | source | states |
|---|---|---|
| `AtInvariant.ReachableInv` | examples/lt/systemc/third-party/systemc-lt-example/SimpleBusAT.h:99-260 | in every reachable state a pending transaction is in exactly one of request queue, target, response queue and response thread; the `from`/`to` fields of its record fit that place; one reference is held for it; responses are exclusive at each target and at the bus; no assertion has failed |
| `AtInvariant.StepKeeps` | examples/lt/systemc/third-party/systemc-lt-example/SimpleBusAT.h:99-260 | every step of bus, targets and initiators keeps that invariant |
| `AtInvariant.StepWait` | examples/lt/systemc/third-party/systemc-lt-example/SimpleBusAT.h:129-149 | no step disturbs a transaction while its END_REQ is due: it rests in its target until strictly later than the time END_REQ goes out |
| `AtInvariant.StepOneResponse` | examples/lt/systemc/third-party/systemc-lt-example/SimpleBusAT.h:192-241 | the END_RESP that ends the wait of the response thread is the one of the transaction it waits for, although one shared event is used; no step makes an assertion fail |
| `AtPhases.PhasesInOrder` | examples/lt/systemc/third-party/systemc-lt-example/SimpleBusAT.h:99-260 | over every run, for each transaction: BEGIN_REQ, at most one END_REQ and never after BEGIN_RESP, one BEGIN_RESP to the socket that asked, END_RESP passed to the target that deferred and to no other; and the place of the transaction tells exactly how far it has come |
| `AtTotals.InOrderBalanced` | examples/lt/systemc/third-party/systemc-lt-example/SimpleBusAT.h:99-260 | any log in that order is balanced: operations, answers, END_REQs, END_RESPs and releases match requests and deferrals one to one, up to what is still under way |
| `AtTotals.OperatedOnce` | examples/lt/systemc/third-party/systemc-lt-example/at_target_1_phase.cpp:143-259 | each request is operated once, before its BEGIN_RESP reaches the initiator; once the transaction is over the target got END_RESP once per deferral and never for a request completed at BEGIN_REQ |
| `AtTotals.DefersEveryTwentieth` | examples/lt/systemc/third-party/systemc-lt-example/at_target_1_phase.cpp:143-195 | over every run a target defers exactly its 20th, 40th, ... request and completes every other one inside the call |
| `AtQueues.HeadIsEarliest` | examples/lt/systemc/third-party/systemc-lt-example/SimpleBusAT.h:99-176 | in every reachable state the head of each payload event queue is not later than any other entry |
| `AtTiming.CallsOnTime` | examples/lt/systemc/third-party/systemc-lt-example/SimpleBusAT.h:99-260 | over every run, from the calls alone: each request reaches the port that bits 31 to 28 of the address asked for name, with that address modulo 2^28; and END_REQ, BEGIN_RESP, END_RESP and the release each come exactly when the annotated, accept, read and write delays before them have passed and the thread that makes the call is free |
| `AtExclusion.ResponsesExclude` | examples/lt/systemc/third-party/systemc-lt-example/SimpleBusAT.h:168-260 | over every run at most one BEGIN_RESP is outstanding at the bus and at each target, and each END_RESP is the one of that response |
| `AtExclusion.OneReference` | examples/lt/systemc/third-party/systemc-lt-example/SimpleBusAT.h:209-228 | the bus holds one reference to a transaction while it is pending and none otherwise |
| `PayloadQueue.NotifyPlace` | examples/lt/systemc/third-party/systemc-lt-example/SimpleBusAT.h:225-257 | a notified transaction stands behind all that are not later, those of the same time included, and before all that are |
| `AtProgress.StepRank` | examples/lt/systemc/third-party/systemc-lt-example/SimpleBusAT.h:99-241 | every step but a new request lowers one rank; time itself only moves to a moment with something to do |
| `AtProgress.RunsEnd` | examples/lt/systemc/third-party/systemc-lt-example/SimpleBusAT.h:99-241 | without new requests no run is longer than the rank of its first state |
| `AtProgress.PendingScheduled` | examples/lt/systemc/third-party/systemc-lt-example/SimpleBusAT.h:168-241 | there is no circular wait: while a transaction is pending some process or event is scheduled |
| `AtProgress.NoDeadlock` | examples/lt/systemc/third-party/systemc-lt-example/SimpleBusAT.h:168-241 | in every reachable state with a pending transaction some step is possible without a new request |
| `AtProgress.MaximalRunsDrain` | examples/lt/systemc/third-party/systemc-lt-example/SimpleBusAT.h:99-241 | a run that cannot go on without a new request has emptied the pending map and all queues, released every reference and closed every transaction |
| `AtModules.ThreadsReady` | examples/lt/systemc/third-party/systemc-lt-example/SimpleBusAT.h:105-206 | what the assertions of both threads and of `addPendingTransaction` ask for follows from the invariant |
| `AtModules.AtTarget1Phase.constructor` | examples/lt/systemc/third-party/systemc-lt-example/at_target_1_phase.cpp:42-85 | a new target counts from one and waits for nothing |
| `AtModules.AtTarget1Phase.NbTransportFw` | examples/lt/systemc/third-party/systemc-lt-example/at_target_1_phase.cpp:121-233 | BEGIN_REQ and END_RESP at the target: completed at once, or queued and answered with END_REQ at every twentieth call; END_RESP raises the event |
| `AtModules.AtTarget1Phase.BeginResponseMethod` | examples/lt/systemc/third-party/systemc-lt-example/at_target_1_phase.cpp:242-331 | one pass: takes the head of the response queue, operates, sends BEGIN_RESP to the bus and waits for END_RESP |
| `AtModules.AtTarget1Phase.EndRespRcvdFires` | examples/lt/systemc/third-party/systemc-lt-example/at_target_1_phase.cpp:293-298 | when the END_RESP event fires the method returns to its queue |
| `AtModules.SimpleBusAT.constructor` | examples/lt/systemc/third-party/systemc-lt-example/SimpleBusAT.h:46-64 | the new bus is in the initial state and satisfies the invariant |
| `AtModules.SimpleBusAT.InitiatorBeginReq` | examples/lt/systemc/third-party/systemc-lt-example/SimpleBusAT.h:219-240 | BEGIN_REQ from an initiator: reference acquired, pending record added, request queued |
| `AtModules.SimpleBusAT.InitiatorEndResp` | examples/lt/systemc/third-party/systemc-lt-example/SimpleBusAT.h:230-232 | END_RESP from an initiator notifies the one shared event and completes |
| `AtModules.SimpleBusAT.TargetNbTransport` | examples/lt/systemc/third-party/systemc-lt-example/SimpleBusAT.h:243-260 | END_REQ and BEGIN_RESP from a target, with any annotated delay: both notify the end-request event, BEGIN_RESP also queues the response |
| `AtModules.SimpleBusAT.RequestThreadTakes` | examples/lt/systemc/third-party/systemc-lt-example/SimpleBusAT.h:105-121 | the request thread masks the address, records the target and forwards BEGIN_REQ; the assertions at 107 and 113 hold |
| `AtModules.SimpleBusAT.RequestThreadGoesOn` | examples/lt/systemc/third-party/systemc-lt-example/SimpleBusAT.h:121-159 | what the request thread does with every reply the code accepts |
| `AtModules.SimpleBusAT.RequestThreadWakes` | examples/lt/systemc/third-party/systemc-lt-example/SimpleBusAT.h:142-149 | END_REQ goes to the socket the request came from, unless BEGIN_RESP went out before |
| `AtModules.SimpleBusAT.ResponseThreadTakes` | examples/lt/systemc/third-party/systemc-lt-example/SimpleBusAT.h:173-195 | BEGIN_RESP goes to the recorded socket, which is then forgotten; the assertion at 176 holds |
| `AtModules.SimpleBusAT.ResponseThreadCloses` | examples/lt/systemc/third-party/systemc-lt-example/SimpleBusAT.h:201-210 | END_RESP to a target that still expects it, which completes; then the record and the reference go |
| `AtModules.SimpleBusAT.EndResponseFires` | examples/lt/systemc/third-party/systemc-lt-example/SimpleBusAT.h:191-195 | the end-response event always finds the response thread waiting for it |
| `AtModules.SimpleBusAT.EndRequestFires` | examples/lt/systemc/third-party/systemc-lt-example/SimpleBusAT.h:125-131 | the request thread never waits for the end-request event when all targets are of this kind |
| `Pipeline.InterruptMeansDone` | examples/multiple-peripherals/systemc/original-system/peripheral.cpp:132-299 | whenever the interrupt of C is high every distinct byte has landed and the byte at every place k, XOR k, is 0xFF |
| `Pipeline.StreamInOrder` | examples/multiple-peripherals/systemc/original-system/peripheral.cpp:132-141 | nothing is streamed before rollover, the FIFO never holds more than its depth, and it holds the numbers written and not read, in order |
| `Pipeline.PayloadsExact` | examples/multiple-peripherals/systemc/original-system/peripheral.cpp:163-228 | live payloads are exactly the writes that are not over; each is acquired once, released once, and never touched after that by any call back |
| `Pipeline.AliasedByteStays` | examples/multiple-peripherals/systemc/original-system/peripheral.cpp:181-195 | while a write is not over, the byte of B its payload points to is still the inverse of its place |
| `Pipeline.StepKeeps` | examples/multiple-peripherals/systemc/original-system/peripheral.cpp:132-299 | every step keeps the pipeline invariant, for any FIFO depth, size, completion order and reply |
| `Pipeline.RunsEnd` | examples/multiple-peripherals/systemc/original-system/peripheral.cpp:132-299 | no run of the pipeline is longer than the rank of its first state |
| `Pipeline.MaximalRunsRaise` | examples/multiple-peripherals/systemc/original-system/peripheral.cpp:132-299 | a run that cannot go on has streamed every byte, answered every write, freed every payload and, for a memory that is not empty, raised the interrupt |
| `PipelineModules.Top.constructor` | examples/multiple-peripherals/systemc/original-system/virtual_platform.cpp:172-192 | three peripherals wired as a pipeline, in the initial state |
| `PipelineModules.Peripheral.WriteMemory` | examples/multiple-peripherals/systemc/original-system/peripheral.cpp:276-294 | stores the byte, counts it and tells whether it was the last |
| `PipelineModules.Top.TimerDoneThreadStarts` | examples/multiple-peripherals/systemc/original-system/peripheral.cpp:132-133 | rollover sets the flag |
| `PipelineModules.Top.TimerDoneThreadWrites` | examples/multiple-peripherals/systemc/original-system/peripheral.cpp:135-138 | one number enters the FIFO of B |
| `PipelineModules.Top.FifoDataReceivedMethod` | examples/multiple-peripherals/systemc/original-system/peripheral.cpp:163-211 | the receive loop handles exactly the bytes in the FIFO and keeps the pipeline invariant, whatever C replies to each write |
| `PipelineModules.Top.ReceiveOne` | examples/multiple-peripherals/systemc/original-system/peripheral.cpp:166-210 | one byte: inverted bit by bit, stored, sent; the payload is released at once when C replies at once |
| `PipelineModules.Top.BTransportCopies` | examples/multiple-peripherals/systemc/original-system/peripheral.cpp:276-293 | C stores the byte behind the payload pointer and counts it |
| `PipelineModules.Top.BTransportRaises` | examples/multiple-peripherals/systemc/original-system/peripheral.cpp:293-299 | the write that completes the memory raises the interrupt |
| `PipelineModules.Top.NbTransportBw` | examples/multiple-peripherals/systemc/original-system/peripheral.cpp:213-228 | END_REQ and BEGIN_RESP touch a payload that is still held; BEGIN_RESP ends the write and releases it |
| `PeripheralTimer.EarliestIsLeast` | examples/multiple-peripherals/systemc/src/peripheral.cpp:94-105 | the start time kept is the least of all command times and is one of them |
| `PeripheralTimer.RolloverAtEarliest` | examples/multiple-peripherals/systemc/src/peripheral.cpp:94-112 | after any start commands before rollover the timer counts from the earliest command time and the one pending rollover is 2^32 periods after it |
| `PeripheralTimer.ReadExact` | examples/multiple-peripherals/systemc/src/peripheral.cpp:114-130 | start + register * period = time of the read + remaining delay, with 0 <= remaining delay < period |
| `PeripheralTimer.ReadPasses` | examples/multiple-peripherals/systemc/src/peripheral.cpp:114-130 | the register exceeds n exactly when the read comes after n whole periods |
| `PeripheralTimer.ReadsIncrease` | examples/multiple-peripherals/systemc/src/peripheral.cpp:72-130 | a second read exceeds the first by more than m exactly when it comes more than m periods after the end of the first, before any bus cycles |
| `PeripheralTimer.BeatsExact` | examples/multiple-peripherals/systemc/src/peripheral.cpp:271 | the bus cycles of an access carry its data, and one less would not |
| `PeripheralTimer.BusReadExact` | examples/multiple-peripherals/systemc/src/peripheral.cpp:264-271 | the whole delay of a read ends where the register and its bus cycles say |
| `PeripheralTimer.ConsumedReadIncreases` | examples/multiple-peripherals/systemc/src/peripheral.cpp:264-271 | a read that comes once the delay of the previous one is consumed sees the register further by at least the bus cycles of that one |
| `PeripheralTimer.ReadsStrictlyIncrease` | examples/multiple-peripherals/systemc/src/peripheral.cpp:264-271 | over any sequence of reads with data in which each consumes its delay the values strictly increase |
| `PeripheralTimer.TimerRegisters.constructor` | examples/multiple-peripherals/systemc/src/peripheral.cpp:92-93 | no start time, no notification |
| `PeripheralTimer.TimerRegisters.StartTimer` | examples/multiple-peripherals/systemc/src/peripheral.cpp:94-112 | the fields become those of the specification of a start command |
| `PeripheralTimer.TimerRegisters.ReadTransport` | examples/multiple-peripherals/systemc/src/peripheral.cpp:264-275 | a read through the bus returns the register of the specification and adds its bus cycles to the remaining delay |
| `PeripheralTimer.TimerRegisters.UpdateTimer` | examples/multiple-peripherals/systemc/src/peripheral.cpp:114-130 | register and remaining delay are exact and fit 32 bits before rollover; nothing happens to a timer never started |
| `PingPong.NoIncrementLost` | examples/multi-core/multi-core-read-write.robot:37-58 | for any interleaving and any limit N the counter never passes N, a core that is done did exactly its share, ceil(N/2) or floor(N/2), and no increment is lost |
| `PingPong.StepKeeps` | examples/multi-core/multi-core-read-write.robot:37-58 | each instruction of either core keeps what both cores know about the counter, between any load and store of the other |
| `PingPong.RoundsFinish` | examples/multi-core/multi-core-read-write.robot:37-58 | under any schedule in which both cores keep running the program ends, within as many rounds as its potential |
| `PingPong.BothFinish` | examples/multi-core/multi-core-read-write.robot:37-58 | after 41 N + 122 rounds both cores are done with the exact final memory |
| `SharedMemory.Memory.constructor` | examples/multi-core/systemc/src/memory_peripheral.cpp:8-16 | a zeroed window of the given size |
| `SharedMemory.Memory.CheckBounds` | examples/multi-core/systemc/src/memory_peripheral.cpp:22-30 | succeeds exactly when the access lies in the window, with the offset in it |
| `SharedMemory.Memory.BTransport` | examples/multi-core/systemc/src/memory_peripheral.cpp:32-51 | a read copies the bytes out, a write splices them in, an access out of bounds changes nothing and does not delay |
| `SharedMemory.BytesRefineWords` | examples/multi-core/multi-core-read-write.robot:12-19 | with the layout of these lines the stores of the program, made on bytes, are its stores on words: none touches another word |
| `SharedMemory.RunsRefine` | examples/multi-core/multi-core-read-write.robot:37-58 | every interleaving on bytes reads as the same interleaving on words |
| `SharedMemory.OnlyDataChanges` | examples/multi-core/multi-core-read-write.robot:8-19 | over every interleaving no byte of the window outside the counter and the DONE and INCREMENTS words changes, so the code of both cores, which lies in the same window, stays as it was put there |
| `SharedMemory.ZeroWords` | examples/multi-core/multi-core-read-write.robot:12-19 | the words of the program are zero when the bytes of its data are, whatever else the window holds |
| `SharedMemory.BytesLoseNothing` | examples/multi-core/multi-core-read-write.robot:127-138 | from zero data bytes, with any code around them: when the words at 0x3008 and 0x3018 are one, those at 0x3020, 0x300c and 0x301c are N, ceil(N/2) and floor(N/2) |
| `SharedMemory.RoundsRefine` | examples/multi-core/multi-core-read-write.robot:37-58 | rounds on bytes read as the same rounds on words |
| `SharedMemory.BytesFinish` | examples/multi-core/multi-core-read-write.robot:127-138 | after 41 N + 122 rounds in which both cores run, the words at these offsets are exactly those |
| `HmpSignals.SignalsWritten` | examples/hmp-signals/systemc/src/hmp_signals.cpp:36-125 | after any accesses, from the accesses alone: interrupt i is the byte last written at i, reset that at 0x100, NMI that at 0x104, the boot address or vector table the word from 0x108 on, the clock period that at 0x110, CPUWAIT on Arm the byte at 0x118 |
| `HmpSignals.TriggersExactly` | examples/hmp-signals/systemc/src/hmp_signals.cpp:116-124 | a write triggers exactly when it overlaps 0x114 to 0x117 and leaves a nonzero byte there |
| `HmpSignals.RequestedWhenTriggered` | examples/hmp-signals/systemc/src/hmp_signals.cpp:116-124 | the pending flag is set exactly when some control write of the core triggered |
| `HmpSignals.MemoryReadsBack` | examples/hmp-signals/systemc/src/hmp_signals.cpp:63-82 | after any accesses a memory read in range returns at every place the byte last written there through the port of the core, zero at first |
| `HmpSignals.ServedExactly` | examples/hmp-signals/systemc/src/hmp_signals.cpp:36-82 | which accesses get an address error or a command error; those change nothing and return nothing, and a write leaves its data alone |
| `HmpSignals.InitialBank` | examples/hmp-signals/systemc/src/hmp_signals.cpp:11-34 | the preset bytes of the clock period and the boot registers |
| `HmpSignals.RedriveExact` | examples/hmp-signals/systemc/src/hmp_signals.cpp:84-125 | re-driving only the overlapped signals after a write gives the full decode of the whole bank |
| `HmpSignals.BusKeepsDriven` | examples/hmp-signals/systemc/src/bus.cpp:12-22 | every access of any kind keeps all signals of the core equal to the full decode |
| `HmpSignals.InitialDriven` | examples/hmp-signals/systemc/src/hmp_signals.cpp:11-34 | the initial signal values are what the initial bank decodes to |
| `HmpSignals.AlwaysDriven` | examples/hmp-signals/systemc/src/hmp_signals.cpp:36-125 | after any sequence of accesses of either core every driven signal of both equals the decode of its bank |
| `HmpSignals.CoresApart` | examples/hmp-signals/systemc/src/hmp_signals.cpp:36-82 | a core's bank, memory and signals depend on its own accesses only |
| `HmpSignals.BankIsLastWritten` | examples/hmp-signals/systemc/src/hmp_signals.cpp:36-61 | every register byte but the Arm reset request is the one last written, or the initial one |
| `HmpSignals.ReadsBack` | examples/hmp-signals/systemc/src/hmp_signals.cpp:36-61 | after any accesses a control read returns the bytes last written, except that an Arm core reads the reset request as the level stands, whatever was written to it |
| `HmpSignals.EmptyWrite` | examples/hmp-signals/systemc/src/hmp_signals.cpp:84-125 | a write of no bytes, which no legal TLM-2.0 payload is, changes nothing but requests a bus write exactly when it points inside the nonzero trigger word past its first byte |
| `LittleEndian.FourBytes` | examples/hmp-signals/systemc/src/hmp_signals.cpp:95-124 | the lowest byte of a 32-bit word comes first |
| `LittleEndian.EightBytes` | examples/hmp-signals/systemc/src/hmp_signals.cpp:95-104 | the lower half of a 64-bit word comes first |
| `LittleEndian.ValueOfBytes` | examples/hmp-signals/systemc/src/hmp_signals.cpp:95-124 | decoding an encoded number gives it back, if it fits |
| `LittleEndian.BytesOfValue` | examples/hmp-signals/systemc/src/hmp_signals.cpp:95-124 | encoding a decoded word gives its bytes back, and it fits |
| `HmpModules.SignalBlock.constructor` | examples/hmp-signals/systemc/src/hmp_signals.cpp:11-34 | the initial bank, memory and signals |
| `HmpModules.SignalBlock.ApplyControlWrite` | examples/hmp-signals/systemc/src/hmp_signals.cpp:84-125 | drives exactly the signals whose registers the write overlaps; sets the pending flag and notifies the writer for a nonzero overlapped trigger |
| `HmpModules.SignalBlock.HandleControl` | examples/hmp-signals/systemc/src/hmp_signals.cpp:36-61 | status, data, bank and signals of a control access, including the errors |
| `HmpModules.SignalBlock.HandleMemory` | examples/hmp-signals/systemc/src/hmp_signals.cpp:63-82 | status, data and memory of a memory access, including the errors |
| `HmpModules.SignalBlock.BTransport` | examples/hmp-signals/systemc/src/bus.cpp:12-22 | the split into windows, with the address of the payload restored and the signals equal to the full decode |
| `RiscvWriter.NoLostTrigger` | examples/riscv-signals/systemc/src/riscv_signals.cpp:100-140 | in every reachable state a waiting writer has a trigger pending exactly when a notification is scheduled; writes never outnumber triggers |
| `RiscvWriter.Owed` | examples/riscv-signals/systemc/src/riscv_signals.cpp:110-140 | while a trigger is unserved something can happen, and every step other than a new trigger or a delta in the bus call is the write or brings it nearer |
| `RiscvWriter.Served` | examples/riscv-signals/systemc/src/riscv_signals.cpp:100-140 | over any run, however many triggers arrive on the way: once a trigger is unserved a write follows within a fixed number of steps that are neither triggers nor deltas in the bus call |
| `RiscvWriter.ServedInTime` | examples/riscv-signals/systemc/src/riscv_signals.cpp:100-140 | a run without new triggers that begins with an unserved trigger writes within its bound |
| `RiscvWriter.RunsEnd` | examples/riscv-signals/systemc/src/riscv_signals.cpp:110-140 | every run without new triggers ends |
| `RiscvWriter.OneWritePerDelta` | examples/riscv-signals/systemc/src/riscv_signals.cpp:115-119 | over every run the bus is written at most once per delta, so the triggering transaction can end before |
| `RiscvWriter.IdleIsServed` | examples/riscv-signals/systemc/src/riscv_signals.cpp:100-140 | a run that cannot go on without a new trigger has a write after every trigger |
| `HmpWriter.NothingLostWithoutYield` | examples/hmp-signals/systemc/src/hmp_signals.cpp:127-158 | on a bus whose calls do not yield no reachable state has lost a trigger of either core |
| `HmpWriter.ServedWithoutYield` | examples/hmp-signals/systemc/src/hmp_signals.cpp:127-158 | on such a bus, wherever a run stands, a pending trigger of either core is written within a fixed number of steps that are not new triggers, however many triggers arrive on the way |
| `HmpWriter.OneWriteInTwoDeltas` | examples/hmp-signals/systemc/src/hmp_signals.cpp:129-132 | over every run, whether the bus yields or not, a core is written for at most once in two deltas |
| `HmpWriter.LostDuringCall` | examples/hmp-signals/systemc/src/hmp_signals.cpp:132-158 | on a bus whose calls yield, for any state in a call and however the calls go on until the thread waits again: a trigger for core c is lost exactly when it is pending, c is a core the loop has reached, and the notification has fired or fires before the loop ends; each pending trigger of a core still to come is written once |
| `HmpWriter.ReachableLosses` | examples/hmp-signals/systemc/src/hmp_signals.cpp:127-158 | the same condition wherever a run on such a bus stands in a call, with an end that the run reaches |
| `HmpWriter.LossBegins` | examples/hmp-signals/systemc/src/hmp_signals.cpp:127-158 | a loss begins when a bus call returns and nowhere else, under the exact condition on that state; in a lost state only a new trigger can happen |
| `HmpWriter.LossHappens` | examples/hmp-signals/systemc/src/hmp_signals.cpp:127-158 | losses are real: for any c <= d a run reaches the call for core d and loses a trigger of core c |
| `RiscvModules.RiscvSignals.constructor` | examples/riscv-signals/systemc/src/riscv_signals.cpp:11-30 | the writer is about to test a clear flag; the bank holds the boot address and the clock period |
| `RiscvModules.RiscvSignals.HandleControl` | examples/riscv-signals/systemc/src/riscv_signals.cpp:32-52 | status, data and bank of a control access, including that a write or a refused access leaves its data alone, and the trigger it hands to the writer |
| `RiscvModules.RiscvSignals.ApplyTrigger` | examples/riscv-signals/systemc/src/riscv_signals.cpp:100-107 | a nonzero trigger in an overlapped word sets the flag and notifies the writer |
| `RiscvModules.RiscvSignals.SystemBusWriterRuns` | examples/riscv-signals/systemc/src/riscv_signals.cpp:110-140 | the writer runs to its next wait or to its bus call |
| `DmaCopy.AddressesCountUp` | examples/dma/systemc/src/dmac.cpp:48-82 | the addresses count up from the registers and wrap from 2^32 - 1 to 0 |
| `DmaCopy.CopyResult` | examples/dma/systemc/src/dmac.cpp:47-83 | without address wrap every target place holds the byte its source place names, and nothing else changes |
| `DmaCopy.CopyMoves` | examples/dma/systemc/src/dmac.cpp:47-83 | dst <= src or dst >= src + L: the target receives the old source bytes |
| `DmaCopy.CopyRepeats` | examples/dma/systemc/src/dmac.cpp:47-83 | 0 < dst - src < L: the first dst - src source bytes repeat |
| `DmaController.HandshakeKept` | examples/dma/systemc/src/dmac.cpp:34-132 | over all interleavings every bus access of a transfer comes after a rising edge of bus_free that came after its request, in order, and bus_request is high exactly from the request of a transfer to its end |
| `DmaController.OneTransferPerStart` | examples/dma/systemc/src/dmac.cpp:34-132 | transfers begun equal start commands that arrive while the thread is idle |
| `DmaController.TransferResult` | examples/dma/systemc/src/dmac.cpp:47-88 | a transfer ends when the index reaches the length register as it stands then, with the plain copy of that many bytes |
| `DmaController.TransferEnds` | examples/dma/systemc/src/dmac.cpp:47-88 | a granted transfer with its length register left alone can always go on, makes at most three own steps a byte, and is about to release the bus exactly when it has made them all |
| `DmaController.RegistersAsWritten` | examples/dma/systemc/src/dmac.cpp:92-132 | source, target and length are the values last written at 0x4, 0x8 and 0xC |
| `DmaController.TransferAsProgrammed` | examples/dma/systemc/src/dmac.cpp:34-132 | a transfer copies as many bytes as last written at 0xC from the address last written at 0x4 to that last written at 0x8, as they stood when the grant was taken up |
| `DmaController.StartsAsCommanded` | examples/dma/systemc/src/dmac.cpp:112-128 | every write of a start command to 0x10 is a start, taken or not, and nothing else is |
| `DmaController.GrantedExactly` | examples/dma/systemc/src/dmac.cpp:42-45 | the bus is granted exactly by a rising edge of bus_free while a request waits for one |
| `DmaController.TransferCopies` | examples/dma/systemc/src/dmac.cpp:47-88 | one transfer with the length register left alone, from taking the addresses to its end: the memory as it stood then, copied between the address registers as they stood then, whatever else is written meanwhile |
| `DmaController.RegistersDoNotRedirect` | examples/dma/systemc/src/dmac.cpp:92-132 | no register write changes addresses, progress or memory of a running copy |
| `DmaModules.Dmac.constructor` | examples/dma/systemc/src/dmac.cpp:13-20 | idle, registers and pins low |
| `DmaModules.Dmac.ReceiveBTransport` | examples/dma/systemc/src/dmac.cpp:92-132 | a register write, and a start command that only an idle thread takes |
| `DmaModules.Dmac.BusFreeChanges` | examples/dma/systemc/src/dmac.cpp:44-45 | a rising edge of bus_free grants the bus to a thread that waits for it |
| `DmaModules.Dmac.LoopProceeds` | examples/dma/systemc/src/dmac.cpp:34-90 | the thread runs to its next wait or bus call |
| `DmaModules.Dmac.BusCallReturns` | examples/dma/systemc/src/dmac.cpp:58-83 | a bus access moves one byte or fails and ends the thread |
| `DmaModules.Dmac.CopyLoop` | examples/dma/systemc/src/dmac.cpp:47-88 | on an exclusive bus the loop leaves the plain copy, and stops early exactly at the first turn that a bus access does not reach |
| `LtBus.Parts` | examples/lt/systemc/third-party/systemc-lt-example/SimpleBusLT.h:64-85 | port and masked address are quotient and rest of the address by 2^28, modulo 2^32 |
| `LtBus.Flat` | examples/lt/systemc/third-party/systemc-lt-example/SimpleBusLT.h:95-106 | over every run the targets are one flat memory, byte by byte |
| `LtBus.ReadsLastWritten` | examples/lt/systemc/third-party/systemc-lt-example/SimpleBusLT.h:95-106 | a successful read returns the bytes last written successfully at the same address modulo 2^32, or zero |
| `LtBus.FailsExactly` | examples/lt/systemc/third-party/systemc-lt-example/memory.cpp:243-275 | an access fails exactly when its port is unbound or its masked end reaches the memory size, and then changes nothing; only a successful read changes data |
| `LtBus.ResentGoesToPortZero` | examples/lt/systemc/third-party/systemc-lt-example/SimpleBusLT.h:95-106 | the masked address stays in the payload: sent again it goes to port 0 |
| `LtBus.RangeExact` | examples/lt/systemc/third-party/systemc-lt-example/SimpleBusLT.h:119-137 | the translated range is exactly the addresses that decode to the port and, masked, lie in the range of the target |
| `LtBus.RangeContains` | examples/lt/systemc/third-party/systemc-lt-example/SimpleBusLT.h:139-173 | a local range around the masked address becomes one around the address, inside the window of the port |
| `LtModules.TargetMemory.CheckAddress` | examples/lt/systemc/third-party/systemc-lt-example/memory.cpp:243-275 | the address test; an access may not reach the last byte |
| `LtModules.TargetMemory.MoveIn` | examples/lt/systemc/third-party/systemc-lt-example/memory.cpp:136-139 | the write loop splices the data into memory and changes nothing else |
| `LtModules.TargetMemory.MoveOut` | examples/lt/systemc/third-party/systemc-lt-example/memory.cpp:150-153 | the read loop delivers the stretch of memory asked for |
| `LtModules.TargetMemory.Operation` | examples/lt/systemc/third-party/systemc-lt-example/memory.cpp:88-164 | memory, status, data and delay of one operation, with its error cases; the first command that is neither read nor write sets the delay to zero |
| `LtModules.SimpleBusLT.InitiatorBTransport` | examples/lt/systemc/third-party/systemc-lt-example/SimpleBusLT.h:95-106 | one transaction through the bus does what the specification of the whole bus says, with the delay of its target, and leaves the masked address in the payload |
| `LtModules.SimpleBusLT.GetDmiRange` | examples/lt/systemc/third-party/systemc-lt-example/SimpleBusLT.h:119-173 | the range granted to the initiator contains its address and is exactly the set of addresses that lead into the range of the target |

## Left out

Assumptions that the models make, and what they do not capture:

- Scheduling of the AT bus: time moves only when nothing is due; delta cycles within one time are interleaved freely, so
  every order SystemC could choose is covered.
- Environment of the AT bus: all targets are `at_target_1_phase` with positive response delays, payloads decode to a bound
  port and are not re-issued while pending, initiators answer BEGIN_RESP with TLM_COMPLETED or with TLM_ACCEPTED and one
  later END_RESP. Other targets, for which END_REQ could be forwarded early through the shared event, are not covered.
- AT memory contents: the operation of a target is an event in the log; the data it moves is modelled with the LT memories.
- `m_request_count` is unbounded; in the code it is an unsigned int, whose wrap is not a multiple of twenty.
- AtModules.SimpleBusAT.RequestThreadGoesOn: replies with END_RESP end the simulation in the code and are excluded.
- AtModules.AtTarget1Phase.NbTransportFw: END_REQ and BEGIN_RESP end the simulation in the code and are excluded.
- Simulated time in the pipeline: steps interleave without it. Annotated delays and the claim of one transfer per clock are
  left out; the time difference at `peripheral.cpp:189` goes negative within a burst.
- The CPU in the pipeline: it writes only `cmd_start_timer` and `irq_ack`; register windows and reads of the peripherals by
  the CPU are not part of the model. `irq_ack` is a flag for the CPU itself: the code never lowers the interrupt.
- Conversions between blocking and non-blocking transport inside the TLM-2.0 socket of C belong to the library and appear as
  its three possible replies.
- PeripheralTimer.ReadExact: real numbers instead of `sc_time` and `double`; picosecond resolution, reads before a start time
  that lies in the future and reads after rollover are left out.
- PipelineModules.Top.constructor: of the ring only the links that carry data are there, FIFO from A to B and writes from B
  to C; the other links and the register sockets, which are bound but idle, are not.
- Bus calls of `HmpWriter`: those of a run all yield, or none does; a call that returns at once is a call that yields with
  nothing in between.
- Signals of `riscv_signals` other than the trigger: they are driven as on the RISC-V side of `hmp_signals`.
- HmpModules.SignalBlock.HandleControl: starts after the zero-time wait of the code; the reset request level is a parameter.
- PingPong.NoIncrementLost: registers are unbounded integers; `BytesLoseNothing` and `BytesFinish` cover 32-bit words for limits below 2^32,
  and the signed comparison of the program agrees with the model for limits below 2^31.
- The mailbox program of the same test: each core stores one constant, polls the other core's word until it holds the other
  constant, and copies it; no word has two writers, so nothing of it depends on an interleaving.
- DmaModules.Dmac.CopyLoop: the loop counter of the code is a signed int; copies of 2^31 bytes and more are undefined there.
- DmaModules.Dmac.constructor: registers start at zero; the code leaves them uninitialised.
- DmaModules.Dmac.ReceiveBTransport: other registers, commands and sizes fail an assertion of the code and are excluded.
- LtModules.SimpleBusLT.InitiatorBTransport: an unbound port fails an assertion of the code; `FailsExactly` describes it.
- LtModules.TargetMemory.Operation: byte enables and streaming widths; their error status is overwritten at the end of the
  code's operation.
- Address sums near 2^64 in the bounds checks of `memory_peripheral.cpp` and `riscv_signals.cpp`.
- `dmi_memory` invalidation, debug transport, `traffic_generator`, `lt_initiator`, logging and reporting.
- The Renode bridge, its sockets, test keywords and the firmware: input and output.
- The GPIO example remembers that its input ever changed and returns that; the timekeeper returns the simulation time in
  seconds, with a fixed delay in one variant; the interrupters raise a line at fixed periods and lower it when written to;
  each direct-connection peripheral, blocking or not, keeps one value and returns its partner's; the Cortex-M signals example
  returns the input or drives the output that its offset names and answers a reset request with a pulse. Each has at most one
  flag or value, set in one place, so a property of one of them would repeat its one method.
