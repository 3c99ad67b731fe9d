# Low-level demos: protocols, context switches and buffers, verified

The repository is a collection of small programs close to the machine: memory-order and cache demos in C, a
protected-mode boot loader with a preemptive scheduler, DOS utilities, and eBPF monitoring hooks. This project
models the concurrent protocols, state machines and in-place algorithms among them and proves what they are for.
Every iteration count, ring size and event sequence is a parameter; every theorem is about all runs. Nothing of the
original was executed.

How each part is modelled:

- **Step machines over x86-TSO** (`Litmus`, `Contention`, `HandOff`, `Parity`, `Ring`, on `StoreBuffer`). One action
  is one shared access of one thread or the drain of one pending store; a schedule is any sequence of enabled
  actions. A load forwards from the thread's own FIFO buffer; a fence or semaphore operation needs that buffer
  empty (Intel SDM Vol. 3A, section 8.2). `LitmusRefinement` has the buffer-free machine beside it. Delays and
  yields are other threads running in between. `Fairness` proves once, for any such machine with a ranking, that
  weakly fair infinite runs finish and that there are some.
- **Scheduler.** `Scheduler` says on values what a timer tick and a stretch of task code may do; `TaskCode` has the
  three tasks and their print routine instruction by instruction, with ticks between any two, and `TaskValues`
  what they compute; `SchedulerMachine`
  is the handler and set-up code on a processor whose registers and word memory change in place, and its methods
  are proved to perform exactly those ticks. `Descriptors` packs and decodes GDT and IDT entries bit by bit,
  and `EntryPoints` follows the tasks' first CS:EIP through them.
- **Objects updated in place** (`Batch`, `KeyRing`, `Cipher`, `Allocations`, `Shuffle`): classes and arrays with the
  source's loops, each tied to a function of the inputs or the old state about which the lemmas speak.

Results where the code does not do what one might expect:

- Without the fence the litmus harness can return every count from 0 to the number of rounds; with it only 0
  (`Litmus.ReturnValues`).
- The two boot builds reach the same interrupt handlers if and only if CS is 0x6000, because one of them has the
  load address as a constant (`Descriptors.BuildsAgreeExactlyAt6000`), and start tasks
  at the same addresses only then (`EntryPoints.BuildsStartAlikeExactlyAt6000`). Their entry points agree for every CS.
- In the parity ping-pong thread 1 can cut off the last turn of thread 2, so the counter ends at 2n or 2n - 1
  (`Parity.FinalCounter`).
- The active count of the memory analyzer can wrap below zero: after a process id is used again, or when a process
  frees an address another one is on record for. A double-free report can be false after a shared address
  or a refused map entry (`Allocations.ReusedPidWraps`, `Allocations.ForeignFreeWraps`,
  `Allocations.SharedAddressFalseAlarm`, `Allocations.RefusedRegionFalseAlarm`).
  `Allocations.OrderlyIsExact` gives the histories in which the count is exact, and `Allocations.ActiveExactIff` the
  exact condition for any history; `Allocations.ReportRightIff` is the exact condition for the report.
- Different passwords can open each other's files: exactly those whose words commute, such as `ab` and `abab`, and
  the empty password and the single byte 0xFF (`Cipher.SameStreamIff`).
- `dropped` in the batch buffer is never incremented; events are lost only to refused reservations
  (`Batch.BatchBuffer.AddToBatch`, `Batch.BatchBuffer.Accounting`).
- A comment gives the password buffer 16 characters and a NUL (1_bootloader/SentinelDOS/btcrypt.asm:432); the editor
  accepts 15, and the model follows the editor.

## Model

| member | source | states |
|---|---|---|
| `StoreBuffer.ForwardIsNewest` | 3_microarch_demos/x86_vs_arm_memory_order/classic_reorder_test.c:53-56 | a load takes the newest pending store of its own thread to that location, and memory only when there is none |
| `Litmus.StepKeepsInv` | 3_microarch_demos/x86_vs_arm_memory_order/classic_reorder_test.c:44-82 | every step of main, of a worker or of a buffer, with or without the fence, keeps the round invariant that the theorems below read off |
| `Litmus.WorkStepKeepsFence` | 3_microarch_demos/x86_vs_arm_memory_order/classic_reorder_test.c:54-56 | why the fence works: of two fenced loads the later one finds the other worker's store in memory |
| `Litmus.Lockstep` | 3_microarch_demos/x86_vs_arm_memory_order/classic_reorder_test.c:115-128 | in both fence modes, when main compares round i both workers have finished i + 1 rounds and not touched the next, all buffers are empty, all semaphores 0, X and Y are 1, and the pair compared is what the workers loaded, 0 or 1 each |
| `Litmus.FenceForbidsReordering` | 3_microarch_demos/x86_vs_arm_memory_order/classic_reorder_test.c:44-82 | with the fence the count is 0 in every reachable state of every run, and the compared pair is (0,1), (1,0) or (1,1) |
| `Litmus.UnfinishedCanStep` | 3_microarch_demos/x86_vs_arm_memory_order/classic_reorder_test.c:104-143 | no deadlock: every reachable unfinished state has an enabled action |
| `Litmus.StepDecreases` | 3_microarch_demos/x86_vs_arm_memory_order/classic_reorder_test.c:45-61 | every action of every thread lowers a natural measure |
| `Litmus.RunsAreBounded` | 3_microarch_demos/x86_vs_arm_memory_order/classic_reorder_test.c:115-137 | every run ends under any scheduler: no schedule has more than 30 actions a round |
| `Litmus.CanFinish` | 3_microarch_demos/x86_vs_arm_memory_order/classic_reorder_test.c:115-149 | every partial run extends to a finished one |
| `Litmus.PlayRound` | 3_microarch_demos/x86_vs_arm_memory_order/classic_reorder_test.c:115-130 | from the start of any round a schedule plays it with a counted reordering (fence off) or without one |
| `Litmus.ReturnValues` | 3_microarch_demos/x86_vs_arm_memory_order/classic_reorder_test.c:99-150 | the set of possible return values, exactly: {0} with the fence, every k from 0 to n without |
| `LitmusRefinement.StepSimulates` | 3_microarch_demos/x86_vs_arm_memory_order/classic_reorder_test.c:53-59 | a fenced TSO step is one SC step of the same thread or changes nothing abstractly; the drain is the SC store |
| `LitmusRefinement.FencedTsoRefinesSc` | 3_microarch_demos/x86_vs_arm_memory_order/classic_reorder_test.c:23-35 | every run of the fenced TSO machine maps to a run of the SC machine with the same count and finish |
| `LitmusRefinement.ScRunsAreTsoRuns` | 3_microarch_demos/x86_vs_arm_memory_order/classic_reorder_test.c:44-82 | every SC run is a TSO run whose stores drain at once, fence or not |
| `LitmusRefinement.ScNeverReorders` | 3_microarch_demos/x86_vs_arm_memory_order/classic_reorder_test.c:117-128 | the SC machine never compares two zeros, even without a fence |
| `LitmusRefinement.FenceRestoresSc` | 3_microarch_demos/x86_vs_arm_memory_order/classic_reorder_test.c:23-31 | fenced TSO and SC can finish with exactly the same memories and counts |
| `Fairness.FairRunsFinish` | 3_microarch_demos/false_sharing_perf_demo/extreme_cache_test.c:87-90 | a busy-waiting system with a ranking finishes on every weakly fair run, in a state satisfying its invariant |
| `Fairness.FairRunExists` | 3_microarch_demos/false_sharing_perf_demo/extreme_cache_test.c:87-90 | such runs exist |
| `Contention.StepKeepsInv` | 3_microarch_demos/cache_tlb_latency/contention_test.c:6-11 | every load, store and drain keeps the bounds on what is stored, pending and in memory |
| `Contention.Interleave` | 3_microarch_demos/cache_tlb_latency/contention_test.c:6-11 | a schedule that loses any chosen number of increments down to a final value of 2 |
| `Contention.FinalValues` | 3_microarch_demos/cache_tlb_latency/contention_test.c:4-18 | the possible final values are exactly the integers from min(n, 2) to 2n |
| `HandOff.StepKeepsInv` | 3_microarch_demos/false_sharing_perf_demo/extreme_cache_test.c:81-126 | every step keeps the hand-off invariant, with the fences or without them |
| `HandOff.HandOffIsSafe` | 3_microarch_demos/false_sharing_perf_demo/extreme_cache_test.c:85-125 | critical sections never overlap, whoever loads the counter sees every earlier increment, and a finished run ends with counter 2n and flag 0 |
| `HandOff.HelpfulHelps` | 3_microarch_demos/false_sharing_perf_demo/extreme_cache_test.c:87-95 | every unfinished state has an enabled action that makes progress |
| `HandOff.FairRunsFinishSafely` | 3_microarch_demos/false_sharing_perf_demo/extreme_cache_test.c:81-126 | every weakly fair infinite run finishes with counter 2n and flag 0 |
| `HandOff.SomeFairRun` | 3_microarch_demos/false_sharing_perf_demo/extreme_cache_test.c:81-126 | the players have a weakly fair run |
| `Parity.TurnsAlternate` | 3_microarch_demos/false_sharing_perf_demo/cache_pingpong_perf.c:67-74 | the counter equals the drained increments of both threads, thread 1 leads by 0 or 1, increments never overlap |
| `Parity.OnlyThread2IsCutOff` | 3_microarch_demos/false_sharing_perf_demo/cache_pingpong_perf.c:69-75 | `done` is up only when thread 1 has all n increments; thread 2 misses at most its last |
| `Parity.FinalCounter` | 3_microarch_demos/false_sharing_perf_demo/cache_pingpong_perf.c:61-94 | the possible final counters are exactly 2n and, for n at least 1, 2n - 1 |
| `Parity.FairRunsEnd` | 3_microarch_demos/false_sharing_perf_demo/cache_pingpong_perf.c:65-94 | every weakly fair infinite run finishes, at 2n or 2n - 1 |
| `Parity.SomeFairRun` | 3_microarch_demos/false_sharing_perf_demo/cache_pingpong_perf.c:61-94 | the threads have a weakly fair run |
| `Scheduler.TickKeepsInv` | 1_bootloader/pm_demo/bootloader_stage2.asm:872-930 | after a tick every task that is not running has a whole 44-byte frame inside its own stack, room for a handler call below it and IF set in its saved flags |
| `Scheduler.TickIsTransparent` | 1_bootloader/pm_demo/bootloader_stage2.asm:602-625 | a tick changes no task's context, running or saved, and no word of any task's live stack |
| `Scheduler.TickStaysInStacks` | 1_bootloader/pm_demo/bootloader_stage2.asm:872-930 | every word a tick changes lies in the stack of the interrupted or the selected task (the boot stack before the first tick), at most 56 bytes below the interrupted ESP or 12 below task A's frame |
| `Scheduler.OwnProcessor` | 1_bootloader/pm_demo/bootloader_stage2.asm:872-930 | only a task's own code, while it runs, changes its context or live stack |
| `Scheduler.PreemptedTaskResumesExactly` | 1_bootloader/pm_demo/bootloader_stage2.asm:902-930 | over any run, a task preempted and later resumed has the same general registers, EIP, CS, EFLAGS, ESP and stack words |
| `Scheduler.FreshTaskStartsAtEntry` | 1_bootloader/pm_demo/bootloader_stage2.asm:745-772 | a task run for the first time is at its entry with zero registers, flags 0x202 and ESP at its stack top |
| `Scheduler.RoundRobin` | 1_bootloader/pm_demo/bootloader_stage2.asm:880-916 | nothing has started before the first tick; after tick m task (m - 1) mod 3 runs |
| `Scheduler.BootNeverResumes` | 1_bootloader/pm_demo/bootloader_stage2.asm:880-898 | from the first tick on ESP is always in the stack of the task whose turn it is |
| `Scheduler.StacksStayShallow` | 1_bootloader/pm_demo/bootloader_stage2.asm:948-954 | for any tasks whose code uses at most d bytes, no run writes a task stack deeper than d + 56 bytes |
| `Scheduler.StacksStayAligned` | 1_bootloader/pm_demo/bootloader_stage2.asm:934-954 | ticks keep every saved and running stack pointer a multiple of 4, if task code does |
| `TaskCode.InstructionStands` | 1_bootloader/pm_demo/bootloader_stage2.asm:683-815 | each instruction of the three task loops and of `print_hex8_at_edi` takes a task from one program point to the next with the stack as that point has it (0, 4, 8 or 12 bytes), IF kept, and inside the routine keeps the EAX, EBX and EIP the loop will get back; what it computes is in `TaskValues` |
| `TaskCode.InstructionWrites` | 1_bootloader/pm_demo/bootloader_stage2.asm:683-815 | it writes no stack but the top 12 bytes of its own |
| `TaskCode.ExecuteIsTaskStep` | 1_bootloader/pm_demo/bootloader_stage2.asm:774-815 | one instruction of the running task is a task step in the scheduler's sense and uses at most 12 bytes of stack |
| `TaskCode.ProgramStepStands` | 1_bootloader/pm_demo/bootloader_stage2.asm:602-930 | every tick and every instruction keeps all three tasks at program points, parked ones too, and keeps what each will get back from the routine it is in |
| `TaskCode.ProgramRunIsRun` | 1_bootloader/pm_demo/bootloader_stage2.asm:774-930 | every run of this program, with ticks between any two instructions, is a run that the scheduler's theorems are about |
| `TaskCode.ProgramStacksStayShallow` | 1_bootloader/pm_demo/bootloader_stage2.asm:948-954 | with nothing assumed of the code, no run writes a task stack deeper than 68 of its 1024 bytes |
| `TaskCode.ProgramStaysAligned` | 1_bootloader/pm_demo/bootloader_stage2.asm:934-954 | in every run every stack pointer, running or saved, stays a multiple of 4 |
| `TaskCode.CallReturnsIntact` | 1_bootloader/pm_demo/bootloader_stage2.asm:683-710 | a print call preempted at any instructions, any number of times, returns behind the call with an empty stack and EAX and EBX as they were |
| `TaskValues.ValueStep` | 1_bootloader/pm_demo/bootloader_stage2.asm:683-815 | each instruction makes the register values that the next program point asks for, from the counter word, the digit in BL and the decrements done |
| `TaskValues.CounterCounts` | 1_bootloader/pm_demo/bootloader_stage2.asm:776-805 | in every run, however preempted, a task's counter word is its start value plus the `inc` instructions the task has executed, modulo 2^32 |
| `TaskValues.OthersKeepCounter` | 1_bootloader/pm_demo/bootloader_stage2.asm:602-930 | no tick, no boot step and no other task's instruction changes it |
| `TaskValues.TaskComputes` | 1_bootloader/pm_demo/bootloader_stage2.asm:777-815 | in every run: at the print call EAX is the counter modulo 256 and EDI the task's screen address; the stored words are 0x0C and the two hexadecimal digits of that byte, the high one first, two bytes apart; when the delay is over ECX is 0 after exactly the delay's number of decrements |
| `TaskValues.RoundCountsOne` | 1_bootloader/pm_demo/bootloader_stage2.asm:774-815 | left alone from the top of its loop a task comes back there, with one more in its counter |
| `SchedulerMachine.Machine.EnterInterrupt` | 1_bootloader/pm_demo/bootloader_stage2.asm:602-603 | what an interrupt gate pushes and how it moves ESP |
| `SchedulerMachine.Machine.HandlerEntry` | 1_bootloader/pm_demo/bootloader_stage2.asm:602-625 | the handler up to the switch leaves the interrupted context in a frame at ESP, counts the tick modulo 2^32 and writes nothing else but 12 bytes below |
| `SchedulerMachine.Machine.PrintHex8` | 1_bootloader/pm_demo/bootloader_stage2.asm:683-710 | restores EAX, EBX and ESP, advances EDI by 4 and uses 12 bytes of stack |
| `SchedulerMachine.Machine.FirstSwitch` | 1_bootloader/pm_demo/bootloader_stage2.asm:880-891 | loads task A's saved ESP, sets the started flag and touches only 12 bytes below that ESP |
| `SchedulerMachine.Machine.NormalSwitch` | 1_bootloader/pm_demo/bootloader_stage2.asm:900-923 | saves ESP in the interrupted task's block and no other, rotates, and loads the next task's ESP |
| `SchedulerMachine.Machine.TimerInterrupt` | 1_bootloader/pm_demo/bootloader_stage2.asm:602-930 | one timer interrupt, executed instruction group by instruction group, is a `Tick` in every state the invariant allows |
| `SchedulerMachine.Machine.RunEvents` | 1_bootloader/pm_demo/bootloader_stage2.asm:602-930 | the machine goes through a run of the program under any sequence of timer interrupts and instructions, a tick possible between any two |
| `SchedulerMachine.Machine.Instruction` | 1_bootloader/pm_demo/bootloader_stage2.asm:774-815 | fetching at EIP and executing in place is exactly the instruction of the value model, whose effects the `TaskCode` and `TaskValues` members state |
| `SchedulerMachine.Machine.Boot` | 1_bootloader/pm_demo/bootloader_stage2.asm:296-323 | from the call of `init_scheduler` through `sti` into any sequence of ticks and instructions: a program run from the start state, with task (m - 1) mod 3 current after m ticks |
| `SchedulerMachine.Machine.BuildInitialFrame` | 1_bootloader/pm_demo/bootloader_stage2.asm:745-772 | returns the ESP of a frame from which `popad` and `iretd` start the entry, with the build's EIP and selector, zero registers and flags 0x202, and changes no other word but its own two pushes |
| `SchedulerMachine.Machine.InitScheduler` | 1_bootloader/pm_demo/bootloader_stage2.asm:818-869 | leaves three built frames, 44 bytes below the tops of three 1024-byte stacks, their ESPs in the control blocks, task 0 current and ESP as it was: the start state of the run theorems |
| `EntryPoints.FramesArrive` | 1_bootloader/pm_demo/bootloader_stage2.asm:745-772 | after set-up each frame's CS:EIP leads, through the decoded descriptor of the build's own table, into an executable segment at CS * 16 + L in Method A and at 0x60000 + L in Method B |
| `EntryPoints.FirstRunArrives` | 1_bootloader/pm_demo/bootloader_stage2.asm:745-772 | and in any run each task is at that linear address when it runs for the first time |
| `EntryPoints.BuildsStartAlikeExactlyAt6000` | 1_bootloader/pm_demo/bootloader_stage2.asm:760-767 | the two builds start a task at the same linear address if and only if CS is 0x6000 |
| `Descriptors.DescRoundTrip` | 1_bootloader/pm_demo/bootloader_stage2.asm:148-155 | decoding a packed descriptor gives back the base, the low 20 limit bits, the access byte and the high flags |
| `Descriptors.PatchSetsBase` | 1_bootloader/pm_demo/bootloader_stage2.asm:88-98 | for every descriptor and CS the patch makes the decoded base CS * 16 and keeps limit, access and flags |
| `Descriptors.PatchCodeA` | 1_bootloader/pm_demo/bootloader_stage2.asm:94-98 | in place, changes descriptor 1 as above and no other byte of the table |
| `Descriptors.TableIsUsable` | 1_bootloader/pm_demo/bootloader_stage2.asm:148-168 | in the table of either build, for every CS: entry 0 null; both code entries present, ring 0, code, executable, readable, 32-bit, page-granular with last offset 2^32 - 1; the data entry the same but writable and not executable; CodeB and Data with base 0 |
| `Descriptors.Times16Is` | 1_bootloader/pm_demo/bootloader_stage2.asm:66-75 | the base is 16 times CS in numbers |
| `Descriptors.GdtAddressIsLinear` | 1_bootloader/pm_demo/bootloader_stage2.asm:66-75 | the 16-bit multiply, add and carry compute CS * 16 + gdt_start |
| `Descriptors.BuildsEnterSameAddress` | 1_bootloader/pm_demo/bootloader_stage2.asm:78-112 | for every CS both builds enter the same linear address under the same limit, access and flags (what these are: `Descriptors.TableIsUsable`) |
| `Descriptors.GateRoundTrip` | 1_bootloader/pm_demo/bootloader_stage2.asm:343-347 | decoding a packed gate gives back the handler address, the selector and 0x8E00 |
| `Descriptors.SetGate` | 1_bootloader/pm_demo/bootloader_stage2.asm:632-647 | writes one gate and leaves the rest of the IDT alone |
| `Descriptors.HandlerLinearA` | 1_bootloader/pm_demo/bootloader_stage2.asm:335-347 | a Method A gate arrives at CS * 16 plus the label |
| `Descriptors.HandlerLinearB` | 1_bootloader/pm_demo/bootloader_stage2.asm:335-347 | a Method B gate arrives at 0x60000 plus the label |
| `Descriptors.BuildsAgreeExactlyAt6000` | 1_bootloader/pm_demo/bootloader_stage2.asm:335-347 | the two builds' gates reach the same handler if and only if CS is 0x6000 |
| `Ring.StepKeepsInv` | 4_ebpf_security/kernel-agent/src/performance_optimized.bpf.c:272-284 | every producer step, drain and consumer step keeps the ring invariant, across the wrap of both heads |
| `Ring.TestIsFull` | 4_ebpf_security/kernel-agent/src/performance_optimized.bpf.c:274-277 | the masked comparison refuses exactly when `ring_mask` events are unread |
| `Ring.RingIsFifo` | 4_ebpf_security/kernel-agent/src/performance_optimized.bpf.c:272-284 | the consumer has received a prefix of the published events, whole and in order; at most `ring_mask` are unread, each whole in its slot |
| `Ring.RefusedOnlyWhenFull` | 4_ebpf_security/kernel-agent/src/performance_optimized.bpf.c:277 | in any run the test refuses a packet if and only if `ring_mask` events are unread; that the others are published is `RingDelivery.PassedIsDelivered` |
| `Ring.NoOverwrite` | 4_ebpf_security/kernel-agent/src/performance_optimized.bpf.c:277-278 | no store of the producer, pending or to come, lands on the slot of an unread event |
| `Ring.NoTear` | 4_ebpf_security/kernel-agent/src/performance_optimized.bpf.c:280-282 | whenever the heads differ the next slot is wholly written |
| `Ring.PowersAreGoodSizes` | 4_ebpf_security/kernel-agent/src/performance_optimized.bpf.c:56-62 | masks 2^k - 1 for every k up to 64 satisfy what the theorems ask of the size |
| `Ring.MaskIsMod` | 4_ebpf_security/kernel-agent/src/performance_optimized.bpf.c:277-278 | bit by bit, `head & (2^k - 1)` is the remainder by 2^k that the other members use |
| `RingDelivery.DeliversWhatPassed` | 4_ebpf_security/kernel-agent/src/performance_optimized.bpf.c:272-284 | in every run, told from the schedule: what the producer has published is exactly the packets that arrived, in order and unchanged, minus those whose test found `ring_mask` unread; the consumer has read exactly the first of them; and both heads count them |
| `RingDelivery.PassedIsDelivered` | 4_ebpf_security/kernel-agent/src/performance_optimized.bpf.c:277-282 | from every reachable test with room a continuation publishes this packet, and a further one has the consumer read everything up to and with it |
| `Batch.GrantedConserves` | 4_ebpf_security/kernel-agent/src/performance_optimized.bpf.c:146-153 | submitted plus refused is what was flushed |
| `Batch.GrantedEmbeds` | 4_ebpf_security/kernel-agent/src/performance_optimized.bpf.c:146-153 | the submitted events are an order-preserving subsequence of the flushed ones |
| `Batch.BatchBuffer.Flush` | 4_ebpf_security/kernel-agent/src/performance_optimized.bpf.c:143-161 | submits the pending events in slot order under any pattern of refusals, empties the batch and counts one flush if it was not empty |
| `Batch.BatchBuffer.AddToBatch` | 4_ebpf_security/kernel-agent/src/performance_optimized.bpf.c:163-177 | always returns 0 and drops nothing; a full batch is flushed first, so the count ends between 1 and 64 |
| `Batch.BatchBuffer.Record` | 4_ebpf_security/kernel-agent/src/performance_optimized.bpf.c:212-227 | a hook adds its event with the count it read as `batch_id`, making the 64 reservations of a full batch first with the answers given and none otherwise; a pending event's id is its slot, or 64 in slot 0 |
| `Batch.BatchBuffer.PeriodicFlush` | 4_ebpf_security/kernel-agent/src/performance_optimized.bpf.c:366-372 | empties the batch with one reservation a pending event, in slot order, and counts one flush if there was any; adds and drops nothing |
| `Batch.BatchBuffer.Accounting` | 4_ebpf_security/kernel-agent/src/performance_optimized.bpf.c:143-177 | added = submitted + pending + refused, and submitted then pending is an order-preserving subsequence of added |
| `Batch.Replay` | 4_ebpf_security/kernel-agent/src/performance_optimized.bpf.c:143-227 | after any sequence of hooks and flushes under any pattern of answers: the reservations made are exactly those of the pattern, submitted events are the granted ones, submitted + pending + failed reserves = hooks, order and every event's place kept, `dropped` 0 |
| `Batch.ReservationsCount` | 4_ebpf_security/kernel-agent/src/performance_optimized.bpf.c:143-227 | reservations made plus events pending is the number of hooks |
| `Batch.AllGranted` | 4_ebpf_security/kernel-agent/src/performance_optimized.bpf.c:146-153 | nothing is refused if and only if every reservation is granted |
| `KeyRing.Monitor.KeyboardHook` | 1_bootloader/SentinelDOS/attack.s:51-85 | a press becomes the newest of the last 2048 and counts modulo 2^16; a release changes nothing in the shared area |
| `KeyRing.Monitor.SnapshotHoldsLast` | 1_bootloader/SentinelDOS/attack.s:68-85 | after any presses the shared area unrolls to the last min(presses, 2048), oldest first |
| `KeyRing.BufferStartIsStart` | 1_bootloader/SentinelDOS/keysave.s:230-237 | the 16-bit subtraction with borrow gives the slot of the oldest code, in 0..2047 |
| `KeyRing.NextSiStaysInRing` | 1_bootloader/SentinelDOS/keysave.s:314-326 | advancing SI goes round the ring even at the top of the segment |
| `KeyRing.WriteKeystrokes` | 1_bootloader/SentinelDOS/keysave.s:225-331 | the read loop yields exactly the unrolled ring |
| `KeyRing.TypeThenSave` | 1_bootloader/SentinelDOS/keysave.s:274-331 | writer and reader together: any codes typed, the reader yields exactly the last min(presses, 2048) press codes, oldest first |
| `Cipher.CutIgnoresRest` | 1_bootloader/SentinelDOS/btcrypt.asm:300-301 | what follows the terminating NUL in the buffer does not matter |
| `Cipher.PlainPassword` | 1_bootloader/SentinelDOS/btcrypt.asm:255-270 | keys without Enter and backspace give their first 15 characters, cut at the first NUL, whatever follows Enter |
| `Cipher.BackspaceUndoes` | 1_bootloader/SentinelDOS/btcrypt.asm:280-298 | a character the line has taken and a backspace right behind it can be deleted from any key sequence without changing the password |
| `Cipher.BackspaceOnEmpty` | 1_bootloader/SentinelDOS/btcrypt.asm:280-283 | so can a backspace on an empty line |
| `Cipher.FullLineTakesNoMore` | 1_bootloader/SentinelDOS/btcrypt.asm:265-266 | so can a character on a line of 15 |
| `Cipher.XorFileAt` | 1_bootloader/SentinelDOS/btcrypt.asm:311-355 | byte i of the file is XORed with byte (i mod 512) mod length of the key, or 0xFF |
| `Cipher.Crypt.GetPassword` | 1_bootloader/SentinelDOS/btcrypt.asm:244-308 | the buffer's NUL-terminated key is the line the keys edit to (backspace, at most 15, Enter), cut at its first NUL, whatever the buffer held before |
| `Cipher.WalkNext` | 1_bootloader/SentinelDOS/btcrypt.asm:326-342 | one step of DI reads key byte i mod length and never leaves the key |
| `Cipher.Crypt.EncryptBuffer` | 1_bootloader/SentinelDOS/btcrypt.asm:311-355 | byte i of the chunk is XORed with the password byte i mod its length, or 0xFF for an empty password; the rest of the buffer stays |
| `Cipher.Crypt.ProcessFile` | 1_bootloader/SentinelDOS/btcrypt.asm:88-115 | chunk by chunk, byte i of the file is XORed with the password byte (i mod 512) mod its length or 0xFF |
| `Cipher.Crypt.Encrypt` | 1_bootloader/SentinelDOS/btcrypt.asm:49-115 | the output is the signature and the XORed file |
| `Cipher.Crypt.Decrypt` | 1_bootloader/SentinelDOS/btcrypt.asm:131-204 | accepts exactly when the first four buffer bytes are the signature, also for files shorter than four bytes, whose missing bytes are what the buffer held |
| `Cipher.UndoneIff` | 1_bootloader/SentinelDOS/btcrypt.asm:190-191 | a second pass gives the file back if and only if both used the same stream |
| `Cipher.SameStreamIff` | 1_bootloader/SentinelDOS/btcrypt.asm:325-342 | two keys have the same stream if their words commute, and only then over a file as long as both words together |
| `Cipher.RecoveredIff` | 1_bootloader/SentinelDOS/btcrypt.asm:155-204 | decrypting with another password returns the file if and only if the streams agree over it; from 30 bytes on, if and only if the words commute |
| `Cipher.RoundTrip` | 1_bootloader/SentinelDOS/btcrypt.asm:49-204 | encrypt then decrypt: always accepted, and the file comes back under exactly those conditions, so always for keystrokes that edit to the same password |
| `Allocations.Analyzer.TraceMalloc` | 4_ebpf_security/kernel-agent/src/memory_analyzer.bpf.c:307-328 | creates or updates the caller's profile and nothing else |
| `Allocations.Analyzer.TraceMallocRet` | 4_ebpf_security/kernel-agent/src/memory_analyzer.bpf.c:361-389 | tracks the returned address with size 1024, unless it is 0 or the map refuses it |
| `Allocations.Analyzer.TraceFree` | 4_ebpf_security/kernel-agent/src/memory_analyzer.bpf.c:393-440 | counts a tracked free in the caller's profile, if any, and forgets the region; reports a double free exactly for an untracked address other than 0 |
| `Allocations.Analyzer.TraceMmap` | 4_ebpf_security/kernel-agent/src/memory_analyzer.bpf.c:444-464 | creates or updates the caller's profile; the peak stays |
| `Allocations.Analyzer.TraceProcessExit` | 4_ebpf_security/kernel-agent/src/memory_analyzer.bpf.c:514-552 | reports a leak exactly when regions are active and more than 1 MB is outstanding, modulo 2^64, and deletes the profile but no region |
| `Allocations.RegionsAreHolders` | 4_ebpf_security/kernel-agent/src/memory_analyzer.bpf.c:372-388 | after any history an address is tracked exactly if its last event is a stored return, for that process and with size 1024; 0 never is |
| `Allocations.ProfilesCount` | 4_ebpf_security/kernel-agent/src/memory_analyzer.bpf.c:307-464 | after any history every live profile holds the unbounded counts since its creation, wrapped: active = malloc + mmap - free modulo 2^32, freed = 1024 times the counted frees modulo 2^64; while the total fits in 64 bits the peak is the total at the last malloc on an existing profile |
| `Allocations.ActiveExactIff` | 4_ebpf_security/kernel-agent/src/memory_analyzer.bpf.c:429-434 | the active count is exact if and only if the net count is in 0..2^32-1 |
| `Allocations.OrderlyIsCovered` | 4_ebpf_security/kernel-agent/src/memory_analyzer.bpf.c:307-549 | in an orderly history of any number of processes, tracked regions and pending mallocs never exceed the net count |
| `Allocations.OrderlyIsExact` | 4_ebpf_security/kernel-agent/src/memory_analyzer.bpf.c:307-549 | there, below overflow, the active count is exact, at least the tracked regions, and the leak report means more than 1 MB beyond 1024 bytes a free |
| `Allocations.FreeFindsOne` | 4_ebpf_security/kernel-agent/src/memory_analyzer.bpf.c:429-434 | there no counted free decrements a zero |
| `Allocations.OneProcessIsOrderly` | 4_ebpf_security/kernel-agent/src/memory_analyzer.bpf.c:361-440 | a single process whose returns follow their entries, that has not exited, is orderly |
| `Allocations.ReusedPidWraps` | 4_ebpf_security/kernel-agent/src/memory_analyzer.bpf.c:547-549 | counterexample: exit keeps regions, so a reused process id ends with active count 2^32 - 1 |
| `Allocations.ForeignFreeWraps` | 4_ebpf_security/kernel-agent/src/memory_analyzer.bpf.c:401-434 | counterexample: freeing an address tracked for another process wraps the count |
| `Allocations.ReportRightIff` | 4_ebpf_security/kernel-agent/src/memory_analyzer.bpf.c:393-425 | for every history, process and address: the double-free report agrees with what the process itself knows (it has the address or not) if and only if the record was kept: nothing recorded since its own recorded event, or another process's later record that leaves the address as the process has it; a refused return needs a region that stood already, an exit none standing |
| `Allocations.RecordsAndEvents` | 4_ebpf_security/kernel-agent/src/memory_analyzer.bpf.c:372-440 | a record later than the process's last own event is another process's; one missing for it means an exit or a refused return |
| `Allocations.OneProcessReport` | 4_ebpf_security/kernel-agent/src/memory_analyzer.bpf.c:361-425 | for one process alone the report is wrong exactly after a return that the map refused with no region standing |
| `Allocations.SharedAddressFalseAlarm` | 4_ebpf_security/kernel-agent/src/memory_analyzer.bpf.c:401-425 | counterexample: two processes with one address; the second still has it after the first's free, and its free is reported |
| `Allocations.RefusedRegionFalseAlarm` | 4_ebpf_security/kernel-agent/src/memory_analyzer.bpf.c:386-425 | counterexample: one orderly process and a full region map; its first free is reported |
| `Allocations.ForeignFreeUnreported` | 4_ebpf_security/kernel-agent/src/memory_analyzer.bpf.c:401-425 | counterexample: a free of an address that only another process has is not reported |
| `Allocations.Replay` | 4_ebpf_security/kernel-agent/src/memory_analyzer.bpf.c:307-552 | the probes fed any history end in the maps that the theorems speak of, and each report is the one read off the history before it |
| `Shuffle.ShuffledPermutes` | 3_microarch_demos/cache_tlb_latency/cache_random_demo.c:14-21 | any choices leave a permutation |
| `Shuffle.EveryOrderIsReached` | 3_microarch_demos/cache_tlb_latency/cache_random_demo.c:14-21 | every order of distinct elements is reached by some choices |
| `Shuffle.ChoicesAreUnique` | 3_microarch_demos/cache_tlb_latency/cache_random_demo.c:14-21 | and by one sequence of choices only |
| `Shuffle.ShuffleIsBijection` | 3_microarch_demos/cache_tlb_latency/cache_random_demo.c:14-21 | so choices and orders correspond one to one |
| `Shuffle.ShuffleInPlace` | 3_microarch_demos/cache_tlb_latency/cache_random_demo.c:14-21 | for every random stream and n at least 1 the loop stays in bounds and leaves the order its choices name, a permutation of the old one |
| `Shuffle.SumPermuted` | 3_microarch_demos/cache_tlb_latency/cache_random_demo.c:28-32 | the sum through an order is the same for every permutation of it |
| `Shuffle.TimedAccess` | 3_microarch_demos/cache_tlb_latency/cache_random_demo.c:23-32 | the loops add up the array through the order, once a pass |
| `Shuffle.SequentialSum` | 3_microarch_demos/cache_tlb_latency/cache_random_demo.c:54-58 | over the initial arrays the sum is n(n-1)/2, while indices fit in an int |
| `Shuffle.Measure` | 3_microarch_demos/cache_tlb_latency/cache_random_demo.c:54-66 | the sequential and the random pass give the same total, n(n-1)/2 a pass |

## Left out

- Semaphores are taken to be locked instructions: as on x86, they drain the caller's store buffer.
- Timing, printing, thread pinning, performance scripts and their analysis: measurement and output only.
- The ARM branch of the barrier and the single-threaded fence benchmark: the machine is x86-TSO.
- Thread cancellation and joining after the litmus loop: a worker that main has waited for runs its last post and ends.
- 32-bit and 64-bit overflow of the counters in the litmus, contention, hand-off and parity programs: their counts stay below the word size for the iteration counts they use, so they are integers here.
- Semaphore value limits and failing semaphore or thread calls: the programs ignore their results.
- Exception stubs of the boot loader: their stack offsets do not match what was pushed, so nothing is claimed of them.
- PIC and PIT port writes, segment registers and video text: video memory is write-only and disjoint from stacks and control blocks, so the characters are not in the model.
- Placement of the scheduler variables: control blocks, `current_task` and counters are fields of their own, disjoint from the stacks, and `scheduler_started` is 0 when the scheduler is set up, which the set-up code does not ensure itself.
- Arithmetic flags that no branch of the tasks reads: ZF and CF are modelled where `jbe` and `jnz` read them; instructions whose flags are overwritten unread leave them alone, and the bits below bit 9 other than ZF and CF are 0 after `cmp` and `dec`.
- `TaskCode.InstructionStands`: the digit stores go to video memory and are no-ops here; `TaskValues.TaskComputes` states the words stored and their addresses.
- `SchedulerMachine.Machine.PrintHex8`: the two characters are computed but not stored, as video memory is not modelled.
- `Scheduler.StacksStayShallow`: the depth d of task code is a premise, as the member is about any tasks; `TaskCode.ProgramStacksStayShallow` proves it for this program's.
- `Scheduler.StacksStayAligned`: that task code keeps ESP aligned is a premise, as the member is about any tasks; `TaskCode.ProgramStaysAligned` proves it for this program's. Words are addressed by their first byte, so unaligned accesses would not be modelled.
- Method selection mixes: a build is Method A or Method B throughout, as the build lines do it.
- Other producers of the shared-memory ring: the head update is not atomic, so the theorems are for one producer; the consumer is an environment that reads a published slot and then releases it.
- Packet parsing, sampling, process caches, per-CPU statistics and kernel helpers of the monitoring hooks: a reservation, lookup or update may fail, and each hook is atomic on its CPU.
- `Batch.BatchBuffer.Record`: one payload field stands for the hook-specific event fields.
- Statistics counters of the hooks and the contents of reported events.
- Page-fault, stack-overflow and access-pattern probes of the memory analyzer: they only add to counters or fill reports.
- Concurrent probes of the memory analyzer on one profile: its updates are plain read-modify-write, and each probe is one step here.
- Resident memory search and text formatting of the key saver: the reader sees a snapshot of the shared area, and its loop yields codes instead of text.
- DOS errors and short reads before the end of a file: a read returns min(512, what is left).
- `Cipher.Crypt.GetPassword`: a line without Enter, on which the program waits for ever, is excluded.
- `Shuffle.ShuffleInPlace`: n = 0 is excluded; the index would start at the largest size value, and the program never calls it so. `rand` is any stream, so its modulo bias is not analysed.
- `Shuffle.TimedAccess`: the sum is an integer; it fits in 64 bits for the array sizes that fit in memory.
- Sentinel loaders, syscall modifier, keyboard guard, the DOS boot stages, the parser benchmark and the Rust and C comparison: easy or constant-size members only.
