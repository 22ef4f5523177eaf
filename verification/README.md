# Nebula OS kernel: a verified model

A Dafny 4.11 model of the simulated kernel of Nebula OS and of the task-side code that shares its
formats: the PCB table with its three ring-buffer queues, the scheduler and the aging loop, RAM and
HDD accounting across threads, the deadlock detector, the message format between tasks and kernel,
the resource dashboard, the log daemon's rotation and the to-do list.

Check it with `dafny verify dfyconfig.toml`.

## How it is built

- **State machine.** `KernelSpec` gives each critical section under the table lock (create, remove,
  scheduler tick, aging tick, minimize, resume, interrupt, unblock, set priority) as a function from
  one `KernelState` to the next. A run is any sequence of such steps. `Enabled` is what the
  environment guarantees: a new process has a PID no PCB in the table has, the clock does not run
  backwards, and a request gets its level's own priority (ipc_manager.cpp:57-59). Interrupting and
  setting a priority have no caller in the repository; they are ordinary steps here, and each
  theorem that needs to exclude them says so in its precondition.
- **Imperative code.** `KernelMachine.Kernel`, `RingQueue.KernelQueue`, `DeadlockDetector.Detector`,
  `Accounting.MemoryManager` and `TodoList.TodoStore` are classes with the program's own fields,
  arrays and loops; each method is proved equal to its step. A queue entry is a slot number standing
  for the pointer to that table element; a PCB is a value, copied when slots shift.
- **Threads.** In `Accounting`, granting, storing, removing, reclaiming and each log line are
  separate atomic actions of any number of threads, interleaved freely with all kernel steps. The
  amounts are accounted for whatever PIDs the requests come from. Where PIDs matter (`PidLaws`,
  `Bounds`, `ThreadRuns`) a request comes from a PID that nobody alive has; the PID of a process
  that is gone may come again. `IpcHandler` is the request handler as one piece of code over the
  classes, run alone.

- **Effects.** `Effects`, `Births` and `RoundRobin` say what the steps do without the functions that
  define them: per field, per queue, and over the run.

Capacity, core count and RAM/HDD totals are parameters.

## Main results

1. *No starvation* (`Starvation.NoStarvation`): any READY process at table index i, in any reachable
   state and any run, is dispatched once the run has contained 5*max(2, p) - w%5 aging ticks
   (5*max(1, p) - w%5 from Q1) and after that i + 1 scheduler ticks, plus one per unblock of an
   earlier slot, unless it is removed, minimized or resumed first or its priority number is raised
   by hand while it is not yet in Q0. Without aging there is no bound: for every n a process can stay
   READY through n ticks that each dispatch another (`Starvation.WithoutAgingStarves`).
2. *Cycle detection is exact* on every matrix (`DeadlockDetector.Detector.Search`), with a witness
   that closes into a cycle; yet *the detector never reports a deadlock*, whatever the table holds
   (`DeadlockDetector.Detector.RunDetection`), because the graph it draws is layered; what that graph says
   of two processes is `DeadlockDetector.WaitsForIff`.
3. *Conservation* of RAM and HDD over every interleaving, recycled PIDs included
   (`Accounting.RunConserves`). What is free stays between nothing and the total, now and in every
   continuation by non-negative requests, *if and only if* no negative request has been granted
   (`Bounds.RequestSafeIff` for one request in any state, `Bounds.WithinTotalIff` for whole runs).
   However many threads race, each PCB is reclaimed at most once (`PidLaws.ReclaimedAtMostOnce`).
4. *The dashboard agrees*: once all lines of a run of non-negative requests are written, in whatever
   order they landed, and if no task name in them passes for another line or breaks one, what the
   screen shows after all clamps is the kernel's total, its free RAM and HDD, and as process count the
   number of PCBs plus the creations a full table dropped (`Dashboard.DashboardShowsKernel`).
5. *Queues and table agree* in every reachable state (`Agreement.ReachableAgrees`), so no push fails.
6. *First come, first served, by the run itself*: every PCB is for life what its creation in the run
   asked for, the table lists its PCBs in the order of their creations (`Births.RunRegisters`), and what
   a tick takes from Q2 was created no later than any READY process of that level
   (`Births.BackgroundIsFirstCome`). With nobody READY in Q0, a Q1 of n distinct
   READY entries is a round robin: n ticks dispatch them in order and leave it as it was
   (`RoundRobin.FullRound`).
7. *From a task's name to its queue*: the text "REQ:name:ram:hdd", if granted, puts one PCB behind the
   others and its slot into Q0 with priority 0, Q1 with 3 or Q2 with 6, for exactly the two, the eleven
   and all other names (`IpcHandler.PrintedRequestIsPlaced`).
8. *Threads are runs*: every interleaving of threads drives the kernel through a valid run of its own
   steps (`ThreadRuns.ThreadsAreRuns`), so 1 and 5 hold under any interleaving
   (`ThreadRuns.ThreadsDoNotStarve`, `ThreadRuns.ThreadsKeepKernelLaws`).

## Where the code differs from its documentation

The model follows the code.

- README.md:282 promises a round robin on Q1. The tick pops the front but pushes the dispatched
  entry, so it is a rotation exactly when the dispatched entry is the front one
  (`Scheduling.RotationKeepsPartitionIff`); a run in which a READY process becomes invisible to the
  scheduler is `Scheduling.UnblockedProcessIsInvisible`. That run interrupts and unblocks. Only an
  interrupt starts an unblock, and nothing in the program sends one, so by
  `Scheduling.ReachableReadyOnce` no run of the program as it stands loses a READY process.
- README.md:281 promises the highest priority from Q0. The sort never swaps; the promise holds
  because, unless priorities are set by hand, Q0 only ever holds priority 0
  (`Bookkeeping.Q0PickIsBest`).
- README.md:286 ages non-running processes; the code ages READY and RUNNING ones
  (`Aging.AgeCountsDown`).
- README.md:177 promises that deadlocks are logged; none ever is.
- A dispatch takes no core, while minimizing and interrupting give one back, so the free-core
  counter only grows (`Bookkeeping.RunCores`). It exceeds the number of cores exactly after a release
  (`Bookkeeping.FreeCoresWithinTotalIff`), as in the run create, dispatch, minimize
  (`Bookkeeping.MinimizeMakesACore`).
- A grant that finds the table full keeps the resources without a PCB: the `leaked` amount of
  `Accounting`, which ends up as exactly what is missing (`Accounting.AllReturned`). Two grants on a
  table with room for one are such a run (`LeakRun.FullTableLosesAGrant`).
- Requests for negative amounts are granted. After such a grant, and only then, some continuation by
  non-negative requests takes what is free out of its bounds (`Bounds.RequestSafeIff`).

## Model

| member | source | states |
|---|---|---|
| RingQueue.KernelQueue.constructor | kernel.h:69 | a new queue is an empty sequence |
| RingQueue.RingPush | kernel.h:71-77 | writing at the rear appends to the sequence, also where the ring wraps |
| RingQueue.RingPop | kernel.h:79-85 | advancing the front drops the head and nothing else, also where the ring wraps |
| RingQueue.RingIndexIsRemainder | kernel.h:74-91 | the index the proofs use is the remainder the code computes |
| RingQueue.KernelQueue.Push | kernel.h:71-77 | appends unless the queue is full, and says which |
| RingQueue.KernelQueue.Pop | kernel.h:79-85 | removes and returns the head; nothing on an empty queue |
| RingQueue.KernelQueue.Size | kernel.h:87 | the length of the sequence |
| RingQueue.KernelQueue.Get | kernel.h:89-92 | indexing from the head, nothing out of range |
| RingQueue.KernelQueue.Remove | kernel.h:94-103 | the queue becomes its subsequence of entries with other PIDs |
| RingQueue.WithoutPidFilters | kernel.h:94-103 | that subsequence keeps no entry with the PID and loses no other |
| RingQueue.WithoutPidConcat | kernel.h:94-103 | the filter of two queues one behind the other is the two filters one behind the other, so it keeps order and multiplicity |
| RingQueue.WithoutPidOne | kernel.h:100 | a single entry is kept exactly when its process has another PID |
| RingQueue.WithoutPidUnchanged | scheduler.cpp:106 | a queue without the PID, as for the -1 of every promotion, comes back entry for entry |
| RingQueue.KernelQueue.Drain | process_manager.cpp:68-70 | popping until nothing comes back empties the queue |
| KernelTypes.LettersDecide | scheduler.cpp:42-93 | the one- and two-letter tests identify READY, RUNNING and BLOCKED exactly |
| KernelTypes.TaskLevels | process_manager.cpp:10-22 | System is exactly "Clock" and "Log Daemon", Interactive exactly the eleven names listed, Background every other text |
| KernelMachine.Kernel.constructor | os.cpp:20-33 | the kernel starts with an empty table, empty queues and all cores free |
| KernelMachine.Kernel.CreatePcb | process_manager.cpp:24-43 | is the create step: a READY PCB behind the others and its slot behind its level's queue, nothing on a full table; the push has room |
| KernelMachine.Kernel.RemovePcb | process_manager.cpp:55-79 | is the remove step: the first PCB of the PID shifted out and all queues rebuilt; returns the amounts it held |
| KernelMachine.Kernel.ShiftDown | process_manager.cpp:65-66 | the shift deletes exactly one PCB and keeps the order of the rest |
| KernelMachine.Kernel.RebuildQueues | process_manager.cpp:68-75 | afterwards each queue is the slots of its level in table order; every push has room |
| KernelMachine.Kernel.SetProcessPriority | process_manager.cpp:111-126 | is the priority step, clamped to 0..10; succeeds exactly when the PID is in the table |
| KernelMachine.Kernel.DispatchProcess | scheduler.cpp:10-18 | makes one PCB RUNNING on the assigned core and changes nothing else |
| KernelMachine.Kernel.SchedulerTick | scheduler.cpp:28-70 | is the scheduler step, and dispatches exactly when some queue holds a READY entry |
| KernelMachine.Kernel.Rotate | scheduler.cpp:54-55 | Q1 loses its front entry and gains the dispatched one |
| KernelMachine.Kernel.FindReady | scheduler.cpp:40-45 | finds the first READY entry of a queue |
| KernelMachine.Kernel.AgingTick | scheduler.cpp:91-116 | is the aging step, with a rebuild exactly when a level changed |
| KernelMachine.Kernel.AgePcbs | scheduler.cpp:92-104 | ages every PCB in place and reports whether one changed level |
| KernelMachine.Kernel.SendInterrupt | interrupt_handler.cpp:53-68 | is the interrupt step: a RUNNING process is blocked and gives its core up |
| KernelMachine.Kernel.UnblockAfterDelay | interrupt_handler.cpp:17-27 | is the unblock step: a BLOCKED process becomes READY |
| KernelMachine.Kernel.SendMinimize | interrupt_handler.cpp:72-81 | is the minimize step: the process is minimized and gives its core up |
| KernelMachine.Kernel.SendResume | interrupt_handler.cpp:85-93 | is the resume step: the process is RUNNING again |
| Effects.CreateEffect | process_manager.cpp:24-43 | with room exactly one PCB is added, all eleven fields given, and one entry behind the queue of its level; on a full table nothing changes |
| Effects.CreatedByName | ipc_manager.cpp:57-59 | the new PCB has the level and priority 0, 3 or 6 its name stands for, and its slot goes to the end of that queue only |
| Effects.RemoveNobody | process_manager.cpp:59-60 | removing a PID that no PCB has changes nothing, nor the order of any queue |
| Effects.RemoveEffect | process_manager.cpp:58-76 | otherwise the first PCB of the PID is deleted and every queue becomes the slots of its level in table order |
| Effects.AgingEffect | scheduler.cpp:91-116 | while no PCB changes level all queues stay as they are; if one does, each becomes the slots of its level |
| Effects.QuietAgingKeepsRotation | scheduler.cpp:105-116 | a run from boot whose aging tick promotes nobody and leaves Q1 as [1, 1], where the slots of its level are [0, 1] |
| Effects.TickQueues | scheduler.cpp:31-69 | a tick leaves Q0 and Q2 alone, and Q1 too unless it dispatches from it: then all others move up one and the dispatched entry goes last |
| Effects.AssignedCoreIsNearest | scheduler.cpp:13-15 | the core written is the one of the machine nearest to the number in use |
| Effects.StepArrows | scheduler.cpp:92-103 | for every step and every process it leaves in the table, through any shift: PID, name, amounts, arrival and turnaround stay, and state, core, priority, level and waiting time become what is written out per field |
| RoundRobin.RoundServesInOrder | scheduler.cpp:48-59 | with the first n entries of Q1 READY and distinct and nobody READY in Q0, n ticks dispatch them in order, move them behind the others in that order and make exactly them RUNNING |
| RoundRobin.FullRound | README.md:282 | a full round dispatches each entry of such a Q1 once, in order, and leaves the queue as it was |
| Agreement.StepKeepsInv | process_manager.cpp:24-79 | every step keeps: Q0 and Q2 are their level's slots in table order, Q1's entries are live slots of level 1 and as many as there are, PIDs are unique, priorities lie in 0..10 |
| Agreement.ReachableAgrees | process_manager.cpp:40-75 | all of that holds after every run from boot |
| Agreement.AppendAgrees | process_manager.cpp:26-42 | the queue of a new PCB's level has room, so its push never fails |
| Agreement.RebuildAgrees | process_manager.cpp:68-75 | a rebuild makes Q1 exact too |
| Agreement.SlotsAtExact | scheduler.cpp:111-115 | the slots a rebuild pushes are exactly those of the level, each once, in increasing order |
| Scheduling.TickPicksLeast | scheduler.cpp:27-70 | a tick dispatches the READY entry least in (queue level, position), changes no other PCB, and is idle exactly when no queue holds a READY entry |
| Scheduling.StepKeepsReadyOnce | scheduler.cpp:48-59 | every step but unblocking keeps each READY slot exactly once in its level's queue |
| Scheduling.ReachableReadyOnce | scheduler.cpp:48-59 | so it is after every run without unblocking: the rotation drops non-READY entries only |
| Scheduling.UnblockKeepsReadyOnceIff | interrupt_handler.cpp:19-20 | unblocking keeps it exactly when the slot is not at level 1 or still stands once in Q1 |
| Scheduling.RebuildRestoresPartition | process_manager.cpp:68-75 | every rebuild puts every slot exactly once in its level's queue |
| Scheduling.RotationKeepsPartitionIff | scheduler.cpp:48-59 | a partitioned Q1 stays one exactly when the dispatched entry is at the front |
| Scheduling.UnblockedProcessIsInvisible | scheduler.cpp:48-60 | a concrete run after which a READY process is in no queue and the scheduler idles |
| Scheduling.TickDispatchesOne | scheduler.cpp:27-70 | with every READY slot in its queue, a tick takes exactly one off the READY count |
| Scheduling.BatchTakesExactly | scheduler.cpp:27-82 | with no other steps, all READY processes are RUNNING after n ticks exactly when n is at least their number, and nothing else changes |
| Scheduling.ReachableBatchTakesExactly | scheduler.cpp:27-82 | so it is in every state a run without unblocking leads to |
| Lifecycle.StepTracks | process_manager.cpp:55-79 | a step does to the process of a PID what ProcAfter says, whatever slot it is shifted to, and only its own removal takes it out of the table |
| Lifecycle.RemoveRemoves | process_manager.cpp:58-66 | after removing a PID no PCB has it |
| Lifecycle.MinimizedUntilResumed | interrupt_handler.cpp:72-81 | through any run a minimized process is neither dispatched, aged nor unblocked until it is addressed again |
| Aging.AgeCountsDown | scheduler.cpp:92-103 | one tick takes exactly one off the ticks to Q0 of a READY or RUNNING process and nothing off any other; levels never rise |
| Aging.RunCountsDown | scheduler.cpp:86-119 | so over every run, through shifts and other steps, unless the priority is set by hand |
| Aging.SystemExactlyAfter | scheduler.cpp:92-103 | a process is at level 0 exactly when it has been through 5*max(2,p) - w%5 counted ticks from Q2, or 5*max(1,p) - w%5 from Q1 |
| Starvation.AgingPhase | scheduler.cpp:92-116 | a process that stays READY reaches Q0 within those ticks, whatever else happens, if no step raises its priority number before it is in Q0 |
| Starvation.TickPicksNoLater | scheduler.cpp:40-45 | with a READY slot in Q0 a tick dispatches that slot or an earlier one |
| Starvation.AheadStep | scheduler.cpp:40-45 | no step but unblocking an earlier slot adds READY slots at or before a waiting process, and each tick takes one off once it is in Q0 |
| Starvation.SystemPhase | scheduler.cpp:31-46 | in Q0, ticks survived are at most READY slots ahead plus earlier unblocks |
| Starvation.NoStarvation | scheduler.cpp:27-117 | README.md:164's promise with a bound, over whole runs from any state the invariant holds in |
| Starvation.LeavesByDispatch | scheduler.cpp:10-18 | a READY process that is not removed, minimized or resumed stops being READY only by dispatch |
| Starvation.WithoutAgingStarves | scheduler.cpp:31-69 | without aging ticks, for every n there is a run from a reachable state with n ticks and n dispatches through all of which one READY process stays READY |
| Bookkeeping.Q0PickIsBest | scheduler.cpp:31-46 | without hand-set priorities the empty-bodied comparison is never true and the pick has the least priority number and the least READY slot of Q0 |
| Bookkeeping.RunKeepsSystemAtZero | scheduler.cpp:96-100 | level 0 means priority 0 in every such run |
| Bookkeeping.RunKeepsArrivalSorted | process_manager.cpp:27-35 | arrival stamps never decrease along the table, across creations and shifts |
| Births.RunRegisters | process_manager.cpp:27-37 | after every run from an empty table each PCB has the name, amounts and time of the last creation of its PID in the run, and table order is the order of these creations |
| Births.CreatedUntilRemoved | process_manager.cpp:35 | a process created at a time carries that time, its name and its amounts through every run that does not remove it |
| Births.BackgroundIsFirstCome | scheduler.cpp:62-69 | what a tick takes from Q2 was created, by its place in the run and by the clock, no later than any READY process of that level, with no READY entry in Q0 or Q1 |
| Bookkeeping.CoreStep | interrupt_handler.cpp:53-95 | what each step does to core numbers and the free-core counter |
| Bookkeeping.RunCores | memory_manager.cpp:58-63 | over every run only RUNNING processes carry a core number, always 0; the counter is the total plus all releases; carriers are dispatches less releases less evictions |
| Bookkeeping.FreeCoresWithinTotalIff | memory_manager.cpp:58-63 | the counter stays within the total exactly while nothing has released a core |
| Bookkeeping.MinimizeMakesACore | interrupt_handler.cpp:72-81 | from boot, creating, dispatching and minimizing one process leaves one core more free than there are |
| Graphs.FinishOrderExcludesCycles | deadlock_detector.cpp:29-30 | nodes finished each after its successors leave no room for a cycle |
| Graphs.WitnessCloses | deadlock_detector.cpp:23-25 | the record, reversed from the second occurrence of its first entry, is a closed walk |
| Graphs.RingNeedsSpareEntry | deadlock_detector.cpp:14 | recording an n-node ring takes n + 1 entries, one more than the program's array has for its n nodes |
| DeadlockDetector.Detector.Dfs | deadlock_detector.cpp:17-31 | terminates; without a cycle it finishes its node after all successors, with one it leaves a backward walk to a node met before, of at most n + 1 entries |
| DeadlockDetector.Detector.Search | deadlock_detector.cpp:56-63 | for every matrix it reports a cycle if and only if there is one, and then the record is a witness |
| DeadlockDetector.Detector.ClearAll | deadlock_detector.cpp:34-38 | every mark and edge of an earlier round is gone |
| DeadlockDetector.Detector.BuildGraph | deadlock_detector.cpp:41-53 | the matrix holds exactly the edges of the allocation graph |
| DeadlockDetector.GraphEdges | deadlock_detector.cpp:43-52 | a resource points at exactly the RUNNING slots that hold it, exactly the BLOCKED slots that hold RAM or HDD or have no core point at that resource, and there is no other edge |
| DeadlockDetector.WaitsForIff | deadlock_detector.cpp:43-52 | two edges lead from one slot to another exactly when the first is BLOCKED, the second RUNNING, and both hold RAM, both hold HDD, or the first has no core and the second has one |
| DeadlockDetector.AllocationGraphHasNoCycle | deadlock_detector.cpp:41-53 | for every table the drawn graph is layered and has no cycle |
| DeadlockDetector.Detector.RunDetection | deadlock_detector.cpp:33-64 | never reports a deadlock and never writes to the record |
| Accounting.MemoryManager.constructor | memory_manager.cpp:7-11 | everything is free at the start |
| Accounting.MemoryManager.AllocateResources | memory_manager.cpp:20-36 | takes both amounts or neither, and succeeds exactly when both are free |
| Accounting.MemoryManager.ReclaimResources | memory_manager.cpp:38-42 | gives both amounts back |
| Accounting.ActConserves | ipc_manager.cpp:53-62 | every action of every thread keeps free + held by PCBs + in flight + leaked equal to the total, for RAM and HDD |
| Accounting.RunConserves | memory_manager.cpp:20-47 | so over every interleaving, whatever is requested and by whatever PIDs |
| Accounting.FreeStaysWithinTotal | memory_manager.cpp:20-47 | with non-negative requests, 0 <= free <= total in every reachable state |
| Bounds.RequestSafeIff | ipc_manager.cpp:50-53 | in every state with live PIDs apart, amounts conserved and nothing negative held, the bounds hold in all that may follow a request if and only if it is denied or asks for nothing negative |
| Bounds.RunSafeIff | memory_manager.cpp:20-47 | so along every run: each of its states is safe if and only if none of its requests is granted a negative amount |
| Bounds.WithinTotalIff | memory_manager.cpp:20-47 | so for every run from boot |
| Bounds.BreakFromGranted | ipc_manager.cpp:53-73 | from any state with a waiting negative grant, on a full table too, a run by non-negative requests leads out of bounds |
| PidLaws.ReclaimedAtMostOnce | process_manager.cpp:58-82 | over every interleaving racing removers take the PCBs of a PID no more often than they were stored, these were stored no more often than the PID made requests, and all are taken exactly when none is in the table |
| PidLaws.RunKeepsPidLaw | process_manager.cpp:24-79 | if requests come from PIDs that nobody alive has, the kernel invariant holds and live PIDs stay apart, waiting grants included |
| ThreadRuns.ThreadsAreRuns | ipc_manager.cpp:53-73 | every interleaving of threads is, on the kernel, a valid run of steps with the same end |
| ThreadRuns.ThreadsKeepKernelLaws | process_manager.cpp:24-79 | under any interleaving table and queues agree, table order is arrival order, the core laws hold, and without unblocking each READY slot stands exactly once in its queue |
| ThreadRuns.ThreadsDoNotStarve | scheduler.cpp:27-117 | the bound of NoStarvation, dispatch included, among interleaved threads |
| ThreadRuns.StoredByName | ipc_manager.cpp:57-59 | also among threads a grant that finds room is stored at the level and priority of its name |
| ThreadRuns.KernelLinesAreTrue | scheduler.cpp:17-22 | a context switch or resolved interrupt in the log happened, to that process, by that name, on that core; and each one that happens is logged |
| Accounting.ReachableReplayLaw | resource_dashboard.cpp:37-55 | at every moment the replayed log differs from the kernel by exactly what the threads have not yet written |
| Accounting.DashboardAgreesAtQuiescence | resource_dashboard.cpp:37-61 | with all lines written the replay is the kernel's figures, the count being the table plus dropped creations, and no clamp fires |
| Accounting.AllReturned | README.md:171 | with all threads done and the table empty, everything is free but what a full table leaked; nothing is missing if no creation was dropped |
| LeakRun.GrantRuns | ipc_manager.cpp:53-62 | a grant run to its end adds its PCB, or on a full table adds nothing and leaks its amounts; it logs the allocation and the creation |
| LeakRun.RemovalRuns | process_manager.cpp:80-87 | a removal run to its end gives back what the PCB held and logs the reclaim and the termination |
| LeakRun.FullTableLosesAGrant | process_manager.cpp:25-43 | two grants on a table with room for one, then everything over: the table is empty, all threads are done, and one grant is still missing |
| IpcHandler.MessageConserves | ipc_manager.cpp:37-74 | one message keeps free plus what the PCBs hold, except that a grant on a full table loses exactly what was asked for |
| IpcHandler.RequestThenTermination | ipc_manager.cpp:53-73 | a granted request and its termination notice undo each other: all amounts back, the table as it was, queues rebuilt |
| IpcHandler.GrantedByName | ipc_manager.cpp:53-60 | a granted request takes its amounts, answers GRANT with the PID, and places its PCB by name |
| IpcHandler.PrintedRequestIsPlaced | ipc_manager.h:33 | from the printed text: every colon-free name, cut at 63 characters, lands at its level, with its priority, at the end of that queue |
| IpcHandler.PrintedRequestIsDenied | ipc_manager.cpp:60-63 | a printed request for more than is free changes nothing and is answered DENY |
| IpcHandler.TerminationOfNobody | process_manager.cpp:56-60 | a printed notice of a PID that no PCB has changes nothing |
| IpcHandler.TerminationOfFirst | process_manager.cpp:58-81 | otherwise the first PCB of the PID goes, the queues are refilled by level, and exactly its amounts are free again |
| IpcHandler.NoMessageNoChange | ipc_manager.cpp:37-72 | a message that is neither changes nothing and is not answered |
| IpcHandler.GrantRequest | ipc_manager.cpp:53-62 | grants, stores and answers, or denies and changes nothing |
| IpcHandler.TerminateProcess | process_manager.cpp:55-87 | removes the PCB and gives back exactly what it held, if there was one |
| IpcHandler.HandleIpcRequest | ipc_manager.cpp:29-77 | the handler run alone does to kernel, free amounts and sender what its message says |
| CText.ScanPrinted | ipc_manager.cpp:50-51 | scanning a printed integer gives it back and stops right behind it |
| CText.AtoiReads | ipc_manager.cpp:50-51 | blanks, a sign or none, digits and anything else behind them convert to the number of the digits |
| CText.AtoiOfNoNumber | ipc_manager.cpp:50-51 | a text that begins with no number converts to 0 |
| CText.PrintedLength | ipc_manager.h:32-33 | a 32-bit integer prints in at most 11 characters |
| CText.LinesOfLineList | log_daemon.cpp:24-27 | reading lines that fit the buffer gives back the lines written |
| CText.LinesJoin | log_daemon.cpp:24-27 | reading any text in lines loses nothing of it |
| Wire.RequestRoundTripIff | ipc_manager.h:33 | parsing a printed request gives name, RAM and HDD back exactly when the name has no colon and at most 63 characters, for all integers |
| Wire.ThreeStringsParse | ipc_manager.cpp:37-51 | "REQ:" and three strings between two colons are a request, whatever the strings: name cut at 63 characters, two converted numbers |
| Wire.RequestHasThreeStrings | ipc_manager.cpp:37-48 | nothing else is a request |
| Wire.OtherMessages | ipc_manager.cpp:37-72 | exactly what starts with "TERM:" is a notice, and what starts with neither means nothing |
| Wire.TerminationRoundTrip | ipc_manager.h:66 | parsing a printed termination notice gives the PID back |
| Wire.PrintedTexts | ipc_manager.h:33 | "REQ:Clock:10:1", "TERM:7", "GRANT:7" and "DENY", character by character |
| Wire.ReplyRecognized | ipc_manager.h:55 | a task takes a reply for a grant exactly when it is one |
| Wire.RequestFits | ipc_manager.h:32-33 | such a request of 32-bit amounts fits the sender's buffer |
| Wire.BufferHolds | ipc_manager.cpp:35-36 | a message read into the zeroed buffer is the buffer's C string |
| Wire.CutString | ipc_manager.cpp:44-49 | a terminator written into a string cuts it there and leaves the rest a string of its own |
| Wire.HandleMessage | ipc_manager.cpp:37-72 | the in-place parse computes the message of the buffer's C string |
| Wire.SetName | kernel.h:42-49 | copies the name up to its terminator or 63 characters |
| Wire.NameForPcb | ipc_manager.cpp:39-45 | through the handler's uninitialised array the PCB gets the name's first 63 characters |
| Dashboard.LineReadIff | resource_dashboard.cpp:37-55 | a kernel line is read as what it says exactly when the task name in it does not itself contain a searched phrase |
| Dashboard.ResourceTextsWritten | memory_manager.cpp:16-45 | the resource lines, with the fixed texts written out |
| Dashboard.ProcessTextsWritten | process_manager.cpp:51-84 | the process lines, with the fixed texts written out |
| Dashboard.ShownIsClamped | resource_dashboard.cpp:59-61 | the screen shows the figures read, and zero for each of the three that is negative |
| Dashboard.EmptyFileShows | resource_dashboard.cpp:30-32 | an empty log shows 1024 of each, all free, and no process |
| Dashboard.FileReadsAsReplay | resource_dashboard.cpp:34-57 | reading the file of any sequence of such lines is replaying the events |
| Dashboard.DashboardShowsKernel | resource_dashboard.cpp:30-61 | whatever the interleaving of non-negative requests, once all lines are written and no name in them misleads, the screen shows after its clamps the total, the kernel's free RAM and HDD, and as count the PCBs plus the dropped creations |
| Dashboard.TakeLine | resource_dashboard.cpp:38-54 | takes one line into the counts |
| Dashboard.Refresh | resource_dashboard.cpp:30-61 | the loop reads the whole file and clamps the counts: it shows what Shown says |
| LogRotation.RotatedLines | log_daemon.cpp:32-37 | the rotated file is the header and exactly the last min(count, 100) lines in order |
| LogRotation.RotatesIff | log_daemon.cpp:25-36 | the result is defined exactly when none of the last hundred lines has 255 characters |
| LogRotation.RotationIdempotentIff | log_daemon.cpp:17-39 | rotating twice is rotating once exactly from 100 lines up |
| LogRotation.FillRows | log_daemon.cpp:21-27 | the ring holds the last hundred lines |
| LogRotation.PrintRows | log_daemon.cpp:33-37 | prints them in order behind the header |
| LogRotation.RotateLog | log_daemon.cpp:17-39 | together they compute the rotated file |
| TodoList.SaveLoadIff | todo_list.cpp:19-41 | loading what was saved restores a list of at most 50 items exactly when each text has no newline and at most 126 characters |
| TodoList.LoadedSurvive | todo_list.cpp:23-29 | whatever the file holds, every text loaded from it would survive another save and load |
| TodoList.LoadedAtMost50 | todo_list.cpp:23 | whatever the file holds, the list gets no longer than 50 |
| TodoList.LoadSkips | todo_list.cpp:22-30 | a line that is no item adds nothing, and reading goes on behind its newline or its 135th character |
| TodoList.BracketLineLoads | todo_list.cpp:24-28 | any line of five characters or more that starts with a bracket is an item: text from the fifth to the last character but one, at most 126 of them, done exactly when the second is an X |
| TodoList.OtherLines | todo_list.cpp:24 | exactly the lines that do not start with a bracket are no item, and exactly the shorter bracket lines have no defined text |
| TodoList.SavedTexts | todo_list.cpp:38 | "[X] Tea" and "[ ] Tea", character by character |
| TodoList.TodoStore.LoadTodos | todo_list.cpp:19-32 | appends the file's items to the list, up to 50, all of which survive |
| TodoList.TodoStore.SaveTodos | todo_list.cpp:34-41 | the file becomes the list |
| TodoList.TodoStore.Add | todo_list.cpp:68-77 | appends what was typed, or at the end of input the text left over in the slot, less its last character, unless the list is full; the file then equals the list, and the list can be loaded back |
| TodoList.TodoStore.MarkDone | todo_list.cpp:78-87 | marks exactly one item; the file then equals the list, and the list can be loaded back |
| TodoList.TodoStore.Remove | todo_list.cpp:88-98 | deletes one item and keeps the order; the file then equals the list, and the list can be loaded back |

## Left out

- KernelMachine.Kernel.AgingTick: `wait_time` is unbounded here, an `int` in the program; it would take 2^31 seconds to wrap.
- Wire.HandleMessage: numbers outside 32 bits, for which `atoi` is undefined, parse as themselves.
- Accounting.FreeStaysWithinTotal: amounts are unbounded integers; the sums of the program are `int`.
- LogRotation.RotateLog: a kept line of 255 characters has no terminator in its row; the result is then `None`, not what the program would print from the neighbouring row.
- TodoList.TodoStore.LoadTodos: a line of one to four characters that starts with `[` makes loading fail here. The program goes on: with fewer than four characters it copies whatever stands behind the terminator in its buffer, with four it copies nothing and writes before the start of the text.
- TodoList.TodoStore.Add: at the end of input with no text left over in the slot the program writes before the start of the text; adding then fails here.
- Dashboard.LineReadIff: lines other than those of requests, removals, dispatches, unblocks and child exits (start-up notices, the system monitor's, user text) and a rotated or cleared log.
- Dashboard.FileReadsAsReplay: a creation line with a name of 63 characters or more, which is printed from an array without a terminator (ipc_manager.cpp:45, process_manager.cpp:51); names in creation lines have at most 62 here, in dispatch lines 63.
- `acquire_core`: nothing calls it; blocking on a condition variable is not modelled.
- `update_state`, `get_all_pcbs_copy`: no caller, and no effect on the properties above.
- Processes, signals, pipes, sleeping and the wall clock: steps come in any order, messages arrive whole, time is a number that does not decrease.
- Pipes shared by both directions, so that a reply or a message can be read by the wrong side.
- PCBs created after their child was already reaped.
- Storage manager, logger time formatting, menus, the bar drawing and the remaining user programs: input and output, or easy claims only.
