# RiceVM executor: verified model

RiceVM runs Dis bytecode. This project models the parts of its executor whose
correctness depends on more than one function, and proves what they promise:

- the mark-and-sweep collector over a reference-counted heap
  (`trace_map`, `heap`, `reachability`, `gc`, `gc_laws`, `refcount`);
- the frame stack inside one byte buffer, the exception unwinder and the
  debugger's backtrace that re-read it (`frame`, `exceptions`);
- the main run loop with its single-slot channels (`run_loop`,
  `run_loop_laws`, `transfers`, `run_order`, `waiters`, `redirection`, `exits`),
  the preemptive pool (`pool`, `pool_runs`, `pool_quanta`, `pool_order`,
  `pool_retries`) and the cooperative scheduler (`scheduler`, `scheduler_laws`,
  `scheduler_steps`, `scheduler_waiters`, `scheduler_redirection`);
- operand addresses and the typed accessors behind them, as one flat store of
  bytes (`addresses`, `flat_store`, `vm_store`, `ptr_laws`);
- matrix multiply, `nextafter`, `ilogb` and the IEEE remainder (`gemm`,
  `doubles`, `remainder`);
- pipes in the descriptor table, and the queueing channel (`pipes`, `channel`).

Objects that the program updates in place are classes; each of their methods is
proved equal to a function on values, and the laws are lemmas about runs of
those functions. `threads`, `memory`, `arith` and `sums` are shared groundwork.
`dafny verify dfyconfig.toml` checks everything.

## What the proofs turned up

Each is stated with the exact condition under which it happens.

- In arrays of elements whose size is not a multiple of four, the mapped scan
  reads words the conservative scan never reads, so it can keep objects the
  conservative collection frees; elements over 32 MiB are spared, since no array
  of two can be allocated (`CollectorLaws.RefinementExactly`).
- Counting alone never frees an object made by `new`: the count its allocation
  makes is never taken down (`RefCounts.NewNeedsCollector`).
- A blocked thread is queued on the channel its operand named, but retries the
  one its operand names then. If that word of a shared record is changed
  meanwhile, the thread can miss its wake-up and the main loop, like the
  cooperative scheduler, reports a deadlock though it could go on
  (`Waiters.DeadlockExactly`, `Redirection.FalseDeadlock`,
  `SchedulerRedirection.FalseDeadlock`). The pool cannot: it retries whatever
  parked as soon as an instruction has retired (`PoolRuns.DeadlockIsReal`).
- A thread whose exit is the last instruction of its quantum, with other threads
  queued, is switched out as ready before its exit is seen: no exit record is
  made and it is resumed past its end (`Exits.ExitRecordedExactly`, `Exits.ExitLost`).
- The address of a frame byte, stored in module data and followed from there, is
  taken as an offset into the module's own data (`Addresses.LeaThroughMp`).
- Moving a counted pointer to a destination out of range stores nothing but
  keeps the new count (`PointerLaws.MovedHolds`, `PointerLaws.MoveOutOfRangeLeaks`).
- `gemm` with a nil A, k zero and beta one returns C unchanged, though with a
  nil A op(B) should be added (`Gemms.GemmIsFormula`).
- The array write copies what fits of data that runs past the end, the typed
  accessors nothing (`FlatStores.ClippedVersusStored`).

## Reading the model

- Instructions are parameters of the run loop and of both schedulers: a program
  says what each thread does next, and the channel operations, spawning and
  exiting among those are modelled exactly. The channel of a send or a receive,
  like everything else an instruction does, may depend on the shared memory;
  that of an `alt` comes from a table in the thread's own frame or module data.
- The pool is a machine of atomic steps, one per critical section of a worker,
  with any number of workers in any interleaving and with spurious wake-ups.
- Channels can be freed, by the instruction that drops the last reference or, in
  the main loop, by a collection between any two turns; a send, a receive or an
  `alt` that cannot use its channel raises an exception as the program does, which
  a handler may take.
- Ghost fields record histories: what a channel carried, what went through a
  pipe, the references callers hold.
- The cooperative scheduler takes the length of a quantum as a parameter; in the
  program it is 2048 instructions.

## Model

| member | source | states |
|---|---|---|
| `Memory.WordRoundTrip` | crates/ricevm-execute/src/memory.rs:8-21 | a word read where it was written is the value written if the four bytes fit, and zero if they do not |
| `Memory.BigRoundTrip` | crates/ricevm-execute/src/memory.rs:23-36 | the same for eight-byte values |
| `Memory.WordFrame` | crates/ricevm-execute/src/memory.rs:8-14 | a word read depends on its four bytes alone |
| `Memory.WordBytesOfRead` | crates/ricevm-execute/src/memory.rs:8-21 | writing back the word that was read leaves every byte as it was |
| `TraceMaps.New` | crates/ricevm-execute/src/heap.rs:41-58 | the offsets kept are exactly the words whose bit, most significant first, is set and that fit in one element, strictly increasing |
| `TraceMaps.BitsMakeByte` | crates/ricevm-execute/src/heap.rs:41-58 | the eight bits read from a map byte are its binary notation, most significant first |
| `TraceMaps.PointerOffsetsExact` | crates/ricevm-execute/src/heap.rs:60-76 | for any descriptor and buffer, the offsets visited are exactly the in-buffer words marked in their own element, a last partial element included, in strictly increasing order |
| `TraceMaps.AlignedExactly` | crates/ricevm-execute/src/heap.rs:60-76 | every offset visited in every buffer is word-aligned if and only if the stride is a multiple of four or nothing is marked |
| `TraceMaps.AlignedInExactly` | crates/ricevm-execute/src/heap.rs:60-76 | for one buffer: every offset visited in it is word-aligned if and only if the stride is a multiple of four, nothing is marked, or the buffer ends before the first marked word of its second element does |
| `TraceMaps.SecondElementWord` | crates/ricevm-execute/src/heap.rs:60-76 | in any other buffer, the misaligned word that is visited |
| `Collector.CollectIds` | crates/ricevm-execute/src/gc.rs:91-102 | pushes exactly the live ids standing at word-aligned offsets, in order, onto what was there |
| `Reachability.ScanIdsMembers` | crates/ricevm-execute/src/gc.rs:91-102 | the conservative scan finds exactly the live ids at word-aligned offsets |
| `Collector.CollectMappedIds` | crates/ricevm-execute/src/gc.rs:108-116 | pushes exactly the live ids among the mapped words |
| `Reachability.MappedIdsMembers` | crates/ricevm-execute/src/gc.rs:108-116 | the mapped scan finds exactly the live ids in mapped slots |
| `Collector.PushEdges` | crates/ricevm-execute/src/gc.rs:123-160 | pushes exactly the edges of one object, which `Reachability.EdgesExactly` gives field by field |
| `Reachability.EdgesExactly` | crates/ricevm-execute/src/gc.rs:123-160 | an object has an edge to a live object if and only if a field refers to it: of a record, array or ADT a word of its bytes, any aligned one or with a map any marked one; of a list a word of the head or the tail; of a slice the parent; of a channel a word of the pending value |
| `Collector.MarkAll` | crates/ricevm-execute/src/gc.rs:123-160 | from a closed marked set it ends, on cyclic heaps too, with exactly the ids reachable from the worklist added, and the set closed again |
| `Collector.ScanBuffer` | crates/ricevm-execute/src/gc.rs:73-78 | adds exactly what a buffer's words reach |
| `Collector.ScanHeapRefs` | crates/ricevm-execute/src/gc.rs:80-83 | adds exactly what the heap reference table reaches |
| `Collector.ScanThread` | crates/ricevm-execute/src/gc.rs:37-54 | adds exactly what one thread's frames, module data, caller data and references reach |
| `Collector.ScanSuspended` | crates/ricevm-execute/src/gc.rs:56-63 | adds exactly what every suspended thread reaches |
| `Collector.MarkRoots` | crates/ricevm-execute/src/gc.rs:22-65 | the passes over one shared set amount to one marking from all roots together |
| `Reachability.RootsExactly` | crates/ricevm-execute/src/gc.rs:22-83 | a live object is a root if and only if its id stands in the frames, module data, callers' module data or reference table of the running thread or of a suspended one, or in a loaded module's data |
| `Collector.Collect` | crates/ricevm-execute/src/gc.rs:22-66 | what is left is exactly the module handles and the objects to which a chain of live objects leads from such a root, each referring by some field to the next; each is unchanged |
| `Reachability.SurvivorsExactly` | crates/ricevm-execute/src/gc.rs:22-66 | paths of traced edges from the roots are those chains of fields |
| `Reachability.MarkedUnion` | crates/ricevm-execute/src/gc.rs:35-65 | marking in two passes over one shared set equals marking once from both root sets |
| `Reachability.MarkedIsReachable` | crates/ricevm-execute/src/gc.rs:123-160 | a closed set grown from the roots is the set of ids with a path from them, both ways |
| `CollectorLaws.SurvivorEdgesIntact` | crates/ricevm-execute/src/gc.rs:22-66 | no survivor's traced edge to a live object is broken, and its target is unchanged |
| `CollectorLaws.RootsUnchanged` | crates/ricevm-execute/src/gc.rs:22-66 | rescanning the roots after a collection finds the same root set |
| `CollectorLaws.SecondPassFreesNothing` | crates/ricevm-execute/src/gc.rs:22-66 | a second collection from the same roots changes nothing |
| `CollectorLaws.PreciseRefinesConservative` | crates/ricevm-execute/src/gc.rs:104-160 | when the map of each typed object visits aligned words only, an object that survives the mapped collection survives the one with all maps removed |
| `CollectorLaws.RefinementExactly` | crates/ricevm-execute/src/gc.rs:104-160 | over heaps whose typed objects are as `new` and `newa` make them, that holds for all heaps of one map if and only if its stride is a multiple of four, it marks nothing, or `newa` refuses two elements of it as too large |
| `CollectorLaws.StraddlingHeap` | crates/ricevm-execute/src/ops/heap.rs:23-77 | for any other map, a two-element array of that type, within the size `newa` allows, through which the mapped collection keeps an object the conservative one frees |
| `Heaps.Heap.AllocTyped` | crates/ricevm-execute/src/heap.rs:183-201 | a new id, one above the last, with count one; no other object changes |
| `Heaps.Heap.IncRef` | crates/ricevm-execute/src/heap.rs:234-240 | one live object's count goes up by one; nil and dead ids change nothing |
| `Heaps.Child` | crates/ricevm-execute/src/heap.rs:288-311 | the one owned reference: a list's tail, a slice's parent, and none for any other object |
| `Heaps.Heap.DecRef` | crates/ricevm-execute/src/heap.rs:314-332 | the worklist cascade equals dropping one reference and, through each object that dies, the one it owned |
| `Heaps.Heap.Sweep` | crates/ricevm-execute/src/heap.rs:441-444 | keeps exactly the marked objects and the module handles |
| `Heaps.Heap.ArrayWrite` | crates/ricevm-execute/src/heap.rs:371-398 | through any slices, writes the part that fits into the root array and nothing else |
| `Heaps.Heap.CowString` | crates/ricevm-execute/src/heap.rs:459-487 | an unshared string stays; a shared one is released and replaced by a private copy of count one |
| `RefCounts.ReleaseFreesChain` | crates/ricevm-execute/src/heap.rs:288-332 | a release frees exactly the maximal chain of count-one objects, each the tail of a list or the parent of a slice before it, that are not module handles |
| `RefCounts.ReleaseKeepsCounted` | crates/ricevm-execute/src/heap.rs:314-332 | releasing a held reference keeps every count at or above owned links plus held references, and leaves no live tail, parent or held id dangling |
| `RefCounts.ReleaseConserves` | crates/ricevm-execute/src/heap.rs:314-332 | count minus owned in-degree is conserved for every survivor but the argument, whose drops by one |
| `RefCounts.CollectKeeps` | crates/ricevm-execute/src/gc.rs:22-66 | a collection from roots that reach every reference still held, abandoned ones aside, keeps the counting discipline |
| `RefCounts.PerformKeeps` | crates/ricevm-execute/src/heap.rs:183-332 | every allowed heap operation, abandoning a reference without releasing it included, keeps the counting discipline |
| `RefCounts.Carry` | crates/ricevm-execute/src/heap.rs:183-332 | the heap's and the collector's own operations do what each action says |
| `RefCounts.PerformExactly` | crates/ricevm-execute/src/heap.rs:183-332 | what each action leaves of every object that it does not free |
| `RefCounts.HeldExactly` | crates/ricevm-execute/src/heap.rs:183-332 | which references each action takes up and gives up |
| `RefCounts.RunsStaySound` | crates/ricevm-execute/src/heap.rs:183-332 | over every run of allocations, acquisitions, releases, abandonments, mutations and collections, counts cover links and held references and nothing dangles |
| `RefCounts.AnyCollectionRuns` | crates/ricevm-execute/src/gc.rs:22-66 | in any state that keeps the discipline, a collection from any roots keeps it once exactly the held references to what those roots do not reach are abandoned, and leaves exactly what they reach |
| `RefCounts.NewAbandons` | crates/ricevm-execute/src/ops/heap.rs:27-41 | `new` counts the pointer it stores on top of the count its allocation made, and abandons the latter |
| `RefCounts.NewNeedsCollector` | crates/ricevm-execute/src/vm.rs:1384-1394 | so with its last pointer dropped such an object stays, counted once and owned by nothing; a collection frees it if and only if no root leads to it and it is no module handle |
| `RefCounts.RunsKeepLinks` | crates/ricevm-execute/src/ops/pointer.rs:162-250 | over every run, list tails and slice parents are older than their owners, so chains of them end |
| `RefCounts.CowStringPrivate` | crates/ricevm-execute/src/heap.rs:459-487 | copying a shared string leaves the other holders' string alone and gives the caller one nobody shares |
| `FrameStacks.FrameStack.PushEntry` | crates/ricevm-execute/src/frame.rs:44-53 | the entry frame's header and bounds |
| `FrameStacks.FrameStack.AllocPending` | crates/ricevm-execute/src/frame.rs:62-79 | room above everything allocated, or overflow with nothing changed |
| `FrameStacks.FrameStack.ActivatePending` | crates/ricevm-execute/src/frame.rs:83-104 | two header words written, or a bad offset refused with nothing changed |
| `FrameStacks.FrameStack.Pop` | crates/ricevm-execute/src/frame.rs:107-125 | pc and base read back, the buffer cut at the frame |
| `FrameStacks.Spawn` | crates/ricevm-execute/src/ops/concurrency.rs:38-71 | both stacks after a spawn, the child's fresh; a bad offset is refused with nothing changed |
| `FrameChains.PendingKeepsChain` | crates/ricevm-execute/src/frame.rs:62-79 | a pending frame lies above everything and disturbs no header |
| `FrameChains.ActivateExtends` | crates/ricevm-execute/src/frame.rs:83-104 | activating the topmost pending frame adds one link and writes only that frame's header |
| `FrameChains.PopReverts` | crates/ricevm-execute/src/frame.rs:107-125 | pop returns the pc and base its activation saved, with every lower byte unchanged |
| `FrameChains.LastPopEmpties` | crates/ricevm-execute/src/frame.rs:107-125 | popping the entry frame leaves the stack as it was before anything ran |
| `FrameChains.PopExactly` | crates/ricevm-execute/src/frame.rs:107-125 | what a pop does on any buffer, malformed headers included |
| `FrameChains.PendingExactly` | crates/ricevm-execute/src/frame.rs:62-79 | where a pending frame goes on any stack, and when it overflows the 8 MiB limit |
| `FrameChains.SpawnParts` | crates/ricevm-execute/src/ops/concurrency.rs:41-71 | a spawn parts the buffer at the child's frame: the spawner is back in its frame with its chain and every lower byte, the child has the rest, and its header still names the spawner's frame |
| `FrameChains.SpawnExactly` | crates/ricevm-execute/src/ops/concurrency.rs:41-71 | what a spawn leaves on any buffer, and when its frame is refused |
| `FrameChains.SpawnedWellFormed` | crates/ricevm-execute/src/ops/concurrency.rs:49-71 | the child's stack is a chain of one entry frame, wherever its spawner was |
| `FrameChains.RunsKeepChain` | crates/ricevm-execute/src/frame.rs:44-125 | over every run of a first thread or of one spawned from any frame, that activates and spawns from pending frames above the current one and writes data areas only, the buffer holds the chain of open calls |
| `FrameChains.SpawnStartsRun` | crates/ricevm-execute/src/ops/concurrency.rs:41-71 | a thread spawned in a run starts a run of its own, and its spawner goes on in the frame it was in |
| `FrameChains.BasesAscend` | crates/ricevm-execute/src/frame.rs:83-125 | bases strictly decrease along the saved chain |
| `FrameChains.ReturnMatchesCall` | crates/ricevm-execute/src/ops/control.rs:16-60 | each return yields the pc and frame of the call it matches, whatever was called and returned in between |
| `FrameChains.WalkBacktrace` | crates/ricevm-execute/src/debugger.rs:249-275 | the loop lists what re-reading the headers gives |
| `FrameChains.BacktraceExactly` | crates/ricevm-execute/src/debugger.rs:249-275 | what one header adds to the list on any buffer, and when the walk goes on |
| `FrameChains.BacktraceListsCalls` | crates/ricevm-execute/src/debugger.rs:249-275 | on a chain of calls the list is exactly the saved pcs, innermost first, cut at a hundred |
| `FrameChains.SavedPcsMeaning` | crates/ricevm-execute/src/debugger.rs:249-275 | that list entry by entry: its length, each pc, and when it is cut |
| `Exceptions.HandlerExactly` | crates/ricevm-execute/src/vm.rs:768-796 | the lookup gives the first case that matches and has a pc, of the first handler covering the pc that has one, and nothing when there is none |
| `Exceptions.CallerExactly` | crates/ricevm-execute/src/vm.rs:804-822 | when the search goes on to a caller, to which, and at which call |
| `Exceptions.VmState.RaiseExceptionWithValue` | crates/ricevm-execute/src/vm.rs:730-763 | either nothing changes, or the frames above the catcher are popped, the value is stored and the pc set |
| `Exceptions.SearchIsFind` | crates/ricevm-execute/src/vm.rs:730-822 | re-reading headers from the buffer visits the open calls of the chain |
| `Exceptions.FindCatches` | crates/ricevm-execute/src/vm.rs:730-822 | the frame found is the innermost, at or above the floor, that handles the exception |
| `Exceptions.FindMisses` | crates/ricevm-execute/src/vm.rs:730-822 | when none is found, no frame the unwinder may end in handles it |
| `Exceptions.PopsExactly` | crates/ricevm-execute/src/vm.rs:730-760 | popping to a base removes exactly the frames above it |
| `Exceptions.UnwindsExactly` | crates/ricevm-execute/src/vm.rs:730-822 | fatal if and only if no frame down to the floor handles it; otherwise the innermost such frame resumes, exactly those above are gone, and only its exception slot may differ |
| `RunLoops.Vm.UnblockChannel` | crates/ricevm-execute/src/vm.rs:840-850 | threads waiting on the channel, or in alt on any, become ready; the rest and the order stay |
| `RunLoops.Vm.ResumeNextReadyThread` | crates/ricevm-execute/src/vm.rs:855-871 | the first ready thread is loaded, the blocked ones before it go to the back in order; with none, the queue is as it was and the VM halted |
| `RunLoops.Vm.SuspendAndRotate` | crates/ricevm-execute/src/vm.rs:681-696 | the running thread goes to the back ready, and some ready thread is loaded |
| `RunLoops.Vm.SuspendAsBlocked` | crates/ricevm-execute/src/vm.rs:698-711 | the running thread goes to the back blocked, with every saved field |
| `RunLoopLaws.WakeKeepsQueue` | crates/ricevm-execute/src/vm.rs:840-850 | no missed wake-up: after a transfer, whoever is still marked blocked waits on a channel that does not allow its operation or is gone |
| `RunLoopLaws.ExecuteKeeps` | crates/ricevm-execute/src/ops/concurrency.rs:471-613 | send, receive, alt and non-blocking alt, the exceptions they raise included, keep the invariant |
| `Transfers.ExecuteExactly` | crates/ricevm-execute/src/ops/concurrency.rs:471-613 | what every instruction does, channels being in order: a receive is handed, and stores, the oldest value sent on its channel and not yet received; a send leaves its payload in the slot; `alt` takes the first entry that can go, with that value or its payload; a full, empty or dead channel blocks or raises; nothing else changes but that the channel's waiters become ready |
| `RunLoopLaws.TurnKeepsInv` | crates/ricevm-execute/src/vm.rs:581-678 | each turn of the loop keeps it |
| `RunLoopLaws.RunsKeepInv` | crates/ricevm-execute/src/vm.rs:581-678 | in every reachable state, with collections between turns and channels freed, a thread marked blocked waits on a channel that does not allow its operation or is gone, and each channel delivers in the order sent |
| `Transfers.RunsExecuteExactly` | crates/ricevm-execute/src/ops/concurrency.rs:471-613 | so in every reachable state, whoever receives gets the value that the order of sending says |
| `RunOrder.TurnExactly` | crates/ricevm-execute/src/vm.rs:581-711 | every turn: the halted thread recorded, the blocked one queued, a quantum counted or ended; the first ready thread runs next and those before it go behind the others in order |
| `RunOrder.RunsWithin` | crates/ricevm-execute/src/vm.rs:581-711 | no ready thread is passed over: the one at place p in line runs within p + 1 quanta of turns, whatever the others do, unless a fault ends the run |
| `Waiters.RunsSettledExactly` | crates/ricevm-execute/src/vm.rs:581-678 | over a run, every blocked thread's operand names the channel it waits on, and no such channel is freed, in every state if and only if no step changed a channel word that such an operand reads or freed such a channel |
| `Waiters.WaitersBlock` | crates/ricevm-execute/src/ops/concurrency.rs:537-585 | while no step does, every thread marked blocked has an operation that cannot succeed |
| `Waiters.WaitersBlockExactly` | crates/ricevm-execute/src/ops/concurrency.rs:537-585 | in every reachable state, without any condition: a blocked thread would block again if and only if its operand has not come to name another channel, one that lets it go or is not there, and no channel it waits on is gone |
| `Waiters.SettledIsNeeded` | crates/ricevm-execute/src/vm.rs:1369-1377 | an unchanged operand, with its channels there, is exactly what it takes for a waiting thread to block whatever else the channels hold |
| `Waiters.DeadlockExactly` | crates/ricevm-execute/src/vm.rs:581-678 | a reported deadlock leaves no thread, running or queued, able to step if and only if no queued thread was so redirected or lost its channel |
| `Waiters.DeadlockIsFinal` | crates/ricevm-execute/src/vm.rs:581-678 | while no step changes a channel word that a blocked thread's operand reads or frees a channel it waits on, a deadlock is reported only when every thread would block again |
| `Redirection.FalseDeadlock` | crates/ricevm-execute/src/vm.rs:840-850 | a run from the start that does change one, and whose ninth state reports a deadlock though the waiting thread could receive |
| `RunLoopLaws.ReadyMeansNoDeadlock` | crates/ricevm-execute/src/vm.rs:581-678 | while a queued thread is ready no deadlock is reported |
| `RunLoopLaws.SwitchLosesNothing` | crates/ricevm-execute/src/vm.rs:681-711 | a switch keeps every thread and every saved field |
| `RunLoopLaws.TurnLosesNoThread` | crates/ricevm-execute/src/vm.rs:581-678 | each turn, after a halt too, keeps exactly the living threads and their saved fields; after an instruction, those it left, but that a switch keeps a thread that halted |
| `Exits.ExitRecordedExactly` | crates/ricevm-execute/src/vm.rs:593-660 | a thread that exits is recorded on the next turn, and only the others remain, if and only if its last instruction did not also end a quantum with others queued; otherwise it is queued as ready, or runs on when no other is ready |
| `Exits.ExitLost` | crates/ricevm-execute/src/vm.rs:593-660 | a run from the start of a program that loses an exit so |
| `Pools.RunThreadQuantaShared` | crates/ricevm-execute/src/scheduler.rs:518-655 | the loop runs the quantum as specified, and counts the instructions it retired |
| `PoolQuanta.RunForCourse` | crates/ricevm-execute/src/scheduler.rs:518-655 | a quantum is a course of instructions, each from the memory and context the one before it left; what it leaves is the last's memory and context, its length in the count, its children in order under new ids; it ends only at a halt, a park, the end of the code or the quantum's |
| `PoolQuanta.CourseUnique` | crates/ricevm-execute/src/scheduler.rs:518-655 | there is only one such course |
| `PoolQuanta.WorkerRunsCourse` | crates/ricevm-execute/src/scheduler.rs:439-514 | in every interleaving a worker's quantum is the course from the memory shared at that point |
| `Pools.ThreadPool.PopReady` | crates/ricevm-execute/src/scheduler.rs:445-482 | one look at the pool: take the first runnable thread, quit, report a deadlock, or wait |
| `Pools.ThreadPool.GiveBack` | crates/ricevm-execute/src/scheduler.rs:495-510 | the thread settles as exited, ready, or parked at the count it saw; its children follow it |
| `PoolOrder.LookTakesFirst` | crates/ricevm-execute/src/scheduler.rs:444-482 | the first thread in line that is ready, or parked before the count reached, is taken, and the others stay in line as they were |
| `PoolOrder.LookTakesNone` | crates/ricevm-execute/src/scheduler.rs:444-482 | with none: wait while a worker has one, end when none is left, and otherwise report a deadlock |
| `PoolOrder.HandBackExactly` | crates/ricevm-execute/src/scheduler.rs:495-510 | a thread goes back to the end of the line in its proper state, its children behind it |
| `PoolOrder.RetainSplits` | crates/ricevm-execute/src/scheduler.rs:448-453 | dropping the exited threads keeps the order of the rest |
| `PoolRuns.LookFacts` | crates/ricevm-execute/src/scheduler.rs:444-482 | one look: a runnable thread is taken, and a deadlock is decided only with threads queued, none in hand and none runnable |
| `PoolRuns.NextKeepsInv` | crates/ricevm-execute/src/scheduler.rs:439-514 | each step of any worker keeps the pool's invariant |
| `PoolRuns.TraceInv` | crates/ricevm-execute/src/scheduler.rs:439-514 | it holds in every interleaving of any number of workers, spurious wake-ups included |
| `PoolRuns.SpuriousWakeExactly` | crates/ricevm-execute/src/scheduler.rs:476-480 | a spurious wake-up lets the waiter look again and changes nothing else |
| `PoolRuns.DeadlockIsReal` | crates/ricevm-execute/src/scheduler.rs:333-346 | a reported deadlock has no thread in flight, equal counts, and every thread that has not exited queued, parked at that count on an operation that would park again |
| `PoolRuns.NeverStuck` | crates/ricevm-execute/src/scheduler.rs:444-510 | some worker can always step until all have returned |
| `PoolRuns.AllReturned` | crates/ricevm-execute/src/scheduler.rs:412-514 | when all workers have returned, a deadlock was reported or every thread has exited |
| `PoolRuns.StepsWithoutProgressEnd` | crates/ricevm-execute/src/scheduler.rs:444-510 | a step that retires nothing lowers a rank, so the pool cannot spin |
| `PoolRetries.RetriedAtMostOnce` | crates/ricevm-execute/src/scheduler.rs:333-346 | between two takes of one thread, by any workers, the shared instruction count strictly grew |
| `PoolOrder.TakenWithin` | crates/ricevm-execute/src/scheduler.rs:439-514 | no runnable thread is passed over: in every interleaving the one at place i in line is among the next i + 1 that any workers take |
| `PoolRuns.IdsKept` | crates/ricevm-execute/src/scheduler.rs:439-514 | each step keeps every thread id in exactly one place: queued, in hand, or exited |
| `Schedulers.Scheduler.RotateToReady` | crates/ricevm-execute/src/scheduler.rs:227-239 | the first thread that is not blocked comes to the front by rotation, or false |
| `Schedulers.Scheduler.RunThreadQuanta` | crates/ricevm-execute/src/scheduler.rs:241-303 | the loop runs the quantum as specified |
| `Schedulers.Scheduler.DispatchForThread` | crates/ricevm-execute/src/scheduler.rs:659-781 | running over mirrors ends as if the waiting threads themselves were queued in the VM |
| `Schedulers.Scheduler.WakeThreads` | crates/ricevm-execute/src/scheduler.rs:762-770 | exactly the blocked threads whose mirror was unblocked become ready |
| `Schedulers.Scheduler.RunRound` | crates/ricevm-execute/src/scheduler.rs:195-221 | the body of the loop: retain, rotate, run, hand back |
| `Schedulers.MirrorsSuffice` | crates/ricevm-execute/src/scheduler.rs:659-781 | the empty mirrors tell an instruction all it uses of the waiting threads |
| `SchedulerSteps.StepExactly` | crates/ricevm-execute/src/scheduler.rs:659-781 | a step leaves the shared state, the front thread's context and halting, its waiters and its children as the instruction on the VM over them does; it blocks or fails when that does |
| `SchedulerSteps.QuantumIsCourse` | crates/ricevm-execute/src/scheduler.rs:241-303 | a quantum is a course of such steps, each from where the last ended, which stops early only at a halt, a block, the end of the code or a failure |
| `SchedulerLaws.DispatchExactly` | crates/ricevm-execute/src/scheduler.rs:659-781 | an instruction readies exactly the threads waiting on the channel it moved a value on or in alt, keeps the rest in order, and appends each child with its whole context and a fresh id |
| `SchedulerLaws.RunsKeepInv` | crates/ricevm-execute/src/scheduler.rs:195-303 | in every reachable state a thread marked blocked waits on a channel that does not allow its operation or is gone |
| `SchedulerWaiters.RunsSettledExactly` | crates/ricevm-execute/src/scheduler.rs:195-303 | over a run, every blocked thread's operand names its channel, and that is there, in every state if and only if no round changed a channel word that such an operand reads or freed such a channel |
| `SchedulerWaiters.WaitersBlock` | crates/ricevm-execute/src/scheduler.rs:195-303 | while no round does, every thread marked blocked has an operation that cannot succeed |
| `SchedulerWaiters.WaitersBlockExactly` | crates/ricevm-execute/src/scheduler.rs:195-303 | without any condition: a blocked thread would block again if and only if its operand was not redirected to a channel that lets it go or is not there, and no channel it waits on is gone |
| `SchedulerLaws.DeadlockExactly` | crates/ricevm-execute/src/scheduler.rs:195-239 | a deadlock is reported if and only if there are live threads and all are blocked |
| `SchedulerWaiters.DeadlockIsReal` | crates/ricevm-execute/src/scheduler.rs:195-239 | each thread would then block again if and only if none was redirected or lost its channel, and so does while no round changes a channel word that a blocked thread's operand reads or frees a channel it waits on |
| `SchedulerRedirection.FalseDeadlock` | crates/ricevm-execute/src/scheduler.rs:195-239 | two rounds after which the only thread is reported deadlocked though it could receive |
| `SchedulerLaws.ReadyGoesOn` | crates/ricevm-execute/src/scheduler.rs:195-239 | with a live ready thread the scheduler neither stops nor reports a deadlock |
| `SchedulerLaws.StartsWithin` | crates/ricevm-execute/src/scheduler.rs:195-239 | a ready thread at index i starts a quantum within i + 1 rounds, untouched until then |
| `SchedulerLaws.RoundLosesNoThread` | crates/ricevm-execute/src/scheduler.rs:195-221 | a round keeps every live thread under its id with its saved context, the runner's as its quantum left it, adds every child under a new id, and drops the runner only when it halted with others queued |
| `Addresses.DecodeExactly` | crates/ricevm-execute/src/address.rs:72-108 | exactly which words decode to which location: regions do not meet, and an offset never crosses into another |
| `Addresses.LeaExactly` | crates/ricevm-execute/src/ops/pointer.rs:19-60 | the word and table that `lea` leaves for each kind of target, and when it refuses one |
| `Addresses.LeaRoundTrip` | crates/ricevm-execute/src/ops/pointer.rs:19-60 | following an address made for a frame byte, a module byte or a heap element reaches that location plus the offset |
| `Addresses.LeaStaysValid` | crates/ricevm-execute/src/ops/pointer.rs:45-127 | an address leads back whatever entries later instructions add to the heap references |
| `Addresses.LeaInjective` | crates/ricevm-execute/src/ops/pointer.rs:19-60 | two addresses made one after the other, whatever entries came between, are distinct words if they name distinct locations |
| `Addresses.FrameBytesAddressable` | crates/ricevm-execute/src/frame.rs:62-79 | every data byte of a frame the bounded stack hands out decodes back to itself |
| `Addresses.LeaThroughFrame` | crates/ricevm-execute/src/address.rs:129-194 | an address kept in a frame slot leads back through a double-indirect operand |
| `Addresses.LeaThroughMp` | crates/ricevm-execute/src/address.rs:163-189 | one kept in module data does so if and only if it is not a frame address; those are taken as offsets into the module's own data |
| `Addresses.FrameAddressLost` | crates/ricevm-execute/src/address.rs:163-189 | such a frame address |
| `Addresses.RefusedExactly` | crates/ricevm-execute/src/address.rs:129-194 | operands refused: reserved modes, negative offsets, frame offsets out of range, and no others |
| `Addresses.ResolveExactly` | crates/ricevm-execute/src/address.rs:129-194 | what each accepted operand names, mode by mode |
| `Addresses.IndirectExactly` | crates/ricevm-execute/src/address.rs:139-189 | where a word leads: nil nowhere, a flagged word to its entry of the reference table if there is one, any other where it decodes to |
| `VmStores.VmMemory.FindModuleMp` | crates/ricevm-execute/src/vm.rs:1026-1061 | the running module, then the innermost caller, then the loaded modules |
| `FlatStores.ModuleRegionExactly` | crates/ricevm-execute/src/vm.rs:1026-1061 | which data a module index names: the running module's, else the innermost caller's, else a loaded module's, else none |
| `FlatStores.LocateExactly` | crates/ricevm-execute/src/vm.rs:1064-1279 | which bytes each kind of target names |
| `VmStores.VmMemory.HeapWrite` | crates/ricevm-execute/src/vm.rs:980-1010 | one all-or-nothing store at the root of the slices |
| `VmStores.VmMemory.ReadWordAt` | crates/ricevm-execute/src/vm.rs:1064-1092 | a load of four bytes from the flat store, whatever the target |
| `VmStores.VmMemory.WriteWordAt` | crates/ricevm-execute/src/vm.rs:1094-1123 | a store of four bytes; an immediate is refused |
| `VmStores.VmMemory.ReadBigAt` | crates/ricevm-execute/src/vm.rs:1125-1147 | a load of eight bytes |
| `VmStores.VmMemory.WriteBigAt` | crates/ricevm-execute/src/vm.rs:1149-1176 | a store of eight bytes |
| `VmStores.VmMemory.ReadByteAt` | crates/ricevm-execute/src/vm.rs:1231-1252 | a load of one byte |
| `VmStores.VmMemory.WriteByteAt` | crates/ricevm-execute/src/vm.rs:1254-1279 | a store of one byte |
| `VmStores.VmMemory.MovePtrToDst` | crates/ricevm-execute/src/vm.rs:1384-1394 | the new reference is counted, stored, and only then the old one dropped; an immediate is refused with the count already taken |
| `FlatStores.LoadStored` | crates/ricevm-execute/src/vm.rs:1064-1279 | what was written in range is read back through any target naming the same place |
| `FlatStores.TypedReadBack` | crates/ricevm-execute/src/vm.rs:1064-1176 | the same for words and bigs |
| `FlatStores.ByteReadBack` | crates/ricevm-execute/src/vm.rs:1231-1279 | the same for bytes |
| `FlatStores.ImmediateReads` | crates/ricevm-execute/src/vm.rs:1064-1252 | an immediate reads as its own value, a byte of it as the least significant |
| `FlatStores.LoadElsewhere` | crates/ricevm-execute/src/vm.rs:1064-1279 | a write changes no cell it does not overlap, through whatever target it is read |
| `FlatStores.OutOfRange` | crates/ricevm-execute/src/vm.rs:1064-1279 | out of range, a write does nothing and a read gives zeros |
| `FlatStores.SliceIsRootAtSum` | crates/ricevm-execute/src/heap.rs:347-398 | any depth of slices is the root at the sum of their starts, for reads and writes |
| `FlatStores.CurrentModuleAliases` | crates/ricevm-execute/src/vm.rs:1015-1061 | the running module's data is one region under both of its names |
| `FlatStores.HeapSliceLoads` | crates/ricevm-execute/src/vm.rs:949-977 | the recursive slice read is a load |
| `FlatStores.ArrayReadLoads` | crates/ricevm-execute/src/heap.rs:347-368 | the array read is a load where the root is an array, and none elsewhere |
| `FlatStores.ClippedVersusStored` | crates/ricevm-execute/src/heap.rs:371-398 | the array write and the accessor store agree if and only if the data fits whole, not at all, or changes nothing where it fits |
| `FlatStores.ClippedDiffers` | crates/ricevm-execute/src/heap.rs:371-398 | an array and two bytes on which they differ |
| `PointerLaws.MovedStaysLive` | crates/ricevm-execute/src/vm.rs:1384-1394 | the object moved survives even when the pointer it replaces owned it |
| `PointerLaws.SelfMove` | crates/ricevm-execute/src/vm.rs:1384-1394 | moving a pointer onto itself changes nothing |
| `PointerLaws.MovedHolds` | crates/ricevm-execute/src/vm.rs:1384-1394 | the destination holds the pointer if and only if it is in range and dropping the pointer it held frees neither its root nor a slice on the way there |
| `PointerLaws.MoveOutOfRangeLeaks` | crates/ricevm-execute/src/vm.rs:1384-1394 | out of range, nothing is stored but the object keeps the extra count |
| `Gemms.RealArrays.Gemm` | crates/ricevm-execute/src/math.rs:1044-1249 | the call's verdict and the whole heap after it, every path |
| `Gemms.HoldsExactly` | crates/ricevm-execute/src/math.rs:1094-1103 | the size check of a matrix accepts if and only if its columns do not overlap and every element of it lies in the array, with the cases of no rows and no columns |
| `Gemms.CheckExactly` | crates/ricevm-execute/src/math.rs:1066-1124 | exactly when a call runs, has nothing to do, or is refused, and for which flag, dimension or matrix |
| `Gemms.SweepColumns` | crates/ricevm-execute/src/math.rs:1161-1222 | the nests with A as it is compute the formula column by column |
| `Gemms.DotColumns` | crates/ricevm-execute/src/math.rs:1184-1240 | the nests with A transposed do |
| `Gemms.NilColumns` | crates/ricevm-execute/src/math.rs:1148-1160 | with A nil, op(B) stands for the product |
| `Gemms.ScaleColumns` | crates/ricevm-execute/src/math.rs:1137-1147 | with alpha zero, C is scaled |
| `Gemms.GemmIsFormula` | crates/ricevm-execute/src/math.rs:1044-1249 | every accepted call leaves alpha op(A) op(B) + beta C in each window element, aliasing included, if and only if it is not a nil A with k zero, beta one and a non-zero op(B) element |
| `Gemms.NilASkipped` | crates/ricevm-execute/src/math.rs:1083-1085 | such a call |
| `Gemms.GemmTouchesOnlyWindow` | crates/ricevm-execute/src/math.rs:1044-1249 | padding rows, the rest of C and every other array stay as they were |
| `Gemms.IndicesInRange` | crates/ricevm-execute/src/math.rs:1087-1124 | an accepted product reads A and B within their arrays |
| `Doubles.NextAfterIsNext` | crates/ricevm-execute/src/math.rs:896-921 | from x towards a different y: not NaN, strictly towards y and not past it, with no double in between |
| `Doubles.StepBack` | crates/ricevm-execute/src/math.rs:896-921 | stepping back returns to the same value |
| `Doubles.NextAfterOtherwise` | crates/ricevm-execute/src/math.rs:896-905 | NaN exactly when an operand is; equal values give the second |
| `Doubles.UnitsOrder` | crates/ricevm-execute/src/math.rs:911-918 | magnitudes order the values they encode |
| `Doubles.PatternExactly` | crates/ricevm-execute/src/math.rs:896-921 | a pattern is its sign, exponent and fraction, and by these a NaN, infinite or finite |
| `Doubles.IlogbExactly` | crates/ricevm-execute/src/math.rs:409-426 | for finite non-zero x the result is the one e with 2^e <= |x| < 2^(e+1), subnormals included |
| `Doubles.IlogbSpecial` | crates/ricevm-execute/src/math.rs:409-416 | the special results are for zero, and for infinities and NaNs, only |
| `Remainders.IeeeRemainder` | crates/ricevm-execute/src/math.rs:319-340 | NaN cases, an infinite divisor, and otherwise a remainder by a nearest whole quotient, even at ties, a zero result with the sign of x |
| `Remainders.RemainderUnique` | crates/ricevm-execute/src/math.rs:319-340 | such a remainder is unique |
| `Pipes.Pipe.Read` | crates/ricevm-execute/src/filetab.rs:484-504 | takes bytes from the front; end of file only when nothing is queued and no write end is open |
| `Pipes.FileTable.Pipe` | crates/ricevm-execute/src/filetab.rs:790-815 | two fresh descriptors on one new pipe |
| `Pipes.FileTable.Read` | crates/ricevm-execute/src/filetab.rs:820-826 | bytes consumed are those that leave the queue; end of file on a non-empty buffer if and only if nothing is queued and no descriptor holds a write end |
| `Pipes.FileTable.Write` | crates/ricevm-execute/src/filetab.rs:849-855 | appends to the queue and the history of one pipe |
| `Pipes.FileTable.Dup` | crates/ricevm-execute/src/filetab.rs:876-903 | the target, or -1 with nothing changed; each pipe still counts its write ends in the table |
| `Pipes.FileTable.Close` | crates/ricevm-execute/src/filetab.rs:911-917 | removes all but the standard descriptors, counting down a write end |
| `Pipes.FileTable.DropHandle` | crates/ricevm-execute/src/filetab.rs:529-534 | dropping a write end counts it down |
| `Pipes.FileTable.InsertEntry` | crates/ricevm-execute/src/filetab.rs:900-903 | storing a handle drops the one it replaces |
| `Pipes.FileTable.InsertHost` | crates/ricevm-execute/src/filetab.rs:746-757 | anything else that is opened takes a descriptor never used before, and leaves every pipe's count of write ends exact |
| `Pipes.FileTable.SetOwner` | crates/ricevm-execute/src/filetab.rs:923-926 | the descriptor's one recorded owner is the new one, and no other record changes |
| `Pipes.WithoutOwnerSplits` | crates/ricevm-execute/src/filetab.rs:911-917 | dropping a descriptor's owner records keeps the others in order |
| `Pipes.WithoutOwnerOfOne` | crates/ricevm-execute/src/filetab.rs:911-917 | and drops exactly that descriptor's |
| `Pipes.EndsInserted` | crates/ricevm-execute/src/filetab.rs:876-903 | how storing a handle changes the number of write ends in the table |
| `Pipes.EndsRemoved` | crates/ricevm-execute/src/filetab.rs:911-917 | how removing one does |
| `QueueChannels.Channel.TrySend` | crates/ricevm-execute/src/channel.rs:39-51 | hands the data to the first waiting receiver, or queues |
| `QueueChannels.Channel.TryRecv` | crates/ricevm-execute/src/channel.rs:54-65 | takes the first waiting sender's data, or queues |
| `QueueChannels.MatchedInOrder` | crates/ricevm-execute/src/channel.rs:39-65 | over any run the k-th receive is matched with the k-th send, and the queues are exactly the unmatched suffixes, never both non-empty |

## Left out

- Opcode bodies other than send, receive, alt, spawn, exit, call and return: the model takes what an instruction does as a parameter.
- Host input and output: files, standard input, sockets, clocks, the environment; a host-backed descriptor is an opaque handle here, and `read_blocking` and `seek` are not modelled.
- `draw.rs`, `tk.rs`, `audio.rs`, the command line, and all of the debugger but its backtrace: user interface.
- Integer width: offsets, ids, counts and descriptor numbers are unbounded, so the checked additions that refuse an overflowing offset appear as plain range checks; the 2^31 limit is kept where addresses are decoded.
- Byte order: words are laid out least significant byte first, as on the usual hosts, where the code takes the host's order.
- Faults inside pool workers and cross-module calls nested on the host stack: the pool's steps are fault-free instructions of initially ready threads.
- Main loop: a program counter past the end of the code, and exception handlers for nil and bounds faults of other instructions are not steps of the run loop model; a collection, which may come between any two turns, may free any channels and change memory freely; the cooperative scheduler's end-of-code halt is.
- Scheduler faults: a faulting instruction ends the modelled run and what it changed before faulting is not followed.
- Locks and the condition variable are modelled by what a critical section does, not by how they are acquired.
- Real-valued accessors read and write the same eight bytes as the big ones and are not repeated; an immediate reads as zero there.
- Floating-point rounding: `gemm` and the remainder are in exact arithmetic, and `gemm`'s arrays hold exact reals behind element-aligned slices; Bessel, error and gamma functions and the digests have no exact specification.
- `Gemms.RealArrays.Gemm`: operands arrive decoded from the frame, and a flag word is taken already cut to its low byte.
- `FrameChains.RunsKeepChain`: runs call and spawn from frames above the current one and write only data areas, as compiled code does; activating a frame inside or below the current one is outside it.
- `RefCounts.RunsStaySound`: callers release only references they hold, a new link consumes one, and the roots of a collection reach every held object but the abandoned; that the opcodes keep to this is proved of `new` only.
- `Gemms.GemmIsFormula`: slices are taken to lie inside their arrays, as slicing checks when it makes them.
- `SchedulerLaws.StartsWithin`: counts rounds that complete; a faulting instruction ends the run before them.
- `array_data_mut` is marked as dead code and follows one slice only; module data initialisation in `data.rs` is mostly bounds checks.
- Descriptor owners are filtered and recorded, but closing descriptors whose owner was collected is not modelled.
