# Schnauzer: race detection, trace recording and scheduling, verified

Schnauzer finds data races in C/C++ programs. An instrumented program records a trace of its
accesses, lock operations and thread operations; an offline detector runs vector clocks over the
trace and reports unordered conflicting pairs; scripts collect the reports; an optional scheduler
(SCS) gives every thread an amount of money per epoch and makes it wait when the money is spent.

This project models these parts and proves that they do what they are for. `dafny verify
dfyconfig.toml` checks everything.

## What is modelled

**The detector.** `Events` holds the event record and its predicates, `HappensBefore` the ordering
as a relation on a whole trace: program order, release to acquire on one address, create to child,
created or logged child to join. `HB` is the transitive closure of these edges (`HBTransitive`,
`HBLeast`). `ClockMachine` is one step of the vector-clock machine as a function; `VarMetaData`,
`RaceAnalysis` and `TraceLoading` are the source's classes, updating their tables in place, proved
against that function. `Races` says what is to be reported, on the trace alone: `Racy` is an
unordered conflicting pair, `Reported` a racy pair with no store to the address in between,
`SyncReported` a release and an acquire with no acquire in between. `ClockLaws` says of every
operation by its name what it orders and which clock components it moves; `RawTraces` says of the raw
trace what expansion and filtering make of it and which raw accesses race. The number of threads `n`
is a parameter (the source fixes 50). An event pointer is a position in the trace.

**The recorder.** `Runtime` is the instrumented program as interleaved steps over real mutexes,
condition waits, thread creation and joins: mutexes are locked, tried, unlocked and destroyed, slots
are reserved by fetch-and-add, alone, in pairs or as a thread's batch, and written in later steps. A
mutex is taken by one thread at a time; waits may end at any time. `LogSlots`, `LockTraces` and
`ThreadOrder` prove what every reachable log looks like; `LogContents` proves that it is complete: it
computes from the actions of a run alone what every thread has performed, and that is what stands in
the log. `EndToEnd` and `Reports` connect it to the detector. `Logging` is the logger's own code, its
counter, its event array and the threads' batch variables, each function proved to perform the steps
of the machine.

**The scheduler.** `Scs` is the money discipline as interleaved steps of hooks and supervisor over
one mutex and one condition variable, with 64-bit wrapping money; `Money` is the money manager.
`ScsHooks` says of every hook by its name what it does to the money. Random amounts are any positive
amounts. With `SYNC_ONLY` the function-call hooks are simply never invoked, which is one of the runs.

**Around them.** `Tids` is thread-id allocation, `Detection` the grouping and per-thread accounting
of reports, `RaceTable`, `RaceFiles` and `RaceLoading` the race table, its text form and the scripts
that read it back.

Four things in the code differ from what one would expect, and the model follows the code.

- The after-unlock hook enters a sync operation a second time instead of leaving it
  (`runtime/scs/ScScheduler.cpp:183-189`), so the epoch budget fails for a program that unlocks.
  `UnlockOverspends` is the run, `OverspendsExactly` and `BudgetBrokenExactly` say exactly when the
  budget is exceeded.
- The hooks log accesses of length zero (clearing or copying no bytes), on which the loader's
  assertion stops (`common/Event.h:133-136`). `EmptyStoreRejected` is the run,
  `LengthsAssertedExactly` and `SavedLogLoads` give the condition on the hooks' arguments.
- TRYLOCK is logged also when the call failed, and a LOCK is logged around destroying a mutex
  (`runtime/core/Interface.cpp:263-268`, `286-292`); nothing in the log tells these events from the
  others. `FailedTrylockBreaks` is a run whose log is no legal lock trace, `PlainLogLegalExactly` says
  exactly which logs are. `LoggedTracesLegal` holds of every run once these events are discounted, and
  `LockedDataNeverReported` holds although the detector counts them.
- The overlap test of two accesses is wrong for ranges that reach the top of the address space.
  `OverlapTestWraps` is such a range, `OverlapTestExact` the guard under which the test is right.

A comment calls the clearing of the read and write sets on a store unsound
(`analyze/depgraph/VarMetaData.cpp:25-27`): pairs are lost, but `NoRacyAddressLost` and
`EarliestRaceReported` show that no racy variable and no first race is.

## Model

| member | source | states |
|---|---|---|
| Events.OverlapTestExact | common/Event.cpp:148-161 | the overlap test of two accesses agrees with sharing an expanded address if and only if neither range reaches the top of the address space, or one does and the other fills the gap it leaves or stays inside it |
| Events.OverlapTestWraps | common/Event.cpp:148-161 | a range ending exactly at the top of the address space is denied to overlap itself |
| Events.ShareAddressRange | common/Event.cpp:177-184 | which ranges share an expanded address, with wrapped ranges included |
| HappensBefore.HBTransitive | analyze/depgraph/VarMetaData.cpp:129-176 | the declared ordering is transitive |
| HappensBefore.HBLeast | analyze/depgraph/VarMetaData.cpp:129-176 | it is contained in every transitive relation that has the edges, so it is their closure and nothing more |
| ClockLaws.SyncEdgeExactly | analyze/depgraph/VarMetaData.cpp:146-176 | between two threads, an edge that involves no creation or join leads exactly from an UNLOCK, SIGNAL or BROADCAST to a later LOCK, TRYLOCK or AWAKE on the same address |
| ClockLaws.ThreadEdgeExactly | analyze/depgraph/VarMetaData.cpp:129-144 | between two threads, an edge that involves one leads exactly from a CREATE to its child, from a thread to a JOIN of it, or from a CREATE to a JOIN of the same thread |
| ClockLaws.AcquireMoves | analyze/depgraph/VarMetaData.cpp:152-169 | LOCK, TRYLOCK and AWAKE: the thread catches up with the variable in every component, nothing else moves |
| ClockLaws.ReleaseMoves | analyze/depgraph/VarMetaData.cpp:155-175 | UNLOCK, SIGNAL and BROADCAST: the variable catches up with the thread, whose own component alone advances by one, nothing else moves |
| ClockLaws.OthersMoveNothing | analyze/depgraph/VarMetaData.cpp:159-160 | WAIT, accesses and calls move no clock |
| ClockLaws.CreateMoves | analyze/depgraph/VarMetaData.cpp:133-137 | CREATE: the child catches up with its creator, whose own component alone advances |
| ClockLaws.JoinMoves | analyze/depgraph/VarMetaData.cpp:138-143 | JOIN: the joining thread catches up with the joined one, whose own component alone advances |
| ClockLaws.SnapshotTaken | analyze/depgraph/VarMetaData.cpp:18-43 | the clock of an acquire is its thread's afterwards, of a join the larger of the two threads', of anything else its thread's before |
| ClockLaws.ReleaseOrdersAcquire | analyze/depgraph/VarMetaData.cpp:146-176 | on whole traces, whatever gives a mutex up or signals orders its thread's past before the future of any thread that takes the mutex or is woken later on the same address: no race between them, and the clocks show it |
| ClockMachine.ClockExactness | analyze/depgraph/VectorClock.cpp:68-75 | for every trace and every pair of positions, the earlier snapshot is pointwise below the later one if and only if the earlier event happens before the later one |
| ClockMachine.NeverBackwards | analyze/depgraph/VectorClock.cpp:101-103 | the snapshot of a later event of another thread is never below an earlier one |
| ClockMachine.ConcurrentExactly | analyze/depgraph/VectorClock.cpp:101-103 | the concurrency test on two snapshots answers exactly "not ordered" |
| ClockMachine.OwnAheadAlways | analyze/depgraph/VarMetaData.cpp:129-188 | throughout every trace a thread's own component is strictly above that component in every other thread's clock and every sync variable's clock |
| ClockMachine.OwnTickExact | analyze/depgraph/VarMetaData.cpp:129-188 | a thread's own component is one plus its creates, unlocks, signals and broadcasts and the joins of it, hence at most the trace length plus one |
| ClockMachine.SnapshotHeard | analyze/depgraph/VarMetaData.cpp:129-176 | if a snapshot is below a later one, the knowledge came along happens-before edges |
| ClockMachine.HBFlows | analyze/depgraph/VectorClock.cpp:26-32 | along happens-before, snapshots only grow: merging forgets nothing |
| VectorClocks.VectorClock.IncTick | analyze/depgraph/VectorClock.cpp:21-24 | one component advances by one modulo 2^64, the others stay |
| VectorClocks.VectorClock.Merge | analyze/depgraph/VectorClock.cpp:26-32 | the clock becomes the pointwise maximum, also when merged with itself |
| VectorClocks.CompareLeq | analyze/depgraph/VectorClock.cpp:68-75 | the loop answers whether every component is below |
| VectorClocks.IsConcurrentWith | analyze/depgraph/VectorClock.cpp:101-107 | neither clock is pointwise below the other |
| VarMetaData.VarMeta.GetThreadVC | analyze/depgraph/VarMetaData.cpp:178-184 | lazy initialisation is invisible: the returned clock is the machine's, whatever was touched before |
| VarMetaData.VarMeta.GetSyncVarVC | analyze/depgraph/VarMetaData.cpp:186-188 | a missing sync clock comes into being as zero and changes nothing else |
| VarMetaData.VarMeta.HandleThreadOpEvent | analyze/depgraph/VarMetaData.cpp:129-144 | CREATE and JOIN perform exactly the machine's step on the objects in place |
| VarMetaData.VarMeta.HandleSyncOpEvent | analyze/depgraph/VarMetaData.cpp:146-176 | every lock, condition and wait event performs exactly the machine's step |
| VarMetaData.VarMeta.PutRead | analyze/depgraph/VarMetaData.cpp:18-21 | the load is remembered with its thread's clock, all other sets are unchanged |
| VarMetaData.VarMeta.PutWrite | analyze/depgraph/VarMetaData.cpp:23-33 | a store forgets the address's loads and stores and remembers itself |
| VarMetaData.VarMeta.PutSyncRel | analyze/depgraph/VarMetaData.cpp:39-43 | the release is remembered with its thread's clock before the tick |
| VarMetaData.VarMeta.ClearSyncRel | analyze/depgraph/VarMetaData.cpp:35-37 | an acquire forgets the address's releases only |
| VarMetaData.VarMeta.GetRaceEvents | analyze/depgraph/VarMetaData.cpp:45-81 | exactly the remembered stores, and for a store also the remembered loads, whose clocks are unordered with the thread's |
| VarMetaData.VarMeta.GetSyncHbEvents | analyze/depgraph/VarMetaData.cpp:83-95 | exactly the remembered releases of the address |
| VarMetaData.CollectConcurrent | analyze/depgraph/VarMetaData.cpp:51-56 | the loop collects exactly the operations with concurrent clocks |
| RaceAnalysis.RemembersStep | analyze/depgraph/VarMetaData.cpp:18-43 | after every event each set holds exactly the events since the last clearing one, each with its snapshot |
| RaceAnalysis.RaceHitsExact | analyze/depgraph/VarMetaData.cpp:45-81 | what the remembered sets and clocks yield at an access is exactly the declared reports with it as second event |
| RaceAnalysis.MembersExact | analyze/depgraph/VarMetaData.cpp:83-95 | the remembered releases at an acquire are exactly the declared release-acquire pairs with it as second event |
| RaceAnalysis.RaceAnalyze.HandleVarAccessEvent | analyze/depgraph/RaceAnalyze.cpp:27-39 | reporting before remembering keeps reports and sets exact for one more access |
| RaceAnalysis.RaceAnalyze.HandleSyncOpEvent | analyze/depgraph/RaceAnalyze.cpp:41-55 | pairs first and clocks after keeps reports, sets and clocks exact for one more event |
| RaceAnalysis.RaceAnalyze.Analyze | analyze/depgraph/RaceAnalyze.cpp:57-71 | the loop runs to its end if and only if it meets no access to a sync variable and no unknown event; then the reported race pairs are exactly the unordered conflicting pairs with no store to the address between them, the sync pairs exactly the release-acquire pairs with no acquire between |
| Races.SameThreadNeverRacy | analyze/depgraph/RaceAnalyze.cpp:27-39 | no race within one thread |
| Races.RacySplits | analyze/depgraph/VarMetaData.cpp:23-33 | a store between the two events of a race races with one of them |
| Races.RacySpansReported | analyze/depgraph/VarMetaData.cpp:23-33 | every race spans a reported race on the same address |
| Races.NoRacyAddressLost | analyze/depgraph/VarMetaData.cpp:23-33 | an address has some race anywhere in the trace if and only if some race on it is reported |
| Races.EarliestRaceReported | analyze/depgraph/VarMetaData.cpp:23-33 | the earliest event that races with any predecessor is the second of a reported pair |
| Races.ReportedExactly | analyze/depgraph/RaceAnalyze.cpp:27-39 | the pairs to report, operation by operation: two unordered accesses to one address, one a STORE, with no STORE to it between |
| Races.SyncReportedExactly | analyze/depgraph/RaceAnalyze.cpp:41-55 | the sync pairs to report, operation by operation: UNLOCK, SIGNAL or BROADCAST and a later LOCK, TRYLOCK or AWAKE on one address with no LOCK, TRYLOCK or AWAKE on it between |
| Races.OnePartner | analyze/depgraph/RaceAnalyze.cpp:41-50 | a release followed by an acquire on its address is paired with exactly one, the next |
| TraceLoading.DepGraph.LoadTrace | analyze/depgraph/LoadTrace.cpp:26-109 | loading succeeds if and only if timestamps count the events and access lengths are positive; then the shared variables are exactly the expanded addresses touched by two threads and stored to, the sync variables exactly the addresses of sync events, the loaded trace exactly the expansion without accesses to other addresses |
| TraceLoading.DepGraph.AddAccess | analyze/depgraph/LoadTrace.cpp:56-78 | one access is appended address by address and the scan's tables stay a description of the prefix |
| TraceLoading.DepGraph.RemoveReadOnly | analyze/depgraph/LoadTrace.cpp:91-97 | erasing while iterating leaves exactly the written ones |
| TraceLoading.DepGraph.RemoveUnshared | analyze/depgraph/LoadTrace.cpp:99-103 | erasing in place leaves exactly the survivors, in order |
| TraceLoading.ScanShared | analyze/depgraph/LoadTrace.cpp:62-97 | remembering only the first accessor finds exactly the addresses touched by two threads |
| RawTraces.PartStands | common/Event.cpp:177-184 | every byte of every raw access has a position of the expansion and stands there with its operation, thread, instruction and timestamp; every other raw event but a call stands there unchanged |
| RawTraces.EveryPosition | analyze/depgraph/LoadTrace.cpp:48-86 | every position of the expansion comes from one raw event in this way |
| RawTraces.OrderKept | analyze/depgraph/LoadTrace.cpp:48-86 | positions are ordered as their raw events, and as their bytes within one access |
| RawTraces.OrderExpanded | analyze/depgraph/LoadTrace.cpp:56-78 | parts of two raw events are ordered after expansion exactly as the events are before |
| RawTraces.RacyAddressRaw | analyze/depgraph/LoadTrace.cpp:56-66 | an address is racy in the expansion if and only if two raw accesses, one of them a STORE, both have it among their bytes and are unordered in the raw trace |
| RawTraces.SharedRaw | analyze/depgraph/LoadTrace.cpp:56-97 | an address is kept if and only if raw accesses of two threads have it among their bytes and some raw STORE does |
| RawTraces.SyncAddressRaw | common/Event.cpp:107-116 | the synchronisation variables are exactly the addresses of LOCK, TRYLOCK, UNLOCK, WAIT, AWAKE, SIGNAL and BROADCAST events |
| RawTraces.FilteredExactly | analyze/depgraph/LoadTrace.cpp:99-103 | an event of the expansion survives exactly if it is no LOAD or STORE or its address is kept, and the survivors stay in order |
| Filtering.RunFiltered | analyze/depgraph/LoadTrace.cpp:99-103 | the filtered trace passes through the same clocks as the whole one |
| Filtering.HBFiltered | analyze/depgraph/LoadTrace.cpp:99-103 | surviving events are ordered after filtering exactly as before |
| Filtering.FilteringKeepsReports | analyze/depgraph/LoadTrace.cpp:88-103 | positions of the filtered trace are racy, and reported, exactly when their origins are |
| Filtering.FilteringLosesNothing | analyze/depgraph/LoadTrace.cpp:88-103 | both events of every race of the whole trace survive |
| Filtering.FilteringKeepsSyncs | analyze/depgraph/LoadTrace.cpp:99-103 | release-acquire pairs of the filtered trace are exactly those of the whole one between their origins |
| Filtering.FilteringLosesNoSync | analyze/depgraph/LoadTrace.cpp:99-103 | both events of every release-acquire pair survive |
| LockDiscipline.Handover | analyze/depgraph/VarMetaData.cpp:152-158 | in a legal lock trace two different holders are separated by an unlock of the first and a later lock or trylock of the second |
| LockDiscipline.GuardedOrdered | analyze/depgraph/VarMetaData.cpp:152-158 | accesses under one common mutex are ordered |
| LockDiscipline.DiscountedOrder | analyze/depgraph/VarMetaData.cpp:152-154 | counting LOCK and TRYLOCK events that took nothing, as the detector does, only adds to the order |
| LockDiscipline.GuardedSilent | analyze/depgraph/RaceAnalyze.cpp:27-55 | if a trace is legal once some LOCK and TRYLOCK events are discounted, and every access to a variable is made by the holder of one common mutex, there is no race on it in the trace and none is reported |
| LockDiscipline.CountedLegalExactly | runtime/scs/ScScheduler.cpp:169-173 | a trace with these events counted is legal if and only if each stands where the mutex is free and nothing about the mutex follows it |
| LogSlots.SoundAlways | runtime/core/Logger.cpp:145-307 | in every reachable state each slot is reserved for an open batch, owed by one thread, or written, with its index as timestamp |
| LogSlots.FlushCannotFail | runtime/core/Logger.cpp:354-361 | in every reachable state without pending writes and open batches the check on saving cannot fail |
| LogSlots.AssertionsHold | runtime/core/Logger.cpp:145-230 | no logger assertion on batches can stop a thread: no batch is open when one is started, a hook finds a slot for each access to log, and its batch is used up at the end |
| LogSlots.MayLogAnything | runtime/core/Logger.cpp:171-198 | outside the hooks a thread may log any access off the stack and hand over any accesses |
| LogSlots.MayCallAnything | runtime/core/Interface.cpp:133-202 | and it may lock, try or destroy any mutex, unlock or wait with one it holds, notify, create, join and end |
| LogSlots.NeverStuck | runtime/core/Interface.cpp:133-202 | in every reachable state a thread inside a hook or wrapper can make its next step as soon as the thread library can serve it |
| LogSlots.SlotsFilledOnce | runtime/core/Logger.cpp:218-230 | along every run a slot is filled at most once, by the thread that reserved it, and never changes afterwards |
| LockTraces.LockInvAlways | runtime/scs/ScScheduler.cpp:153-205 | in every reachable state the discounted log and the real mutex agree up to the steps between a hook and the real call |
| LockTraces.LoggedTracesLegal | runtime/core/Interface.cpp:263-300 | in every interleaving of locking, trying, unlocking, waiting and destroying, the log with the events that took nothing discounted is a legal lock trace, and shows every thread that is not between a real operation on the mutex and its log entry as the holder if and only if it really holds it |
| LockTraces.PlainLogLegalExactly | runtime/core/Interface.cpp:263-300 | the log as it stands is a legal lock trace if and only if every failed trylock and every destroy on the mutex stands where the log shows it free and has nothing about the mutex after it |
| LockTraces.HollowExactly | runtime/core/Interface.cpp:286-292 | the log holds no event that took nothing if and only if every logged trylock of the run succeeded and no mutex was destroyed |
| LockTraces.SuccessfulTrylocksLegal | runtime/scs/ScScheduler.cpp:169-173 | in a run of which every logged trylock succeeded and that destroys no mutex, LOCK, TRYLOCK and UNLOCK alternate in the log as it stands |
| LockTraces.FailedTrylockBreaks | runtime/scs/ScScheduler.cpp:169-173 | a thread that tries a mutex it holds produces a log that is no legal lock trace |
| ThreadOrder.CreateAndJoinOrder | runtime/scs/ScScheduler.cpp:115-142 | in every run a CREATE's timestamp is below every timestamp of the child, a JOIN's above every timestamp of the joined thread, and the detector orders them |
| LogContents.LogComplete | runtime/core/Logger.cpp:232-307 | in every interleaving each thread's events in timestamp order are exactly the operations its actions performed, with kind, address, length, instruction and remote thread |
| LogContents.OwnersExactly | runtime/core/Interface.cpp:263-300 | in every run the mutexes are held by exactly those to whom, by the calls alone, a lock, a successful trylock or the end of a wait gave them |
| LogContents.NoHollowExactly | runtime/core/Interface.cpp:263-292 | no event of a run took nothing if and only if, by the calls alone, no mutex was destroyed and every logged trylock found its mutex free |
| LogContents.JoinOrdersThreads | runtime/core/Logger.cpp:274-280 | every join of a run is in the log, with the joined thread's id, right after what its thread performed before; all events of the joined thread happen before it and before everything the joining thread logs later |
| LogContents.CreateOrdersThreads | runtime/core/Logger.cpp:265-272 | every creation of a run is in the log, with the new thread's id, right after what its thread performed before; it and all before it happen before everything the new thread logs |
| EndToEnd.GuardAlways | runtime/core/Logger.cpp:145-193 | accesses logged from a batch stand, in timestamp order, inside the critical section in which the batch was reserved |
| EndToEnd.DisciplinedExactly | runtime/scs/ScScheduler.cpp:146-189 | what it is for a program to guard a variable: whenever an access with the variable among its bytes is handed to the logger, the thread holds the mutex |
| EndToEnd.LogTidsBelow | runtime/core/Tid.cpp:20-43 | every thread id in a log, also of created and joined threads, is one that was given out |
| EndToEnd.LockedDataNeverReported | runtime/scs/ScScheduler.cpp:146-205 | at every moment of every run of a program that touches a variable only while holding one mutex, locked or successfully tried, no race on the variable is in the log and none is reported, whatever loading filters out and whatever else the log counts as taking mutexes |
| Logging.Logger.FetchAddLogSize | runtime/core/Logger.cpp:218-230 | taking the next slot of an open batch or a fresh one performs exactly the machine's step of every one-slot action and returns the slot the thread then owes |
| Logging.Logger.Put | runtime/core/Logger.cpp:240-241 | storing an event under its timestamp performs exactly the machine's write |
| Logging.Logger.StartBatch | runtime/core/Logger.cpp:145-163 | performs the machine's opening of a batch |
| Logging.Logger.StartBatchFor | runtime/core/Logger.cpp:165-193 | the counting loop performs the machine's step at the start of a library-call hook: a batch of exactly the loggable accesses, or none for fewer than two |
| Logging.Logger.EndBatch | runtime/core/Logger.cpp:195-207 | performs the machine's end of a hook, with or without a batch |
| Logging.Logger.LogArrayAccessEvent | runtime/core/Logger.cpp:232-254 | an access off the stack performs the machine's access step, inside or outside a hook, and its write, after which the slot holds exactly that access; one on the stack logs nothing |
| Logging.Logger.LogSyncOpEvent | runtime/core/Logger.cpp:256-263 | performs the machine's LOCK, TRYLOCK, UNLOCK, SIGNAL or BROADCAST step and its write, also for a failed trylock and a destroyed mutex; the next slot then holds exactly that operation |
| Logging.Logger.LogThreadCreateEvent | runtime/core/Logger.cpp:265-272 | performs the machine's CREATE step in the slot reserved before the child existed; that slot of the array then holds CREATE of the child, and no other slot changed |
| Logging.Logger.LogThreadJoinEvent | runtime/core/Logger.cpp:274-280 | performs the machine's JOIN step and its write; the next slot of the array then holds JOIN of the joined thread, and no other slot changed |
| Logging.Logger.LogCondWait | runtime/core/Logger.cpp:282-294 | performs the machine's UNLOCK-and-WAIT step and both its writes; the next two slots then hold UNLOCK of the mutex and WAIT on the condition |
| Logging.Logger.LogCondAwake | runtime/core/Logger.cpp:296-307 | performs the machine's LOCK-and-AWAKE step and both its writes; the next two slots then hold LOCK of the mutex and AWAKE on the condition |
| Logging.Logger.Unseen | runtime/core/Interface.cpp:133-202 | every other action of the machine leaves the logger's variables showing its state |
| Logging.Logger.Flush | runtime/core/Logger.cpp:348-362 | the saving loop succeeds if and only if every stored timestamp is its index, and always on a log that satisfies the machine's check |
| Money.ChargeNeverWraps | runtime/sched/MoneyMngr.cpp:18-28 | a charge takes exactly one, and nothing from nothing |
| Money.EnterThenLeave | runtime/sched/MoneyMngr.cpp:57-63 | leaving a sync operation undoes entering it, also across the wrap |
| Money.MoneyMngr.DecThreadMoney | runtime/sched/MoneyMngr.cpp:18-28 | charges one thread, all others unchanged |
| Money.MoneyMngr.EnterSync | runtime/sched/MoneyMngr.cpp:57-59 | adds MAX_MONEY modulo 2^64 to one thread's money |
| Money.MoneyMngr.LeaveSync | runtime/sched/MoneyMngr.cpp:61-63 | subtracts MAX_MONEY modulo 2^64 from one thread's money |
| Money.MoneyMngr.ResetThreadMoney | runtime/sched/MoneyMngr.cpp:146-150 | every thread's money becomes its initial money, whatever it was |
| Money.MoneyMngr.SetInitThreadMoney | runtime/sched/MoneyMngr.cpp:113-131 | configured amounts are taken as words, zeros and missing ones replaced, so every initial amount is positive |
| Money.MoneyMngr.RandomInitThreadMoney | runtime/sched/MoneyMngr.cpp:134-143 | every initial amount is a new random one |
| Scs.InvStep | runtime/sched/ScsImpl.cpp:71-159 | every step of every hook and of the supervisor keeps the scheduler's invariant |
| ScsProperties.MoneyConservation | runtime/sched/ScsImpl.cpp:107-159 | in every reachable state a thread's money is, modulo 2^64, its grant minus its charges plus MAX_MONEY times enters minus leaves since the last refill |
| ScsProperties.ChargesFromPositiveMoney | runtime/sched/ScsImpl.cpp:97-121 | every charge is made from positive money and takes exactly one, even with spurious wakeups |
| ScsProperties.NoLostWakeup | runtime/sched/ScsImpl.cpp:97-105 | a thread in the wait set has no money and has seen the current epoch; a waiting thread leaves the loop if and only if it has money |
| ScsProperties.EpochBudget | runtime/sched/ScsImpl.cpp:107-159 | if every charge since the refill was made with as many leaves as enters before it, the thread made at most its initial money of them |
| ScsProperties.BlocksExactly | runtime/sched/ScsImpl.cpp:107-144 | a charging hook blocks if and only if grant, charges and sync imbalance cancel modulo 2^64 |
| ScsProperties.BudgetEndsExactly | runtime/sched/ScsImpl.cpp:107-144 | with the grant used up, the next charging hook blocks if and only if enters and leaves differ by a multiple of 2^57, in practice if and only if they are even |
| ScsProperties.OverspendsExactly | runtime/sched/ScsImpl.cpp:107-159 | a step takes a thread over its grant if and only if it charges a thread whose grant is used up and whose enters and leaves differ, other than by a multiple of 2^57 |
| ScsProperties.BudgetBrokenExactly | runtime/sched/ScsImpl.cpp:107-159 | in every reachable state a thread has made more charges than its grant since the last refill if and only if some step since then was such a charge |
| ScsProperties.UnlockOverspends | runtime/scs/ScScheduler.cpp:146-189 | locking and unlocking one mutex makes three charges out of a grant of two, so the budget claim is false without its hypothesis |
| ScsProperties.TwoPollsToRefill | runtime/sched/Supervisor.cpp:35-45 | from every state, as long as no thread performs an instrumented operation and no refill has happened, the polls made and the polls left add up to at most two, and none is left exactly when the supervisor is on its way to refill |
| ScsProperties.BlockedUntilRefill | runtime/sched/ScsImpl.cpp:97-105 | a thread in the waiting loop stays there until the refill, whatever the others do |
| ScsProperties.RefillFrees | runtime/sched/ScsImpl.cpp:71-95 | the refill empties the wait set and gives every thread its positive initial money |
| ScsProperties.BoundedProgress | runtime/sched/Supervisor.cpp:35-45 | from every reachable state, wherever the threads are, at most five steps with at most two polls, and of the threads' steps only the one that gives the scheduler's mutex back, refill everybody and empty the wait set |
| ScsHooks.FuncCallCharge | runtime/sched/ScsImpl.cpp:131-144 | from positive money x, straight away or after waiting, a function-call hook leaves x - 1, counts one charge and no enter or leave, and touches nobody else |
| ScsHooks.BeforeSyncCharge | runtime/sched/ScsImpl.cpp:107-121 | the hook before a sync operation leaves x - 1 + 10000000 modulo 2^64 and counts one charge and one enter |
| ScsHooks.AfterSyncLeaves | runtime/sched/ScsImpl.cpp:123-129 | the hook after it leaves x - 10000000 modulo 2^64 and counts one leave and no charge |
| ScsHooks.NoTurn | runtime/sched/ScsImpl.cpp:97-105 | without money, or without a new epoch after waking, a charging hook waits and nothing else changes |
| ScsHooks.RefillGives | runtime/sched/ScsImpl.cpp:71-95 | the refill gives the initial money and a clean account, starts an epoch, wakes the waiting and notes the tick seen at the decision |
| ScsHooks.WaysToTheMutex | runtime/sched/ScsImpl.cpp:97-121 | a hook may be invoked at any time, gets the mutex when it is free, and may be woken at any time; nothing but the thread and the mutex moves |
| ScsHooks.HookKept | runtime/sched/ScsImpl.cpp:97-121 | in every run, whatever wakes it, a thread inside a hook is in the one it invoked last |
| ScsHooks.CallsBudget | runtime/sched/ScsImpl.cpp:131-159 | a thread that since the refill invoked only function-call hooks, and was in no other then, completes at most its initial money of them, has the rest left, and blocks at the next if and only if nothing is left, whatever the others do |
| ScsHooks.PollRefillsExactly | runtime/sched/Supervisor.cpp:35-45 | a poll decides to refill if and only if no instrumented operation happened since the poll before it, and otherwise only notes the tick |
| Tids.TidTable.FullMeansCounter | runtime/core/Tid.cpp:27-32 | no id below the counter is dead if and only if as many threads live as the counter says |
| Tids.TidTable.FindDead | runtime/core/Tid.cpp:27-32 | the loop finds the smallest dead id below the counter, or none |
| Tids.TidTable.GetNewTid | runtime/core/Tid.cpp:24-43 | the new id differs from every live thread's and is below the counter; with reuse the counter stays the most threads ever live at once |
| Tids.TidTable.UnregisterCurrThread | runtime/core/Tid.cpp:68-72 | exactly one thread leaves; live ids stay distinct |
| RaceTable.InstRaceTable.AddRace | analyze/detect/InstRace.cpp:48-56 | one race is appended to the list of its two instructions, the smaller one first, and every other list is unchanged; keys stay sorted, canonical and filled |
| RaceTable.InstRaceTable.LowerBound | analyze/detect/InstRace.cpp:36-39 | the ordered map's search position for a pair |
| RaceTable.KeyExactly | analyze/detect/InstRace.cpp:5-20 | the key of a race is its two instructions, the smaller one first |
| RaceTable.SameKeyExactly | analyze/detect/InstRace.cpp:32-34 | two races share a key if and only if they are between the same two instructions, in whichever order |
| RaceTable.KindsExactly | analyze/detect/InstRace.cpp:11-17 | each kind is 'r' exactly for a LOAD and stands beside its own instruction |
| RaceTable.Increasing | analyze/detect/InstRace.cpp:36-39 | the table is ordered by first instruction and then by second |
| Detection.ThreadSummary.IncItem | analyze/detect/ThreadSummary.h:39-44 | one item of one thread grows by a positive amount |
| Detection.ThreadSummary.AccountPair | analyze/detect/DetectPass.cpp:28-47 | the thread of the earlier event gains a pair before, the thread of the later one a pair after, and both the difference of the timestamps; no other thread gains anything, and the totals grow accordingly |
| Detection.ThreadSummary.AccountPairs | analyze/detect/DetectPass.cpp:50-73 | thread by thread, each item grows by the shares of the pairs; summed over threads both counts grow by the number of pairs and both distance totals by the sum of the distances |
| Detection.ThreadSummary.AccountEvents | analyze/detect/DetectPass.cpp:75-78 | every thread gains the number of its own events; summed over threads the event count grows by the number of events |
| Detection.SharesOf | analyze/detect/DetectPass.cpp:32-47 | with the earlier event first in every pair, a thread is credited with exactly the pairs it is first in, on the before side, and those it is second in, on the after side, counted and measured |
| Detection.GroupRaces | analyze/detect/DetectPass.cpp:22-48 | one loop over the races: the table holds exactly them, each under its two instructions, the variables are exactly theirs, and every thread's summary gains exactly the shares of its own pairs |
| Detection.ReportedStampsDiffer | analyze/detect/ThreadSummary.h:39-44 | the two events of a reported pair have increasing timestamps, so the assertion on positive distances never fires |
| Detection.ExpandStamps | analyze/depgraph/LoadTrace.cpp:26-32 | with positions as timestamps in the file, expanded events are ordered by timestamp, and equal ones belong to one access and differ in address |
| Detection.RacyAddressKept | analyze/depgraph/LoadTrace.cpp:88-103 | an address is reported in the loaded trace if and only if it is racy in the whole one |
| Detection.GapSumAny | analyze/detect/DetectPass.cpp:35-47 | the sum of the distances does not depend on the order in which the pairs are visited |
| Detection.AnalyzableExactly | analyze/depgraph/RaceAnalyze.cpp:64-69 | the detector's assertion holds of a loaded trace if and only if no variable that two threads touch and one stores to is used as a synchronisation variable |
| Detection.Detect | analyze/detect/DetectPass.cpp:15-92 | the tool runs to its end if and only if timestamps count the events, lengths are positive and no shared variable is a synchronisation variable; then the loaded trace is the expansion of the raw one filtered to the shared variables, the reports are exactly its declared pairs, the racy variables exactly those of the whole trace, the table holds exactly the reports, and the summaries are, for every thread and in total, the numbers of events and of pairs and the sums of their distances on either side |
| RaceText.DecInjective | analyze/detect/InstRace.cpp:22-25 | different numbers print differently |
| RaceText.LexExactly | scripts/Race.py:108-110 | the first differing character decides, and a proper prefix is smaller |
| RaceText.WordsSplit | scripts/Race.py:100-100 | every white-space character separates words and belongs to none |
| RaceText.FieldsSplit | scripts/Race.py:101-102 | every colon separates two fields |
| RaceText.NumberExactly | scripts/Race.py:187-188 | the first run of digits is the number found, and without digits there is none |
| RaceFiles.PairLineExactly | scripts/Race.py:98-104 | a line parses to a pair if and only if it has two words, each of two parts with one colon between; anything else is an error |
| RaceFiles.RunLineExactly | scripts/Race.py:65-74 | a line parses to a race if and only if it has three words or more, the first two of three parts each; anything else is an error |
| RaceFiles.PrintedExample | analyze/detect/InstRace.cpp:58-68 | the printed text of one entry, character by character |
| RaceFiles.OrderIndependent | scripts/Race.py:107-116 | the reader's pair does not depend on the order in which two different instructions come |
| RaceFiles.DumpFile | analyze/detect/InstRace.cpp:58-68 | the printing loops produce the text of the whole table |
| RaceFiles.PairRoundTrip | scripts/Race.py:96-116 | a printed instruction pair parses to its two instructions with their kinds |
| RaceFiles.RunRoundTrip | scripts/Race.py:63-74 | a printed race parses to all its numbers, each in its place |
| RaceFiles.CountRoundTrip | scripts/Race.py:187-188 | the number in a printed count line is found |
| RaceFiles.FileRoundTrip | scripts/Race.py:178-195 | splitting a dumped table into lines and reading it entry by entry recovers every entry in order, with all its lines in order |
| RaceLoading.LoadRuntimeRace | scripts/Race.py:178-195 | the reading loop yields the races of the target pairs by pair, and an error exactly when a line is missing or does not parse |
| RaceLoading.RaceFileManager.LoadRaceFile | scripts/Race.py:261-289 | one file's pairs are listed once each, normal ones apart, and the others counted; an error exactly on an ill-formed file |
| RaceLoading.RaceFileManager.LoadTotalRaceFile | scripts/Race.py:252-259 | files are read one after the other into the same counts, and after each the number of different pairs known is appended |
| RaceLoading.KeyTextInjective | scripts/Race.py:107-122 | reordering the decimal ids as strings stays injective on pairs ordered as numbers |
| RaceLoading.ReadRunExact | scripts/Race.py:63-74 | two races read alike exactly when all their numbers agree |
| RaceLoading.RuntimeRacesRecovered | scripts/Race.py:178-195 | loading a dumped table succeeds and gives every target pair its full list of races in order, with as many buckets as table entries |
| RaceLoading.CountsAgree | scripts/Race.py:261-289 | after loading dumped tables a pair is counted once for every table that contains it |
| RaceLoading.ListsDump | scripts/Race.py:274-281 | every entry of a dumped table is listed exactly once, as normal or as a race |
| Reports.ReaderSeesReports | analyze/detect/DetectPass.cpp:83-86 | what the scripts read is exactly the detector's reports, each under its pair, none missing and none invented |
| Reports.FilteredReportedAs | analyze/depgraph/LoadTrace.cpp:88-103 | what is to be read about the loaded trace is what is to be read about the whole one |
| Reports.FiledExactly | scripts/Race.py:107-122 | a race is filed under the decimals of its two instructions in the order of strings, with thread, timestamp and instruction of either event and the address, exactly as table, printer and reader do it |
| Reports.DetectAndRead | analyze/detect/DetectPass.cpp:15-92 | from raw trace to scripts: the racy variables are exactly those on which two raw accesses race, and detecting, dumping and reading back yields, for the target pairs, exactly the declared reports of the whole expanded trace, each under its two instructions |
| Reports.SavedLogLoads | analyze/depgraph/LoadTrace.cpp:26-57 | the parser's and loader's assertions hold of a finished run's log if and only if every hook was given positive lengths off the stack; thread ids always come out in range |
| LoggedLengths.LengthsAlways | runtime/core/Logger.cpp:232-254 | at every moment of every run, all lengths logged and still to be logged are positive if and only if every hook so far was given positive lengths off the stack |
| LoggedLengths.FinishedExactly | runtime/core/Logger.cpp:348-362 | a run is finished exactly if every decided event is written and no thread is inside a hook that has reserved slots or has accesses to log |
| LoggedLengths.LengthsAssertedExactly | common/Event.h:133-136 | the assertion on lengths holds of a finished run's log if and only if every hook was given positive lengths off the stack |
| LoggedLengths.EmptyStoreRejected | runtime/scs/ScScheduler.cpp:308-313 | clearing no bytes is a finished run whose saved log passes the logger's check and fails the loader's assertion |
| Reports.DetectLogged | analyze/detect/DetectPass.cpp:15-92 | recorder, detector and scripts together: the detector accepts a finished run's log if and only if every hook was given positive lengths and no shared variable is a synchronisation variable; then the racy variables and the races the scripts read are exactly those of the log, and none is on a variable the program touches only under one common mutex |

## Left out

- LoggedTracesLegal: the machine has no recursive mutexes, starts with instrumentation on and no mutex held, and never stops instrumenting; a mutex may be tried or destroyed at any time, and destroying it has no effect but the event.
- CreateAndJoinOrder: thread ids are not reused in the recorder's machine; with reuse a later thread may carry a joined thread's id.
- FlushCannotFail: the machine's log is unbounded; the assertion that the event array has room (MAX_NR_EVENTS) is a precondition of the logger's functions.
- DetectLogged: takes for granted that lengths are 64-bit words and that the expanded trace is shorter than 2^64.
- Flush: does not model that reading a reserved but never written slot finds arbitrary memory beyond saying that its timestamp decides.
- Analyze: requires thread ids below the clock size; counters cannot wrap because the trace is shorter than 2^64.
- EpochBudget: claimed only for balanced epochs, because the code does not meet it otherwise (`UnlockOverspends`, `BudgetBrokenExactly`).
- BoundedProgress: gives the steps that free everybody and the number of polls; that the supervisor and the mutex are eventually scheduled is assumed of the system.
- GetNewTid: demands fewer than 50 live threads (fewer than 50 ids without reuse), as the source's table does.
- LoadRaceFile: when a file is ill-formed the script stops with an exception; the counts at that moment are not described.
- ReadRun: the address of the second event is not in the file; the two addresses are equal for every reported pair.
- DumpFile: appends to a string; stream errors are not part of the model. Python's `strip` before `split` has no effect and is not written out.
- Scheduler calls are absent from the recorder's machine, and logging from the scheduler's: they share no data, and the order of hook, real call and hook is kept in both.
- The epoch counter, the global tick and the log size are unbounded numbers; the tick wraps in the source only after 2^64 operations.
- The stack test is a fixed set of addresses. Sampling, logging switched off, memory-allocation logging and the compact event layout are not modelled.
- The serial number of a remembered operation is its place in a sequence; iteration order over sets of reports is arbitrary.
- `checkMoney` and `needResetMoney` are never called, the real-clock variant of the scheduler is compiled out, `HeatAnalyze`, `DumpPass` and the unused clock comparisons are not used by the detector.
- The LLVM pass, configuration, YAML, database, console, stack unwinding, fork, signals, CPU pinning and the bundled benchmark are not part of this model.
