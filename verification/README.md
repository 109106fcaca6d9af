# A verified model of ChampSim

ChampSim is a cycle-level simulator of an out-of-order core with its caches and memory; this
version also has branch-confidence estimators. The project models its stateful parts in Dafny and
proves what each of them promises, for every input and every run. `dafny verify dfyconfig.toml`
checks all of it.

Most components come in three layers. A *specification* gives the state as a datatype, each operation
of the simulator as a function from state to state, and the invariants. *Step lemmas* prove that each
operation keeps the invariants, and *theorems* say what holds in every state that any sequence of
events reaches. A *class* then runs the simulator's own loops over arrays and fields updated in
place, and each of its methods is proved to take the state exactly where the function of the
specification takes it.

| part | modules |
|---|---|
| register scheduler of the core | RegisterScheduler, SchedulingStep, CompletionStep, PipelineSteps, RingSteps, PipelineRuns, PipelineTheorems, PipelineProgress, PipelineTiming; Rings, OutOfOrderCore |
| load/store queue | LoadStoreQueue, StoreRanks, LsqFrames, LsqLoads, LsqStores, LsqFinish, LsqRing, LsqRetire, LsqForwarding, LsqForwardingSteps, LsqForwardingRuns, LsqRuns, LsqWaiting, LsqTheorems, LsqOrder, LsqTiming, LsqChecks, LsqCounterexample; LoadStoreUnit |
| both together: can instructions always retire | ReadyRuns, QueueMoves, RetireProgress, LoadQueueDeadlock |
| memory controller | DramAddress, DramController, DramSteps, DramTheorems, DramTiming, DramEffects, DramDrain, DramStarvation; MemoryController |
| KPCP prefetcher | KpcpPatterns, KpcpSignatures, KpcpLookahead, KpcpHistory; Kpcp |
| consumer set | Bits, FastSets; FastSet |
| replacement policy | LruRanks, LruSet, LruInclusion; CacheSet |
| address translation | PageTables, PageAllocation |
| branch predictors and confidence | Perceptrons, HashedHistories, HashedPerceptron, Confidence, CompositeConfidence |
| trace converter | PageRemapping |

Sizes, widths of queues and latencies are parameters; one clock serves all cores, as in
src/main.cc:801-803. Events come in any order their guards allow, so a theorem about a reached
state holds whatever the caches, the front end and the arbitration between stages do.

Some results are negative, and stated as such:

* The producer check of execute_store (src/ooo_cpu.cc:1648-1653) fails for a program with two stores in one
  instruction: the match is by address, and can meet a load that waits for another instruction. The exact
  condition is proved for all programs, and that it always holds for programs with at most one store
  per instruction.
* The store order array of 4 * ROB_SIZE entries suffices for d memory destinations per instruction
  exactly if d * (ROB_SIZE + front end) <= 4 * ROB_SIZE: with 352 entries and 30 instructions in the
  front end it does for two destinations, and not for the four of the other trace format.
* With a tCAS above 0, the memory controller serves every request once arrivals stop exactly if its write
  queue has at least two entries (it has 64): with one, the high watermark is 0 and the mode switches in every cycle.
* The core can deadlock on a full load queue: loads that wait for one store fill it, the store waits for a
  register of an older instruction, and the load of that one finds no slot. With at
  most one store per instruction, every instruction can always retire exactly if
  LQ_SIZE > NUM_INSTR_SOURCES * (ROB_SIZE - 2); with 128 and 352 that is not so.
* The lookahead of KPCP always ends exactly if MAX_CONF is below 100: from 100 on the path confidence need
  not fall, and a path that has left the page buffers nothing that could stop it.
* Pages of different cores stay apart, and offsets survive translation, exactly if the number of cores is a
  power of two (at most 4096 for the pages): otherwise a high bit of the core number is rotated
  into bit 0.
* join of two sets reads past its memory exactly if its bound is 512 or more; the comment in inc/set.h:210
  says "next multiple of 64" of n, but the code takes the one above n, also when n is a multiple itself.
* A set with more ways need not hold what the smaller one holds, since write-back accesses do not promote
  on a hit: inclusion is guaranteed exactly if the smaller set has one way or both have the same number.
  It does hold as long as no write-back hits the larger set.
* In the reversal table of BPRU the search for a victim starts its maximum at the slot numbered like the
  set, which may lie in another set. A prediction can claim that slot, and the update then counts in a
  different one. The exact condition is proved, and a run from fresh tables in which it fails.
* The composite confidence estimators never depend on UDCE, if EJRS and UDCE start fresh with histories of
  equal size.
* EJRS and UDCE look an entry up with a shift by the history size and update it with a shift by 14
  (confidence_predictors/EJRS.h:41 and 49): both name the same entry for all branches exactly if the history has 14 bits.
* The scan of schedule_instruction never goes past the end of the buffer, because its limit is never moved
  (src/ooo_cpu.cc:852): what a pass schedules is stated exactly, and the entries behind the end wait.

## Model

| member | source | states |
|---|---|---|
| `PipelineTheorems.CounterIsExact` | src/ooo_cpu.cc:972-998 | in every reachable state num_reg_dependent of a scheduled entry is the number of its sources whose recorded producer has not completed |
| `PipelineTheorems.ReadyAfterWriters` | src/ooo_cpu.cc:887-998 | an entry is reg_ready only when the last older writer of each of its source registers has completed or retired, wherever the ring wraps |
| `PipelineTheorems.ReadyWithoutWriters` | src/ooo_cpu.cc:970-998 | once all older writers of its sources have completed, a scheduled entry is reg_ready |
| `PipelineTheorems.IssuedAfterWriters` | src/ooo_cpu.cc:1000-1079 | a register instruction that has been issued had all its writers completed, for every run |
| `PipelineTheorems.QueuesFit` | src/ooo_cpu.cc:905-921 | RTE0 and RTE1 together never hold a slot twice nor more than ROB_SIZE slots, so the overflow checks of both rings never fire |
| `PipelineTheorems.WakeUpsAreExact` | src/ooo_cpu.cc:1767-1807 | a live slot is in a ready ring exactly while it is ready and not yet issued: no wake-up is lost, none is doubled |
| `PipelineTheorems.ExecutesOnce` | src/ooo_cpu.cc:1059-1079 | no instruction of the trace is issued twice, and every retired non-memory instruction was issued once |
| `PipelineTheorems.RetiresInTraceOrder` | src/ooo_cpu.cc:2221-2314 | the buffer always holds the next instructions of the trace in order, so retirement follows the trace |
| `PipelineTheorems.OldestIncompleteIsReady` | src/ooo_cpu.cc:1719-1807 | the oldest scheduled entry that has not completed waits for nothing: the scheduler cannot deadlock |
| `PipelineTheorems.SkippedScanIsEmpty` | src/ooo_cpu.cc:1836-1849 | when both inflight counters are 0, the scan that update_rob skips would have completed nothing |
| `PipelineProgress.UpdateCompletes` | src/ooo_cpu.cc:1719-1765 | after update_rob an entry is completed exactly if it was, or was in flight, due, and had no memory operation outstanding; no other entry moves |
| `PipelineProgress.OldestRetires` | src/ooo_cpu.cc:2221-2314 | from every state of the invariants some continuation without new instructions retires the oldest instruction, if memory operations finish |
| `PipelineProgress.AlwaysProgress` | src/ooo_cpu.cc:846-1079 | the same for every reachable state: nothing that the scheduler does can block it |
| `PipelineTiming.SchedulePicks` | src/ooo_cpu.cc:846-922 | one pass schedules exactly the entries from the head to the end of the buffer that no entry not fetched or not due cuts off, at most 128; a register instruction is due again after the scheduling latency |
| `PipelineTiming.ExecutePicks` | src/ooo_cpu.cc:1000-1079 | one pass issues a prefix of RTE0 and then of RTE1, up to the first entry not due, at most 6 in all; these are due again after the execution latency, nothing else changes |
| `PipelineTiming.RetirePicks` | src/ooo_cpu.cc:2221-2314 | one pass retires the completed entries from the head on, as many as it may and no more |
| `PipelineTiming.LatenciesPass` | src/ooo_cpu.cc:899-903 | an instruction that is not scheduled yet cannot complete before both latencies have passed, whatever happens in between |
| `PipelineTiming.MemoryCompletes` | src/ooo_cpu.cc:1743-1765 | after its last operation has finished, a memory instruction completes exactly from the cycle of that operation on |
| `PipelineTiming.QueuesAreFifo` | src/ooo_cpu.cc:905-921 | every event leaves both ready rings first in, first out |
| `PipelineTiming.SecondQueueInOrder` | src/ooo_cpu.cc:905-921 | in every reachable state RTE1 holds its instructions in program order |
| `PipelineTiming.NextToSchedule` | src/ooo_cpu.cc:892 | in every reachable state next_schedule is the slot after the scheduled entries, which are the oldest ones |
| `PipelineRuns.StepKeepsInv` | src/ooo_cpu.cc:846-1079 | every event of the core, in any order, keeps all invariants of the register scheduler |
| `PipelineRuns.ScheduleFromKeepsInv` | src/ooo_cpu.cc:846-885 | a pass of schedule_instruction over any number of entries keeps the invariants |
| `PipelineRuns.CompleteFromKeepsInv` | src/ooo_cpu.cc:1822-1850 | a scan of update_rob over the whole buffer keeps the invariants |
| `SchedulingStep.SchedulingKeepsInv` | src/ooo_cpu.cc:887-998 | do_scheduling keeps counter, consumer sets and flags consistent and records the youngest older writer of each source |
| `SchedulingStep.YoungestIsLast` | src/ooo_cpu.cc:925-968 | the backward scan over the ring finds the last older writer in program order |
| `CompletionStep.CompletionKeepsInv` | src/ooo_cpu.cc:1719-1807 | complete_execution releases exactly the consumers that counted this producer and wakes exactly those with nothing left |
| `CompletionStep.WokenExactly` | src/ooo_cpu.cc:1771-1806 | the entries appended to RTE0 are exactly the released ones whose counter reaches 0, lowest slot first |
| `PipelineSteps.IssueKeepsInv` | src/ooo_cpu.cc:1000-1079 | issuing the head of a ready ring keeps the invariants and records the instruction as issued once |
| `RingSteps.DispatchKeepsInv` | src/ooo_cpu.cc:401-435 | a new entry at the tail disturbs no counter, consumer set or ready ring |
| `RingSteps.RetireKeepsInv` | src/ooo_cpu.cc:2221-2314 | retirement of a completed head leaves no dangling producer, consumer or counter behind |
| `OutOfOrderCore.Core.RegRawDependency` | src/ooo_cpu.cc:972-998 | marks producer and consumer and counts up exactly once per source, as the step function says |
| `OutOfOrderCore.Core.RegDependency` | src/ooo_cpu.cc:925-968 | both directions of the wrapped scan together record the youngest older writer of every source |
| `OutOfOrderCore.Core.DoSchedulingAt` | src/ooo_cpu.cc:887-923 | the whole effect of do_scheduling on entry and ring |
| `OutOfOrderCore.Core.ScheduleInstruction` | src/ooo_cpu.cc:846-885 | the loop of schedule_instruction equals the pass over the specification |
| `OutOfOrderCore.Core.ExecuteInstruction` | src/ooo_cpu.cc:1000-1057 | both ring loops of execute_instruction, with their limits |
| `OutOfOrderCore.Core.RegRawRelease` | src/ooo_cpu.cc:1767-1807 | the nested loops release every consumer of every source once and push the woken ones, with room in the ring |
| `OutOfOrderCore.Core.CompleteExecutionAt` | src/ooo_cpu.cc:1719-1765 | the whole effect of complete_execution on the core |
| `OutOfOrderCore.Core.UpdateRobEntries` | src/ooo_cpu.cc:1836-1849 | the scan over the ring, in one or two pieces, equals the scan from oldest to youngest slot number |
| `OutOfOrderCore.Core.RetireRob` | src/ooo_cpu.cc:2221-2314 | retires up to the width, stopping at the first entry that has not completed |
| `OutOfOrderCore.Core.AddToRob` | src/ooo_cpu.cc:401-435 | the tail slot is empty and takes the next instruction |
| `Rings.Ring.Push` | src/ooo_cpu.cc:910-921 | an array ring with a sentinel is a bounded first-in first-out sequence; the slot at the tail is free |
| `Rings.Ring.Pop` | src/ooo_cpu.cc:1003-1028 | removes the oldest element and resets its slot |
| `LsqTheorems.CountersAreExact` | src/ooo_cpu.cc:1206-1357 | num_mem_ops of every live entry is its number of unfinished loads plus unexecuted stores, hence never negative, and LQ.occupancy counts live slots |
| `LsqTheorems.LoadsFinishOnce` | src/ooo_cpu.cc:2006-2038 | no load is recorded as finished twice, and every load of a retired instruction has been finished exactly once |
| `LsqOrder.FinishedAfterStores` | src/ooo_cpu.cc:1226-1357 | memory read-after-write order over whole runs of plain programs: whatever load has finished, its last older store to the same address has retired or has been executed |
| `LsqOrder.HowLoadsFinish` | src/ooo_cpu.cc:1264-1345 | for all programs, a load finishes by the reply to its own cache request, by the execution of a store of the instruction it waits for, or on entering the queue, from an executed store of the last older instruction that stores to its address |
| `LsqTiming.LoadEnters` | src/ooo_cpu.cc:1206-1357 | add_load_queue takes the first free slot, finds the youngest older store to the address, and finishes the load at once exactly if that store has been executed; all fields of slot and entry |
| `LsqTiming.StepIsTimely` | src/ooo_cpu.cc:1442-1614 | every event leaves the four rings first in, first out, and sets an event cycle only for a slot just filled, translated or executed |
| `LsqTiming.OperationsAreDated` | src/ooo_cpu.cc:1616-1688 | num_mem_ops of an entry goes down only with its event cycle set to the cycle of that operation |
| `LsqTiming.ProducersAreMarked` | src/ooo_cpu.cc:1365-1369 | in every reachable state an entry is marked as a producer exactly if loads are recorded with it |
| `LsqOrder.StoresServeTheirLoads` | src/ooo_cpu.cc:1616-1688 | a store that finishes a load belongs to the last older instruction that stores to the address of the load, for all programs; with at most one store per instruction it stores to that very address |
| `LsqTheorems.ProducerCheckHolds` | src/ooo_cpu.cc:1648-1653 | for plain programs, which have at most one store per instruction, the producer-mismatch check in execute_store never fires |
| `LsqChecks.ProducerCheckExact` | src/ooo_cpu.cc:1636-1653 | for all programs: execute_store passes its check if and only if every added load from the address, in an instruction recorded as consumer, names a slot that waits for this instruction, and no two the same |
| `LsqChecks.ForwardExact` | src/ooo_cpu.cc:1636-1687 | the same for the nested loops from any point on |
| `LsqCounterexample.ProducerCheckCanFail` | src/ooo_cpu.cc:1648-1653 | a program with two stores in one instruction for which the check fails: a run of ten events |
| `LsqTheorems.LoadsWaitForTheirStore` | src/ooo_cpu.cc:1355-1380 | for all programs, a waiting load waits for the last older instruction that stores to its address, which has such a store still to execute; other loads have no older store to their address in the buffer |
| `LsqWaiting.StepWaits` | src/ooo_cpu.cc:1616-1688 | every event keeps what loads wait for, for any number of stores per instruction, as long as the producer check does not fail |
| `LsqTheorems.StoresInProgramOrder` | src/ooo_cpu.cc:1382-1434 | SQ always holds a contiguous piece of the stores in program order, and the slot at SQ.tail is free while there is room |
| `LsqTheorems.RetirementFreesTheHead` | src/ooo_cpu.cc:2281-2299 | the stores of a retiring entry are exactly the slots from SQ.head on, in operand order |
| `LsqTheorems.HeadOwnsTheQueue` | src/ooo_cpu.cc:1172-1192 | while the oldest entry has a store to place, SQ holds nothing but its own earlier stores |
| `LsqTheorems.HeadStoresAlwaysFit` | src/ooo_cpu.cc:1172-1192 | if SQ has at least as many slots as the oldest entry has stores, one check_and_add_lsq of it places them all: no deadlock on a full store queue |
| `LsqTheorems.StaSuffices` | src/ooo_cpu.cc:223-240 | STA_SIZE is enough for d destinations per instruction if and only if d times everything in flight fits; both directions for all sizes |
| `LsqTheorems.StaOfTheSimulator` | src/ooo_cpu.cc:223-240 | with the sizes of the simulator STA never overflows for two destinations per instruction, and can for four |
| `LoadQueueDeadlock.LoadQueueSuffices` | src/ooo_cpu.cc:1150-1170 | with at most one store per instruction: from every reachable state the oldest instruction can still retire if and only if LQ_SIZE > NUM_INSTR_SOURCES * (ROB_SIZE - 2), however register readiness is decided within what the scheduler guarantees |
| `LoadQueueDeadlock.SmallQueueDeadlocks` | src/ooo_cpu.cc:1150-1170 | for every smaller LQ, a run that ends in a deadlock: loads that wait for one store fill LQ, the store waits for a register of the oldest instruction, whose load finds no slot |
| `LoadQueueDeadlock.DeadForEver` | src/ooo_cpu.cc:1081-1148 | once there, no event ever changes that |
| `LoadQueueDeadlock.SimulatorMayDeadlock` | inc/instruction.h:6-11 | LQ_SIZE 128 with ROB_SIZE 352 admits the deadlock |
| `LoadQueueDeadlock.ExtremesAreSound` | src/ooo_cpu.cc:972-998 | the most eager and the most reluctant way to decide readiness are both within the guarantees |
| `RetireProgress.OldestCanRetire` | src/ooo_cpu.cc:1081-1192 | with a larger LQ, from any state that keeps the invariants there is a continuation in which the oldest instruction retires |
| `RetireProgress.RoomForOne` | src/ooo_cpu.cc:1150-1170 | when all queues are at rest and the stores of the oldest instruction are done, at most NUM_INSTR_SOURCES * (ROB_SIZE - 2) loads wait |
| `QueueMoves.Drain` | src/ooo_cpu.cc:1442-1614 | the load and store rings and all requests can be brought to an end, leaving the buffer as it is but for counters |
| `LsqRuns.StepKeepsInv` | src/ooo_cpu.cc:1442-1614 | every event of the load/store queue, in any order, keeps its invariants |
| `LsqRuns.RunForwards` | src/ooo_cpu.cc:1616-1688 | the forwarding invariants hold after every run of a program with at most one store per instruction |
| `LsqRuns.CheckAndAddKeeps` | src/ooo_cpu.cc:1150-1204 | check_and_add_lsq keeps the invariants for loads and stores added in any mixture |
| `LsqLoads.AddLoadKeepsInv` | src/ooo_cpu.cc:1206-1357 | add_load_queue keeps the invariants whether the load is forwarded, waits or becomes ready |
| `LsqStores.AddStoreKeepsInv` | src/ooo_cpu.cc:1382-1434 | add_store_queue keeps the order of SQ and STA |
| `LsqStores.ExecuteStoreKeepsInv` | src/ooo_cpu.cc:1616-1688 | execute_store with its forwarding loops keeps the invariants whenever its check passes |
| `LsqRetire.RetireKeepsInv` | src/ooo_cpu.cc:2281-2314 | retirement keeps every invariant of both queues |
| `LsqForwardingSteps.ForwardSucceeds` | src/ooo_cpu.cc:1636-1687 | with exact consumers every match in the forwarding loops passes the check, and all waiting loads are released |
| `LsqForwardingSteps.ExecuteStoreForwards` | src/ooo_cpu.cc:1616-1688 | execute_store succeeds in a plain program and keeps the forwarding invariants |
| `LsqForwarding.YoungestIsLast` | src/ooo_cpu.cc:1226-1262 | the backward scan of add_load_queue finds the last older store to the address in program order |
| `LoadStoreUnit.Unit.MemRawDependency` | src/ooo_cpu.cc:1359-1380 | records the producer exactly if the older entry stores to the address of the load |
| `LoadStoreUnit.Unit.FindProducer` | src/ooo_cpu.cc:1226-1262 | the scans, with and without wrap-around, record the youngest older store |
| `LoadStoreUnit.Unit.AddLoadQueue` | src/ooo_cpu.cc:1206-1357 | the whole effect of add_load_queue; an empty slot is always found |
| `LoadStoreUnit.Unit.AddStoreQueue` | src/ooo_cpu.cc:1382-1434 | the whole effect of add_store_queue; the slot at the tail is empty and RTS0 has room |
| `LoadStoreUnit.Unit.CheckAndAddAt` | src/ooo_cpu.cc:1150-1204 | the two loops of check_and_add_lsq |
| `LoadStoreUnit.Unit.DoMemoryScheduling` | src/ooo_cpu.cc:1134-1148 | the flags are set exactly when every operand is in its queue |
| `LoadStoreUnit.Unit.ReadInstruction` | src/ooo_cpu.cc:223-240 | announces each store once, in order, in the store order array |
| `LoadStoreUnit.Unit.StoreTranslationDone` | src/ooo_cpu.cc:1965-1984 | a translated store moves to RTS1, which has room |
| `LoadStoreUnit.Unit.LoadTranslationDone` | src/ooo_cpu.cc:1985-2004 | a translated load moves to RTL1, which has room |
| `LoadStoreUnit.Unit.ExecuteOldestStore` | src/ooo_cpu.cc:1616-1688 | execute_store with its nested forwarding loops; it fails exactly when the specification does |
| `LoadStoreUnit.Unit.ExecuteLoad` | src/ooo_cpu.cc:1690-1717 | the oldest translated load goes to the data cache |
| `LoadStoreUnit.Unit.FetchDone` | src/ooo_cpu.cc:2006-2038 | a cache reply finishes the load and frees its slot |
| `LoadStoreUnit.Unit.HandleMergedLoads` | src/ooo_cpu.cc:2179-2207 | every merged load is finished once, lowest slot first |
| `LoadStoreUnit.Unit.RetireRob` | src/ooo_cpu.cc:2221-2314 | retires the oldest entry exactly if it has completed and the write queue has room for its stores; each released slot is SQ.head |
| `DramTheorems.BanksMatchRequests` | src/dram_controller.cc:7-121 | a bank is working exactly if one entry of the queue being served is scheduled on it, the one request_index names; the subtraction of tCAS never underflows |
| `DramTheorems.CountersMatchRequests` | src/dram_controller.cc:236-261 | scheduled_reads and scheduled_writes count those entries, the idle queue has none, addresses are unique and occupancy counts live entries |
| `DramTheorems.ChecksNeverFail` | src/dram_controller.cc:55-66 | neither the counter check of reset_remain_requests nor the index and bank checks of process can fail in any run |
| `DramTheorems.SchedulerPicks` | src/dram_controller.cc:123-272 | schedule picks the oldest open-row hit, or else the oldest eligible entry, lowest index on ties, and nothing exactly if nothing is eligible |
| `DramTiming.ScheduleStarts` | src/dram_controller.cc:217-261 | the entry that schedule picks and its bank are busy for tCAS if the row was open, otherwise for tRP + tRCD + tCAS; the row is open afterwards, no other entry or bank changes |
| `DramTiming.StepKeepsTiming` | src/dram_controller.cc:69-121 | every arrival and cycle keeps each scheduled request in step with the cycle in which it was last started |
| `DramTiming.NoTransferIsEarly` | src/dram_controller.cc:274-411 | in every run no request is transferred before the latency of its last start has passed |
| `DramTiming.LoneRead` | src/dram_controller.cc:217-261 | a lone read on an idle controller is transferred exactly one cycle and that latency after it is due |
| `DramEffects.SwitchMeaning` | src/dram_controller.cc:7-92 | when the direction changes and what then happens to every entry, every bank, the bus and the counters; a row stays open exactly if only the column access was missing |
| `DramEffects.InterruptedRowsClose` | src/dram_controller.cc:22-28 | a bank whose activation is interrupted by a switch has no open row afterwards, in every state that keeps the timing |
| `DramEffects.DueMeaning` | src/dram_controller.cc:94-121 | schedule is called exactly if a waiting request is due, process exactly if a started one is |
| `DramEffects.ProcessMeaning` | src/dram_controller.cc:274-411 | process serves the first started request: transfer if bank and bus are free, a bank that waits for the bus, or nothing; all fields |
| `DramEffects.AddMeaning` | src/dram_controller.cc:416-532 | an accepted request fills the first empty entry and nothing else changes; any other leaves the queues as they are |
| `DramTheorems.RequestsAreConserved` | src/dram_controller.cc:416-532 | each accepted request is in its queue or in the log of transfers, exactly once |
| `DramTheorems.TransfersMatchArrivals` | src/dram_controller.cc:302-353 | each transfer is for an accepted request, with its address and direction |
| `DramTheorems.OutcomeMeaning` | src/dram_controller.cc:430-532 | when a request is forwarded, merged, queued; it is dropped only if the queue is full |
| `DramTheorems.BusWindowsAreApart` | src/dram_controller.cc:73-92 | any two transfers are DRAM_DBUS_RETURN_TIME apart, opposite directions DRAM_DBUS_TURN_AROUND_TIME more, after any idle time |
| `DramTheorems.StepKeepsInv` | src/dram_controller.cc:69-121 | arrivals and cycles in any order keep all invariants of the controller |
| `DramDrain.CycleProgresses` | src/dram_controller.cc:69-121 | without arrivals every cycle lowers a lexicographic measure that survives the resets at mode switches |
| `DramDrain.QueuesDrain` | src/dram_controller.cc:69-121 | without arrivals both queues become empty |
| `DramDrain.EveryRequestIsServed` | src/dram_controller.cc:333-353 | with at least two write-queue entries: once arrivals stop, every request accepted in any run is transferred, exactly once |
| `DramStarvation.TwoEntriesAreNeeded` | src/dram_controller.cc:69-121 | when accesses take time: after every run, each accepted request is served once arrivals stop, if and only if the write queue has at least two entries |
| `DramStarvation.StarvesForEver` | src/dram_controller.cc:73-92 | with one entry the high watermark is 0, the mode switches in every cycle and nothing is ever transferred |
| `DramDrain.SwitchOnce` | inc/dram_controller.h:19-22 | after a mode switch no further one is wanted until a queue changes: the watermarks give hysteresis |
| `DramSteps.OldestMeaning` | src/dram_controller.cc:544-598 | a scan finds nothing exactly if there is nothing, otherwise the oldest entry, the first one on ties |
| `DramSteps.ResetKeeps` | src/dram_controller.cc:7-67 | after reset_remain_requests nothing is scheduled, all banks are free and both counters are 0 |
| `DramSteps.ProcessChecks` | src/dram_controller.cc:276-299 | when process runs, its position is a scheduled entry, its bank works for it and the queue is not empty |
| `DramAddress.PlacesAreDistinct` | src/dram_controller.cc:628-676 | different block addresses below n name different places if and only if n is at most the capacity |
| `DramAddress.CoordinatesCompose` | src/dram_controller.cc:628-676 | every channel, bank, column, rank and row is reached by an address |
| `MemoryController.PacketQueue.UpdateScheduleCycle` | src/dram_controller.cc:544-574 | caches the oldest waiting entry |
| `MemoryController.PacketQueue.UpdateProcessCycle` | src/dram_controller.cc:576-598 | caches the oldest scheduled entry |
| `MemoryController.PacketQueue.Find` | src/dram_controller.cc:600-626 | the first entry with the address |
| `MemoryController.Controller.ResetRemainRequests` | src/dram_controller.cc:7-67 | the loop and its updates equal the reset of the specification; the counter check holds |
| `MemoryController.Controller.SwitchMode` | src/dram_controller.cc:73-92 | the switch of mode with hysteresis, reset and turn-around |
| `MemoryController.Controller.ScheduleQueue` | src/dram_controller.cc:123-272 | the two search loops and the launch |
| `MemoryController.Controller.ProcessQueue` | src/dram_controller.cc:274-411 | transfer, or delay to the cycle the bus is free; both checks hold |
| `MemoryController.Controller.OperateChannel` | src/dram_controller.cc:69-121 | one operate for a channel |
| `MemoryController.Controller.AddRq` | src/dram_controller.cc:416-490 | forwarded from the write queue, merged, or put into the first empty entry |
| `MemoryController.Controller.AddWq` | src/dram_controller.cc:492-532 | merged, or put into the first empty entry |
| `KpcpPatterns.UpdateKeepsSet` | inc/kpcp.h:317-393 | L2_PT_update keeps sum of c_delta <= c_sig <= 15 and "no delta, no count" through halving and replacement, always finds a way, and stores the delta |
| `KpcpPatterns.UpdateCounts` | inc/kpcp.h:317-393 | the counter of a known delta goes up by one after the halving; a new delta takes the first empty way, or else the first with the lowest counter, with count 0; all other ways keep delta and halved counter |
| `KpcpPatterns.UpdatesAreCounted` | inc/kpcp.h:317-393 | from an empty set, after fewer than 16 updates with at most four different deltas, c_sig is their number and each c_delta the occurrences of its delta minus one |
| `KpcpPatterns.NewSignatureFits` | inc/kpcp.h:117-136 | signatures stay within 12 bits and never become 0 through a delta |
| `KpcpPatterns.SignatureForgets` | inc/kpcp.h:117-136 | unless a step falls back, a signature depends on the last four deltas only |
| `KpcpPatterns.SignatureOfFour` | inc/kpcp.h:117-136 | the signature after four deltas overlays them, each three bits left of the next, cut to 12 bits, or is the last one if that gives 0 |
| `KpcpPatterns.FoldedMeaning` | inc/kpcp.h:123-125 | a delta enters a signature as its size, plus 64 if it is negative |
| `KpcpHistory.SignatureIsHistory` | inc/kpcp.h:139-232 | in every reached table the signature of a page is that of all its block steps since it came in, its last block the last one accessed |
| `KpcpHistory.LessonIsHistory` | inc/kpcp.h:150-195 | the pattern table learns every step within a page except the first, with the signature of the steps before it |
| `KpcpHistory.SetsCount` | inc/kpcp.h:317-393 | after any accesses, while a set has had fewer than 16 lessons of at most four deltas, its counters are the occurrences of its lessons |
| `KpcpLookahead.AdvanceFalls` | prefetcher/kpcp.l2c_pref:228-309 | path confidence strictly falls in every round of the lookahead |
| `KpcpLookahead.CapIsNeeded` | prefetcher/kpcp.l2c_pref:641-646 | it does so for all tables if and only if MAX_CONF is below 100 |
| `KpcpLookahead.EndsExactly` | prefetcher/kpcp.l2c_pref:641-646 | the lookahead ends for all tables, signatures and blocks if and only if MAX_CONF is below 100; otherwise a certain delta leads out of the page for ever |
| `KpcpLookahead.CheckIsGood` | prefetcher/kpcp.l2c_pref:135-314 | every buffered delta is non-zero, stays in the page and has enough confidence; the 32-entry buffer is never overrun |
| `KpcpLookahead.CandidatesAreExact` | prefetcher/kpcp.l2c_pref:150-222 | the candidates of the current signature are exactly its likely ways that stay in the page, in order |
| `KpcpLookahead.CheckWalks` | prefetcher/kpcp.l2c_pref:135-314 | the buffer is empty if no way is likely enough; otherwise it is what a walk from the best way leaves |
| `KpcpLookahead.LookaheadWalks` | prefetcher/kpcp.l2c_pref:224-310 | the walk adds up the deltas of the first best way at each signature, buffers each other block of the page, and ends only where no way is likely enough or the buffer is full |
| `KpcpLookahead.LikeliestMeaning` | prefetcher/kpcp.l2c_pref:150-222 | the lookahead starts with the first way of the highest counter among the likely ones |
| `KpcpLookahead.NextWayMeaning` | prefetcher/kpcp.l2c_pref:245-285 | and goes on with the first way of the highest counter among those that keep the path likely |
| `KpcpSignatures.UsedKeepsTable` | inc/kpcp.h:139-292 | L2_ST_update keeps the ranks a permutation and the tags unique, always finds a way, and makes the page the most recent one |
| `KpcpSignatures.CheckFindsUsed` | inc/kpcp.h:294-315 | L2_ST_check after L2_ST_update finds the page in the way just used |
| `KpcpSignatures.OtherPagesStay` | inc/kpcp.h:139-292 | other pages stay in the table except the one whose way is taken |
| `Kpcp.Prefetcher.PtUpdate` | inc/kpcp.h:317-393 | the loops of L2_PT_update equal the specification and touch no other set |
| `Kpcp.Prefetcher.StUpdate` | inc/kpcp.h:139-292 | the loops of L2_ST_update equal the specification, including what the pattern table learns |
| `Kpcp.Prefetcher.StCheck` | inc/kpcp.h:294-315 | the first valid way with the tag |
| `Kpcp.Prefetcher.LookAhead` | prefetcher/kpcp.l2c_pref:224-310 | the lookahead loop terminates and leaves the buffer of the specification |
| `Kpcp.Prefetcher.PfCheck` | prefetcher/kpcp.l2c_pref:135-314 | the whole of PF_check |
| `Kpcp.Prefetcher.OperatePrefetcher` | prefetcher/kpcp.l2c_pref:598-677 | one operate call up to the prefetches; its two checks never fail |
| `FastSet.Set.Insert` | inc/set.h:142-164 | adds exactly its argument, also across the change from list to bits |
| `FastSet.Set.InsertSmall` | inc/set.h:57-71 | the list stays sorted and gains exactly its argument |
| `FastSet.Set.SmallToBit` | inc/set.h:119-129 | the bits are exactly the values of the list |
| `FastSet.Set.SearchSmall` | inc/set.h:76-115 | linear and binary search both decide membership |
| `FastSet.Set.Search` | inc/set.h:169-184 | decides membership in every form |
| `FastSet.Set.Join` | inc/set.h:189-216 | the union; for a bit set the words up to that of n, which is all of it when its elements are below n |
| `FastSet.LimitFits` | inc/set.h:210-215 | join stays inside its memory if and only if n is below MAX_SIZE |
| `FastSet.Set.Expand` | inc/set.h:220-248 | the elements in ascending order, all of a list, those below n of a bit set |
| `FastSets.MarkAdds` | inc/set.h:41-45 | setbit adds exactly one element |
| `FastSets.ListingIsComplete` | inc/set.h:220-248 | the listing is strictly ascending and has exactly the elements below the bound |
| `LruSet.RanksArePermutation` | replacement/base_replacement.cc:59-68 | in every reachable state the ranks are a permutation of 0..NUM_WAY-1 and a victim is found |
| `LruSet.HoldsMostRecent` | replacement/base_replacement.cc:19-57 | as long as write-backs miss, a set holds exactly the NUM_WAY most recently used distinct tags |
| `LruSet.RunMatches` | replacement/base_replacement.cc:9-68 | as long as write-backs miss, each way holds the tag whose recency is its rank; the invalid ways are the last ones |
| `LruSet.StackIsByRecency` | replacement/base_replacement.cc:59-68 | the list of recent tags has every used tag once, ordered by last use |
| `LruInclusion.MoreWaysHoldMore` | replacement/base_replacement.cc:9-68 | inclusion: if no write-back hits the larger set, it holds whatever the set with fewer ways holds |
| `LruInclusion.MoreWaysNeverMissMore` | replacement/base_replacement.cc:9-68 | if no write-back hits the larger set, more ways never add a miss |
| `LruInclusion.WritebacksBreakInclusion` | replacement/base_replacement.cc:11-14 | for all 2 <= ways < more, a run with one write-back after which the smaller set holds a tag that the larger one lacks |
| `LruInclusion.InclusionExact` | replacement/base_replacement.cc:9-68 | inclusion holds for all accesses, write-backs included, if and only if the smaller set has one way or both have the same number |
| `LruRanks.EveryRankHeld` | replacement/base_replacement.cc:37-57 | a permutation holds the last rank, so the search for a victim succeeds |
| `CacheSet.Set.LruVictim` | replacement/base_replacement.cc:19-57 | the loops find the victim; the check never fails |
| `CacheSet.Set.LruUpdate` | replacement/base_replacement.cc:59-68 | the loop is the promotion of the specification |
| `CacheSet.Set.AccessBlock` | replacement/base_replacement.cc:9-17 | a lookup and fill extends the run by one access |
| `PageTables.CoresAreSeparate` | src/main.cc:313-317 | pages of different cores, and different pages of one core, get different virtual pages if and only if the number of cores is a power of two, at most 4096 |
| `PageTables.OffsetSurvives` | src/main.cc:314-318 | the page offset survives for every core if and only if the number of cores is a power of two |
| `PageTables.Lg2` | src/main.cc:277-285 | the loop computes the position of the highest bit, -1 for 0 |
| `PageAllocation.TranslationKeepsTables` | src/main.cc:335-455 | page_table and inverse_table stay mutual inverses, their size is allocated_pages <= DRAM_PAGES, and num_adjacent_page ends in 0..512 |
| `PageAllocation.TranslationKeepsOthers` | src/main.cc:335-395 | no other mapping changes, except that a full memory takes the page of the smallest virtual page |
| `PageAllocation.MappedRemembers` | src/main.cc:399-455 | a new page is remembered as the previous one; the run gets shorter by one or starts with 2^r pages |
| `PageAllocation.RunIsContiguous` | src/main.cc:396-455 | as long as a run goes on and the pages are free, new virtual pages get the physical pages after the last one, in order, and nothing else changes |
| `PageAllocation.CoresNeverShare` | src/main.cc:306-334 | pages of any cores mapped at the same time never share a physical page |
| `PageAllocation.PageTable.FindFree` | src/main.cc:399-432 | the search ends with a free page whenever the random numbers hit one |
| `PageAllocation.PageTable.VaToPa` | src/main.cc:306-488 | the physical address is the mapped page with the offset; the tables change as specified |
| `HashedHistories.WordBits` | branch/hashed_perceptron.bpred:182-198 | bit k of word j is the outcome of age 12 j + k |
| `HashedHistories.IndexBits` | branch/hashed_perceptron.bpred:151-163 | bit b of an index is the parity of bit b of the address and of the outcomes of age 12 j + b among the n most recent ones |
| `HashedHistories.EveryOutcomeMatters` | branch/hashed_perceptron.bpred:151-163 | histories that differ in exactly one outcome of age below n give different indices |
| `HashedHistories.IndexDependsOnRecent` | branch/hashed_perceptron.bpred:131-167 | the index of a table depends only on its n most recent outcomes and the address |
| `HashedHistories.InsertedWord` | branch/hashed_perceptron.bpred:184-198 | shifting one word gives its new twelve outcomes and hands on the right bit |
| `HashedPerceptron.TrainingMovesTotal` | branch/hashed_perceptron.bpred:202-218 | training moves the sum of the selected weights towards the outcome by one per weight that is not saturated |
| `HashedPerceptron.AdaptedOk` | branch/hashed_perceptron.bpred:220-241 | theta never gets negative and |tc| stays below SPEED |
| `HashedPerceptron.ThresholdFollowsBalance` | branch/hashed_perceptron.bpred:220-241 | SPEED * theta + tc moves by one with each adaptation: up for a misprediction, down for a right but weak prediction |
| `HashedPerceptron.BalanceIsKept` | branch/hashed_perceptron.bpred:220-241 | over any run it is its start plus the mispredictions minus the right but weak predictions |
| `HashedPerceptron.Predictor.PredictBranch` | branch/hashed_perceptron.bpred:122-173 | the sum of the indexed weights, within [-2048, 2032] |
| `HashedPerceptron.Predictor.LastBranchResult` | branch/hashed_perceptron.bpred:176-242 | history, weights and threshold after a branch; weights stay in [-128, 127] |
| `Perceptrons.TrainingMovesOutput` | branch/perceptron.bpred:273-313 | one training step moves the output on the same history towards the outcome by 25 minus the number of saturated weights |
| `Perceptrons.RecordedBits` | branch/perceptron.bpred:230-233 | the bits of a history register are the last 64 outcomes, the latest lowest |
| `Perceptrons.TrainsUnlessSure` | branch/perceptron.bpred:256-271 | training goes on exactly after a misprediction or while the output is within the threshold |
| `Perceptrons.Predictor.PredictBranch` | branch/perceptron.bpred:170-235 | the dot product over the speculative history, recorded for the update |
| `Perceptrons.Predictor.LastBranchResult` | branch/perceptron.bpred:237-313 | trains unless the output was beyond the threshold on the right side; a misprediction restores the speculative history |
| `Perceptrons.Predictor.Resolve` | branch/perceptron.bpred:170-313 | after a prediction and its update both histories are equal, and the output has moved towards the outcome |
| `Confidence.UdceDominates` | confidence_predictors/UDCE.h:48-63 | from fresh tables, under any updates, no counter of UDCE is below that of EJRS |
| `Confidence.EntryBits` | confidence_predictors/EJRS.h:33-46 | bit b of an entry is the parity of three bits of the address, bit b of the history and, for b = 0, the prediction |
| `Confidence.HistoryBits` | confidence_predictors/EJRS.h:59-62 | the history of an estimator is the most recent outcomes, the last one lowest |
| `Confidence.LookupMeetsUpdate` | confidence_predictors/EJRS.h:40-50 | get_confidence and update_table name the same entry for all branches exactly if the history has 14 bits |
| `Confidence.CountersFollowHits` | confidence_predictors/EJRS.h:48-62 | after any branches a counter of EJRS is 15 if no hit of its entry was ever wrong, otherwise the hits since the last wrong one, at most 15; one of UDCE moves by one with each hit |
| `Confidence.ConfidentMeansNoneWrong` | confidence_predictors/EJRS.h:40-46 | EJRS is confident in a branch exactly if none of the last 15 hits of its entry was a misprediction, UDCE exactly if the balance of the hits is at its maximum |
| `Confidence.TwoEstimatorsAreEjrs` | confidence_predictors/CBCP.h:34-40 | the composite of EJRS and UDCE answers as EJRS alone |
| `Confidence.ThreeEstimatorsIgnoreUdce` | confidence_predictors/CBCP.h:42-58 | the composite of all three answers as EJRS confident and BPRU not reversing |
| `CompositeConfidence.CountsMispredictions` | confidence_predictors/BPRU.h:148-221 | reverse_prediction followed by update_RT: the counter goes up exactly if the branch predictor itself was wrong, overruled or not |
| `CompositeConfidence.CountersAreLevels` | confidence_predictors/BPRU.h:136-221 | while both lookups meet, each counter is the saturated balance of the mispredictions of its slot since the tag came in |
| `CompositeConfidence.ReversesOftenWrong` | confidence_predictors/BPRU.h:136-170 | with the parameters of the simulator a prediction is reversed exactly if its branch is in the table with a balance of four or more |
| `CompositeConfidence.UpdateFindsSlot` | confidence_predictors/BPRU.h:53-81 | update_RT counts in the slot that reverse_prediction has claimed if and only if that slot is in the set of the branch, or had its tag already, or all counters of the set are 0 |
| `CompositeConfidence.UpdateMissesSlot` | confidence_predictors/BPRU.h:53-81 | the two calls miss each other in tables that four branches lead to from fresh ones: the prediction claims slot 1, the update counts in slot 2 |
| `CompositeConfidence.SimpleTablesAgree` | confidence_predictors/BPRU.h:53-81 | with one set, or one way, both calls always use the same slot |
| `CompositeConfidence.SlotMeaning` | confidence_predictors/BPRU.h:53-81 | RT_hash finds the first slot of the set with the tag or empty; failing that, a slot with the highest counter, or the slot numbered like the set |
| `CompositeConfidence.CounterTable.UpdateTable` | confidence_predictors/EJRS.h:48-62 | one update of EJRS or of UDCE |
| `CompositeConfidence.Bpru.RtHash` | confidence_predictors/BPRU.h:53-81 | the scan returns the slot that SlotMeaning describes, inside the table |
| `CompositeConfidence.Bpru.ReversePrediction` | confidence_predictors/BPRU.h:136-170 | the prediction is reversed exactly if the counter of the branch says so |
| `CompositeConfidence.Bpru.UpdateRt` | confidence_predictors/BPRU.h:177-221 | the counter moves by one and stays within its maximum |
| `CompositeConfidence.Bpru.Resolve` | confidence_predictors/BPRU.h:136-221 | a prediction and its resolution: tag and counter of the branch, with the counter moved by whether the predictor was wrong |
| `CompositeConfidence.Composite.GetConfidence` | confidence_predictors/CBCP.h:42-58 | EJRS confident and BPRU not reversing, after any sequence of updates |
| `CompositeConfidence.Composite.GetConfidenceOfTwo` | confidence_predictors/CBCP.h:42-58 | EJRS confident, after any sequence of updates |
| `PageRemapping.ConversionIsInjective` | cvp_tracer/cvp2champsim.cc:338-361 | over a whole conversion equal data pages go to equal pages, different ones stay different, and none lands on a code page |
| `PageRemapping.ConversionIsAMap` | cvp_tracer/cvp2champsim.cc:338-361 | every address converted so far went where the final map says: a remapping is never changed |
| `PageRemapping.Preprocess` | cvp_tracer/cvp2champsim.cc:308-335 | the code pages and data pages of the trace |
| `PageRemapping.Converter.TransformAddress` | cvp_tracer/cvp2champsim.cc:338-361 | keeps the 12-bit offset and moves the page as specified; the search ends because the page sets are finite |
| `OutOfOrderCore.Core.FinishMemoryOp` | src/ooo_cpu.cc:2012-2024 | a finished load or store counts num_mem_ops down, and inflight_mem_executions up at 0 |
| `OutOfOrderCore.Core.FinishMemoryScheduling` | src/ooo_cpu.cc:1134-1141 | the flags of a memory instruction once all its operations are queued |
| `LoadStoreUnit.Unit.IssueStore` | src/ooo_cpu.cc:1447-1502 | the oldest entry of RTS0 goes to the DTLB |
| `LoadStoreUnit.Unit.IssueLoad` | src/ooo_cpu.cc:1533-1585 | the oldest entry of RTL0 goes to the DTLB |
| `LoadStoreUnit.Unit.CompleteEntry` | src/ooo_cpu.cc:1745-1760 | a memory instruction with nothing outstanding completes |
| `CompositeConfidence.Composite.UpdateEstimators` | confidence_predictors/CBCP.h:60-70 | one update reaches all estimators |

## Left out

- Trace reading, decoding, branch handling in the front end, statistics and all printing: input and output.
- The caches and TLBs (src/cache.cc): an environment that answers each accepted request exactly once; the replacement model takes a lookup and its fill as one access.
- The register scheduler treats memory operations, and the load/store queue treats register readiness, as events that may come at any time their guards allow. ReadyRuns composes the two as far as progress depends on it: readiness is any function within what PipelineTheorems.ReadyAfterWriters and PipelineTheorems.ReadyWithoutWriters prove of reg_ready; the states of both models are not run side by side.
- LoadQueueDeadlock.LoadQueueSuffices: that the oldest instruction can retire, not that every order of events makes it; events come in any order, so the scan limits of the scheduler do not enter. Programs have at most one store per instruction, since otherwise a producer check can stop the simulator.
- ROB.producer_id and all fields that only feed statistics; they decide nothing.
- The widths and iteration limits of operate_lsq, and the waiting of its ring heads for their event cycle: any interleaving of its steps is allowed, which includes the simulator's.
- Physical addresses in the load/store queue: forwarding compares virtual addresses, as the code does.
- LsqWaiting.StepWaits: what forwarding does after a failed producer check is not modelled, since the simulator stops there.
- LoadStoreUnit.Unit.AddStoreQueue: the rings of the unit are sequences instead of arrays, so overwriting a slot is not captured there; each push asserts room, and `Rings.Ring` proves an array ring to be such a sequence.
- LoadStoreUnit.Unit.RetireRob: the write queue of the data cache is a number of free entries given to the call.
- LoadStoreUnit.Unit.HandleMergedLoads: the dependants recorded with a request are a parameter.
- OutOfOrderCore.Core.RegRawRelease: the consumer sets are mathematical sets; `FastSet` proves separately that the data structure of inc/set.h is one.
- Cycle numbers, instruction numbers and page numbers are unbounded; UINT64_MAX as "never" is None, and UINT32_MAX as "no row" too.
- MemoryController.Controller.AddRq: only after the warmup, for addresses other than 0; before it the controller just answers. The memory controller is modelled one channel at a time, since channels share nothing but the loop.
- Data of requests, and the counters of row-buffer hits and bus congestion.
- Kpcp.Prefetcher.OperatePrefetcher: the counters behind MAX_CONF are parameters, and issuing the prefetches with the bitmaps that filter them is not modelled, nor is the global history register, which is compiled out.
- PageAllocation.PageTable.VaToPa: random numbers come as a stream that hits a free page some time; recent_page is never filled, so the victim of a swap is the smallest virtual page; invalidation of caches, footprint counters and stall cycles are not modelled, and of page_queue only its length.
- CompositeConfidence.Composite.GetConfidence: the composite owns its estimators; a default-constructed one, which always answers 1, is not modelled.
- HashedPerceptron.Predictor.PredictBranch: addresses are numbers of any size; only their low twelve bits enter the index.
- PageRemapping.ConversionIsInjective: page numbers do not wrap around at 64 bits, so that the search for a fresh page may go up for ever.
- spp_dev, the tournament, bimodal and gshare predictors, SBI, the next-line and stride prefetchers and the RRIP policies: saturating counters and short loops.
