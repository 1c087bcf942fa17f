# Proofs about ChampSim and its branch predictors

ChampSim simulates a processor cycle by cycle. This project models its hard state machines and
the structures beneath them, and proves what every run of them keeps. Each state machine comes
twice: as a value with functions that say what a step does, about which the invariants and
theorems are proved, and as a class that performs the steps in place, loop by loop, the way the
simulator does, each method proved to compute what the function says. Lemmas named `…InNumbers`, `…InFields` and
`…Iff` say what a step does in plain numbers and fields, without the functions that define it.
`dafny verify dfyconfig.toml` checks everything.

| part | value and theorems | in place |
|---|---|---|
| DRAM controller | `DramModel`, `DramSafety`, `DramBus`, `DramDrain`, `DramTiming` | `MemoryControllers` |
| register scoreboard of the core | `Scoreboard`, `ScoreboardSafety`, `ScoreboardSteps`, `ScoreboardLinks`, `ScoreboardRuns`, `ScoreboardTiming`, `ScoreboardWidths` | `OutOfOrderCores`, `IndexRings` |
| loads and store-to-load forwarding | `Forwarding`, `ForwardingSafety`, `ForwardingSteps`, `ForwardingStores`, `ForwardingChecks`, `ForwardingRuns`, `ForwardingStages`, `ForwardingWitnesses` | `LoadStoreQueues` |
| store queue and STA | `StoreOrder`, `StoreOrderSafety`, `StoreOrderRuns`, `StoreTranslations` | `StoreQueues`, `IndexRings` |
| non-blocking cache with LRU | `CacheModel`, `CacheSafety`, `CacheRuns`, `CacheWaiters`, `CacheStores`, `CacheFills`, `Recency` | `CacheArrays`, `PacketQueues` |
| signature-path prefetcher | `PatternTables`, `PatternCounts`, `SignaturePath`, `SignatureTables`, `Strides` | `SignaturePrefetchers` |
| small sets | `Counting`, `Powers` | `FastSets` |
| miss caches | `RecencyLists` | `MissCaches`, `LruMissCaches` |
| perceptron and VIP | `Perceptrons`, `PrivatePredictors`, `Trainings` | `PerceptronArrays`, `VipPredictor` in `PrivatePredictors` |
| page allocator | `Pages` | `PageTables` |

## What the proofs found

- The assertion on `producer_id` in `execute_store` can fail (`ForwardingWitnesses.AssertionCanFail`):
  a store to two addresses, a later store to one of them, and a load of both. It can also pass where
  it should not: the `lq_index` of an operand is never taken back, so that a visit may be led to
  another load that has taken the entry since, and serves that load with the data of another
  address (`WrongLoadCanBeServed`). `ForwardingChecks.AssertionsHoldIff` says exactly when the
  assertion holds, and `MisfeedsIff` exactly when a wrong load is served. Runs of the model go on
  after such a step and end only where the assertion fails, as the simulator does. What survives is
  proved of all of them: an instruction that has served a wrong load never retires, since its last
  store is bound to fail the assertion, and so nothing ever retires with wrong data
  (`ForwardingRuns.RetiresWithTheRightData`). Programs whose instructions store at most once never
  meet either case (`SingleStoresNeverStop`).
- `fastset::join` with a large set takes over the members up to the end of the 64-bit word of
  bit `n`, and `fastset::expand` of a small set ignores `n`. The contracts of `FastSet.Join` and
  `FastSet.Expand` say exactly when that makes no difference; `JoinFallsShort` and `ExpandOverruns`
  are calls where it does.
- The score of a private predictor reads like a saturating counter, but at `MAX_SCORE` a right
  default prediction lowers it: the second branch of updateScoreBoard takes what the bound of the
  first leaves over (`PrivatePredictors.ScoreMeaning` says exactly when it rises and falls).
- The bits of the CPU number that va_to_pa mixes into a page number keep the CPUs apart if and
  only if `NUM_CPUS` is a power of two (`Pages.CpusApartIff`). Otherwise they also reach the lowest
  bits, and change the offset within the page (`Pages.OffsetsAreKeptIff`).
- A store that misses while its line is on its way for a load is dropped by the merge: the line is
  filled clean (`CacheStores.StoreIsRememberedIff`, `FillIsDirtyIff`).
- A fourth prediction that waits for its outcome makes the ring of a perceptron look empty
  (`Perceptrons.EnqueueAppends`).
- Invalidating a dirty block does not clear its dirty bit, so the line is written back when its
  way is filled the next time (`CacheRuns.DirtyUntilWrittenBack`).
- The end of the range in schedule_instruction is never moved, so scheduling goes from the head
  to the end of the buffer array and wraps only when the head does; the model does the same.
- reg_dependency skips writers that have completed. The nearest older *uncompleted* writer is
  linked; that the nearest older writer has completed whenever it is not linked is a theorem
  (`ScoreboardSafety.NoReadBeforeWrite`).

## Model

| member | source | states |
|---|---|---|
| DramSafety.ReachableInv | ChampSim/src/dram_controller.cc:7-414 | Over every run of arrivals and cycles: queue occupancies, the cached next-schedule and next-process pairs, the counts of scheduled reads and writes, and the naming between scheduled requests of the active queue and busy banks are all exact; the inactive queue has nothing scheduled |
| DramSafety.BankIsBusyIffOneRequest | ChampSim/src/dram_controller.cc:236-353 | A bank is working if and only if a scheduled request of the active queue maps to it; there is one such request, and request_index names it |
| DramSafety.ProcessIsSane | ChampSim/src/dram_controller.cc:274-298 | The two assertions at the start of process (a valid index, a busy bank) hold whenever process is called; so does the check of the occupancy when the request is removed |
| DramSafety.ResetInv | ChampSim/src/dram_controller.cc:7-67 | A mode change puts every scheduled request back, frees every bank and leaves both scheduled counts at zero, as the assertions of reset_remain_requests demand |
| DramSafety.ScheduleInv | ChampSim/src/dram_controller.cc:123-272 | Scheduling keeps the correspondence: a request takes only a free bank, and owns it |
| DramSafety.ProcessInv | ChampSim/src/dram_controller.cc:274-414 | Serving a request, or waiting for its bank or the bus, keeps the correspondence |
| DramSafety.OperateInv | ChampSim/src/dram_controller.cc:69-121 | A whole cycle keeps the invariant, mode changes included |
| DramSafety.ArrivalInv | ChampSim/src/dram_controller.cc:416-532 | Arriving reads and writes, forwarded, merged or queued, keep the invariant |
| DramSafety.InsertTakes | ChampSim/src/dram_controller.cc:462-488 | A queue whose occupancy is below its size takes the request into a slot that was empty, and changes no other slot |
| DramSafety.ScheduleTakesOldestRowHit | ChampSim/src/dram_controller.cc:131-215 | The request scheduled has an idle bank, is a row hit if there is any, and is the oldest of those, the first in the array among equals |
| DramTiming.TransfersWaitForTheAccess | ChampSim/src/dram_controller.cc:217-360 | Over every run, a request uses the bus at least tCAS after it was scheduled if its bank had the row open at that moment, and at least tRP + tRCD + tCAS otherwise; in between it keeps its slot |
| DramTiming.ScheduleInNumbers | ChampSim/src/dram_controller.cc:123-272 | Whenever a waiting request has a free bank one such request is scheduled; it and its bank are due at now + tCAS on an open row and at now + tRP + tRCD + tCAS otherwise, the bank has its row open, and nothing else of the queues, banks, mode or bus changes |
| DramTiming.NothingToSchedule | ChampSim/src/dram_controller.cc:217-272 | If every waiting request has a busy bank, scheduling does nothing |
| DramTiming.ActsWhenDue | ChampSim/src/dram_controller.cc:69-121 | A cycle schedules if and only if some waiting request of the active queue is due, and serves if and only if some scheduled one is |
| DramTiming.NextIsEarliest | ChampSim/src/dram_controller.cc:576-598 | The request to serve next is scheduled and due, and no scheduled one is due earlier |
| DramTiming.ProcessInNumbers | ChampSim/src/dram_controller.cc:274-414 | A request is served exactly if its bank and the bus are available; then its slot is empty, its bank keeps the row open, and the bus is taken for the return time; if only the bus is missing its bank waits for the bus, and otherwise nothing changes |
| DramTiming.ModeTurnsIff | ChampSim/src/dram_controller.cc:69-94 | The mode turns exactly at the watermarks, in the stated numbers, and only then the bus is busy for the turn-around time longer |
| DramTiming.TurnPutsBack | ChampSim/src/dram_controller.cc:7-67 | When the mode turns each scheduled request waits again from now on; its bank is free from now on, and keeps the row open if and only if the column access could have begun |
| DramTiming.TurnLeavesFreeBanks | ChampSim/src/dram_controller.cc:7-67 | A bank without a request of the old mode is as before |
| DramTiming.ReadJoinsIff | ChampSim/src/dram_controller.cc:416-490 | A read takes an empty slot if and only if neither queue holds its address and there is one; no other slot changes |
| DramTiming.WriteJoinsIff | ChampSim/src/dram_controller.cc:492-532 | A write takes an empty slot if and only if no write to its address waits and there is one; no other slot changes |
| DramTiming.AddressParts | ChampSim/src/dram_controller.cc:638-676 | The bank of an address is its lowest three bits, and its row the sixteen bits above bank and column |
| DramBus.TransfersAreSpaced | ChampSim/src/dram_controller.cc:73-93 | Over every run any two uses of the data bus are at least DRAM_DBUS_RETURN_TIME apart, and uses in different directions DRAM_DBUS_TURN_AROUND_TIME more |
| DramDrain.OperateProgress | ChampSim/src/dram_controller.cc:69-121 | With no arrivals each cycle goes down in a well-founded order: mode changes left, requests, unscheduled requests, cycles to wait |
| DramDrain.Drains | ChampSim/src/dram_controller.cc:69-414 | In any endless run without arrivals, with an advancing clock, both queues become empty |
| DramDrain.AtMostFourModeChanges | ChampSim/src/dram_controller.cc:69-121 | However long such a run is, the read/write mode changes at most four times |
| DramDrain.EveryRequestIsServed | ChampSim/src/dram_controller.cc:274-414 | By then every request that was queued has used the bus, once each: the number of uses is the number of requests |
| MemoryControllers.RequestQueue.UpdateScheduleCycle | ChampSim/src/dram_controller.cc:544-574 | The loop finds the earliest request that is not scheduled |
| MemoryControllers.RequestQueue.UpdateProcessCycle | ChampSim/src/dram_controller.cc:576-598 | The loop finds the earliest scheduled request |
| MemoryControllers.RequestQueue.Check | ChampSim/src/dram_controller.cc:600-626 | The first slot with the address, or none |
| MemoryControllers.RequestQueue.Add | ChampSim/src/dram_controller.cc:462-488 | A request goes to the first empty slot and the occupancy follows |
| MemoryControllers.MemoryController.ResetRemainRequests | ChampSim/src/dram_controller.cc:7-67 | The in-place loop puts back all scheduled requests and releases their banks: the new state is the specified one, with every sanity check passed on the way |
| MemoryControllers.MemoryController.OldestRowHit | ChampSim/src/dram_controller.cc:131-183 | The first search finds the earliest request that is a row hit on an idle bank |
| MemoryControllers.MemoryController.OldestIdle | ChampSim/src/dram_controller.cc:185-215 | The second search finds the earliest request on an idle bank |
| MemoryControllers.MemoryController.Schedule | ChampSim/src/dram_controller.cc:123-272 | In place: the whole new state of the queue, the banks and the counts |
| MemoryControllers.MemoryController.Process | ChampSim/src/dram_controller.cc:274-414 | In place: the whole new state of the queue, the banks, the bus and the counts, in all its branches |
| MemoryControllers.MemoryController.AddRq | ChampSim/src/dram_controller.cc:416-490 | A read is answered at once if and only if the write queue has its address, else merged or queued |
| MemoryControllers.MemoryController.AddWq | ChampSim/src/dram_controller.cc:492-532 | A write merges with a pending write to its address, or is queued |
| MemoryControllers.MemoryController.Operate | ChampSim/src/dram_controller.cc:69-121 | One cycle of the channel in place refines the specification and keeps its invariant |
| ScoreboardRuns.ReachableInv | ChampSim/src/ooo_cpu.cc:843-1076 | The scoreboard invariant holds in every state of every run, whatever the order of dispatch, scheduling, execution, completion and retirement |
| ScoreboardRuns.RunsAreSafe | ChampSim/src/ooo_cpu.cc:843-1076 | In every reachable state an instruction that has started waits for no producer, the nearest older writer of each of its sources has completed, and the two execution rings together hold no more than ROB_SIZE members |
| ScoreboardSafety.NoStartBeforeProducer | ChampSim/src/ooo_cpu.cc:997-1076 | A started instruction is in no uncompleted producer's dependent set |
| ScoreboardSafety.NoReadBeforeWrite | ChampSim/src/ooo_cpu.cc:922-995 | A started instruction's nearest older writer of each source, found by program order alone, has completed |
| ScoreboardSafety.OldestIsNeverStuck | ChampSim/src/ooo_cpu.cc:902-918 | No deadlock: the oldest uncompleted instruction, once scheduled, waits for no register, and is queued, executing, or ready for memory |
| ScoreboardSafety.QueuesFit | ChampSim/src/ooo_cpu.cc:1770-1790 | By pigeonhole the rings RTE0 and RTE1 never overflow: an instruction that is in neither finds its slot free |
| ScoreboardLinks.DoSchedulingInv | ChampSim/src/ooo_cpu.cc:884-995 | Scheduling links each source to the youngest older uncompleted writer; num_reg_dependent is again the number of links, and the instruction is ready exactly if it has none |
| ScoreboardLinks.CompleteExecutionInv | ChampSim/src/ooo_cpu.cc:1713-1801 | Completion releases every consumer of every slot, no count goes below zero, and exactly the consumers left with none become ready |
| ScoreboardSteps.Execute0Inv | ChampSim/src/ooo_cpu.cc:997-1027 | Starting the head of RTE0 keeps the invariant |
| ScoreboardSteps.Execute1Inv | ChampSim/src/ooo_cpu.cc:1029-1054 | Starting the head of RTE1 keeps the invariant |
| ScoreboardSteps.IssueMemoryInv | ChampSim/src/ooo_cpu.cc:1131-1145 | Handing a ready memory instruction to the load/store queue keeps the invariant |
| ScoreboardSteps.DispatchInv | ChampSim/src/ooo_cpu.cc:398-432 | A dispatched instruction in the tail slot keeps the invariant |
| ScoreboardSteps.RetireInv | ChampSim/src/ooo_cpu.cc:2213-2306 | Retirement of the completed head leaves no link behind |
| ScoreboardTiming.CompletesIff | ChampSim/src/ooo_cpu.cc:1713-1759 | In any step an entry completes exactly if it is checked while it executes, its cycle has come and, for a memory instruction, num_mem_ops is 0 |
| ScoreboardTiming.StaysCompleted | ChampSim/src/ooo_cpu.cc:1713-1759 | Nothing but retirement undoes a completion |
| ScoreboardTiming.StartsIff | ChampSim/src/ooo_cpu.cc:997-1145 | An entry starts exactly as the first of a due execution queue or when it is handed to the load/store queue; the first takes its latency from now |
| ScoreboardTiming.ScheduledWhen | ChampSim/src/ooo_cpu.cc:884-920 | Scheduling puts a memory instruction in flight and delays any other by the scheduling latency, counted from now or from its own later cycle; no other entry is scheduled or delayed |
| ScoreboardTiming.CompletedHaveTheirData | ChampSim/src/ooo_cpu.cc:1713-1759 | Over every run in which operands of completed instructions do not come back, a completed memory instruction has none of its operands outstanding |
| ScoreboardTiming.ExecutionTakesItsLatency | ChampSim/src/ooo_cpu.cc:1056-1076 | Over every run, an instruction that is not a memory instruction completes no earlier than the latency after its start |
| ScoreboardWidths.SchedulesUpTo | ChampSim/src/ooo_cpu.cc:843-882 | schedule_instruction gets exactly to the first entry that is empty or not due, to the end of its window or to the end of the array; all before is scheduled, nothing beyond has changed |
| ScoreboardWidths.StartsFirst | ChampSim/src/ooo_cpu.cc:997-1027 | The first loop starts the first entries of RTE0, as many as are due and the width allows, each due its latency from now, and changes nothing else |
| ScoreboardWidths.StartsSecond | ChampSim/src/ooo_cpu.cc:1029-1054 | The second loop does the same with RTE1 |
| ScoreboardWidths.RetiresInOrder | ChampSim/src/ooo_cpu.cc:2213-2306 | The oldest instructions leave one after the other, as long as they have completed and the width allows, and nothing else changes |
| ScoreboardWidths.CompletesAll | ChampSim/src/ooo_cpu.cc:1816-1843 | update_rob completes exactly the entries that execute, are due and, if they are memory instructions, have num_mem_ops at 0, and changes the stage, cycle or data of no other |
| ScoreboardWidths.QueuesKeepOrder | ChampSim/src/ooo_cpu.cc:902-1801 | Instructions leave an execution queue at the front, and enter at the end: RTE1 when scheduled, RTE0 in ascending order when their producers complete |
| Scoreboard.Producer | ChampSim/src/ooo_cpu.cc:922-995 | The producer found is an older uncompleted writer of the register, and no other such writer is younger |
| OutOfOrderCores.OutOfOrderCore.AddToRob | ChampSim/src/ooo_cpu.cc:398-432 | The tail slot is empty and takes the instruction |
| OutOfOrderCores.OutOfOrderCore.RegRawDependency | ChampSim/src/ooo_cpu.cc:969-995 | The link is made if and only if the older entry writes the register and has not completed |
| OutOfOrderCores.OutOfOrderCore.RegDependency | ChampSim/src/ooo_cpu.cc:922-967 | The two descending loops over the ring link every source to its youngest older uncompleted writer, and change nothing else |
| OutOfOrderCores.OutOfOrderCore.DoScheduling | ChampSim/src/ooo_cpu.cc:884-920 | In place; the sanity check on RTE1 holds |
| OutOfOrderCores.OutOfOrderCore.ScheduleInstruction | ChampSim/src/ooo_cpu.cc:843-882 | Scheduling goes in order from the head to the end of the array, as far as the window, the first instruction not fetched or not yet due, allows |
| OutOfOrderCores.OutOfOrderCore.ExecuteInstruction | ChampSim/src/ooo_cpu.cc:997-1054 | Up to EXEC_WIDTH instructions start, from RTE0 first, each in queue order |
| OutOfOrderCores.OutOfOrderCore.RegRawRelease | ChampSim/src/ooo_cpu.cc:1761-1801 | The loop over the dependents tells all consumers, in ascending order, slot by slot; the sanity check on RTE0 holds |
| OutOfOrderCores.OutOfOrderCore.CompleteExecution | ChampSim/src/ooo_cpu.cc:1713-1759 | In place refinement of completion, for memory and other instructions |
| OutOfOrderCores.OutOfOrderCore.UpdateRob | ChampSim/src/ooo_cpu.cc:1816-1843 | Entries complete in program order, around the end of the array if need be |
| OutOfOrderCores.OutOfOrderCore.MemoryScheduled | ChampSim/src/ooo_cpu.cc:1131-1145 | The instruction is in flight, and nothing else changes |
| OutOfOrderCores.OutOfOrderCore.RetireRob | ChampSim/src/ooo_cpu.cc:2213-2306 | Completed instructions leave from the head only, at most the retire width of them |
| IndexRings.IndexRing.Push | ChampSim/src/ooo_cpu.cc:905-916 | The slot at the tail is free while there are fewer members than slots, and the member is last |
| IndexRings.IndexRing.Pop | ChampSim/src/ooo_cpu.cc:1006-1027 | The first member leaves, and its slot is free again |
| IndexRings.IndexRing.Peek | ChampSim/src/ooo_cpu.cc:1006-1015 | The number at the head is below ROB_SIZE exactly if the ring has members |
| ForwardingRuns.ReachableInv | ChampSim/src/ooo_cpu.cc:1203-1682 | Over every run that the assertions of execute_store let go on, wrongly served loads included: num_mem_ops of each instruction is the number of its operands still outstanding, each waiting load has its own load queue entry, which names the youngest older store to its address, and is on the way to memory only if there is none |
| ForwardingRuns.DataComesFromTheRightPlace | ChampSim/src/ooo_cpu.cc:1226-1300 | In every step a load operand keeps its data, or gets it from the youngest older store to its address, or from memory if there is no such store, or else a store of the same instruction to another address serves it by mistake |
| ForwardingRuns.FedWronglyOnlyByForeignVisits | ChampSim/src/ooo_cpu.cc:1632-1676 | The mistake happens only in steps of execute_store that visit a foreign operand |
| ForwardingRuns.DataArrivesOnce | ChampSim/src/ooo_cpu.cc:1999-2028 | Once an operand has its data it never gets it again |
| ForwardingRuns.DataArrives | ChampSim/src/ooo_cpu.cc:1610-1682 | An operand gets its data at exactly one step of a run: what program order demands at that step, or else that of another address for good |
| ForwardingRuns.RetiresComplete | ChampSim/src/ooo_cpu.cc:2213-2306 | An instruction retires with the data of every load, none of them that of another address, and after all its stores |
| ForwardingRuns.RetiresWithTheRightData | ChampSim/src/ooo_cpu.cc:2213-2306 | Whatever a run served by mistake: each operand of an instruction that retires got its data from the store or the memory that program order demanded when it arrived |
| ForwardingStages.IssuedIff | ChampSim/src/ooo_cpu.cc:1078-1145 | An instruction is in flight exactly from the step that issues it, and then every operand is in the load or the store queue |
| ForwardingStages.FinishesIff | ChampSim/src/ooo_cpu.cc:1713-1759 | It completes exactly in a step that checks it while every source operand has its data and every destination operand has been stored |
| ForwardingStages.LoadsKeepOrder | ChampSim/src/ooo_cpu.cc:1193-1960 | Loads leave RTL0 and RTL1 at the front and enter at the end: RTL0 exactly if no older store has their data, RTL1 when translated |
| ForwardingRuns.WhoMisfeedsNeverRetires | ChampSim/src/ooo_cpu.cc:1632-1676 | An instruction whose store serves a wrong load stays in the reorder buffer in every continuation of the run |
| ForwardingRuns.LastStoreFails | ChampSim/src/ooo_cpu.cc:1635-1650 | The last store of an instruction that has served a wrong load, or whose dependents have data too early, runs into the assertion |
| ForwardingRuns.OldestMoves | ChampSim/src/ooo_cpu.cc:1436-1609 | No deadlock: while the oldest instruction lacks data it has asked for, a load can move or a store is there to be executed |
| ForwardingChecks.AssertionsHoldIff | ChampSim/src/ooo_cpu.cc:1635-1650 | The comparison of producer_id, made visit by visit with entries released in between, passes in all visits if and only if every foreign visit is led by its old lq_index to a load waiting for another store of the instruction, and no two foreign visits to the same load; foreign is an operand that waits for another instruction or has its data |
| ForwardingChecks.MisfeedsIff | ChampSim/src/ooo_cpu.cc:1632-1676 | A store that passes serves a load of another address if and only if it visits a foreign operand |
| ForwardingChecks.ForeignIffShadowed | ChampSim/src/ooo_cpu.cc:1635-1650 | If no instruction stores twice to an address, a visit is foreign if and only if a store in between writes the same address or the operand was served by mistake before |
| ForwardingChecks.SingleStoresPass | ChampSim/src/ooo_cpu.cc:1635-1650 | With at most one store per instruction the assertion holds and no wrong load is served |
| ForwardingRuns.SingleStoresNeverStop | ChampSim/src/ooo_cpu.cc:1610-1682 | Programs of such instructions never run into the assertion in any run that nothing stops, and no operand ever has the data of another address |
| ForwardingRuns.SingleStoreRunsAreRuns | ChampSim/src/ooo_cpu.cc:1610-1682 | Everything proved of runs holds of such programs with no assertion to stop them |
| ForwardingWitnesses.AssertionCanFail | ChampSim/src/ooo_cpu.cc:1635-1650 | A run after which the assertion fails: a store to two addresses, a later store to one of them, a load of both |
| ForwardingWitnesses.WrongLoadCanBeServed | ChampSim/src/ooo_cpu.cc:1635-1676 | A run after which it passes on an entry that is used again, and the load there is served with the data of another address; the instruction's other store then fails |
| ForwardingSteps.AddLoadInv | ChampSim/src/ooo_cpu.cc:1203-1351 | A load that enters is forwarded, or waits for its store, or goes to memory, and the invariant holds |
| ForwardingSteps.AnswerIsAwaited | ChampSim/src/ooo_cpu.cc:1999-2028 | An answer of the data cache finds its load waiting, in its own entry, and no store it should have waited for |
| ForwardingSteps.LoadReturnedInv | ChampSim/src/ooo_cpu.cc:1999-2028 | An answered load releases its entry, and num_mem_ops does not go below zero |
| ForwardingSteps.AddStoreInv | ChampSim/src/ooo_cpu.cc:1376-1434 | A store that enters keeps the invariant |
| ForwardingStores.ExecuteStoreInv | ChampSim/src/ooo_cpu.cc:1610-1682 | A store that passes serves whatever loads its visits lead to, and the invariant holds: every load that waited for it has its data, num_mem_ops does not go below zero, and a wrong load is owed a store |
| ForwardingStores.DispatchInv | ChampSim/src/ooo_cpu.cc:398-432 | A new instruction is nobody's youngest older store, and the invariant holds |
| ForwardingStores.RetireInv | ChampSim/src/ooo_cpu.cc:2213-2306 | Retirement keeps the invariant: a load keeps its youngest older store |
| ForwardingStores.NobodyWaits | ChampSim/src/ooo_cpu.cc:2213-2306 | No load waits for a store of the instruction that retires |
| Forwarding.Youngest | ChampSim/src/ooo_cpu.cc:1226-1254 | The store found is older, writes the address, and no older instruction after it does; with none found, no older instruction writes it |
| LoadStoreQueues.LoadStoreQueue.AddLoadQueue | ChampSim/src/ooo_cpu.cc:1203-1351 | In place: a free entry, the searches for producer and forwarder, and the outcome, for every branch |
| LoadStoreQueues.LoadStoreQueue.FindFree | ChampSim/src/ooo_cpu.cc:1205-1219 | The first free entry; there is one while the occupancy is below the size |
| LoadStoreQueues.LoadStoreQueue.FindProducer | ChampSim/src/ooo_cpu.cc:1226-1254 | The two descending loops stop at the youngest older store to the address and register the load there, and nowhere else |
| LoadStoreQueues.LoadStoreQueue.MemRawDependency | ChampSim/src/ooo_cpu.cc:1353-1374 | The load is registered with the older entry exactly if that stores to its address |
| LoadStoreQueues.LoadStoreQueue.FindForwarder | ChampSim/src/ooo_cpu.cc:1256-1300 | The search of the store queue finds an entry of the producer with the load's address, if there is one |
| LoadStoreQueues.LoadStoreQueue.ExecuteStore | ChampSim/src/ooo_cpu.cc:1610-1682 | The loops over dependents and sources reach their end if and only if the assertion holds at every visit, and then the new state is the specified one |
| LoadStoreQueues.LoadStoreQueue.FinishLoad | ChampSim/src/ooo_cpu.cc:1999-2028 | The answered operand is done and its entry free |
| LoadStoreQueues.LoadStoreQueue.ReleaseLoadQueue | ChampSim/src/ooo_cpu.cc:2201-2211 | The entry is free and the occupancy is again the number of entries in use |
| StoreOrderRuns.ReachableInv | ChampSim/src/ooo_cpu.cc:1376-1434 | The store queue invariant over every run of reading, dispatch, entry, execution and retirement |
| StoreOrderRuns.ReachableProgramOrder | ChampSim/src/ooo_cpu.cc:1169-1189 | In every reachable state the queue from head to tail, followed by STA, lists exactly the stores of the program in program order |
| StoreOrderRuns.OldestEnters | ChampSim/src/ooo_cpu.cc:1169-1189 | No deadlock: all stores of the oldest instruction enter when it is their turn, if the queue is as large as one instruction's stores |
| StoreOrderRuns.StaFits | ChampSim/inc/ooo_cpu.h:28 | STA, four times the size of the reorder buffer, has room for the stores of all instructions in it and read ahead of it, if these have no more destinations in all |
| StoreOrderRuns.StaFitsAsConfigured | ChampSim/inc/ooo_cpu.h:55-57 | STA fits with two destinations an instruction, 352 entries, and fetch and decode buffers of 12 and 18 |
| StoreTranslations.TranslatedInOrder | ChampSim/src/ooo_cpu.cc:1424-1470 | In every reachable state RTS0 lists exactly the youngest stores of the queue, in program order up to the tail |
| StoreTranslations.SentAreOlder | ChampSim/src/ooo_cpu.cc:1436-1470 | So every store that was sent for translation is older than every store that was not |
| StoreTranslations.TranslatedKeepOrder | ChampSim/src/ooo_cpu.cc:1436-1940 | Translated stores enter RTS1 at its end and are executed from its front |
| StoreOrderRuns.RetireInv | ChampSim/src/ooo_cpu.cc:2275-2306 | Retirement keeps the queue invariant |
| StoreOrderSafety.NextStore | ChampSim/src/ooo_cpu.cc:1169-1189 | The test of check_and_add_lsq against STA lets in exactly the next store in program order |
| StoreOrderSafety.TailIsFree | ChampSim/src/ooo_cpu.cc:1376-1384 | The sanity check of add_store_queue holds: the tail slot is free while the queue is not full |
| StoreOrderSafety.AddStoreInv | ChampSim/src/ooo_cpu.cc:1376-1434 | Entering keeps program order, and the instruction knows its slot |
| StoreOrderSafety.AddStoresInv | ChampSim/src/ooo_cpu.cc:1169-1189 | So does the loop over all stores of an instruction, whatever is full |
| StoreOrderSafety.ReadInv | ChampSim/src/ooo_cpu.cc:219-237 | Listing the stores of a new instruction in STA keeps program order |
| StoreOrderSafety.RetireFreesTheFront | ChampSim/src/ooo_cpu.cc:2275-2294 | Retirement frees exactly the slots from SQ.head on that hold the instruction's own stores, in order |
| StoreOrder.AllInOrder | ChampSim/src/ooo_cpu.cc:219-237 | The stores of a program are listed in program order |
| StoreQueues.StoreQueue.ReadFromTrace | ChampSim/src/ooo_cpu.cc:219-237 | The loop pushes one STA member for each store; the sanity check on STA holds |
| StoreQueues.StoreQueue.AddStoreQueue | ChampSim/src/ooo_cpu.cc:1376-1434 | In place: the tail slot, the tail, STA and RTS0, with the sanity checks passed |
| StoreQueues.StoreQueue.AddStoresOf | ChampSim/src/ooo_cpu.cc:1169-1189 | The loop of check_and_add_lsq over the stores |
| StoreQueues.StoreQueue.RetireHead | ChampSim/src/ooo_cpu.cc:2275-2306 | The loop that frees the slots at SQ.head one by one |
| CacheRuns.ReachableInv | ChampSim/src/cache.cc:6-1047 | The cache invariant over every run of fills, writes, reads, prefetches, returned data and invalidations |
| CacheRuns.LinesAreInOnePlace | ChampSim/src/cache.cc:127-226 | In every reachable state a line is valid in at most one way, in at most one miss register, and never in both |
| CacheRuns.StepTouches | ChampSim/replacement/base_replacement.cc:9-17 | Exactly fills, and hits other than of writebacks, touch a way; nothing else changes any rank |
| CacheRuns.RanksAreTrueRecency | ChampSim/replacement/base_replacement.cc:59-68 | In every reachable state one way's rank is below another's if and only if it was touched more recently |
| CacheRuns.DirtyUntilWrittenBack | ChampSim/src/cache.cc:86-125 | A dirty line stays in its way until a fill sends it to the write queue below |
| CacheStores.StoreIsRememberedIff | ChampSim/src/cache.cc:305-397 | A handled store leaves its line dirty, or on its way for a store, if and only if the line was not on its way for a load: there the merge drops the store |
| CacheStores.FillIsDirtyIff | ChampSim/src/cache.cc:160-210 | A filled line is dirty if and only if it was on its way for a store |
| CacheStores.DemandKindStays | ChampSim/src/cache.cc:363-372 | No merge changes for whom a line is on its way, but for prefetches |
| CacheStores.RememberedUntilWrittenBack | ChampSim/src/cache.cc:86-226 | A store is remembered until its line is written back or invalidated |
| CacheSafety.VictimExists | ChampSim/replacement/base_replacement.cc:19-57 | There is always a victim: a free way if there is one, else the least recent, so the error of lru_victim cannot occur |
| CacheSafety.RegisterIsFree | ChampSim/src/cache.cc:1702-1724 | MSHR.occupancy is below the size if and only if a register is free |
| CacheSafety.CachedOnce | ChampSim/src/cache.cc:1124-1153 | The way that check_hit finds is the only one that holds the line |
| CacheSafety.MergeKeepsArrival | ChampSim/src/cache.cc:363-372 | Even a merge that overwrites a prefetch packet keeps returned and event_cycle |
| CacheSafety.GatherKeepsArrival | ChampSim/src/cache.cc:695-757 | So does a merge that only adds dependents |
| CacheSafety.HandleFillInv | ChampSim/src/cache.cc:6-228 | A fill keeps the invariant: the pair (next_fill_index, next_fill_cycle) is the earliest completed register, the ranks of each set are a permutation, and every line is in one place |
| CacheSafety.HandleWriteInv | ChampSim/src/cache.cc:230-397 | So does a write on a cache that fills through its registers |
| CacheSafety.HandleReadInv | ChampSim/src/cache.cc:530-829 | So does a read |
| CacheSafety.HandlePrefetchInv | ChampSim/src/cache.cc:831-1047 | So does a prefetch |
| CacheSafety.ReturnDataInv | ChampSim/src/cache.cc:1590-1656 | So does an answer from below |
| CacheSafety.InvalidateInv | ChampSim/src/cache.cc:1155-1184 | So does an invalidation |
| CacheSafety.MissInv | ChampSim/src/cache.cc:635-816 | So does a miss: merged, in a new register, or not yet handled |
| CacheFills.FillsIff | ChampSim/src/cache.cc:6-228 | A fill changes the cache if and only if some line has arrived and is due and the block that the earliest of them replaces is clean or the write queue below has room; then its register is free and the line is in that block with the stated fields, and nothing else has changed but ranks of its set |
| CacheFills.DirtyStaysWithoutRoom | ChampSim/src/cache.cc:84-128 | While the write queue below has no room, no fill changes a dirty block of any set |
| CacheFills.WritesBackIff | ChampSim/src/cache.cc:84-128 | An address is written back if and only if a fill takes place and the block it replaces is dirty and has that address |
| CacheFills.HitsInFields | ChampSim/src/cache.cc:230-1047 | On a hit a write makes the block dirty, a read marks it as used and not prefetched, and a prefetch does neither; writebacks leave the ranks alone and anything else makes the block the most recent; nothing else changes |
| CacheFills.MissesInFields | ChampSim/src/cache.cc:310-1010 | A miss without a register of its line is handled if and only if a register is free and, for a prefetch, there is room below; it takes that register, unless it is a prefetch for a lower level |
| CacheFills.MergesInFields | ChampSim/src/cache.cc:344-1000 | A miss with a register of its line is always handled: a demand replaces a prefetch there, and otherwise the register keeps its request with the lower fill level |
| CacheFills.InvalidatedInFields | ChampSim/src/cache.cc:1155-1184 | Invalidation takes the valid bit of the one block with the line and nothing else |
| CacheFills.ArrivalIsDue | ChampSim/src/cache.cc:1604-1617 | A line that arrives is due the latency after now or after its own later cycle, and no other register changes |
| CacheFills.SetIsLowBits | ChampSim/src/cache.cc:1060-1063 | A cache of 2^k sets tells them apart by the lowest k bits of the line |
| CacheModel.FindEarliest | ChampSim/src/cache.cc:1627-1656 | The register found is a completed one, none is earlier, and the first among equals |
| CacheModel.SetOf | ChampSim/src/cache.cc:1060-1063 | Every line has a set of the cache |
| CacheWaiters.NobodyIsForgotten | ChampSim/src/cache.cc:635-816 | In every step, the loads and stores that wait for a line are those that waited and those that joined, less those told by a fill; a read that neither joins nor is answered stays in its queue |
| CacheWaiters.MergeGathers | ChampSim/src/cache.cc:695-776 | A demand that merges with a register adds its waiters and loses none, also where it overwrites a prefetch |
| CacheWaiters.FillAnswers | ChampSim/src/cache.cc:127-226 | A fill tells exactly the waiters of its line |
| CacheArrays.LruUpdate | ChampSim/replacement/base_replacement.cc:59-68 | The loop is the touch of the rank model |
| CacheArrays.LruVictim | ChampSim/replacement/base_replacement.cc:19-57 | The two searches find the specified victim |
| CacheArrays.FindHit | ChampSim/src/cache.cc:1124-1153 | The first valid way with the line, or none |
| CacheArrays.FillCache | ChampSim/src/cache.cc:1075-1122 | The way holds the line, with the flags and dirtiness of its packet |
| CacheArrays.CacheUnit.HandleFill | ChampSim/src/cache.cc:6-228 | In place, the fill refines the specification and keeps its invariant |
| CacheArrays.CacheUnit.HandleWrite | ChampSim/src/cache.cc:230-397 | So does a write |
| CacheArrays.CacheUnit.HandleRead | ChampSim/src/cache.cc:530-829 | So does a read |
| CacheArrays.CacheUnit.HandlePrefetch | ChampSim/src/cache.cc:831-1047 | So does a prefetch |
| CacheArrays.CacheUnit.Miss | ChampSim/src/cache.cc:635-816 | The miss path in place |
| CacheArrays.CacheUnit.ReturnData | ChampSim/src/cache.cc:1590-1625 | The register's arrival, and the next fill recomputed |
| CacheArrays.CacheUnit.UpdateFillCycle | ChampSim/src/cache.cc:1627-1656 | The loop finds the earliest completed register |
| CacheArrays.CacheUnit.AddMshr | ChampSim/src/cache.cc:1702-1724 | The first free register is taken |
| CacheArrays.CacheUnit.CheckMshr | ChampSim/src/cache.cc:1658-1700 | The first register of the line, or none |
| CacheArrays.CacheUnit.InvalidateEntry | ChampSim/src/cache.cc:1155-1184 | The line is invalid and nothing else changes |
| Recency.RanksAreRecency | ChampSim/replacement/base_replacement.cc:59-68 | Ranks are a permutation after any history of touches, and order the ways by their last touch |
| Recency.HighestIsOldest | ChampSim/replacement/base_replacement.cc:40-57 | The way with the highest rank is the one touched longest ago |
| Recency.RankIsTaken | ChampSim/replacement/base_replacement.cc:40-57 | In a permutation some way has the highest rank |
| PacketQueues.PacketQueue.CheckQueue | ChampSim/src/block.cc:3-74 | The oldest member that matches, around the end of the array if need be |
| PacketQueues.PacketQueue.AddQueue | ChampSim/src/block.cc:76-95 | The slot at the tail is free while the queue is not full, and the packet is last |
| PacketQueues.PacketQueue.RemoveQueue | ChampSim/src/block.cc:97-117 | The oldest packet leaves |
| PacketQueues.AddRead | ChampSim/src/cache.cc:1186-1340 | A read is forwarded if and only if the write queue matches it, else merged if and only if the line is queued, else refused if the queue is full, else queued; no line is ever queued twice |
| PacketQueues.JoinsGathers | ChampSim/src/cache.cc:1245-1292 | A read merged in the queue adds its waiters and loses none |
| PacketQueues.DelayedInNumbers | ChampSim/src/cache.cc:1317-1328 | A queued read is due the latency after now or after its own later cycle, and has no other field changed |
| SignaturePath.StepShrinks | ChampSim/prefetcher/kpcp.l2c_pref:224-314 | Each round of the look-ahead strictly lowers the confidence of the path, and adds at most one candidate |
| SignaturePath.ConfidenceShrinks | ChampSim/prefetcher/kpcp.l2c_pref:224-314 | One step multiplies the confidence by at most MAX_CONF hundredths |
| SignaturePath.FollowOk | ChampSim/prefetcher/kpcp.l2c_pref:224-314 | The whole look-ahead only appends, fits the buffer, stays in the page, and its candidates get strictly less likely |
| SignaturePath.PfCheckOk | ChampSim/prefetcher/kpcp.l2c_pref:144-314 | PF_check yields at most 32 candidates, at most four of them direct; each has a non-zero delta, stays in the trigger's page and reaches the threshold |
| SignaturePath.DepthFits | ChampSim/prefetcher/kpcp.l2c_pref:641-729 | A candidate likely enough for the L2 is among the first 29, so its depth fits the useful_depth array |
| SignaturePath.CandidateInPage | ChampSim/prefetcher/kpcp.l2c_pref:135-142 | The address computed from a candidate is in the page of the access, at the block the delta names |
| SignaturePath.SignaturesDistinguishDeltas | ChampSim/inc/kpcp.h:117-136 | Different deltas lead from one signature to different signatures |
| SignaturePath.NewSignature | ChampSim/inc/kpcp.h:117-136 | A step with a non-zero delta never leads to the empty signature 0 |
| PatternTables.LearnOk | ChampSim/inc/kpcp.h:317-393 | Counting, replacing and halving keep the sum of the c_delta at most c_sig, which stays below its maximum; there is always a way to replace, and the delta is known afterwards |
| PatternTables.SppLearnOk | ChampSim/prefetcher/spp_dev.l2c_pref:269-329 | The second pattern table keeps the same bound |
| PatternTables.SppVictimExists | ChampSim/prefetcher/spp_dev.l2c_pref:296-328 | So its search for a victim never fails |
| PatternCounts.LearnInNumbers | ChampSim/inc/kpcp.h:317-393 | The 16th sighting first halves every counter; then a delta with a way is counted there once, and a new one takes the first free way or else the first with the lowest counter and starts from 0; no other way changes |
| PatternCounts.SppLearnInNumbers | ChampSim/prefetcher/spp_dev.l2c_pref:269-329 | A delta with a way is counted there once, and a new one takes the first way with the lowest counter and starts from 0; after that the 16th sighting halves every counter |
| PatternCounts.SightingsAddUp | ChampSim/inc/kpcp.h:317-393 | Whatever was counted before, after five sightings of one delta in a row it makes up at least a quarter of the counted sightings, and after 33 all of them |
| PatternCounts.SightingsAreOffered | ChampSim/prefetcher/kpcp.l2c_pref:144-223 | After five sightings of one delta in a row after a signature, PF_check offers it from every block from which it stays in the page, and after 33 with full confidence |
| PatternCounts.DirectIff | ChampSim/prefetcher/kpcp.l2c_pref:144-223 | The direct candidates are exactly the deltas that make up at least a quarter of the sightings and stay in the page, each with its share in hundredths |
| PatternCounts.StartInNumbers | ChampSim/prefetcher/kpcp.l2c_pref:144-223 | The path starts with the delta seen most of those likely enough, the first of equals, and with its share |
| PatternCounts.StepInNumbers | ChampSim/prefetcher/kpcp.l2c_pref:224-314 | A look-ahead round goes on by the delta seen most of those likely enough, with confidence conf * c_delta / c_sig * MAX_CONF / 100, and adds its sum as a candidate if that is another block of the page; without such a delta, or with a full buffer, the path ends |
| PatternCounts.FollowsToTheEnd | ChampSim/prefetcher/kpcp.l2c_pref:224-314 | The look-ahead goes on, round by round, until its confidence is below 25, and no longer |
| SignatureTables.ReachableInv | ChampSim/prefetcher/kpcp.l2c_pref:598-767 | Over every run of accesses and evictions both tables stay consistent: page ranks are a permutation, no page is watched twice, counters are in bounds |
| SignatureTables.OperateInv | ChampSim/prefetcher/kpcp.l2c_pref:598-729 | One access keeps the tables consistent, whatever the prefetch queue accepts |
| SignatureTables.BufferOk | ChampSim/prefetcher/kpcp.l2c_pref:641-729 | Every request is for another block of the accessed page |
| SignatureTables.StUpdateInv | ChampSim/inc/kpcp.h:139-292 | The accessed page is watched once, and is the most recent |
| SignatureTables.EntryExists | ChampSim/inc/kpcp.h:139-292 | There is always an entry for the page: its own, a free one, or the least recent |
| SignatureTables.EvictInv | ChampSim/prefetcher/kpcp.l2c_pref:731-767 | Evictions keep the tables consistent |
| SignatureTables.MaxConf | ChampSim/prefetcher/kpcp.l2c_pref:641-646 | MAX_CONF is from 0 to 99 |
| Strides.SteadyWalkIsOffered | ChampSim/prefetcher/kpcp.l2c_pref:598-729 | Whatever the tables held, a page accessed again and again with one distance has that distance offered from its tenth access in a row on, wherever it stays in the page, and from the 38th on with full confidence |
| Strides.SteadyAfterFour | ChampSim/inc/kpcp.h:117-136 | Four steps with one delta lead from any signature to the same one, which further steps keep |
| Strides.AccessInFields | ChampSim/inc/kpcp.h:139-292 | An access to a watched page moves its last block; its distance is the first signature or extends it, and is counted for the old signature unless it is 0; no other page changes but in rank |
| Strides.FirstAccessInFields | ChampSim/inc/kpcp.h:139-292 | A page not watched takes the first free entry or else the least recent, without a signature; nothing is counted |
| Strides.DemandInNumbers | ChampSim/prefetcher/kpcp.l2c_pref:598-640 | A demand counts as useful if and only if its block was prefetched and not used before |
| Strides.RequestInNumbers | ChampSim/prefetcher/kpcp.l2c_pref:659-729 | A candidate is requested if and only if its block is neither prefetched nor used, its confidence is at least 75 and the queue accepts it; the 1024th request halves both counters |
| Strides.RequestedIff | ChampSim/prefetcher/kpcp.l2c_pref:659-729 | After all requests the blocks marked as prefetched are those before and every unused one for which an accepted candidate of confidence 75 or more asked |
| Strides.NothingIsOfferedAtFirst | ChampSim/prefetcher/kpcp.l2c_pref:641-652 | A page that was not watched, or had no signature, is offered nothing |
| Strides.EvictInFields | ChampSim/prefetcher/kpcp.l2c_pref:731-767 | An evicted line is neither prefetched nor used any more in the entry of its page, and nothing else changes |
| Strides.MaxConfInNumbers | ChampSim/prefetcher/kpcp.l2c_pref:641-646 | MAX_CONF is the share of useful prefetches in hundredths, at most 99, and 99 before the first |
| SignaturePrefetchers.PtUpdate | ChampSim/inc/kpcp.h:317-393 | The loops over the ways of a signature refine the table's rule |
| SignaturePrefetchers.UpdatePattern | ChampSim/prefetcher/spp_dev.l2c_pref:269-329 | So do those of the second table |
| SignaturePrefetchers.BestWay | ChampSim/prefetcher/kpcp.l2c_pref:144-314 | The loop finds the most counted way of those likely enough |
| SignaturePrefetchers.StCheck | ChampSim/inc/kpcp.h:294-315 | The first entry of the page, or none |
| SignaturePrefetchers.Promote | ChampSim/inc/kpcp.h:280-286 | The loop that ages entries is the touch of the rank model |
| SignaturePrefetchers.UpdatePages | ChampSim/inc/kpcp.h:139-292 | In place, the signature table's update refines its specification |
| SignaturePrefetchers.SignaturePrefetcher.PfCheck | ChampSim/prefetcher/kpcp.l2c_pref:144-314 | The look-ahead loop terminates and fills the buffer with the specified candidates |
| SignaturePrefetchers.SignaturePrefetcher.CheckDirect | ChampSim/prefetcher/kpcp.l2c_pref:144-223 | The first part of PF_check |
| SignaturePrefetchers.SignaturePrefetcher.LookAhead | ChampSim/prefetcher/kpcp.l2c_pref:224-314 | One round of its second part |
| SignaturePrefetchers.SignaturePrefetcher.Request | ChampSim/prefetcher/kpcp.l2c_pref:659-729 | One request: the block map and the two counters, halved at their maximum |
| SignaturePrefetchers.SignaturePrefetcher.RequestAll | ChampSim/prefetcher/kpcp.l2c_pref:659-729 | The loop over the candidates |
| SignaturePrefetchers.SignaturePrefetcher.Operate | ChampSim/prefetcher/kpcp.l2c_pref:598-729 | A whole access in place refines the specification and keeps the tables consistent |
| FastSets.FastSet.Insert | ChampSim/inc/set.h:142-165 | Exactly one number is added to the set, across the switch from sorted array to bits; card grows if and only if the set is small and the number new |
| FastSets.FastSet.Search | ChampSim/inc/set.h:169-184 | Membership, by linear search, binary search or bit |
| FastSets.FastSet.Join | ChampSim/inc/set.h:189-216 | The other set's members are added: all of them if it is small, those up to the end of the word of bit n if it is large; so it is the union if and only if the other set is small or no member lacking here is past that word |
| FastSets.FastSet.Expand | ChampSim/inc/set.h:220-247 | The members in ascending order: those below n if the set is large, all of them if it is small; so those below n if and only if the set is large or has no larger members |
| FastSets.JoinFallsShort | ChampSim/inc/set.h:189-216 | Two sets whose join is not the union: the numbers from 100 to 112 are not taken over below 9 |
| FastSets.ExpandOverruns | ChampSim/inc/set.h:220-247 | A small set that is not listed below its bound: the number 5, expanded below 3 |
| FastSets.FastSet.InsertSmall | ChampSim/inc/set.h:57-71 | The sorted array stays sorted and gains one number |
| FastSets.FastSet.SmallToBit | ChampSim/inc/set.h:119-128 | The bits say what the array said |
| FastSets.FastSet.SetBit | ChampSim/inc/set.h:41-45 | One bit is one number |
| FastSets.FastSet.SearchSmallLinear | ChampSim/inc/set.h:76-83 | Membership |
| FastSets.FastSet.SearchSmall | ChampSim/inc/set.h:88-115 | Membership, with the binary search from six members on |
| FastSets.SetBitAdds | ChampSim/inc/set.h:41-45 | Or-ing a bit into its word adds its number to the set of the words, and no other |
| FastSets.FastSet.CardIsSize | ChampSim/inc/set.h:57-71 | While the set is small, card is the number of its members |
| RecencyLists.HitKeepsAll | ChampSim/branch/mcache_candidates/slru.cc:25-40 | A hit in either segment changes no membership: what the protected segment gives up always finds room |
| RecencyLists.MissEvictsOne | ChampSim/branch/mcache_candidates/slru.cc:25-40 | A miss evicts only the oldest pc on probation, and only if there is no room |
| RecencyLists.GuardedHitOrder | ChampSim/branch/mcache_candidates/slru.cc:25-40 | A protected hit moves the pc to the front of its segment and keeps the order of the others |
| RecencyLists.ProbationHitOrder | ChampSim/branch/mcache_candidates/slru.cc:25-40 | A hit on probation moves the pc to the front of the protected segment, whose last, if it was full, goes to the front of the other; no other order changes |
| RecencyLists.MissOrder | ChampSim/branch/mcache_candidates/slru.cc:25-40 | A miss puts the pc first on probation, where a full segment loses its last |
| RecencyLists.HoldsTheRecent | ChampSim/branch/mcache_candidates/lru.cc:44-86 | After any accesses the cache holds exactly the most recently used pcs, in that order |
| RecencyLists.LargerHoldsMore | ChampSim/branch/mcache_candidates/lru.cc:44-86 | So a larger cache always holds what a smaller one does |
| MissCaches.BumpedList | ChampSim/branch/mcache_candidates/segment.cc:53-79 | Rejuvenating a slot keeps the ages a permutation with the valid slots youngest, and moves its pc to the front |
| MissCaches.AddedList | ChampSim/branch/mcache_candidates/segment.cc:90-109 | So does taking the oldest slot for a new pc |
| MissCaches.RemovedList | ChampSim/branch/mcache_candidates/segment.cc:116-139 | So does freeing a slot, which becomes the oldest |
| MissCaches.RejuvenatedLru | ChampSim/branch/mcache_candidates/segment.cc:53-79 | The lru field, updated in the loop, is the slot with the highest age afterwards |
| MissCaches.Segment.Find | ChampSim/branch/mcache_candidates/segment.cc:24-31 | The valid slot of the pc, if and only if the list has it |
| MissCaches.Segment.Bump | ChampSim/branch/mcache_candidates/segment.cc:53-79 | A listed pc comes first, the others keep their order |
| MissCaches.Segment.Add | ChampSim/branch/mcache_candidates/segment.cc:90-109 | A new pc comes first; the last of a full list is returned |
| MissCaches.Segment.Remove | ChampSim/branch/mcache_candidates/segment.cc:116-139 | The pc leaves the list |
| MissCaches.SegmentedMissCache.Access | ChampSim/branch/mcache_candidates/slru.cc:25-40 | An access refines two bounded recency lists; the index comes from the last snapshot |
| MissCaches.SegmentedMissCache.GetIdx | ChampSim/branch/mcache_candidates/slru.cc:48-57 | The first place of the pc in the snapshot |
| MissCaches.SegmentedMissCache.Snapshot | ChampSim/branch/mcache_candidates/slru.cc:97-99 | The protected pcs, slot by slot, are saved |
| LruMissCaches.LruMissCache.Access | ChampSim/branch/mcache_candidates/lru.cc:44-86 | An access refines a bounded recency list, while the cache fills and when it is full |
| LruMissCaches.HitFills | ChampSim/branch/mcache_candidates/lru.cc:44-86 | A hit keeps the ages of the k valid slots the numbers below k, and the free slots older |
| LruMissCaches.MissFills | ChampSim/branch/mcache_candidates/lru.cc:44-86 | So does a miss while there are free slots |
| LruMissCaches.MissReplaces | ChampSim/branch/mcache_candidates/lru.cc:44-86 | When the cache is full, the slot the lru field names is the true oldest, and is replaced |
| LruMissCaches.LruMissCache.Snapshot | ChampSim/branch/mcache_candidates/lru.cc:125-134 | The pcs are saved, slot by slot |
| LruMissCaches.AccessesHold | ChampSim/branch/mcache_candidates/lru.cc:44-86 | From empty, over any accesses, the list is that of the most recent pcs |
| Perceptrons.ConstantBranchIsLearned | ChampSim/branch/bp_candidates/perceptron.cc:63-134 | A branch that always goes the same way, alone, is mispredicted at most GHRLen + 2^(weightLen-1) times from any state between branches |
| Perceptrons.TrainingMovesTheSum | ChampSim/branch/bp_candidates/perceptron.cc:101-134 | A training moves the dot product towards the outcome by exactly the number of weights not at their limit, and keeps weights in range |
| Perceptrons.RoundSettles | ChampSim/branch/bp_candidates/perceptron.cc:63-134 | The update dequeues the state of its own prediction, and afterwards spec_history equals real_history |
| Trainings.SureRoundKeeps | ChampSim/branch/bp_candidates/perceptron.cc:101-134 | A right prediction whose sum is at least the threshold away from 0 leaves every slot as it is |
| Trainings.UnsureRoundTrains | ChampSim/branch/bp_candidates/perceptron.cc:101-134 | Any other prediction trains the slot of its branch and no other: each weight and the bias is nudged towards its outcome, and the sum for that history moves towards the outcome by the number of weights, bias included, that are not at their limit |
| Trainings.PredictsBySign | ChampSim/branch/bp_candidates/perceptron.cc:63-93 | A branch is predicted as taken exactly if its sum is not negative, and the guess becomes the lowest bit of the speculative history |
| Trainings.ExtendedBits | ChampSim/branch/bp_candidates/perceptron.cc:77-93 | The outcomes added by the caller are the lowest bits of the history, and those of the predictor follow |
| Trainings.PrivateHistoryBits | ChampSim/branch/bp_candidates/vip.cc:38-58 | A private predictor looks at the latest outcomes of all branches and, before them, at its own |
| PerceptronArrays.Perceptron.Predict | ChampSim/branch/bp_candidates/perceptron.cc:63-75 | In place: the sum over the flat weight array, the queue and the speculative history |
| PerceptronArrays.Perceptron.PredictWith | ChampSim/branch/bp_candidates/perceptron.cc:77-93 | So with the caller's history added |
| PerceptronArrays.Perceptron.Update | ChampSim/branch/bp_candidates/perceptron.cc:101-134 | In place: trains one slot when wrong or unsure, and repairs the speculative history when wrong |
| PerceptronArrays.Perceptron.Train | ChampSim/branch/bp_candidates/perceptron.cc:113-131 | Only the weights of one slot move, each towards agreement with its outcome |
| Perceptrons.EnqueueAppends | ChampSim/inc/bp_candidates.h:81-84 | Up to three states wait in turn; a fourth makes the ring look empty |
| Perceptrons.DequeueTakesFirst | ChampSim/inc/bp_candidates.h:76-80 | The state that waits longest leaves |
| Perceptrons.ThreePendAtMost | ChampSim/inc/bp_candidates.h:68-89 | Up to three pending predictions come back in the order in which they were made |
| PrivatePredictors.BranchReachesItsPredictor | ChampSim/branch/bp_candidates/vip.cc:38-102 | predict and update of a branch use the same private predictor, which learns from its own prediction; every other one is unchanged |
| PrivatePredictors.RunIsOk | ChampSim/branch/bp_candidates/vip.cc:38-102 | Over any run every private queue is empty between branches, every private history agrees with itself, and scores stay from -2 to 1 |
| PrivatePredictors.InitialOk | ChampSim/branch/bp_candidates/vip.cc:105-115 | A reset VIP starts such a run |
| PrivatePredictors.ScoreMeaning | ChampSim/branch/bp_candidates/vip.cc:71-76 | Exactly when a score rises and when it falls, the case at MAX_SCORE included |
| Trainings.AnswersPrivatelyIff | ChampSim/branch/bp_candidates/vip.cc:38-58 | The answer is the private prediction if and only if the branch has a private predictor whose score is negative |
| Trainings.BranchInFields | ChampSim/branch/bp_candidates/vip.cc:38-102 | Over a branch and its outcome: the miss cache notes it if and only if the default prediction was wrong, only the score of its own private predictor changes and only if the two disagreed, by at most one, and a new snapshot is in force exactly at the end of an interval |
| PrivatePredictors.VipPredictor.Predict | ChampSim/branch/bp_candidates/vip.cc:38-58 | The answer is the private one exactly while its score is negative |
| PrivatePredictors.VipPredictor.UpdateScoreBoard | ChampSim/branch/bp_candidates/vip.cc:71-76 | One score changes, by the rule |
| PrivatePredictors.VipPredictor.Update | ChampSim/branch/bp_candidates/vip.cc:79-102 | In place: the miss cache first, then the private predictor of the old snapshot, then the new snapshot |
| Pages.ReachableInv | ChampSim/src/main.cc:306-471 | Over every run page_table and inverse_table are inverse to each other, allocated_pages is their size, and num_adjacent_page is from 0 to 512 |
| Pages.TouchInv | ChampSim/src/main.cc:318-471 | Each translation keeps that and maps its page |
| Pages.MappingsStay | ChampSim/src/main.cc:338-391 | A mapping stays until memory is full and its page is the victim |
| Pages.AllocationInFields | ChampSim/src/main.cc:398-449 | A new page gets the physical page after the last one while num_adjacent_page is positive and that page is free, and the drawn one otherwise, which starts a row of the drawn length |
| Pages.SwapInFields | ChampSim/src/main.cc:338-397 | With full memory the first page of the table gives its physical page to the new one; every other mapping stays |
| Pages.RowsAreAdjacent | ChampSim/src/main.cc:398-449 | Over every run, new pages are placed one after the other for as long as the row goes on and the pages ahead are free |
| Pages.TranslationKeepsTheOffset | ChampSim/src/main.cc:460-468 | The physical address has the computed offset in the page of the table, and leads back to it |
| Pages.OffsetIsKeptIff | ChampSim/src/main.cc:313-318 | The computed offset is that of the address if and only if the address already has those of the twelve low bits that the CPU bits have |
| Pages.OffsetsAreKeptIff | ChampSim/src/main.cc:313-318 | The offset of every address is kept on every CPU if and only if the number of CPUs is a power of two |
| Pages.OffsetIsLost | ChampSim/src/main.cc:313-318 | Otherwise CPU 2^lg2(NUM_CPUS) reads the first address of every page as the second |
| Pages.ThirdCpuIsOdd | ChampSim/src/main.cc:313-318 | CPU 2 of 3 reads the first address of every page as the second |
| Pages.CpusShareNothing | ChampSim/src/main.cc:313-318 | With a power-of-two number of CPUs, different CPUs never share a physical page |
| Pages.CpusApartIff | ChampSim/src/main.cc:313-318 | The CPU bits keep the CPUs' page numbers apart if and only if the number of CPUs is a power of two |
| Pages.CpusMeet | ChampSim/src/main.cc:313-318 | Otherwise CPU 2^lg2(NUM_CPUS) has page numbers of CPU 0 |
| PageTables.PageTable.VaToPa | ChampSim/src/main.cc:306-471 | In place, with the CPU bits in both page number and offset, the translation refines the specification; the offset of the physical address is that of the virtual one if and only if the CPU bits add nothing to it |
| PageTables.PageTable.AllocatePage | ChampSim/src/main.cc:399-449 | A free page is taken, adjacent to the last if the row goes on |
| PageTables.PageTable.SwapIn | ChampSim/src/main.cc:338-391 | The victim's physical page goes to the new page in both tables |
| PageTables.PageTable.FindVictim | ChampSim/src/main.cc:342-350 | The first page in the order of the table that is not recent |
| Powers.Lg2Loop | ChampSim/src/main.cc:277-285 | lg2 rounds down, and is -1 for 0 |
| Powers.Lg2Exact | ChampSim/src/main.cc:277-285 | lg2 is exact on powers of two |

## Left out

- Clocks and counters are unbounded where the source has 64 bits; its all-ones cycle, index and row become `None`.
- Trace reading, decompression, the command line, statistics, heartbeat and debug output.
- The short cuts of the warm-up phase, and `knob_cloudsuite`; latencies are parameters.
- DRAM: one channel. Channels share no state, so what holds of one holds of each.
- Prefetch requests to DRAM (`add_pq`), which the source does not implement.
- OutOfOrderCores.OutOfOrderCore.UpdateRob: does not model the counters `inflight_reg_executions` and `inflight_mem_executions`, which let update_rob skip its search.
- Scoreboard: fetching and decoding; an instruction is dispatched with its registers, its memory flag and its event cycle.
- Scoreboard: `fastset` members of ROB entries are mathematical sets there; that `fastset` refines one is proved separately in `FastSets`.
- OutOfOrderCores.OutOfOrderCore.ExecuteInstruction: requires `EXEC_WIDTH` to be below `ROB_SIZE - 1`, as it is by far (6 and 352), so that the limit of `ROB_SIZE - 1` rounds of the source's loops never keeps an instruction from starting.
- OutOfOrderCores.OutOfOrderCore.RetireRob: does not model the room in the L1D write queue that a retiring store needs; in the runs of the value-level machine a completed head may stay for any number of steps.
- The scoreboard, the forwarding machine and the store queue are three machines over the same reorder buffer, each with the fields it reads or writes. Steps that belong to another one are steps with any outcome: `Progressed` in the scoreboard, `Finished` in the forwarding machine.
- Forwarding: RTL0 and RTL1 are sequences; the ring that holds such a sequence is `IndexRings.IndexRing`. The DTLB and the L1D are the sets of requests they have accepted; each is answered once, in any order.
- Forwarding: the store queue is an array whose free slots are found in any order, since its order is the subject of `StoreOrder`; fields `loaded` and `stored` record history and are not in the source.
- StoreOrderRuns.StaFits: does not cover `knob_cloudsuite`, whose instructions have four destinations.
- Forwarding: the data itself; which store an operand got it from is recorded, and instructions have two destinations, as without `knob_cloudsuite`.
- Forwarding: the write-after-read branch of add_load_queue, which resets what was never set.
- Forwarding: `num_mem_ops` below zero and the checks for it are proved unreachable and so are not branches of the methods.
- Cache: the write path of the L2C and the LLC, which fills without looking at the miss registers, so that a line can be in two ways there; LLC bypass.
- PacketQueues.AddRead: does not model dependents on the instruction side and the fill flags of a merged request, as said of the cache next.
- Cache: who waits for a line on the instruction side, and the flags `fill_l1i` and `fill_l1d`, which a merge with a prefetch replaces.
- Cache: data values and instruction pointers in packets and blocks; this is a timing model, and merged writes keep the old packet.
- Cache: a request that the lower read queue refuses when full, and an answer for which `PROCESSED` has no room, are lost in the source; what the level below does with a request is not part of the model.
- Cache: replacement other than LRU.
- Prefetcher: the global history register, which `L2_GHR_ON` leaves out of the build, the arrays that count depths, deltas and signatures for the report, and `notify_sampler`.
- Prefetcher: the look-ahead loop of spp_dev.l2c_pref, which has no cap on its confidence, so that it need not end.
- FastSets.FastSet.SmallToBit: does not model that values and bits share memory; it copies the values first, as the source does, and reads none of them after it has written a bit.
- fastset: `TYPE` is a number below 512.
- Miss caches: `resize`, `get_all` and `debug_info`; a pc is not 0, the mark of an empty entry.
- Perceptron: the training threshold, computed with floating point from `GHRLen`, is a parameter; the sum is an unbounded integer.
- VIP: the default predictor is a parameter, its prediction one of the inputs of each branch; its own update is not part of the model.
- PrivatePredictors.RunIsOk: the snapshots of the miss cache are arbitrary inputs of the run, so it holds whatever the miss cache saves; the class `VipPredictor` saves those of a segmented miss cache.
- Private perceptrons are values in an array inside `VipPredictor`; that `PerceptronArrays.Perceptron` refines such a value is proved separately.
- Page allocator: random numbers are nondeterministic inputs; that the loop which draws a free page ends is not claimed. Physical page numbers are unbounded.
- Page allocator: `recent_page` is a set and `page_queue` counts only by its length; the invalidations in caches and TLBs after a swap are `CacheSafety.InvalidateInv`'s subject, one line at a time.
- TAGE, the loop predictor, the tournament predictor, bimodal, gshare and static predictors, NRU miss caches, next-line and stride prefetchers: easier members, or, for the loop predictor and TAGE, code whose comments claim what it does not do.
