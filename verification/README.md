# Verification of the plant hierarchy, the pipeline and the state machines

This project models seven components and proves what they promise. Each is
modelled in the form its code has: objects that are updated in place are
classes whose methods are proved equal to functions on values, and the
concurrent components are state machines whose steps are the atomic steps of
their threads. The main results are statements over all inputs, all runs or all
reachable states.

* **The plant hierarchy** (`PlantModel`, `PlantNodes`, `PlantInvariants`,
  `PlantIdeal`, `PlantTheorems`, `PlantHistory`, `PlantReports`, `PlantProgress`). Nodes of a tree are driven
  downward by commands and report upward; each node keeps a cached view of its
  children and suppresses reports that repeat its last one. The commands
  re-enter their caller through the reports of the children they drive.
  `PlantNodes` holds the objects, `PlantModel` the same operations on values.
  `PlantIdeal` writes each command over the whole tree, as if a node could look
  at any descendant; the distributed protocol is proved to do exactly that, and
  the global claims follow from there. `PlantHistory` says what a node shows after a
  run, from its plan and the commands alone, and `PlantReports` what it has let out.
* **The cancellation pipeline** (`Pipeline`, `PipelineInvariants`,
  `PipelineTheorems`, `PipelineOutcomes`, `PipelineHistory`): a worker thread, any number of callers, a mutex, a
  condition variable and an atomic stop flag, under sequential consistency.
* **The hierarchical state machine** (`Hierarchy`, `HierarchicalFsm`,
  `HierarchicalRuns`, `HierarchicalHistory`): ancestor paths in arbitrary forests, the lowest common
  ancestor, and what a whole run enters and leaves.
* **The thread pool** (`ThreadPool`, `ThreadPoolTheorems`, `ThreadPoolShutdown`)
  and **the event-driven state machine** (`EventDriven`, `EventDrivenTheorems`,
  `EventDrivenStops`): workers that drain queues, with any number of calling
  threads.
* **The node cache** (`NodeCache`, `NodeCacheRuns`, `NodeCacheHistory`,
  `NodeCacheContents`): a bounded map that drops the entry written longest ago.
  `NodeCacheRuns` and `NodeCacheHistory` are about a list in order of recency;
  `NodeCacheContents` is about everything that the cache can hold after a run, with
  the hash map in any order, and says when that is this list.
* **The rule engine** (`Engine`, `EngineRuns`, `EngineHistory`, `EngineRegistrations`): first
  matching rule, deferral and replay, and which states can become active.

## Where code and promise differ

The model follows the code. Where the code does less than its comments say, the
exact condition is proved.

* `model.hpp:41` labels an ALARM as one that does not affect production. On a node
  that is critical to the job it does (`PlantHistory.BlockingByCommands`).
* `pipeline.hpp:18` says that a stop skips all remaining stages. One more stage
  can begin if the worker is already past its test of the flag, or has not begun
  its first stage (`PipelineTheorems.RemainingStagesSkippedIff`,
  `AtMostOneMoreStage`; `PipelineOutcomes.StopBeforeFirstStage` is such a state).
* `pipeline.hpp:54-55` says that `wait` rethrows the exception that aborted the
  pipeline. The failure is read under a second lock, and the first is released
  while the waiter sleeps. If another thread starts a new run at any time between
  the call and that second lock, be it before the waiter has passed its predicate
  or after, the waiter misses the failure of the run it waited for, and can be
  handed that of the new one; otherwise it is told the right one
  (`PipelineOutcomes.WaitReportsIff`, `RestartBeforePassing`, `RestartAfterPassing`).
* `pipeline.hpp:27` tells the cleanup whether the pipeline was aborted. It is told
  so too when a stop is seen after the last stage, although every stage has run;
  and a stop of a pipeline without stages is never seen (`PipelineTheorems.FinishedRunMeans`,
  `PipelineOutcomes.AbortedAfterLastStage`).
* A transition that bubbled up, or whose target lies in another tree, leaves
  states entered that are never exited (`HierarchicalRuns.RunBalance`,
  `BalancedIffDirect`, `BubbledEventDoesNotLeave`).
* `thread_pool_context.h:134` speaks of the most recently submitted task; the
  queue is first in, first out. `submit` also succeeds on a worker that is done,
  and such tasks are never run (`ThreadPoolTheorems.SubmittedTaskRunsIff`,
  `TaskAfterShutdown`). A stop requested before a task begins is forgotten
  (`TaskSeesStopIff`, `StopBeforeTask`). Round robin stays balanced after its
  counter wraps only if the number of workers divides the counter's range
  (`AlwaysBalancedIff`, `UnevenAfterWrap`).
* A `stop_async` that finds the machine not running returns at once, even while
  another thread's stop is still draining; and one that finds no background
  thread, because it could not be created, drains nothing
  (`EventDrivenStops.StopDrainsIff`, `StopDuringStop`, `StopWithoutThread`).
  `reset` is not told to observers (`EventDrivenTheorems.ResetBreaksChainIff`,
  `ResetGoesUnseen`).
* The node cache drops any of several entries written at the same oldest time. It
  keeps the most recent keys, in whatever order its hash map lists them, exactly if
  every put that needs room finds one entry alone at the oldest time, as it does
  when the clock moves on from put to put (`NodeCache.DropsFrontIff`,
  `NodeCacheContents.RecencyIff`, `TickingIsAlone`, `TieDropsNewer`).
* The rule engine loses its active state when a rule leads to a state that was not
  registered before anything looked it up, and registering that state later does
  not repair it (`EngineRegistrations.OwnRecordIff`, `TargetActiveIff`,
  `NeverRepaired`; `EngineRuns.UnregisteredTarget` is the smallest case).

## Model

| member | source | states |
|---|---|---|
| PlantModel.SignatureInjective | ddd_multi_device/src/ddd/domain/process/node.cpp:142-149 | Two reports have the same 64-bit signature iff they agree on everything but the origin, and no report has the initial signature, so suppression by signature never hides a change. |
| PlantModel.SignatureFields | ddd_multi_device/src/ddd/domain/process/node.cpp:144-146 | The shifted fields do not overlap: each can be read back from the signature. |
| PlantModel.KidsByCommands | ddd_multi_device/src/ddd/infrastructure/runtime/store.hpp:34-42 | Driving one more child is executing the routed command on that child in the state the earlier children left. |
| PlantNodes.NodeStore.constructor | ddd_multi_device/src/ddd/infrastructure/runtime/store.hpp:13-26 | A new store holds no node. |
| PlantNodes.NodeStore.Add | ddd_multi_device/src/ddd/infrastructure/runtime/store.hpp:15-17 | Adding stores the node under its own id, replacing any other. |
| PlantNodes.NodeStore.At | ddd_multi_device/src/ddd/infrastructure/runtime/store.hpp:18-21 | Lookup finds the node of that id, or null. |
| PlantNodes.RpcRouter.constructor | ddd_multi_device/src/ddd/infrastructure/runtime/store.hpp:32 | The router serves the given store. |
| PlantNodes.RpcRouter.Advance | ddd_multi_device/src/ddd/infrastructure/runtime/store.hpp:34-36 | Routing changes the whole plant as the command addressed to that child does; an unknown child changes nothing. |
| PlantNodes.RpcRouter.Start | ddd_multi_device/src/ddd/infrastructure/runtime/store.hpp:37-39 | The same for starting. |
| PlantNodes.RpcRouter.Finish | ddd_multi_device/src/ddd/infrastructure/runtime/store.hpp:40-42 | The same for finishing. |
| PlantNodes.HierNode.constructor | ddd_multi_device/src/ddd/domain/process/node.hpp:76-104 | Every field of a new node has its initial value: critical, no plan, position 0, step UNKNOWN, no fault, not ready, not working, empty caches, no children, never published. |
| PlantNodes.HierNode.SetPlan | ddd_multi_device/src/ddd/domain/process/node.hpp:32 | Sets the plan and nothing else. |
| PlantNodes.HierNode.SetCriticalToJob | ddd_multi_device/src/ddd/domain/process/node.hpp:33 | Sets criticality and nothing else. |
| PlantNodes.HierNode.SetRpc | ddd_multi_device/src/ddd/domain/process/node.hpp:34 | Sets the downward port and nothing else. |
| PlantNodes.HierNode.SetUpstream | ddd_multi_device/src/ddd/domain/process/node.hpp:35 | Sets the upward port and nothing else. |
| PlantNodes.HierNode.AddChild | ddd_multi_device/src/ddd/domain/process/node.hpp:36 | Appends the child's id. |
| PlantNodes.HierNode.AllChildrenReady | ddd_multi_device/src/ddd/domain/process/node.cpp:95-101 | True iff every child is cached as ready; an absent entry counts as not ready. |
| PlantNodes.HierNode.AnyChildBlocked | ddd_multi_device/src/ddd/domain/process/node.cpp:105-109 | True iff some cached child blocks. |
| PlantNodes.HierNode.MakeReport | ddd_multi_device/src/ddd/domain/process/node.cpp:120-129 | The report has the id and the present step, fault, readiness and blocking, each in its place. |
| PlantNodes.HierNode.PromoteSelf | ddd_multi_device/src/ddd/domain/process/node.cpp:88-93 | Takes the next plan step, if there is one. |
| PlantNodes.HierNode.TakeStep | ddd_multi_device/src/ddd/domain/process/node.cpp:25-36 | Takes the next plan step if there is one; the node becomes ready at the end of the plan and then, and only then, shows READY. |
| PlantNodes.HierNode.Derive | ddd_multi_device/src/ddd/domain/process/node.cpp:103-115 | Blocking is the node's own production impact or a cached blocking child. |
| PlantNodes.HierNode.Publish | ddd_multi_device/src/ddd/domain/process/node.cpp:142-153 | The re-entrant chain of in-place updates changes the whole plant exactly as the value function does. |
| PlantNodes.HierNode.Sign | ddd_multi_device/src/ddd/domain/process/node.cpp:147-149 | Remembering the signature changes that one entry of the plant. |
| PlantNodes.HierNode.Note | ddd_multi_device/src/ddd/domain/process/node.cpp:147-151 | Remembers the signature and lets the report out; nothing else in the plant changes. |
| PlantNodes.HierNode.RecomputeAndReport | ddd_multi_device/src/ddd/domain/process/node.cpp:103-118 | The same for aggregating and publishing. |
| PlantNodes.HierNode.Store | ddd_multi_device/src/ddd/domain/process/node.cpp:81-82 | Caches the two flags of the child's report. |
| PlantNodes.HierNode.Report | ddd_multi_device/src/ddd/domain/process/node.cpp:80-84 | The same for receiving a child's report. |
| PlantNodes.HierNode.AdvanceChildren | ddd_multi_device/src/ddd/domain/process/node.cpp:19-21 | The loop drives the children in order, each in the plant the earlier ones left. |
| PlantNodes.HierNode.StartChildren | ddd_multi_device/src/ddd/domain/process/node.cpp:44-46 | The same for starting. |
| PlantNodes.HierNode.FinishChildren | ddd_multi_device/src/ddd/domain/process/node.cpp:54-56 | The same for finishing. |
| PlantNodes.HierNode.Advance | ddd_multi_device/src/ddd/domain/process/node.cpp:14-38 | The same for an advance, with all re-entrant reports of the children it drives. |
| PlantNodes.HierNode.StartWork | ddd_multi_device/src/ddd/domain/process/node.cpp:40-48 | The same for starting. |
| PlantNodes.HierNode.FinishWork | ddd_multi_device/src/ddd/domain/process/node.cpp:50-58 | The same for finishing. |
| PlantNodes.HierNode.Fail | ddd_multi_device/src/ddd/domain/process/node.cpp:60-68 | The same for a fault: the worse of the old and the new severity is kept. |
| PlantNodes.HierNode.ClearFault | ddd_multi_device/src/ddd/domain/process/node.cpp:70-76 | The same for clearing; without a fault nothing happens. |
| PlantNodes.PlantController.constructor | ddd_multi_device/src/ddd/application/plant_controller.hpp:17 | The controller drives the given store. |
| PlantNodes.PlantController.RunToReady | ddd_multi_device/src/ddd/application/plant_controller.hpp:19-24 | The loop leaves the plant as at most a hundred advances of the root do, stopping as soon as it is ready; an unknown root changes nothing. |
| PlantNodes.PlantController.StartWork | ddd_multi_device/src/ddd/application/plant_controller.hpp:26-28 | Executes the start command on the root. |
| PlantNodes.PlantController.FinishWork | ddd_multi_device/src/ddd/application/plant_controller.hpp:29-31 | Executes the finish command on the root. |
| PlantNodes.PlantController.Fail | ddd_multi_device/src/ddd/application/plant_controller.hpp:34-36 | Executes the fault on the node. |
| PlantNodes.PlantController.ClearFault | ddd_multi_device/src/ddd/application/plant_controller.hpp:37-39 | Executes the clearing on the node. |
| PlantInvariants.RecomputeSettles | ddd_multi_device/src/ddd/domain/process/node.cpp:103-153 | Whatever disagreement a change of one node leaves, once its report has climbed as far as it goes every cache, aggregate and last signature agrees again, also when an ancestor suppressed it. |
| PlantInvariants.RecomputeKeepsCores | ddd_multi_device/src/ddd/domain/process/node.cpp:103-153 | Reports never change any node's step, readiness, fault or work. |
| PlantIdeal.BlockingIsExact | ddd_multi_device/src/ddd/domain/process/node.cpp:103-115 | Although a node sees only cached reports of direct children, it blocks iff something in its subtree stops production; this holds also in the middle of a command. |
| PlantIdeal.ReadyCacheIsExact | ddd_multi_device/src/ddd/domain/process/node.cpp:95-101 | The cached readiness test answers the real question about the children. |
| PlantIdeal.AdvanceRefines | ddd_multi_device/src/ddd/domain/process/node.cpp:14-38 | One re-entrant advance does exactly what the whole-tree round does: all nodes reached, unhindered and with ready children take one plan step at once. |
| PlantIdeal.StartRefines | ddd_multi_device/src/ddd/domain/process/node.cpp:40-48 | Starting equals the whole-tree command: the whole subtree or nothing. |
| PlantIdeal.FinishRefines | ddd_multi_device/src/ddd/domain/process/node.cpp:50-58 | Finishing equals the whole-tree command over chains of working nodes. |
| PlantIdeal.FailRefines | ddd_multi_device/src/ddd/domain/process/node.cpp:60-68 | A fault changes that one node's own state and restores every cache. |
| PlantIdeal.ClearRefines | ddd_multi_device/src/ddd/domain/process/node.cpp:70-76 | So does clearing it. |
| PlantTheorems.InitialIsGood | ddd_multi_device/src/ddd/domain/process/node.hpp:76-104 | A freshly wired plant satisfies the invariant. |
| PlantTheorems.ExecuteRefines | ddd_multi_device/src/ddd/domain/process/node.cpp:14-84 | Every command on any node keeps the invariant and refines the whole-tree command. |
| PlantTheorems.RunRefines | ddd_multi_device/src/ddd/domain/process/node.cpp:14-84 | So does every finite sequence of commands. |
| PlantTheorems.BlockingAfterRun | ddd_multi_device/src/ddd/domain/process/impact.hpp:18-35 | After any run, a node blocks iff some node of its subtree has a BLOCKING fault, or an ALARM while critical. |
| PlantTheorems.DedupLosesNothing | ddd_multi_device/src/ddd/domain/process/node.cpp:80-84 | After any run every parent's cached readiness and blocking of a child are the child's real ones. |
| PlantTheorems.ReadyForever | ddd_multi_device/src/ddd/domain/process/node.cpp:31-36 | Readiness is never lost, means an exhausted plan, and covers the whole subtree. |
| PlantTheorems.FaultHoldsAncestors | ddd_multi_device/src/ddd/domain/process/node.cpp:14-23 | A node that is not ready and holds any fault keeps all its ancestors from becoming ready until that fault is cleared. |
| PlantTheorems.FaultIsWorstSinceClear | ddd_multi_device/src/ddd/domain/process/node.cpp:60-76 | After any run a node's fault is the worst severity injected into it since its fault was last cleared, and there is none if none was. |
| PlantTheorems.StartAllOrNothing | ddd_multi_device/src/ddd/domain/process/node.cpp:40-48 | Starting either changes nothing in the plant, or leaves every node of the subtree working in step WORK and no other node touched; which of the two is decided by readiness and faults below. |
| PlantTheorems.FinishFollowsWorkers | ddd_multi_device/src/ddd/domain/process/node.cpp:50-58 | Finishing reaches exactly the nodes joined to the root of the command by working nodes. |
| PlantTheorems.FinishAfterStart | ddd_multi_device/src/ddd/domain/process/node.cpp:40-58 | Finishing after an effective start reaches exactly the nodes the start reached. |
| PlantHistory.MovesIff | ddd_multi_device/src/ddd/domain/process/node.cpp:14-24 | A node moves in an advance iff it is below the addressed node, none of the nodes from it up to there has a fault or something below it that stops production, all above it wait for a child, and it waits for none. |
| PlantHistory.AdvanceTakesPlanStep | ddd_multi_device/src/ddd/domain/process/node.cpp:14-38 | Exactly the nodes that move and are not ready take the next step of their plan, one position on; with the last one, or if there is none left, the node becomes ready and shows READY; all others stay. |
| PlantHistory.StepAfterRun | ddd_multi_device/src/ddd/domain/process/node.cpp:14-58 | After any run a node that is not ready shows the plan step taken last, and UNKNOWN before the first; a ready one is at the end of its plan and shows READY, WORK or DONE; it is working iff it is ready and shows WORK. |
| PlantHistory.FaultIsExact | ddd_multi_device/src/ddd/domain/process/model.hpp:47-49 | After any run a node holds BLOCKING iff that was injected and not cleared since, and ALARM iff that was and BLOCKING was not. |
| PlantHistory.HardFaultHolds | ddd_multi_device/src/ddd/domain/process/node.cpp:60-76 | An uncleared BLOCKING keeps its node and all above it blocked, whatever is injected later. |
| PlantHistory.BlockingByCommands | ddd_multi_device/src/ddd/domain/process/impact.hpp:18-35 | After any run a node blocks iff into some node of its subtree BLOCKING was injected and not cleared since, or ALARM if that node is critical. |
| PlantHistory.WiringKept | ddd_multi_device/src/ddd/domain/process/node.hpp:76-104 | No run changes a plan or what is critical. |
| PlantHistory.ChildBlockedIff | ddd_multi_device/src/ddd/domain/process/node.hpp:61 | After any run a node says that a child is blocked iff one is. |
| PlantHistory.WorkingChainIff | ddd_multi_device/src/ddd/domain/process/node.cpp:50-58 | Finishing reaches a node iff it is below the addressed one and all from it up to there are working. |
| PlantReports.ReportsAreExact | ddd_multi_device/src/ddd/domain/process/node.cpp:120-154 | Of the reports that a node let out in any run no two in a row are equal, and the last has its present step, fault, readiness and blocking; a node that let none out is as at first. |
| PlantProgress.AdvanceLowersRank | ddd_multi_device/src/ddd/domain/process/node.cpp:14-38 | With rank = own remaining steps plus the slowest child, one round lowers the rank of a node that is not ready and not stalled by exactly one. |
| PlantProgress.FaultFreeProgress | ddd_multi_device/src/ddd/domain/process/node.cpp:14-38 | In particular when no node of its subtree has a fault. |
| PlantProgress.LoopReaches | ddd_multi_device/src/ddd/application/plant_controller.hpp:19-24 | A loop of any number of rounds ends with a ready root iff nothing below is stalled and the rank is at most that number. |
| PlantProgress.RunToReadyExact | ddd_multi_device/src/ddd/application/plant_controller.hpp:19-24 | From any reachable state, the controller's loop ends ready iff nothing below is stalled and the rank is at most 100. |
| PlantProgress.FaultLocality | ddd_multi_device/src/ddd/domain/process/node.cpp:60-84 | A fault or its clearing makes a prefix of the path to the root publish, in order; nothing beyond it and the node just above changes, nothing off the path, and no ancestor is left stale. |
| PlantProgress.PathHasNoRepeats | ddd_multi_device/src/ddd/domain/process/node.cpp:142-153 | No node is twice on that path, so none publishes twice. |
| PlantProgress.PathIsAncestors | ddd_multi_device/src/ddd/domain/process/node.cpp:152 | The path holds exactly the nodes that have the changed one in their subtree. |
| PipelineInvariants.StepKeepsInv | threads/cancel/include/stage/pipeline.hpp:88-189 | Every atomic step of any thread keeps the lock, the phases of the run and the record of what each run did in agreement. |
| PipelineInvariants.ReachableOk | threads/cancel/include/stage/pipeline.hpp:76-86 | So they agree in every reachable state, from the initial values on. |
| PipelineTheorems.StagesArePrefix | threads/cancel/include/stage/pipeline.hpp:150-161 | In every interleaving the stages a run has begun are an in-order prefix of those fixed at its start, and its cleanup began at most once. |
| PipelineTheorems.FinishedRunMeans | threads/cancel/include/stage/pipeline.hpp:150-182 | A finished run's cleanup, if set, ran exactly once, began after everything the stages did, and was told whether the run was aborted; aborted iff a stage threw or the stop flag was seen after one, the last included, so never without stages; not aborted means every stage ran; a stage's exception is kept over the cleanup's, and what is kept was thrown. |
| PipelineOutcomes.AbortedAfterLastStage | threads/cancel/include/stage/pipeline.hpp:154-161 | A reachable run all of whose stages have returned and whose cleanup was told it was aborted, since the stop was seen after the last. |
| PipelineTheorems.WaitPassesWhenOver | threads/cancel/include/stage/pipeline.hpp:119-127 | When the predicate of wait or stop passes, no run ever started has a stage or its cleanup outstanding. |
| PipelineTheorems.WaitBlocksWhileRunning | threads/cancel/include/stage/pipeline.hpp:124-127 | The predicate holds a caller back iff a run is in progress. |
| PipelineTheorems.DestroyedWhenOver | threads/cancel/include/stage/pipeline.hpp:185-189 | When the destructor's join returns, no run is outstanding. |
| PipelineTheorems.NoLostWakeup | threads/cancel/include/stage/pipeline.hpp:124-127 | A blocked waiter always has a live worker that has yet to notify it. |
| PipelineTheorems.ConfigurationStable | threads/cancel/include/stage/pipeline.hpp:88-100 | While a run is in progress no step of any caller changes the stages or the cleanup that the worker reads unlocked. |
| PipelineTheorems.JoinCannotDeadlock | threads/cancel/include/stage/pipeline.hpp:102-113 | The join made while holding the mutex always can complete, after at most one lock-free step of the old worker. |
| PipelineTheorems.WorkerOnlyWaitsForLock | threads/cancel/include/stage/pipeline.hpp:150-183 | The worker can always take its next step, or waits for the lock that somebody holds. |
| PipelineTheorems.CurrentStageIsExact | threads/cancel/include/stage/pipeline.hpp:65-66 | The published stage index is that of the running stage, and -1 while cleaning up and when over. |
| PipelineTheorems.FailureIsOfLastRun | threads/cancel/include/stage/pipeline.hpp:131-135 | The stored failure is that of the last run once over, and empty while one is in progress. |
| PipelineTheorems.FailureLastsUntilRestart | threads/cancel/include/stage/pipeline.hpp:131-135 | The failure of a finished run stays stored until the next start, which drops it. |
| PipelineOutcomes.WaitReportsIff | threads/cancel/include/stage/pipeline.hpp:124-135 | From the call of wait or stop, while a run is in progress or after one has ended, over any execution to the second lock: the caller is told how the run it waited for ended iff nobody has started a new run since its call; after a start it finds nothing while a run is in progress, and otherwise the failure of a run started after its call. |
| PipelineOutcomes.WaitWithoutRun | threads/cancel/include/stage/pipeline.hpp:124-135 | A call that finds no run in progress or over finds no failure, or that of a run started after it. |
| PipelineOutcomes.RestartBeforePassing | threads/cancel/include/stage/pipeline.hpp:124-135 | For any two outcomes, a reachable sleeper of the first run and an execution in which the second run starts and ends before the sleeper passes its predicate, so that it is told the second run's. |
| PipelineOutcomes.RestartAfterPassing | threads/cancel/include/stage/pipeline.hpp:124-135 | For any two outcomes, a reachable sleeper of the first run that, after a start between its two locks, can find no failure, and can be told the second run's. |
| PipelineTheorems.StopIsSticky | threads/cancel/include/stage/pipeline.hpp:115-117 | No step clears the stop flag while a run is in progress. |
| PipelineTheorems.AtMostOneMoreStage | threads/cancel/include/stage/pipeline.hpp:154-161 | Once a stop was requested in a run, at most one further stage of it begins in any continuation. |
| PipelineTheorems.RemainingStagesSkippedIff | threads/cancel/include/stage/pipeline.hpp:15-20 | After a stop request a further stage can begin iff the worker had already tested the flag and has a stage left. |
| PipelineOutcomes.StopBeforeFirstStage | threads/cancel/include/stage/pipeline.hpp:154-161 | A reachable state in which a stop comes before the first stage, and an execution in which that stage still begins. |
| PipelineTheorems.StepsLeftBound | threads/cancel/include/stage/pipeline.hpp:15-20 | After a stop request at most nine steps of the worker remain until it reports completion, however many stages there are. |
| PipelineTheorems.RunEndsWithin | threads/cancel/include/stage/pipeline.hpp:150-183 | In any execution a run is over, cleanup included, once its worker has taken the steps that were left to it; no other thread can make it longer. |
| PipelineHistory.RunsAreAsGiven | threads/cancel/include/stage/pipeline.hpp:88-113 | Over any execution there are as many runs as threads created, and the stages and the cleanup of each are those set last, with no run in progress, before its start, or none. |
| PipelineHistory.RunsRecordWhatHappened | threads/cancel/include/stage/pipeline.hpp:106-117 | Over any execution the flag is set iff somebody asked for a stop since it was last cleared; each run keeps exactly what its stages and its cleanup threw, and saw a stop iff one had been asked for when its worker tested the flag. |
| PipelineHistory.FinishedRunByActions | threads/cancel/include/stage/pipeline.hpp:88-183 | A finished run began all stages that had been set last at its start unless one threw or a stop had been asked for at a test of the flag; its cleanup was told which, and it left what a stage threw, or else what its cleanup threw. |
| Hierarchy.LowestCommonAncestor | state_machine_2/include/hierarchical_fsm.hpp:116-126 | Two states have a common ancestor iff they share a root; then the meeting point is the deepest: the common ancestors are exactly the states of its own path. |
| Hierarchy.MeetIsSymmetric | state_machine_2/include/hierarchical_fsm.hpp:116-126 | The order of the two states does not matter. |
| Hierarchy.PathHasNoRepeats | state_machine_2/include/hierarchical_fsm.hpp:104-114 | A path to the root visits no state twice. |
| Hierarchy.AcyclicAfterAddIff | state_machine_2/include/hierarchical_fsm.hpp:23-26 | Giving a state a parent keeps the hierarchy acyclic iff the parent is neither the state nor below it, also when the state is moved. |
| HierarchicalFsm.HierarchicalStateMachine.constructor | state_machine_2/include/hierarchical_fsm.hpp:208-213 | A new machine has no hierarchy and no transitions; its current state is arbitrary. |
| HierarchicalFsm.HierarchicalStateMachine.AddState | state_machine_2/include/hierarchical_fsm.hpp:23-26 | Sets the parent and says exactly when the hierarchy stays acyclic. |
| HierarchicalFsm.HierarchicalStateMachine.AddTransition | state_machine_2/include/hierarchical_fsm.hpp:41-45 | One transition for each state and event; a later one replaces an earlier one. |
| HierarchicalFsm.HierarchicalStateMachine.OnEntry | state_machine_2/include/hierarchical_fsm.hpp:47-49 | Registers the entry callback. |
| HierarchicalFsm.HierarchicalStateMachine.OnExit | state_machine_2/include/hierarchical_fsm.hpp:51-53 | Registers the exit callback. |
| HierarchicalFsm.HierarchicalStateMachine.IsAncestor | state_machine_2/include/hierarchical_fsm.hpp:28-35 | Terminates, and answers yes iff the state is on the path after its start: a proper ancestor. |
| HierarchicalFsm.HierarchicalStateMachine.IsInState | state_machine_2/include/hierarchical_fsm.hpp:81-84 | True iff the state is on the path of the current one. |
| HierarchicalFsm.HierarchicalStateMachine.PathToRoot | state_machine_2/include/hierarchical_fsm.hpp:104-114 | Terminates with the whole path. |
| HierarchicalFsm.HierarchicalStateMachine.FindLca | state_machine_2/include/hierarchical_fsm.hpp:116-126 | Finds the meeting point of the two paths, or answers the first state when there is none. |
| HierarchicalFsm.HierarchicalStateMachine.Climb | state_machine_2/include/hierarchical_fsm.hpp:157-163 | The states from a state up to, without, the given one; all of them when it is not above. |
| HierarchicalFsm.HierarchicalStateMachine.RunExits | state_machine_2/include/hierarchical_fsm.hpp:165-169 | Runs the registered exit callbacks of a path in its order. |
| HierarchicalFsm.HierarchicalStateMachine.RunEntries | state_machine_2/include/hierarchical_fsm.hpp:185-189 | Runs the registered entry callbacks of a path from its end. |
| HierarchicalFsm.HierarchicalStateMachine.ExecuteTransition | state_machine_2/include/hierarchical_fsm.hpp:154-192 | The loops do to state and callbacks what the value-level transition does. |
| HierarchicalFsm.HierarchicalStateMachine.ProcessEvent | state_machine_2/include/hierarchical_fsm.hpp:55-75 | The bubbling loop terminates and hands the event to the handling state; it answers whether there is one. |
| HierarchicalFsm.HierarchicalStateMachine.Reset | state_machine_2/include/hierarchical_fsm.hpp:86-102 | Enters the whole path of the initial state from its root, leaving nothing, then makes it current. |
| HierarchicalRuns.HandlerIsFirst | state_machine_2/include/hierarchical_fsm.hpp:55-75 | The handling state takes the event and no state before it on the path does; there is none iff no state of the path takes it. |
| HierarchicalRuns.PathDecomposition | state_machine_2/include/hierarchical_fsm.hpp:154-183 | With a common root, exited states and the path of the meeting point make up the old path, entered states and it the new one, and no state is both exited and entered. |
| HierarchicalRuns.UnrelatedTransition | state_machine_2/include/hierarchical_fsm.hpp:154-183 | Without a common root nothing is exited and the whole path of the target is entered. |
| HierarchicalRuns.HooksInOrder | state_machine_2/include/hierarchical_fsm.hpp:154-192 | Of the callbacks there are, exits run upwards with the old state current, then the action, then entries downwards with the target current. |
| HierarchicalHistory.EventRuns | state_machine_2/include/hierarchical_fsm.hpp:55-75 | An event goes to the first state from the current one upwards that has a transition for it with no guard or a passing one; the machine is in its target then and has run the registered exits, that transition's action if it has one, and the registered entries; without such a state nothing changes. |
| HierarchicalHistory.ConfigurationIsLatest | state_machine_2/include/hierarchical_fsm.hpp:23-53 | After any calls a state has a transition for an event iff one was added, and it is the one added last; the same for parents; and it has a callback iff one was registered. |
| HierarchicalRuns.RegisteredIn | state_machine_2/include/hierarchical_fsm.hpp:165-169 | The callbacks that run are those of the states of the path that have one. |
| HierarchicalRuns.ResetInOrder | state_machine_2/include/hierarchical_fsm.hpp:86-102 | A reset runs the registered entries downwards while the old state is current, leaves nothing, and then moves to the initial state and changes nothing else. |
| HierarchicalRuns.LeaksNothingIff | state_machine_2/include/hierarchical_fsm.hpp:55-75 | A transition leaves everything it should iff the current state handles the event itself and the target is in its tree. |
| HierarchicalRuns.FireBalance | state_machine_2/include/hierarchical_fsm.hpp:154-192 | For one transition: how entries less exits of any observed state change. |
| HierarchicalRuns.RunBalance | state_machine_2/include/hierarchical_fsm.hpp:55-192 | After any run from a reset, a state was entered and not left as often as it is on the current path, plus once for each time it leaked. |
| HierarchicalRuns.LeakFreeIff | state_machine_2/include/hierarchical_fsm.hpp:55-75 | A run leaks nothing iff every event was ignored or handled by the current state itself within its tree. |
| HierarchicalRuns.BalancedIffDirect | state_machine_2/include/hierarchical_fsm.hpp:55-192 | With all callbacks registered, the states entered and not left are exactly the current path iff every event of the run was handled so. |
| HierarchicalRuns.BubbledEventDoesNotLeave | state_machine_2/include/hierarchical_fsm.hpp:62-66 | A concrete bubbled event that enters its target and never leaves the old state. |
| ThreadPoolTheorems.StepKeepsInv | threads/cancel/include/thread_pool_context.h:173-249 | Every step of any worker or caller keeps the invariant of queues, flags, notifications and tickets. |
| ThreadPoolTheorems.ExactlyOnceInOrder | threads/cancel/include/thread_pool_context.h:222-246 | In every interleaving, what a worker has run, is running and has queued is exactly what was submitted to it, in order. |
| ThreadPoolTheorems.AcceptedAsSubmitted | threads/cancel/include/thread_pool_context.h:173-190 | Over any execution what a worker accepts is what was submitted to it, directly or by round robin, in order, and nothing else. |
| ThreadPoolTheorems.ShutdownDrains | threads/cancel/include/thread_pool_context.h:192-205 | When shutdown returns every worker has ended and has run all tasks accepted before its flag was set. |
| ThreadPoolTheorems.ShutdownRunsAccepted | threads/cancel/include/thread_pool_context.h:192-205 | Over any execution from the call of shutdown to its return: every worker has ended, and each that had not before has run all it had accepted before the call. |
| ThreadPoolTheorems.SubmittedTaskRunsIff | threads/cancel/include/thread_pool_context.h:172-181 | A submission to a worker that exists is always accepted; its task is ever run iff the worker was not done by then, and then it has been run once the worker is done. |
| ThreadPoolTheorems.DrainedWhenDone | threads/cancel/include/thread_pool_context.h:233-236 | By the time a worker is done it has run everything accepted while it was not. |
| ThreadPoolTheorems.TaskAfterShutdown | threads/cancel/include/thread_pool_context.h:172-181 | A reachable worker that is done, and a task that it accepts and never runs. |
| ThreadPoolShutdown.ShutdownAlwaysMoves | threads/cancel/include/thread_pool_context.h:193-205 | A shutdown never deadlocks: its thread, or a worker whose flag it has set, can always take a step, and not only by a spurious wake-up. |
| ThreadPoolShutdown.ShutdownWorkIsBounded | threads/cancel/include/thread_pool_context.h:193-205 | Until a shutdown returns, its thread and the flagged workers take at most the steps that were left at its start, and three more for each task submitted meanwhile. |
| ThreadPoolShutdown.StepsLeftPositive | threads/cancel/include/thread_pool_context.h:193-205 | What is left of a shutdown is positive until it returns, so the bound is one on the steps. |
| ThreadPoolTheorems.NoLostWakeup | threads/cancel/include/thread_pool_context.h:230-232 | A worker that sleeps with work or with its flag set has its notifier still on the way. |
| ThreadPoolTheorems.TaskSeesStopIff | threads/cancel/include/thread_pool_context.h:240-242 | While a task runs its stop flag is set iff somebody asked its worker to stop since the task began. |
| ThreadPoolTheorems.StopBeforeTask | threads/cancel/include/thread_pool_context.h:240-242 | A reachable worker asked to stop between taking a task and starting it: the task starts with a clear flag. |
| ThreadPoolTheorems.OneTicketPerCall | threads/cancel/include/thread_pool_context.h:184-190 | A round-robin call draws one ticket and, whatever other threads do before it pushes, delivers its task to the worker the ticket names and to no other; with no workers it fails and draws none. |
| ThreadPoolTheorems.DealtBeforeWrap | threads/cancel/include/thread_pool_context.h:186 | The exact number of tickets each worker has after any number of them, before the counter wraps. |
| ThreadPoolTheorems.RoundRobinIsBalanced | threads/cancel/include/thread_pool_context.h:184-190 | With any concurrent callers, after K tickets and no call in progress each worker has received floor or ceiling of K/n tasks, if the counter has not wrapped or n divides its range. |
| ThreadPoolTheorems.DealBalancedIff | threads/cancel/include/thread_pool_context.h:186 | The numbers dealt to the workers by the wrapping counter are balanced after every ticket iff the number of workers divides its range. |
| ThreadPoolTheorems.AlwaysBalancedIff | threads/cancel/include/thread_pool_context.h:184-190 | In all reachable states with no call in progress every worker has received the floor or ceiling of its share, iff the number of workers divides the range of the counter. |
| ThreadPoolTheorems.UnevenAfterWrap | threads/cancel/include/thread_pool_context.h:184-190 | If it does not, a reachable state one ticket after the wrap, with no call in progress, in which the first worker has received more than the ceiling of its share. |
| EventDrivenTheorems.Linearises | state_machine_2/include/event_driven_fsm.hpp:61-72 | In every interleaving the machine is where its operations lead when performed one by one in lock order, and each returned what it returns there; posted events among them, the one in hand and the queue are exactly what was posted, in order. |
| EventDrivenTheorems.HistoryIsWhatWasCalled | state_machine_2/include/event_driven_fsm.hpp:39-72 | Over any execution what was posted and the operations performed are those that the threads posted and called, in order. |
| EventDrivenTheorems.HistoryOnlyGrows | state_machine_2/include/event_driven_fsm.hpp:187-214 | What was processed and posted is never rewritten. |
| EventDrivenStops.StopDrains | state_machine_2/include/event_driven_fsm.hpp:81-91 | When a stop that cleared the running flag can join the thread, every event posted before has been processed. |
| EventDrivenStops.StopDrainsIff | state_machine_2/include/event_driven_fsm.hpp:81-91 | Over any execution from a call of stop to its return: every event posted before the call has been processed iff the call found the machine running with a background thread, or nothing was left to process. |
| EventDrivenStops.StopDuringStop | state_machine_2/include/event_driven_fsm.hpp:84 | A reachable state in which a second stop returns while the first still drains, with an event queued. |
| EventDrivenStops.StopWithoutThread | state_machine_2/include/event_driven_fsm.hpp:74-90 | A reachable machine whose thread could not be created: its stop returns with an event queued. |
| EventDrivenStops.StopAlwaysMoves | state_machine_2/include/event_driven_fsm.hpp:187-214 | A stop never deadlocks: it can join, or it or the background thread can take a step, and not only by a spurious wake-up. |
| EventDrivenStops.StopWorkIsBounded | state_machine_2/include/event_driven_fsm.hpp:187-214 | Until a stop can join, it and the background thread take at most the steps that were left at its start, and two more for each event posted meanwhile. |
| EventDrivenTheorems.LatePostsStayQueued | state_machine_2/include/event_driven_fsm.hpp:194-196 | Events posted after the background thread ended stay queued in order until another is started. |
| EventDrivenTheorems.NoLostWakeup | state_machine_2/include/event_driven_fsm.hpp:190-192 | A background thread that sleeps with work or a stop pending has somebody about to notify it. |
| EventDrivenTheorems.TransitionIsLatest | state_machine_2/include/event_driven_fsm.hpp:39-44 | There is a transition for a state and an event iff one was added, and it is the one added last. |
| EventDrivenTheorems.EventTakesLatestTransition | state_machine_2/include/event_driven_fsm.hpp:147-179 | An event takes the transition added last for it in the present state if that has no guard or a passing one: exit, action and entry callbacks that exist run in this order, then the observers are told; otherwise it is dropped without effect, and the answer is no. |
| EventDrivenTheorems.CallbacksAreAsRegistered | state_machine_2/include/event_driven_fsm.hpp:46-54 | A state has an entry, or an exit, iff one was registered for it. |
| EventDrivenTheorems.ResetEnters | state_machine_2/include/event_driven_fsm.hpp:114-120 | A reset goes to the given state and runs the entry registered for it, if any; it leaves nothing and forgets nothing. |
| EventDrivenTheorems.ObserversSeeEveryChange | state_machine_2/include/event_driven_fsm.hpp:160-178 | Without resets the changes told to observers form an unbroken chain from the initial to the current state. |
| EventDrivenTheorems.ResetBreaksChainIff | state_machine_2/include/event_driven_fsm.hpp:114-120 | After a reset the chain still fits iff it went to the state the machine was in. |
| EventDrivenTheorems.ResetGoesUnseen | state_machine_2/include/event_driven_fsm.hpp:114-120 | A reset from state 1 to state 2, of which the observers are told nothing. |
| NodeCache.NodeCache.constructor | proto_opcua/parse_project/node_cache.cpp:11 | A new cache is empty and has counted no put. |
| NodeCache.NodeCache.Oldest | proto_opcua/parse_project/node_cache.cpp:26-30 | The scan, in any order, finds an entry that no other is older than. |
| NodeCache.NodeCache.Put | proto_opcua/parse_project/node_cache.cpp:13-39 | Does to the map what a put does to the bounded recency list: move to the end, or drop an oldest entry and append; the entry dropped is the front whenever that was written alone at its time. |
| NodeCache.DropsFrontIff | proto_opcua/parse_project/node_cache.cpp:24-32 | Whichever oldest entry the scan finds, a put is that of the recency list iff nothing need be dropped or the front was written alone at its time. |
| NodeCache.NodeCache.Get | proto_opcua/parse_project/node_cache.cpp:41-47 | Finds the held entry, or none. |
| NodeCache.NodeCache.Has | proto_opcua/parse_project/node_cache.cpp:49-52 | True iff an entry is held. |
| NodeCache.NodeCache.Remove | proto_opcua/parse_project/node_cache.cpp:54-57 | Takes the key out and keeps the order of the rest. |
| NodeCache.NodeCache.Clear | proto_opcua/parse_project/node_cache.cpp:59-62 | Empties the list; the counter goes on. |
| NodeCache.NodeCache.Keys | proto_opcua/parse_project/node_cache.cpp:64-70 | Lists every held key once. |
| NodeCache.NodeCache.Size | proto_opcua/parse_project/node_cache.cpp:72-75 | The length of the list. |
| NodeCache.NodeCache.SetMaxSize | proto_opcua/parse_project/node_cache.cpp:77-80 | Changes the bound and drops nothing. |
| NodeCache.NodeCache.GetVersion | proto_opcua/parse_project/node_cache.cpp:87-91 | The version of the held entry; 0 iff none is held. |
| NodeCache.PutConsistent | proto_opcua/parse_project/node_cache.cpp:13-39 | Storing keeps map, clock and counter those of the list, whichever entry is dropped. |
| NodeCacheContents.Perform | proto_opcua/parse_project/node_cache.cpp:13-62 | What one operation makes of the cache is one of the lists it can become, for any oldest entry dropped. |
| NodeCacheContents.PerformAll | proto_opcua/parse_project/node_cache.cpp:13-62 | What a new cache holds after any operations on a clock that does not go back is among what it can hold. |
| NodeCacheContents.RecencyIff | proto_opcua/parse_project/node_cache.cpp:24-32 | On a clock that does not go back, all that the cache can hold throughout a run is the recency list, iff every put that needs room finds one entry alone at the oldest time. |
| NodeCacheContents.TickingIsAlone | proto_opcua/parse_project/node_cache.cpp:15 | It always does when the clock moves on from put to put. |
| NodeCacheContents.TieDropsNewer | proto_opcua/parse_project/node_cache.cpp:24-32 | Three keys put at one time into a new cache of size 2: it can hold the first and the third. |
| NodeCacheContents.HoldsMostRecentKeys | proto_opcua/parse_project/node_cache.cpp:13-39 | In all that the cache can hold after any puts, if the clock moves on from put to put or every put that needs room finds one entry alone at the oldest time: the latest put of a key is held, with its value and its index as version, iff fewer than the bound of distinct keys were put after it; nothing else is held. |
| NodeCacheContents.HeldIsLatest | proto_opcua/parse_project/node_cache.cpp:13-62 | In all that the cache can hold after any puts, removals and clears, whatever the clock says and whichever entries are dropped: the bound holds, and what is held for a key is its latest put, not removed since. |
| NodeCacheContents.HoldsStandingPutsIff | proto_opcua/parse_project/node_cache.cpp:13-62 | In all that the cache can hold after any puts, removals and clears, under the same condition on the clock: a put is held, with its value and version, iff nothing has touched its key since and there were at no moment since as many standing newer keys as the bound; nothing else is held. |
| Engine.StateMachineEngine.constructor | state_machine/include/hfsm/core/machine.hpp:99-102 | A new engine has no active state, rules or deferred events. |
| Engine.StateMachineEngine.RegisterState | state_machine/include/hfsm/core/machine.hpp:106-111 | Registers a state that has no record; an existing record is kept. |
| Engine.StateMachineEngine.SetInitial | state_machine/include/hfsm/core/machine.hpp:113-120 | Registers and remembers the initial state, and activates its record when nothing is active. |
| Engine.StateMachineEngine.AddRule | state_machine/include/hfsm/core/machine.hpp:122-125 | Appends the rule. |
| Engine.StateMachineEngine.OnEntry | state_machine/include/hfsm/core/machine.hpp:193-196 | Registers the entry callback. |
| Engine.StateMachineEngine.OnExit | state_machine/include/hfsm/core/machine.hpp:198-201 | Registers the exit callback. |
| Engine.StateMachineEngine.HandleEnvelope | state_machine/include/hfsm/core/machine.hpp:133-152 | The loop fires the first rule that matches with a passing guard, or defers, or reports the event unhandled. |
| Engine.StateMachineEngine.ProcessDeferred | state_machine/include/hfsm/core/machine.hpp:154-165 | The loop is one pass over the events that were pending when it began. |
| Engine.StateMachineEngine.ExecuteTransition | state_machine/include/hfsm/core/machine.hpp:233-257 | Exit, change of state, action and entry as on values; an internal rule only acts. |
| Engine.StateMachineEngine.Activate | state_machine/include/hfsm/core/machine.hpp:247 | Looking up an unregistered state stores and activates an invalid record. |
| Engine.StateMachineEngine.RunExit | state_machine/include/hfsm/core/machine.hpp:268-275 | Runs the exit callback if there is one. |
| Engine.StateMachineEngine.RunEntry | state_machine/include/hfsm/core/machine.hpp:259-266 | Runs the entry callback if there is one. |
| Engine.StateMachineEngine.RunAction | state_machine/include/hfsm/core/machine.hpp:249-251 | Runs the rule's action if it has one. |
| Engine.StateMachineEngine.Reset | state_machine/include/hfsm/core/machine.hpp:203-215 | Exits unless already initial, activates the initial state, enters it and discards what was deferred. |
| EngineRuns.FirstRuleIsFirst | state_machine/include/hfsm/core/machine.hpp:135-144 | The rule found is for events of that kind, for the active state or for any, and has no guard or a passing one, and no earlier rule is so; none is found iff none is so. |
| EngineRuns.HandledIffTaken | state_machine/include/hfsm/core/machine.hpp:133-152 | An event is handled iff some rule is for its kind, for the active state or any, and has no guard or a passing one. |
| EngineRuns.FiringInOrder | state_machine/include/hfsm/core/machine.hpp:233-257 | Of the callbacks there are, exit, action and entry run in this order; an internal rule only acts and changes nothing else. |
| EngineRuns.RetryPartitions | state_machine/include/hfsm/core/machine.hpp:154-165 | One pass tries each deferred event once, in order; handled and remaining events are complementary order-preserving subsequences. |
| EngineRuns.EventsAreConserved | state_machine/include/hfsm/core/machine.hpp:133-165 | With deferral on, over any run the submitted events are exactly those handled, those deferred and those pending at a reset. |
| EngineRuns.NothingDeferredWhenOff | state_machine/include/hfsm/core/machine.hpp:146-165 | With deferral off nothing is ever pending, and a retry changes nothing and reports success. |
| EngineRuns.FirstRuleAlwaysFires | state_machine/include/hfsm/core/machine.hpp:133-144 | Over any run each handled event fired the first rule in insertion order for its kind, and for the state that was active or any, with no guard or a passing one, and no attempt fired two. |
| EngineHistory.EventTakesFirstRule | state_machine/include/hfsm/core/machine.hpp:133-152 | An event goes to the first such rule: the exit of the active state, the action and the entry of the target run, of those there are, and the target is active if it has its own record; without one it is deferred, or reported unhandled, and nothing runs. |
| EngineHistory.ResetRuns | state_machine/include/hfsm/core/machine.hpp:203-215 | A reset runs the exit of the active state unless that is the initial one, then the entry of the initial state, of those there are, makes that active, and forgets the deferred events. |
| EngineHistory.ConfigurationIsAsCalled | state_machine/include/hfsm/core/machine.hpp:106-201 | After any run the rules are those added, in order, the initial state is the one set last, and the states with callbacks are those for which one was registered. |
| EngineHistory.ConfiguringKeepsActive | state_machine/include/hfsm/core/machine.hpp:106-131 | Configuring runs nothing, and moves nothing unless no state is active and an initial one is set. |
| EngineRegistrations.StepRecords | state_machine/include/hfsm/core/machine.hpp:106-119 | A state without a record gets its own by a registration, an invalid one by a reset or an event that looks it up, and none otherwise; a record never changes. |
| EngineRegistrations.OwnRecordIff | state_machine/include/hfsm/core/machine.hpp:106-119 | After any run of a new engine a state has its own record iff it was registered before anything looked it up, an invalid one iff it was looked up first, and none iff neither has happened. |
| EngineRegistrations.TargetActiveIff | state_machine/include/hfsm/core/machine.hpp:242-247 | After any run, an event whose first rule leads to another state makes that the active one iff it was registered before anything looked it up; otherwise nothing is active. |
| EngineRuns.UnregisteredTarget | state_machine/include/hfsm/core/machine.hpp:242-247 | A run of a new engine that leads to a state nobody registered: afterwards nothing is active, and registering it does not help. |
| EngineRegistrations.NeverRepaired | state_machine/include/hfsm/core/machine.hpp:106-111 | A state looked up in a run before it was registered is not active after any continuation of that run. |
| EngineRegistrations.ActiveIsRegistered | state_machine/include/hfsm/core/machine.hpp:203-257 | The active state after any run was registered before anything looked it up, or there is none. |

## Left out

- Output, labels, reason strings, names, layers, domain events and logging of all components: they do not influence the state. Reports of the plant, callbacks of the state machines and stages of the pipeline are kept as records for specifications.
- The plant assumes the wiring of ddd_multi_device/src/main.cpp:77-101: a finite forest with unique ids whose upstream links match the child lists, every child present in the store and every node given the router (a node without a router would skip its children). The controller's own report handler only prints, so a top node's upstream is modelled as absent.
- PlantNodes.HierNode.SetUpstream: takes a node or null. The source also allows the controller, whose report handler only prints; the model gives such a node null.
- PlantNodes.HierNode.Publish: the trace hook and the event sink do not call back into the plant.
- The plant's order domain, device module, history and region managers, and the router's step query: single-branch checks or plain reads.
- Pipeline: memory orders weaker than sequential consistency, time, and destruction while other threads are still in calls. A stage that calls the pipeline is seen as one more calling thread; a stage that waits for its own pipeline blocks for ever, as the header warns. A caller's view of the exceptions that start and the setters throw is the absence of an effect.
- Thread pool: construction while the vector of workers grows, two threads in shutdown at once, tasks that throw something other than a standard exception, and the plain accessors of the worker's context.
- Event-driven machine: deferral of the current event (it needs the lock its actions already hold), clear, the number of observers (all of them are told the same), and a start racing with another thread's stop. Guards, actions, callbacks and observers run under a mutex that is not recursive: those that throw, or call back into the machine, are not modelled.
- Hierarchical machine: the printed dump and the child lists that only it reads; callbacks that call back into the machine; is_descendant, which swaps the arguments of IsAncestor.
- Engine: callbacks that call back into the engine, state names, the typed wrapper, and child and history fields that nothing reads. Guards may answer differently at each attempt; they are a parameter of the run.
- NodeCache.NodeCache.Put: puts are atomic and the clock never goes back; the change callback is not modelled; the version counter does not wrap within its 64 bits; a cache of size 0 that is empty is excluded, since there the scan has no entry to point at.
- The node cache's dump and its query for stale keys by age.
- The OPC UA client, the poller, the struct parser, the transition notation, the other state machine classes and the examples: calls into libraries, raw memory, fixed tables, or covered by a harder member above.
