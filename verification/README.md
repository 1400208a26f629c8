# GXO: a verified model of the playbook engine

GXO runs a playbook: tasks that stream records to each other and read each other's state, scheduled
as a dependency graph. This project models the engine and the parts of its standard library whose
correctness is hard to see, and proves what they promise.

- **The dependency graph** (`Graph`, `Dag`, `DagMeaning`, `DagBuild`): building the graph from the task
  list, what it means in terms of the tasks, its counters, and the depth-first cycle check.
- **The scheduler** (`Scheduler`, `SchedulerInvariant`, `SchedulerSteps`, `SchedulerSignals`,
  `SchedulerWakeups`, `SchedulerTheorems`, `SchedulerFatal`, `SchedulerTermination`, `SchedulerProgress`,
  `SchedulerDeadlock`, `SchedulerExits`, `SchedulerBreaks`, `SchedulerWitnesses`): a state machine in
  which a counter decrement, each of the two loads of the readiness check, and the send on the ready
  channel are separate steps of one scheduler and any number of workers. `Engine` is the object with its fields; each of its atomic operations is one step
  of the machine, and each method built from them takes a run of such steps. `Outcome` is how a run
  ends: its error and its report.
- **State isolation** (`DeepCopy`, `Paths`, `StateTree`, `StateObs`, `StateInsert`, `StateRegions`,
  `StateShape`, `StateStore`, `StateLookup`, `MemoryStore`): a memoised copy of a heap with sharing and
  cycles, the nested view of the flat state for any keys in any map order, what a reader of it can tell,
  and lookups.
- **The multi-way hash join** (`JoinRows`, `JoinTable`, `JoinBuild`, `JoinKey`, `JoinMerge`, `JoinExec`,
  `Join`): a state machine for the concurrent build phase, code for the probe and post-probe phases,
  and a relational specification of what a row of the join is.
- **Streams and resilience** (`ManagedChannel`, `ChannelManager`, `StreamRelease`, `StreamFlow`,
  `StreamBlocks`, `StreamTotals`, `StreamGates`, `StreamPair`, `StreamDispatch`, `Passthrough`,
  `TaskLoop`, `Retry`, `Redaction`): overflow policies under concurrent
  readers, wait-group accounting over the scheduler's runs, when streaming tasks on a pool of workers
  come to their end, fan-in and fan-out, the semaphore-bounded task loop, backoff arithmetic, and the
  redaction of tracked secrets.

## What was found

- The ready channel is made for one message per task plus one per worker
  (`internal/engine/engine.go:373`), but a task with both a stream and a state producer can be sent twice,
  and the scheduler, the channel's only receiver, sends on it itself. The scheduler never blocks on its own
  send, in any accepted playbook with k such tasks and w workers, if and only if k <= w + 2
  (`EngineNeverBlocksIff`); beyond that some run blocks it for ever (`ManyTwoKindTasksCanBlock`,
  `BlockedForever`, with an accepted playbook in `StarIsAccepted`).
- Up to that number the scheduler and the workers never get in each other's way: if every started task
  comes to its end and the scheduler stays in its loop, a run without failures can only stop when every
  task is done (`CleanRunsFinish`, `EngineRunsFinish`). Both conditions can fail, as the next points say.
- The ticker's early break (`internal/engine/engine.go:505-509`) can end a run in which nothing failed, and
  then abandons every Pending task for good (`BreakAbandonsPending`). It does so only if some task is Running
  when it first looks, queued or taken by a worker not yet counted as active (`EarlyBreakAbandonsRunning`;
  with none Running everything is done, `DoneUnlessRunning`). An accepted playbook of two tasks where it
  happens: the second task is left ready to run, and the run is reported as a possible deadlock
  (`EarlyBreakLosesWork`, `PairIsAccepted`).
- A playbook none of whose tasks waits for another's state is never cut short so. Where the work queue
  has room for all tasks, some clean run of a playbook is if and only if some task does (`CutShortIff`).
- Streaming tasks that cannot go on have all ended if and only if no channel is full with a consumer that
  does not execute, or that is a join still reading its other inputs, and none is empty and open with a
  producer that was skipped (`StuckIsBlocked`). Skipped tasks do not close their outputs, so what reads
  from one never ends (`SkippedProducerBlocks`).
- A task that streams from another and also waits for its state, directly or through other tasks, is
  dispatched only after that one has ended, so nobody reads the channel before; a join reads its probe
  stream only after its build streams. Over such a channel no more records are ever written than it holds
  (`ShutChannel`), and a source that has more never ends, however many workers there are
  (`ShutNeverCompletes`). With a worker for every task, playbooks whose streams run within stages complete
  (`StagesComplete`).
- For a producer of n records and its consumer the exact condition is `PairCompletesIff`: if the consumer
  waits for the producer's state, has no worker of its own or is skipped, the channel must hold all n
  records (`GatedPair`); and the consumer of a skipped producer must be skipped. Graph building accepts such
  a playbook (`GatedIsAccepted`). A producer that feeds the probe stream of a join and, through another
  task, its build stream completes, given three workers, if and only if the probe channel holds all its
  records (`DiamondCompletesIff`).
- A run in which some task failed is reported, at quiescence, as "unexpected pending tasks (potential
  deadlock or internal error)" exactly if some task's state producers have all succeeded while it is still
  Pending behind a blocked stream producer (`UnexpectedPendingMeans`). It happens in an accepted playbook of
  three tasks where one fails and everything else waits as it should (`FailureReportedAsDeadlock`,
  `ChainIsAccepted`).
- A loop whose context ends, for example by the task's timeout, can return without an error although items
  did not run: exactly if all items were launched and some were passed over (`HiddenItems`). Every loop,
  whatever its items would do, can return so with none of them run (`NothingRunNoError`), and its task
  then counts as Completed.
- The join reports key errors on a channel with room for ten that nobody reads before the module has
  returned (`internal/engine/task_runner.go:416` and `461`). With more key errors than that it waits for ever:
  as long as `max_build_records` does not interfere, in the build phase exactly if its own errors exceed the
  room (`BuildPhaseEndsIff`, `NoRoomNoEnd`), otherwise in the probe phase (`Perform`).
- Where one key of the state extends another, as `a.b` does `a`, the nested view can depend on map order
  (`internal/state/memory_store.go:66`). It looks the same for every order if and only if the value of the
  shorter key already holds, at the rest of the longer key's path, what looks like the longer key's value,
  for every such pair of keys (`OrderIsIrrelevantIff`). It never looks the same where the shorter key
  holds a string or number (`ScalarsDisagree`).
- Once the backoff grows past 64-bit nanoseconds the wait is whatever the platform makes of an
  out-of-range float. Where that is negative and there is no jitter, every later attempt follows at once
  in spite of the maximum delay (`WaitInRange`, `SaturationDefeatsMaxDelay`, `SaturationHappens`).
- Redaction turns nil maps and slices into plain nil, so a value can change although nothing was redacted
  (`CleanIsUnchanged` says exactly when).
- With the nested merge strategy two streams may be given one nesting key; the record sent then depends
  on map order (`NestedIsUnique` says exactly when it does not).
- Under drop_oldest the newest record is always enqueued, unless the context ends, exactly on channels
  with a buffer (`NewestIsEnqueued`).
- An unsigned integer is never the same join key as a signed one, a float or a numeral of the same number
  (`NumbersMeet`); it meets a string exactly if that is its own digits and beyond the range of signed
  integers (`UnsignedMeetsString`).

## Assumptions

- In the theorems on progress (`StuckMeansQuiescent`, `CleanRunsFinish`, `EngineRunsFinish`) a task that a
  worker executes comes to its end, whatever it reads and writes, and neither the scheduler nor a worker
  leaves its loop. `StreamBlocks`, `StreamGates`, `StreamPair`, `SchedulerExits` and `SchedulerBreaks` say
  when these conditions hold.
- In `StreamFlow` nothing fails and nothing is cancelled. A task passes each record on to all its outputs,
  as the passthrough module does, or reads one input after all others, as the join does. Tasks are
  dispatched as the scheduler dispatches them (`DispatchIsAllowed`, `DispatchIsSent`).
- Task ids are distinct where a theorem says so (`ChannelsFollowGraph`); graph building itself is
  modelled for any task list, a later task replacing an earlier one with its id.
- The set of variable paths that a task's templates mention is an input of graph building.
- An address identifies one map or slice: no two slices share a start, and no map or slice is nil, in the
  heaps that are copied.
- In the join and in passthrough nothing is cancelled from outside, a probe record is not nil, and records
  are told apart by reference.
- Channels are written only through `Write`, and are not closed while written to.

## Model

| member | source | states |
|---|---|---|
| Dag.TaskGraph.AddStreamEdge | internal/engine/dag.go:176-183 | the consumer gains the producer, and the reverse edges stay exactly the tasks that wait for each task |
| Dag.TaskGraph.AddStateEdge | internal/engine/dag.go:185-192 | the same for state edges |
| Dag.TaskGraph.AddEdges | internal/engine/dag.go:119-157 | fails exactly if some stream input names no task; otherwise the nodes' edges are those of the dependency graph, whatever order the nodes are visited in |
| Dag.TaskGraph.InitCounters | internal/engine/dag.go:159-167 | counters are the numbers of producers, and the ready list holds each task without producers once |
| DagMeaning.NodesMean | internal/engine/dag.go:73-117 | the nodes are the ids of the tasks |
| DagMeaning.StreamEdgesMean | internal/engine/dag.go:121-126 | p is a stream producer of t exactly if an input of the task with id t is the name of p; of several tasks with one id or name the last counts |
| DagMeaning.StateEdgesMean | internal/engine/dag.go:128-155 | p is a state producer of t exactly if they differ, p is not empty, and the task t mentions a status path "_gxo.tasks.name.field" with the name of p, or another path that p registered last |
| DagMeaning.MissingMeans | internal/engine/dag.go:76-79 | an id is missing exactly if some task has none |
| DagMeaning.UndefinedMeans | internal/engine/dag.go:121-126 | an input is undefined exactly if no task has its name |
| DagMeaning.StatusIsAccepted | internal/engine/dag.go:140-153 | graph building accepts a playbook whose only edge comes from a status path |
| Graphs.SourceExists | internal/engine/dag.go:159-171 | in an acyclic graph every non-empty set of tasks has one that waits for no other in the set |
| CycleCheck.CycleSearch.HasCycleDFS | internal/engine/dag.go:210-228 | terminates by the unvisited nodes; true means there is a cycle, false that everything visited is closed and free of cycles and the path is as before |
| CycleCheck.DetectCycle | internal/engine/dag.go:194-208 | an error if and only if the graph has a directed cycle, for every order of the maps |
| DagBuild.BuildDag | internal/engine/dag.go:55-174 | exactly which of the errors is returned; otherwise the dependency graph, exact counters, and an initially ready list that is not empty if there are tasks |
| DagBuild.AcceptedHasWork | internal/engine/engine.go:405-410 | an accepted non-empty task list has an initially ready task |
| SchedulerWakeups.InitInv | internal/engine/engine.go:373-414 | the invariant holds once the graph is built and the ready channel seeded |
| SchedulerWakeups.StepInv | internal/engine/engine.go:430-810 | every step of the scheduler, a worker or the context keeps the whole invariant: places of tasks, signals and counters, checks in progress, wake-ups, dispatch order |
| SchedulerWakeups.RunInv | internal/engine/engine.go:430-810 | so every state of every run satisfies it |
| SchedulerWakeups.ZeroMeansMet | internal/engine/engine.go:782-810 | a task about to be sent has all its producers dispatched (stream) and succeeded (state) |
| SchedulerTheorems.NoLostWakeUp | internal/engine/engine.go:786-810 | once nobody is checking a task, it has been sent if and only if both counters are zero; at most twice, and at most once unless it has both kinds of producers |
| SchedulerTheorems.SendsAreBounded | internal/engine/engine.go:786-810 | messages sent and checks in progress together stay within that bound, and nothing is sent early |
| SchedulerTheorems.DispatchSafety | internal/engine/engine.go:437-476 | no task is dispatched twice; stream producers are dispatched and state producers Completed or Skipped before; dispatch order is topological |
| SchedulerFatal.StatusIsOutcome | internal/engine/engine.go:684-778 | over every run a task has a final status exactly if it ended with that outcome, by a worker or, failed, by the scheduler in a cancelled run |
| SchedulerFatal.FatalMeans | internal/engine/engine.go:479-486 | over every run a fatal error is on its channel or was taken exactly if some worker raised one; the run is cancelled exactly if the scheduler took one or it was cancelled from outside |
| SchedulerFatal.FatalStays | internal/engine/engine.go:479-486 | a raised error stays on the channel until it is taken |
| SchedulerFatal.RaisedMeansFailed | internal/engine/engine.go:770-778 | what raises is a Failed task whose errors are not ignored |
| SchedulerTheorems.CountersMeanUnmet | internal/engine/engine.go:786-810 | counters equal the number of producers that have not signalled, and when nobody is signalling the number of unmet ones; never negative |
| SchedulerTheorems.QuiescentAtRest | internal/engine/engine.go:430-533 | with nothing Running, the ready channel drained and nobody signalling, the work queue is empty and every actor at rest |
| SchedulerTheorems.PendingWaits | internal/engine/engine.go:782-810 | at quiescence a Pending task waits for a Pending producer, or by state for a Failed one |
| SchedulerTheorems.PendingIsBlocked | internal/engine/engine.go:766-768 | in an acyclic graph each task Pending at quiescence ends a chain of Pending dependencies from a Failed task |
| SchedulerTheorems.NoFailureMeansAllDone | internal/engine/engine.go:766-768 | if nothing failed, every task is Completed or Skipped at quiescence |
| SchedulerTheorems.SomethingIsReady | internal/engine/engine.go:405-414 | an acyclic non-empty graph seeds the ready channel, so "no initially ready tasks" cannot be reported for it |
| SchedulerTermination.StepCost | internal/engine/engine.go:430-533 | every step lowers a cost of Pending, queued and running tasks and of the work of each actor |
| SchedulerTermination.RunsAreBounded | internal/engine/engine.go:430-533 | so every run is at most as long as the cost of its first state |
| SchedulerTermination.RunLength | internal/engine/engine.go:430-533 | a run over n tasks and W workers has at most 10n² + 8n + W + 2 steps |
| SchedulerProgress.SendsNeverWait | internal/engine/engine.go:373-377 | with room for every second message no send on the ready channel ever waits |
| SchedulerProgress.DispatchUsesMessages | internal/engine/engine.go:437-462 | queued messages and dispatched tasks together are at most the messages sent |
| SchedulerProgress.SchedulerNeverBlocks | internal/engine/engine.go:786-797 | with room for all possible messages but two the scheduler never waits on its own send |
| SchedulerProgress.StuckMeansQuiescent | internal/engine/engine.go:430-533 | with that room, a state in which nobody has left and nobody can take a step, no executing task being left to end, is quiescent |
| SchedulerProgress.CleanRunsFinish | internal/engine/engine.go:430-533 | with that room, if every started task comes to its end and the scheduler stays in its loop, a run without failure or cancellation that cannot go on has every task Completed or Skipped |
| SchedulerDeadlock.EngineNeverBlocksIff | internal/engine/engine.go:373-377 | with the engine's own capacity, w workers and k tasks with both kinds of producers: the scheduler never blocks on its own send in any such playbook that graph building accepts if and only if k <= w + 2 |
| SchedulerDeadlock.EngineRunsFinish | internal/engine/engine.go:373-533 | up to that number the same for the engine as it is made for an accepted playbook: if every started task comes to its end and the scheduler stays in its loop, a clean run that cannot go on has every task Completed or Skipped |
| SchedulerDeadlock.ManyTwoKindTasksCanBlock | internal/engine/engine.go:373-377 | for every star of such tasks, three more than the workers, a reachable state blocks the scheduler for ever |
| SchedulerDeadlock.BlockedForever | internal/engine/engine.go:786-797 | a scheduler blocked on its own send never dispatches again, whatever the others do |
| SchedulerDeadlock.StarHasShape | internal/engine/engine.go:373-377 | such stars are well-formed acyclic graphs |
| SchedulerDeadlock.StarIsAccepted | internal/engine/dag.go:55-174 | and graph building accepts a playbook whose dependency graph is the star |
| SchedulerExits.OthersAre | internal/engine/engine.go:497-509 | what can happen between the ticker's looks is every step that is not the scheduler's own |
| SchedulerExits.DoneUnlessRunning | internal/engine/engine.go:502-509 | with no worker active, no Pending task ready and nothing failed, every task is done if and only if none is Running |
| SchedulerExits.EarlyBreakAbandonsRunning | internal/engine/engine.go:502-509 | the early break, its three looks made one after the other while workers go on, ends a run without failures only if some task is Running at the first look; if none is executing, the work queue is not empty |
| SchedulerExits.BreakAbandonsPending | internal/engine/engine.go:505-533 | once the scheduler has left its loop, tasks that are Pending stay so in every continuation |
| SchedulerBreaks.NoStateEdgesNoBreak | internal/engine/engine.go:497-509 | where no task waits for another's state, no reachable state has the early break |
| SchedulerBreaks.CutShortIff | internal/engine/engine.go:497-509 | with room in the work queue and on the ready channel for all tasks, some clean run is cut short by the early break if and only if some task waits for another's state |
| SchedulerWitnesses.EarlyBreakLosesWork | internal/engine/engine.go:505-509 | a run of a two-task playbook that the early break ends although nothing failed; a task gets ready afterwards, is never run, and the outcome is unexpected pending tasks |
| SchedulerWitnesses.PairIsAccepted | internal/engine/dag.go:55-174 | graph building accepts that playbook |
| EngineCode.Engine.constructor | internal/engine/engine.go:373-414 | the engine starts in an initial state of the machine |
| EngineCode.Engine.AddMinusOne | internal/engine/engine.go:789-802 | the atomic decrement is the machine's decrement step, and returns the new count |
| EngineCode.Engine.LoadCounter | internal/engine/engine.go:782-784 | each load of the readiness check is one load step |
| EngineCode.Engine.SendOnReady | internal/engine/engine.go:792-805 | the send is the machine's send step |
| EngineCode.Engine.CheckAndSend | internal/engine/engine.go:782-793 | check and send are a run of the machine; the id is sent exactly if both counters are zero and there is room |
| EngineCode.Engine.SignalDependents | internal/engine/engine.go:786-810 | the loop over the dependents, in any order, is a run of the actor's own steps that ends its signalling or blocks on a full channel |
| EngineCode.Engine.TakeReady | internal/engine/engine.go:437-462 | receiving an id drops duplicates and tasks not Pending, and otherwise makes the task Running and dispatched |
| EngineCode.Engine.DispatchReady | internal/engine/engine.go:437-476 | the scheduler's turn for one ready id is a run that starts with that receive |
| EngineCode.Engine.RecordOutcome | internal/engine/engine.go:694-778 | the first outcome counts, with its error, and later ones change nothing; the error goes to the fatal channel exactly if the task failed, is not ignored, and the error is no context's end or skip, unless one is there already |
| EngineCode.Engine.HandleTaskCompletion | internal/engine/engine.go:679-780 | a worker's completion is a run that starts by recording the outcome; the status is set, a fatal error is on its channel afterwards, and success signals the state dependents |
| EngineCode.Engine.TakeFatalError | internal/engine/engine.go:479-486 | the scheduler takes the error off the channel, keeps the first it took, and cancels the run |
| EngineCode.Engine.LeaveOnContext | internal/engine/engine.go:488-493 | it leaves its loop once the context has ended, with the context's error unless it has one |
| EngineCode.Engine.OfferWork | internal/engine/engine.go:468-476 | a dispatched task is queued if there is room, or failed on the workers' behalf if the context has ended, with the context's error, or the scheduler waits; exactly when each |
| EngineCode.Engine.CountTerminalTasks | internal/engine/engine.go:827-837 | the number of tasks in a terminal state |
| EngineCode.Engine.CountRunnablePendingTasks | internal/engine/engine.go:839-859 | the number of Pending tasks whose counters are both zero |
| EngineCode.Engine.HasPendingTasks | internal/engine/engine.go:861-870 | whether some task is Pending |
| EngineCode.Engine.DetermineFinalOutcome | internal/engine/engine.go:872-923 | exactly which error a run ends with, for every map order |
| EngineCode.Engine.GenerateReport | internal/engine/engine.go:925-1006 | the counts, the verdict, the error texts and every task's line of the report, for every map order |
| Outcome.CountsAddUp | internal/engine/engine.go:946-1003 | completed, failed and skipped sum to the total; Completed exactly if there is no error and nothing failed or unfinished |
| Outcome.SuccessMeansAllDone | internal/engine/engine.go:872-923 | at a quiescent state without a fatal error nil is returned if and only if every task is Completed or Skipped |
| Outcome.UnexpectedPendingMeans | internal/engine/engine.go:892-915 | at quiescence the "unexpected pending" error appears exactly if a Pending task has all its state producers done, and then some task failed |
| SchedulerWitnesses.FailureReportedAsDeadlock | internal/engine/engine.go:892-915 | a quiescent end of a three-task playbook where it appears although the other tasks rightly wait for the failed one |
| SchedulerWitnesses.ChainIsAccepted | internal/engine/dag.go:55-174 | graph building accepts that playbook |
| Outcome.LinesMean | internal/engine/engine.go:946-1000 | the report gives each task its status and its recorded error, with texts of their own for failures without one and tasks that never finished |
| Outcome.VerdictMeans | internal/engine/engine.go:925-1006 | the verdict of the report, and which text it has |
| Outcome.StoppedMeans | internal/engine/engine.go:872-881 | a stopped run returns its cause as it is if that is the context's end or a stall, and any other task's error wrapped as fatal |
| Outcome.FinishedMeans | internal/engine/engine.go:883-923 | any other run ends with unexpected pending tasks, failed tasks or no error, exactly when each |
| Outcome.NothingRunnable | internal/engine/engine.go:502-509 | at quiescence no Pending task is ready |
| DeepCopies.CopyVal | internal/util/copy.go:24-76 | the recursion terminates on cyclic heaps; new copies are fresh, finished and reachable, old ones kept, the old heap unchanged |
| DeepCopies.CopyMap | internal/util/copy.go:47-55 | a map's copy is registered before its entries are copied, and ends with an image of each |
| DeepCopies.CopySlice | internal/util/copy.go:57-65 | the same for slices, element by element |
| DeepCopies.DeepCopy | internal/util/copy.go:14-21 | the context is a bijection from exactly the reachable objects to fresh ones, each with the shape of its original; the old heap is unchanged |
| DeepCopies.PathsAgree | internal/util/copy.go:24-76 | source and copy answer every path of keys and indexes alike |
| DeepCopies.CopyIsIndependent | internal/util/copy.go:24-76 | a reader of the copy sees the same scalars, the same sharing and cycles, and no object of the old heap |
| Paths.JoinSplit | internal/state/memory_store.go:67 | splitting at dots loses nothing |
| Paths.SplitFirst | internal/state/memory_store.go:67 | the parts come in the order in which they stand |
| Paths.SplitInjective | internal/state/memory_store.go:67 | so two keys never have the same parts |
| Paths.SplitAppend | internal/state/memory_store.go:67 | the parts of two strings put together with a dot are those of one and then of the other |
| Paths.SplitParts | internal/state/memory_store.go:67 | no part holds a separator |
| Paths.SplitJoin | internal/template/template.go:154 | joining parts without separators and splitting gives them back |
| StateTree.PrefixFreeMeans | internal/state/memory_store.go:66-90 | no key is nested below another exactly if none goes on after another with a dot |
| StateTree.TreeLookup | internal/template/template.go:153-167 | lookups find the maps and the leaves of the tree |
| StateTree.TreeMiss | internal/template/template.go:153-167 | and no path that is not in the tree |
| StateTree.AddMap | internal/state/memory_store.go:72-75 | a new map under a free name extends the tree by one path |
| StateTree.AddLeaf | internal/state/memory_store.go:89-90 | a value at a free path extends it by one leaf |
| StateTree.FlattenRecovers | internal/state/memory_store.go:60-93 | the paths that hold something other than a map are exactly the leaves |
| StateObs.SameMeans | internal/template/template.go:153-167 | a reader cannot tell two values apart exactly if every path finds nothing in both, or nil, one scalar, two maps, two slices or two dangling references |
| StateObs.InvisibleIff | internal/state/memory_store.go:89-90 | setting one entry of a map changes nothing for a reader, whatever is shared or cyclic, if and only if the new value looks like the entry it replaces |
| StateInsert.InsertRegion | internal/state/memory_store.go:70-90 | an insertion below a copied value stays within its objects and new ones, and shows if and only if its path did not already lead to a value that looks the same |
| StateRegions.PutLeaf | internal/state/memory_store.go:89-90 | a value replaces everything at or below its path, and nothing else |
| StateRegions.InsertTree | internal/state/memory_store.go:70-90 | an insertion either ends inside one leaf, leaving all others and all maps alone, or makes its path a leaf in place of what was at or below it |
| StateShape.CopySame | internal/state/memory_store.go:90 | a deep copy looks like its original and refers only to itself |
| StateShape.ShapeStep | internal/state/memory_store.go:66-91 | after every key the leaves are the keys that extend no other so far and the maps their proper prefixes |
| StateShape.ResultStep | internal/state/memory_store.go:66-91 | and while the values of keys that extend each other agree, every leaf looks like its stored value |
| StateShape.OrderIsIrrelevant | internal/state/memory_store.go:66-92 | if all those values agree, a reader cannot tell the views of two map orders apart |
| StateShape.DifferentOrders | internal/state/memory_store.go:66-92 | if some do not, there are two orders of all keys that differ in the last two, one key extending the other, whose values disagree |
| StateShape.OrderMatters | internal/state/memory_store.go:66-92 | and a reader can tell their views apart |
| StateShape.OrderIsIrrelevantIff | internal/state/memory_store.go:66-92 | so the views of all map orders look the same if and only if all values of keys that extend each other agree |
| StateShape.SomeStateDisagrees | internal/state/memory_store.go:78-86 | the state with scalars at a and at a.b is one where they do not |
| StateStore.StepInto | internal/state/memory_store.go:72-86 | one step down enters the map under the part, or puts a new one there, also over a value that is no map |
| StateStore.Descend | internal/state/memory_store.go:68-87 | walks down all parts but the last, each step putting a map where none is, and changes nothing else |
| StateStore.InsertKey | internal/state/memory_store.go:66-91 | one flat entry is one insertion, at its path, of a deep copy of its value |
| StateStore.Unflatten | internal/state/memory_store.go:60-93 | everything in the result is new and refers only to itself; for any keys in any order it has the shape and the leaves stated above, and for prefix-free keys it is the tree of the keys with a deep copy at each; the store is unchanged |
| StateStore.ReadTwice | internal/state/memory_store.go:45-93 | two reads of one state in two map orders look the same if all values agree, and differ for the two orders given if not |
| StateLookup.Lookup | internal/template/template.go:153-167 | found exactly if every part leads on, with the value at the end of the path |
| StateLookup.ViewAnswersKeys | internal/template/template.go:153-167 | every key finds the copy of its value, and paths below it what they find in the original |
| StateLookup.ViewAnswersPrefixes | internal/state/memory_store.go:72-75 | every proper prefix of a key finds a map |
| StateLookup.ViewAnswersNothingElse | internal/template/template.go:153-167 | no other path is found |
| StateLookup.ViewsAgree | internal/state/memory_store.go:66-92 | two views of one state, built in any two orders, answer every lookup alike |
| StateLookup.FlattenView | internal/state/memory_store.go:45-57 | flattening the view gives back exactly the keys if and only if no stored value is a map; every key finds the copy of its value |
| StateLookup.ViewIsIsolated | internal/state/memory_store.go:45-57 | nothing reached from the view belongs to the store |
| MemoryStore.MemoryStateStore.Get | internal/state/memory_store.go:34-43 | a deep copy in fresh objects exactly if the key exists, nil otherwise |
| MemoryStore.MemoryStateStore.GetAll | internal/state/memory_store.go:48-57 | a fresh nested view of the entries in some order; store and values unchanged |
| MemoryStore.MemoryStateStore.Set | internal/state/memory_store.go:99-104 | replaces one entry |
| MemoryStore.MemoryStateStore.Delete | internal/state/memory_store.go:109-117 | removes the entry, or reports that it is missing and changes nothing |
| MemoryStore.MemoryStateStore.Load | internal/state/memory_store.go:121-130 | replaces all entries; no map counts as an empty one |
| JoinRows.ProductMembers | modules/stream/join/join.go:303-332 | the combination loop yields exactly the ways to choose one record, or nil if there is none, for every stream |
| JoinRows.ProductNoDup | modules/stream/join/join.go:303-332 | each of them once |
| JoinRows.ProductSize | modules/stream/join/join.go:303-332 | their number is the product of max(1, n) over the streams |
| JoinRows.OrderOfStreamsIsIrrelevant | modules/stream/join/join.go:303-332 | the multiset of combinations is the same for every order of the build streams |
| JoinTable.CombinationsExact | modules/stream/join/join.go:296-333 | the combinations of one group are exactly the rows that cover its key; none for inner with a missing stream |
| JoinTable.ProbeRowsExact | modules/stream/join/join.go:198-231 | the probe phase emits exactly the rows with a probe record |
| JoinTable.PostRowsExact | modules/stream/join/join.go:252-272 | the post-probe phase emits exactly the rows of unprobed keys |
| JoinTable.HashJoinIsRelationalJoin | modules/stream/join/join.go:194-275 | both phases together emit every row of the relational join once and nothing else, in whatever order keys are visited |
| JoinBuild.StepInv | modules/stream/join/join.go:137-189 | every step of every reader and of the collector keeps the invariant on positions, statistics, messages and the limit |
| JoinBuild.BuildPhaseExact | modules/stream/join/join.go:125-192 | for every interleaving of a phase that finishes: an error exactly if a positive limit is exceeded; otherwise exact counts, all key errors reported, and each stream's keyed records in stream order |
| JoinBuild.ReadersLeave | modules/stream/join/join.go:137-178 | a reader returns exactly by finding its stream closed or by giving up after the cancellation; else it reads its stream to the end, also after an error |
| JoinBuild.ChannelIsBounded | modules/stream/join/join.go:132 | the merged channel never holds more than a hundred records for every build stream, and readers wait only when it does |
| JoinBuild.RunsAreBounded | modules/stream/join/join.go:137-189 | every run of the build phase ends |
| JoinBuild.BuildPhaseEndsIff | modules/stream/join/join.go:156-164 | as long as the limit is not exceeded, every run that cannot go on has finished if and only if the error channel has room for all key errors |
| JoinBuild.NoRoomNoEnd | modules/stream/join/join.go:156-164 | and if it has not, no run ever finishes |
| JoinKey.NumeralsAreDecimal | modules/stream/join/join.go:495-499 | digits are decimal, and a minus sign makes a number negative |
| JoinKey.UnsignedMeet | modules/stream/join/join.go:500-501 | unsigned integers meet exactly if they are equal |
| JoinKey.NilMeets | modules/stream/join/join.go:471-473 | nil is a key, which only nil meets |
| JoinKey.FloatsMeet | modules/stream/join/join.go:485-494 | a float has a key exactly if it is a 64-bit integer |
| JoinKey.OnlyFloatsFail | modules/stream/join/join.go:470-503 | every other value has a key |
| JoinKey.PrintedMeet | modules/stream/join/join.go:500-501 | values of other types meet exactly if they print the same |
| JoinKey.NumbersMeet | modules/stream/join/join.go:474-502 | two values that denote one 64-bit number, as integers, floats or numerals with sign and leading zeros, meet if and only if both or neither are unsigned integers |
| JoinKey.StringsMeet | modules/stream/join/join.go:495-499 | two strings meet if and only if they are equal or numerals of one 64-bit number |
| JoinKey.DifferentNumbersDoNotMeet | modules/stream/join/join.go:474-502 | values that denote different numbers do not meet |
| JoinKey.UnsignedMeetsString | modules/stream/join/join.go:495-502 | an unsigned integer meets a string if and only if that is its digits and it is beyond the range of signed integers |
| JoinKey.PrintedKeysAreTexts | modules/stream/join/join.go:495-502 | any other value meets a string if and only if it prints as that string and the string is no 64-bit numeral; it meets no integer |
| JoinMerge.ConstructJoinedRecord | modules/stream/join/join.go:335-361 | flat: every field comes from the last stream by name that has it; nested: every stream's record under its key |
| JoinMerge.BelowMeans | modules/stream/join/join.go:346-350 | one name comes before another if it is a proper prefix, or has the smaller character at the first difference |
| JoinMerge.LastNameWins | modules/stream/join/join.go:346-358 | a field that several streams have comes from the one whose name is last in that order |
| JoinMerge.FlatIsUnique | modules/stream/join/join.go:345-359 | the flat record is the same for every map order |
| JoinMerge.NestedIsUnique | modules/stream/join/join.go:337-344 | the nested record is the same for every map order if and only if streams with one nesting key have equal contents |
| JoinExec.CollectBuildMap | modules/stream/join/join.go:181-189 | groups the delivered records by key and stream in order, in new unmatched entries, none filed under two keys |
| JoinExec.GetCombinations | modules/stream/join/join.go:296-333 | the loops compute the combinations of the specification |
| JoinExec.EmitJoinedRecords | modules/stream/join/join.go:277-294 | sends the joined record of each combination, and counts them |
| JoinExec.MarkMatched | modules/stream/join/join.go:216-220 | flags every entry of the group |
| JoinExec.RunProbePhase | modules/stream/join/join.go:194-234 | waits for ever exactly if there are more key errors than room; otherwise all entries under a key share one flag, set exactly if the key was probed, and the probe rows are emitted with exact statistics |
| JoinExec.RunPostProbePhase | modules/stream/join/join.go:236-275 | visits exactly the unprobed keys, for right and outer joins, and emits their rows |
| Join.DeliveredIsTable | modules/stream/join/join.go:181-191 | what a finished build phase delivered groups into the table of the build streams |
| Join.TableIsTheSame | modules/stream/join/join.go:125-192 | any two finished runs of the build phase both fail, or deliver what groups into the same build map |
| Join.Perform | modules/stream/join/join.go:72-123 | for every finished build run: fails exactly above the limit, waits for ever exactly if there are more key errors than room, else sends each row of the relational join once, and records_joined and the other counts are exact |
| ManagedChannels.ManagedChannel.ReadersMove | internal/engine/channel_manager.go:44-48 | readers take messages in order and keep the channel's invariant |
| ManagedChannels.ManagedChannel.TrySend | internal/engine/channel_manager.go:199-205 | sends exactly if there is room or a waiting reader |
| ManagedChannels.ManagedChannel.TryDropOldest | internal/engine/channel_manager.go:213-215 | takes out the oldest buffered message, which alone is lost |
| ManagedChannels.ManagedChannel.Write | internal/engine/channel_manager.go:193-258 | which result each policy gives, with and without room, on a live and an ended context; what is kept and what is lost, and order kept, for all moves of the readers in between |
| ManagedChannels.ManagedChannel.WriteAll | internal/engine/channel_manager.go:247-256 | under the policy block, with a live context, any sequence of writes loses nothing: what was sent is kept in order |
| ManagedChannels.NewestIsEnqueued | internal/engine/channel_manager.go:207-240 | under drop_oldest the newest message is enqueued and both failures are unreachable, exactly if the channel has a buffer |
| ManagedChannels.Conservation | internal/engine/channel_manager.go:193-258 | written = delivered + buffered + lost |
| ChannelTopology.WithEdgeOk | internal/engine/channel_manager.go:117-144 | registering one edge keeps the four maps consistent |
| ChannelTopology.ChannelManager.CreateChannels | internal/engine/channel_manager.go:92-149 | fails exactly if an input names no task; otherwise one channel, one signal and one wait for every consumer edge |
| ChannelTopology.ChannelManager.SignalProducers | internal/engine/task_runner.go:140-147 | a consumer that returns is done once with each of its producers |
| ChannelTopology.ChannelManager.FindNodeByName | internal/engine/channel_manager.go:282-294 | a task with the name, if there is one |
| ChannelTopology.WaitsForEveryChannel | internal/engine/channel_manager.go:117-144 | at first a producer's count is the number of its consumer edges and of its channels |
| ChannelTopology.WaitEndsWithLastConsumer | internal/engine/task_runner.go:451-459 | given exact counts, none is negative and one is zero exactly when all consumers have returned |
| StreamRelease.ReturnsAreDistinct | internal/engine/task_runner.go:140-147 | over every run of the scheduler no task is executed to its end twice |
| StreamRelease.ReleaseProducers | internal/engine/task_runner.go:140-147 | so over every run no count goes negative, and a producer is released exactly when each of its consumers was executed to the end |
| StreamRelease.QuiescentReturns | internal/engine/engine.go:430-533 | at quiescence of a run that was not cut short, the tasks that returned are those that were dispatched |
| ChannelTopology.EveryChannelIsRead | internal/engine/channel_manager.go:144 | a channel is the one its consumer reads exactly if the edge is the consumer's last from that producer |
| ChannelTopology.ChannelsFollowGraph | internal/engine/channel_manager.go:104-147 | channels run along exactly the stream edges of the dependency graph |
| StreamFlow.StepInv | modules/passthrough/passthrough.go:54-108 | every step of streaming tasks, from dispatch to end, keeps the invariant on the work queue, what tasks wait for, channels and ends |
| StreamTotals.NothingIsLost | modules/passthrough/passthrough.go:54-108 | over every run, a task that passes records on and has ended has written to each output as many records as were written to all its inputs together |
| StreamTotals.SourcesSendAll | internal/engine/task_runner.go:328-333 | and a source all that it had to produce |
| StreamBlocks.StuckIsBlocked | internal/engine/task_runner.go:328-333 | a state that cannot go on has all its tasks ended if and only if no channel is full with a consumer that does not execute or reads other inputs first, and none is empty and open with a producer that has ended |
| StreamBlocks.SkippedProducerBlocks | internal/engine/task_runner.go:171-188 | a task that reads from a skipped one never ends |
| StreamBlocks.StagesComplete | internal/engine/engine.go:395-398 | with a worker for every task, streams within a stage (or to a later one over a channel that holds all their records) and state edges to later stages, whatever cannot go on has completed |
| StreamBlocks.EnoughWorkers | internal/engine/engine.go:395-398 | in particular where nothing is skipped, no task waits for a state and none is a join |
| StreamGates.ShutChannel | internal/engine/task_runner.go:409-415 | over a channel whose consumer comes to read it only after its producer's end, by a path through a state edge or as a join, no more records are ever written than it holds |
| StreamGates.ShutNeverCompletes | internal/engine/task_runner.go:409-415 | so a source with more records never ends, for every number of workers |
| StreamDispatch.DispatchIsAllowed | internal/engine/engine.go:437-476 | whatever the scheduler dispatches, the flow with the same progress can dispatch |
| StreamDispatch.DispatchIsSent | internal/engine/engine.go:782-810 | when nobody is signalling, the flow can dispatch exactly the undispatched tasks that wait on the ready channel |
| StreamPair.PairCompletesIff | internal/engine/task_runner.go:328-333 | one producer and one consumer, which may also wait for the producer's state, for every number of records, capacity, workers and choice of skipped tasks: if an explicit condition holds every run that cannot go on has both ended, otherwise no run ever has |
| StreamPair.GatedPair | internal/engine/dag.go:134-148 | a consumer that also waits for its producer's state: both end if and only if the channel holds all records, or both are skipped, whatever the workers |
| StreamDispatch.GatedIsAccepted | internal/engine/dag.go:119-157 | graph building accepts a two-task playbook in which the consumer also reads the producer's result, with the dependencies of that pair |
| StreamPair.DiamondCompletesIff | modules/stream/join/join.go:96-112 | a producer of both the probe and, through another task, a build stream of a join: with three workers all end if and only if the probe channel holds all its records |
| StreamPair.PairRunsAreBounded | modules/passthrough/passthrough.go:54-115 | every run of the pair has at most 5n + 6 steps |
| Passthrough.StepInv | modules/passthrough/passthrough.go:54-108 | every step of the readers and the writer keeps the invariant |
| Passthrough.PassesEverything | modules/passthrough/passthrough.go:54-115 | for every interleaving all outputs get one sequence, an order-preserving merge of the tagged inputs, and the count is the sum of their lengths |
| Passthrough.OutputsHoldInputs | modules/passthrough/passthrough.go:60-108 | in every output the k-th record with the source of an input is that input's k-th record, with the source field set and every other field as it was |
| Passthrough.RunsAreBounded | modules/passthrough/passthrough.go:54-115 | every run ends |
| Passthrough.NeverStuck | modules/passthrough/passthrough.go:54-115 | and only when it is finished |
| TaskLoop.ParallelismIsKept | internal/engine/task_runner.go:228-243 | in every state of every run at most the given number of iterations is in flight |
| TaskLoop.LoopResult | internal/engine/task_runner.go:228-272 | for every run that returns, its context ended or not: which items were launched, ran and were passed over, and whose error and summary is reported |
| TaskLoop.NoErrorMeans | internal/engine/task_runner.go:228-272 | no error is reported exactly if every item was launched and none that ran failed |
| TaskLoop.HiddenItems | internal/engine/task_runner.go:248-250 | without an error, items have not run exactly if some were passed over, and then the context has ended |
| TaskLoop.NothingRunNoError | internal/engine/task_runner.go:236-250 | every loop can return without an error and without having run any item |
| TaskLoop.UninterruptedLoop | internal/engine/task_runner.go:228-272 | if the context lasts every item is run once; an error exactly if one failed; skips are no failure |
| TaskLoop.NeverStuck | internal/engine/task_runner.go:228-272 | with a place to give, the loop can always go on until it returns |
| Retry.NextWait | internal/retry/retry.go:99-121 | the wait before the next attempt, with saturation, jitter, wrap-around and the cap |
| Retry.WaitIsDelay | internal/retry/retry.go:99-121 | without jitter the wait after the n-th attempt is the configured delay multiplied n - 1 times by the factor, in whole nanoseconds, up to the maximum |
| Retry.WaitIsJittered | internal/retry/retry.go:110-121 | with jitter it differs from that by the part that the generator chose, at most the jitter fraction of it |
| Retry.SettingsMean | internal/retry/retry.go:49-65 | settings out of range are taken to the nearest end, others kept |
| Retry.WaitInRange | internal/retry/retry.go:99-121 | without jitter a wait is in range exactly if the growth is not saturated or the overflow value is not negative; with jitter always |
| Retry.WaitsGrow | internal/retry/retry.go:99-108 | without jitter waits never get shorter below saturation |
| Retry.SaturationDefeatsMaxDelay | internal/retry/retry.go:105-121 | beyond it they are negative for good where overflow is |
| Retry.SaturationHappens | internal/retry/retry.go:99-108 | a concrete configuration that gets there |
| Retry.Do | internal/retry/retry.go:48-143 | the operation is called exactly up to the first success or the limit, nil is returned exactly on success, and which error otherwise, with or without cancellation |
| Redaction.SecretTracker.Add | internal/secrets/tracker.go:25-32 | tracks every string but the empty one |
| Redaction.SecretTracker.IsTracked | internal/secrets/tracker.go:36-44 | exact membership |
| Redaction.SecretTracker.ContainsTrackedSecret | internal/secrets/tracker.go:50-70 | true exactly if some tracked secret occurs in the input |
| Redaction.RedactRecursive | internal/template/redaction.go:23-80 | the result is the redacted value, and the flag true exactly if a string in it leaks |
| Redaction.RedactTrackedSecrets | internal/template/redaction.go:13-20 | the same at the top; no tracker, no change |
| Redaction.ShapeIsKept | internal/template/redaction.go:38-72 | the part at any path is the redacted part; the same paths exist |
| Redaction.StringsAt | internal/template/redaction.go:29-35 | a string at any place becomes the placeholder exactly if some secret is part of it, and else stays |
| Redaction.DirtyMeans | internal/template/redaction.go:29-35 | the flag says whether some path leads to a string with a secret in it |
| Redaction.CleanIsUnchanged | internal/template/redaction.go:38-80 | without a leak the value is unchanged exactly if it holds no nil map or slice |
| Redaction.ResultIsClean | internal/template/redaction.go:9 | the result leaks exactly if the value did and the placeholder itself does |
| Redaction.RedactingTwice | internal/template/redaction.go:23-80 | redacting again changes nothing |

## Left out

- YAML, schemas, versions, the command line, parameter getters and the module registry.
- Template parsing and execution: the variables of a task are an input; the simple-path branch of `Resolve` is `Lookup`.
- Logging, tracing, metrics, events, hooks, and writing task states into the state store.
- The wait for running tasks after the scheduling loop, and what its timeout adds to the outcome.
- Wall-clock time, timeouts and the stall ticker: the scheduler may stop at its select at any time, and the context may end at any time.
- The policies resolved in the first pass of graph building, and node objects: the fields of the nodes are maps keyed by task id.
- 32-bit wrap-around of the dependency counters and of the task counts.
- StreamBlocks.StagesComplete: a sufficient condition, as `ShutNeverCompletes` is one for never completing; exact ones are stated for each state (`StuckIsBlocked`), and in advance for a producer and its consumer (`PairCompletesIff`) and for a join fed twice (`DiamondCompletesIff`).
- SchedulerBreaks.CutShortIff: with less room in the work queue than there are tasks only one direction is claimed (`NoStateEdgesNoBreak`).
- How many records a join writes, in `StreamFlow`: any number for each record of its late input, and at its end.
- StreamRelease.ReleaseProducers: a worker that finds the context ended gives up its task without signalling its producers; it is not among the tasks executed to the end.
- The interleaving inside `Engine`'s methods: each runs alone there; the machine's runs interleave their steps.
- The reflection fallback of the deep copy: structs, arrays, typed maps and raw pointers.
- StateStore.Unflatten: where keys extend each other and their values disagree, what becomes of a leaf that several longer keys end in is not spelled out for every order.
- Locks of the state store: each method is one critical section.
- JoinRows.OrderOfStreamsIsIrrelevant: assumes that the records of a stream are distinct references, like every theorem that counts rows.
- Cancellation of the join and of passthrough, and fan-out to several outputs in the join: each output receives the one sequence sent.
- The order in which the post-probe phase visits keys: any order is allowed.
- JoinBuild.BuildPhaseEndsIff: when the limit is exceeded and there is no room for all key errors, which comes first depends on the interleaving, and nothing is claimed.
- Key extraction of the join is a function of the record; the template's view of the state is not modelled.
- JoinKey.NumbersMeet: floats are reals in the range of 64-bit integers; not-a-number, infinities and larger floats are left to the platform.
- Retry.WaitsGrow: real arithmetic, without the rounding of 64-bit floats.
- Closing channels, and what a looped task does to its streams: its outputs are closed once per iteration.
- The modules write to the raw channels, not through `Write`, as `internal/engine/task_runner.go:410-415` hands them out; the overflow policies are proved for writers that use `Write`.
- Records are values in passthrough: that all outputs get the same map, which a consumer could change, is not modelled.
- Keyword redaction of error texts and log lines.
- The command and exec modules, `from_list` and the test producer.
