# Verified model of the workflow engine

A Dafny model of the parts of this repository whose correctness is hardest to see, with proofs of
what they promise. `dafny verify dfyconfig.toml` checks everything.

## What is modelled

**The concurrent scheduler** (`DagState`, `DagInvariants`, `DagLog`, `DagRuns`, `DagTheorems`,
`DagCompletion`, `DagCoverage`, `DagTermination`, `DagScripts`, `DagLedger`, `DagRunner`).
`DAGRunner.run` is a state machine whose steps are the code between two awaits; replies of lease
stores, idempotency stores and executors arrive in any order, as does the timer. Each theorem
quantifies over every run, that is, over every interleaving. `DagScripts` and `DagLedger` read a run
off its replies alone: what each node may be told and when, and which results, stack, shared outputs
and events follow. `DagRunner.DagRun` is the same thing as an object with mutable fields; each of
its methods is one segment of the code and is proved to take exactly the specified step.

**The graph algorithms** (`Graphs`, `Kahn`, `TopologicalSort`, `Validator`, `EngineWalks`,
`CanvasGraph`). Kahn's sort as the engine and the canvas normalizer write it, the validator's
depth-first search, the editor's cycle listing, and the reachability walks of both packages. The
sort is characterized exactly, and the search is proved to agree with it.

**Running one node** (`Backoff`, `NodeExecution`) and **the sequential runner and saga coordinator**
(`SequentialRunner`, `Saga`): attempts, delays, bounded loops, last-in-first-out compensation, and
their agreement with the scheduler.

**Leases and duplicate events** (`NodeLease`, `LeaseHistory`, `EventDedup`): the lease protocol over
one Redis key with its section of probe, execution and mark, and the deduplicating bus with its
offset store, over all interleavings. **The circuit breaker** (`CircuitBreaker`) is proved to be a
function of the calls it has seen.

**Diffs** (`Json`, `GraphDiff`, `Sorting`, `GraphContract`, `GraphSummary`): the recursive JSON diff
with its string paths and the applier that walks them. **The editor's patches** (`CanvasPatch`,
`CanvasRoundTrip`, `CanvasClassify`, `CanvasMeaning`, `CanvasFields`, `CanvasSilence`,
`CanvasDiff`): the structural patch, when applying it works, and what its operations and its
classification say. **The editor's checksum** (`Checksum`, `GraphEquality`): the 32-bit rolling
hash, and the equality test built on it.

**Server-sent events** (`Sse`, `SseFrames`): the text the server prints against the client's
buffered parser.

`Seqs` holds facts about sequences.

## Conventions

Ids and keys are strings; the enumeration order of an object's keys is an arbitrary function
(`GraphDiff.IsOrder`), and `localeCompare` an arbitrary total preorder (`Sorting.TotalPreorder`).
Executors, clocks, `Math.random`, stores and hashes are parameters or actions of the environment. A
failed call or an exception is a value of a datatype. A JavaScript object is a map, so results are
stated up to key order.

## Where the code and its documentation differ

The model follows the code.

- Resuming from checkpoints is documented as skipping completed nodes. A node with a loaded
  checkpoint is dropped from the queue at `dag-runner.ts:316`, before the branch that would unlock
  its successors, so nothing on any path behind it runs (`DagCoverage.CheckpointBlocksDownstream`).
  Resuming does the rest of the work exactly when no saved node has an edge to an unsaved sorted
  node (`DagCoverage.ResumeCompletesIff`).
- A run whose lease was denied, or that paused, still closes with `execution.completed`
  (`DagCoverage.DeniedRunCompletesNothing`). The event means that the whole sort was done exactly
  when no sorted node was saved and none was denied or paused
  (`DagCoverage.CompletedIffNoneAbsent`).
- The error about a cycle is thrown only when no node at all can start
  (`DagRunner.ThrowsIffNoEntryNode`).
- The idempotency probe asks for attempt 1 and relies on the store to answer for any attempt. With a
  store that takes the question literally a success can be recorded twice, exactly when the first
  one was on a retry (`NodeLease.ExactStoreSafeIffFirstAttempt`).
- The idempotency key is documented to identify its tuple; it does exactly when none of the tuple's
  ids contains a pipe (`NodeLease.KeyIdentifiesIffPipeFree`).
- The release of a Redis lease is commented as a compare-and-delete; it is a read and then a delete.
  Exclusion, and every delete being the sender's own, hold exactly for holders bound to leave within
  the time to live (`NodeLease.ExclusiveIffWithinTtl`, `NodeLease.DeletesOwnIffWithinTtl`).
- The deduplicating bus is documented to skip what was processed. An event is handled at most once
  exactly when the store neither loses nor overlooks marks and either always answers or the bus
  fails closed (`EventDedup.CompletesOnceIffHarmless`). The default store swallows its own errors,
  so it acknowledges marks it lost and overlooks marks it holds: failing closed does not help there.
- Two subscriptions through one deduplicating wrapper share one consumer name, so of two handlers
  for one event only one runs (`EventDedup.OneHandlerPerEvent`).
- The editor's patch applier is documented to replay what the diff emits. Its path expressions never
  split off a field, so field operations change nothing, and an added field pushes a stray item
  (`CanvasRoundTrip.PatchRoundTripIff`).
- A patch can change something while the summary counts zero changes
  (`CanvasSilence.PatchIsSilentIff`).
- The saga coordinator promises a summary of what was compensated and what was not. A callback that
  throws puts an entry in both lists, or ends the walk with the stack uncleared
  (`Saga.ReportedOnceIff`, `Saga.WalkCompletesIff`).
- Under section 9.2.6 of the WHATWG HTML standard a text sent in several data lines arrives whole. The
  event parser loses newlines at its front and one at its end (`SseFrames.TextRoundTripIff`).
- `isGraphEqual` compares checksums of a canonical form. It says equal exactly when the hashes agree
  up to sign (`GraphEquality.IsGraphEqual`), which different graphs' hashes do
  (`GraphEquality.DifferentGraphsCalledEqual`, `GraphEquality.DroppedFieldsAreInvisible`).

## Model

| member | source | states |
|---|---|---|
| Kahn.BuildInDegreeMap | packages/workflow-engine/src/graph.ts:8-18 | The in-degree map holds, for every node id and every edge target, the number of edges into it, parallel edges counted |
| Kahn.BuildAdjacencyMap | packages/workflow-engine/src/graph.ts:9-18 | Each node id maps to the targets of its edges in edge order; an edge from an unknown source is dropped |
| Kahn.SeedQueue | packages/workflow-engine/src/graph.ts:20-23 | The queue starts with exactly the entry nodes, each once, in the order of the node list |
| Kahn.NewlyReadyMembers | packages/workflow-engine/src/graph.ts:31-35 | Taking a node queues exactly the nodes whose last pending edge came from it, each once, whatever the number of parallel edges |
| Kahn.NewlyReadyOrder | packages/workflow-engine/src/graph.ts:31-35 | Nodes that become ready together are queued in the order of the last edge from the taken node that names them |
| Kahn.RelaxUnlocks | packages/workflow-engine/src/graph.ts:31-35 | The decrement loop turns the counts of pending edges for a set of taken nodes into those for the set with one node more |
| Kahn.KahnStep | packages/workflow-engine/src/graph.ts:26-36 | One turn of the queue loop keeps: no id twice, sources before targets, and taken plus queued are exactly the nodes without pending edges |
| Kahn.KahnCharacterized | packages/workflow-engine/src/graph.ts:3-37 | The sort lists each id once, every source before its target, and exactly the nodes with no ancestor (itself included) that is missing or on a cycle |
| Kahn.FirstComeFirstServed | packages/workflow-engine/src/graph.ts:26-36 | First come, first served: the nodes ready after n have been taken are, together, the next ones of the order |
| Kahn.UnlistedHasBadAncestor | packages/workflow-engine/src/graph.ts:3-37 | Every node the sort leaves out has a witness: an ancestor that is no node of the graph or lies on a cycle |
| Kahn.KahnOmitsIffCyclic | packages/workflow-engine/src/graph.ts:3-37 | Without dangling edges the sort omits some node if and only if the graph has a cycle |
| TopologicalSort.TopologicalSort | packages/workflow-engine/src/graph.ts:3-37 | The mutable-map loop returns nodes of the graph whose ids are the specified order |
| EngineWalks.GetDownstreamNodes | packages/workflow-engine/src/graph.ts:65-89 | Lists exactly the nodes reached by a non-empty path over existing nodes, each as many times as edges lead into it from the start or a reached node; an edge leads to each from the start or from a node listed before it |
| EngineWalks.GetUpstreamNodes | packages/workflow-engine/src/graph.ts:39-63 | The same over the turned edges |
| EngineWalks.WalkFrom | packages/workflow-engine/src/graph.ts:70-88 | The recursive walk terminates on cyclic graphs and its listing, multiplicities and walking order included, is the one specified |
| EngineWalks.TwoWaysListTwice | packages/workflow-engine/src/graph.ts:65-89 | A node with two edges from reached nodes appears at least twice in the result |
| TopologicalSort.NormalizerSort | packages/workflow-canvas/src/normalizer.ts:88-122 | The normalizer's copy lists, besides the engine's order of nodes, exactly the dangling edge targets all of whose sources were sorted; no id twice |
| Validator.CycleSearch.HasCycle | packages/workflow-engine/src/validator.ts:67-81 | A true answer means the root of the call chain reaches a cycle; a false one leaves the id among those whose edges lead only to ids finished earlier |
| Validator.CycleSearch.Explore | packages/workflow-engine/src/validator.ts:71-80 | The body behind the two set tests, with the same contract |
| Validator.SearchCycles | packages/workflow-engine/src/validator.ts:83-93 | Reports nothing if no node reaches a cycle, otherwise the first listed node that does |
| Validator.CheckNodes | packages/workflow-engine/src/validator.ts:23-41 | The node findings, in node order, are the disconnected-node warnings and missing-type errors |
| Validator.CheckEdges | packages/workflow-engine/src/validator.ts:44-61 | The edge findings, in edge order, name every edge whose source or target is no node |
| Validator.ValidateWorkflow | packages/workflow-engine/src/validator.ts:11-96 | The findings are the node findings, the edge findings and at most one cycle finding, in this order |
| Validator.EdgesCleanIffNotDangling | packages/workflow-engine/src/validator.ts:44-61 | There is no edge finding if and only if every edge joins two existing nodes |
| Validator.NodeFindingsMeaning | packages/workflow-engine/src/validator.ts:23-41 | The node findings are exactly a warning for every node without any edge, if there is another node, and an error for every node without a type |
| Validator.EdgeFindingsMeaning | packages/workflow-engine/src/validator.ts:44-61 | The edge findings are exactly an invalid source for every edge from no node and an invalid target for every edge to no node |
| Validator.ValidatorAgreesWithKahn | packages/workflow-engine/src/validator.ts:63-93 | Without dangling edges the depth-first search reports a cycle exactly when the queue-based sort omits some node |
| Validator.ValidGraphSortsCompletely | packages/workflow-engine/src/validator.ts:11-96 | A graph without error findings is sorted completely: a permutation of its node ids with every edge pointing forward |
| Validator.ValidIffTypedAndSorted | packages/workflow-engine/src/validator.ts:11-96 | Validation reports no error if and only if every node has a type, no edge dangles and the sort takes the whole graph |
| DagRunner.Start | packages/workflow-engine/src/dag-runner.ts:88-134 | run throws if and only if the sort is empty and the graph is not; otherwise the run object starts in the initial state |
| DagRunner.ThrowsIffNoEntryNode | packages/workflow-engine/src/dag-runner.ts:88-93 | The sort is empty exactly when every node has an incoming edge, so a partly cyclic graph still runs |
| DagRunner.DagRun.constructor | packages/workflow-engine/src/dag-runner.ts:72-137 | Checkpoint outputs loaded, counts and adjacency built, entry nodes queued: the initial state of the state machine |
| DagRunner.DagRun.Turn | packages/workflow-engine/src/dag-runner.ts:302-328 | From the loop guard to the next await the object reaches the state the steps of the state machine lead to |
| DagRunner.DagRun.Guard | packages/workflow-engine/src/dag-runner.ts:302-307 | The loop guard and the abort test take exactly the specified step |
| DagRunner.DagRun.Admit | packages/workflow-engine/src/dag-runner.ts:315-321 | Shifting the queue head and starting the node up to its first await is one step |
| DagRunner.DagRun.LeaveInnerLoop | packages/workflow-engine/src/dag-runner.ts:324-327 | Leaving the admission loop breaks off or waits, exactly as specified |
| DagRunner.DagRun.UnlockDownstream | packages/workflow-engine/src/dag-runner.ts:880-898 | Decrements every neighbour, queues those that reach zero and are nodes, and does nothing once the run has failed |
| DagRunner.DagRun.OnLease | packages/workflow-engine/src/dag-runner.ts:145-181 | A denied lease ends the node, a granted one leads to the skip, the probe or the execution |
| DagRunner.DagRun.OnProbe | packages/workflow-engine/src/dag-runner.ts:190-197 | A store hit leads to fetching the output, a miss to execution |
| DagRunner.DagRun.OnOutput | packages/workflow-engine/src/dag-runner.ts:198-226 | The skip path records the stored output, pushes a skipped result and unlocks downstream |
| DagRunner.DagRun.OnExecuted | packages/workflow-engine/src/dag-runner.ts:230-275 | Paused, failed and succeeded nodes take their own branch |
| DagRunner.DagRun.OnMarked | packages/workflow-engine/src/dag-runner.ts:275-296 | After the completion mark the saga entry is pushed and downstream unlocked |
| DagRunner.DagRun.OnReleased | packages/workflow-engine/src/dag-runner.ts:297-298 | Releasing the lease takes the node out of the in-flight set |
| DagRunner.DagRun.OnSettled | packages/workflow-engine/src/dag-runner.ts:318-321 | A settled promise leaves the active map and wakes a waiting loop |
| DagRunner.DagRun.OnDrained | packages/workflow-engine/src/dag-runner.ts:330-361 | After the drain the run compensates or closes |
| DagRunner.DagRun.OnCompensated | packages/workflow-engine/src/dag-runner.ts:782-838 | One iteration of the last-in-first-out rollback; a failing compensation emits no compensated event and does not stop it |
| DagRuns.RunInvariant | packages/workflow-engine/src/dag-runner.ts:119-361 | The scheduler's invariants hold in every state of every interleaving |
| DagInvariants.CoreStep | packages/workflow-engine/src/dag-runner.ts:119-328 | Every step keeps: counts match the locked edges, taken and ready ids are distinct and are exactly the nodes without locked edges, in-flight ids are the started unsettled ones, and the limit holds |
| DagLog.LogStep | packages/workflow-engine/src/dag-runner.ts:158-296 | Every step keeps: one result per id, saga entries are the recorded successes in dependency order, shared outputs are the results' outputs |
| DagRuns.ModeStep | packages/workflow-engine/src/dag-runner.ts:302-361 | Every step keeps the relation between the loop's position, the failure flag and the events emitted |
| DagTheorems.InDegreesCountLockedEdges | packages/workflow-engine/src/dag-runner.ts:862-898 | In every interleaving the local in-degree of v is the number of edges into v, parallel ones counted, whose source is not unlocked |
| DagTheorems.TakenOnceAfterPredecessors | packages/workflow-engine/src/dag-runner.ts:301-328 | Each node is admitted at most once per run, and only after every predecessor ended in success or was skipped |
| DagTheorems.NothingTakenAfterFailure | packages/workflow-engine/src/dag-runner.ts:139-142 | Once the failure flag is set nothing more is taken from the queue and no node starts |
| DagTheorems.NothingTakenAfterTimeout | packages/workflow-engine/src/dag-runner.ts:302-328 | Once the timer has fired nothing more is taken, whatever still runs |
| DagTheorems.NoIdleCapacity | packages/workflow-engine/src/dag-runner.ts:309-328 | The loop goes to sleep only when nothing is ready or the limit is used up, and only while something runs |
| DagTheorems.ParallelLimit | packages/workflow-engine/src/dag-runner.ts:309-313 | With a positive limit the active set never exceeds it |
| DagTheorems.RollbackIsComplete | packages/workflow-engine/src/dag-runner.ts:277-346 | A run that failed or timed out with the saga on has compensated exactly the nodes that succeeded in it, drain included, once each, every target before its source, whatever each compensation returned |
| DagTheorems.NoRollbackOtherwise | packages/workflow-engine/src/dag-runner.ts:338-346 | A run that did not fail, or has the saga off, compensates nothing |
| DagTheorems.OneClosingEvent | packages/workflow-engine/src/dag-runner.ts:348-361 | Exactly one closing event is emitted, it is the last event, and it says whether the run failed and why |
| DagTheorems.GatherLastWriter | packages/workflow-engine/src/dag-runner.ts:844-860 | Each gathered key takes the value of its last writer in shared-state order, or the trigger's when nobody wrote it |
| DagTheorems.InputCoversAncestors | packages/workflow-engine/src/dag-runner.ts:262-263 | While a node executes, its gathered input has every key of every ancestor's recorded output |
| DagCoverage.ReachInvariant | packages/workflow-engine/src/dag-runner.ts:145-321 | In every interleaving of an unfailed run each taken node is on its way, recorded as success or skipped, stopped by a denial or a pause, or dropped for its checkpoint; the recorded ones are unlocked or being marked |
| DagCoverage.UnclearedBlocksDownstream | packages/workflow-engine/src/dag-runner.ts:862-898 | As long as a node has no success or skipped result, nothing on any path behind it is taken |
| DagCoverage.CheckpointBlocksDownstream | packages/workflow-engine/src/dag-runner.ts:316 | A node with a loaded checkpoint gets no result, and nothing on any path behind it is ever taken |
| DagCoverage.StoppedNodeBlocksDownstream | packages/workflow-engine/src/dag-runner.ts:145-246 | A node whose lease was denied or that paused is never recorded as success, and nothing on any path behind it is ever taken |
| DagCoverage.TakenIffPredecessorsCleared | packages/workflow-engine/src/dag-runner.ts:301-328 | A finished unfailed run has taken exactly the nodes all of whose predecessors ended in success or were skipped |
| DagCoverage.ClearedIffNoneAbsentAbove | packages/workflow-engine/src/dag-runner.ts:119-361 | A finished unfailed run, resumed or not, in any interleaving, has done exactly the sorted nodes that no saved, denied or paused node reaches, themselves included |
| DagCoverage.CompletedIffNoneAbsent | packages/workflow-engine/src/dag-runner.ts:348-361 | An unfailed run always closes with execution.completed; it has done the whole sort if and only if no sorted node was saved and none was denied its lease or paused (and the limit is not negative, unless there was nothing to do) |
| DagCoverage.ResumeCompletesIff | packages/workflow-engine/src/dag-runner.ts:157-181 | With nothing denied, paused, failing or timed out, a resumed run does exactly the unsaved part of the sort if and only if no saved node has an edge to an unsaved sorted node, which a caller can check beforehand |
| DagCoverage.DeniedRunCompletesNothing | packages/workflow-engine/src/dag-runner.ts:150-155 | For every graph with a single entry node: one denied lease, and the run closes with execution.completed without a single result |
| DagCoverage.NegativeLimitTakesNothing | packages/workflow-engine/src/dag-runner.ts:309-313 | With a negative limit nothing is ever taken |
| DagCompletion.GoodRunCompletes | packages/workflow-engine/src/dag-runner.ts:87-93 | With no checkpoints, denials, pauses, failures or timeout, a finished run has exactly one result per sorted node, each success or skipped, and closes with execution.completed |
| DagCompletion.LimitOneIsSequential | packages/workflow-engine/src/dag-runner.ts:309-322 | With a limit of one, such a run records its results in exactly the sort's order |
| DagTermination.RunsAreBounded | packages/workflow-engine/src/dag-runner.ts:119-361 | For every graph, cyclic or not, a run takes at most 11 steps per node and 6 more |
| DagTermination.NeverStuck | packages/workflow-engine/src/dag-runner.ts:302-361 | Until it has ended a run can always take a step other than the timer's |
| DagTermination.StepDecreases | packages/workflow-engine/src/dag-runner.ts:119-361 | Every step lowers the run's measure |
| DagScripts.NodeSpeaksInOrder | packages/workflow-engine/src/dag-runner.ts:145-298 | In every interleaving the replies for one node are a prefix of one of three scripts: denied; hit and output; or miss, execution and, for a success with a store, the mark |
| DagScripts.FinishedRunsSpokeWhole | packages/workflow-engine/src/dag-runner.ts:145-298 | In a finished run every node taken and not saved has been through a whole script, and no other node has spoken |
| DagScripts.ExecutesOnlyAfterMiss | packages/workflow-engine/src/dag-runner.ts:190-230 | With an idempotency store a node executes only behind a probe that missed, and a node whose probe hit never executes |
| DagLedger.BookInvariant | packages/workflow-engine/src/dag-runner.ts:119-361 | Results, saga stack, shared outputs, failure and events of every state are read off the replies received so far, in their order |
| DagLedger.RecordedIff | packages/workflow-engine/src/dag-runner.ts:198-270 | A node is recorded as skipped with an output if and only if its probe hit and that output was fetched, and with any other status if and only if an execution returned that status and output |
| DagLedger.EventsExactly | packages/workflow-engine/src/dag-runner.ts:232-361 | All a finished run ever emitted: a dead letter per failure in order, the announced rollback of everything done, last first, as each handler answered, and one closing event naming the last node to fail, or the timeout when none did |
| DagLog.SetSharedAt | packages/workflow-engine/src/dag-runner.ts:262-263 | An id whose output is set again keeps its place in the shared state |
| NodeExecution.NodeRun.ExecuteWithRetries | packages/workflow-engine/src/dag-runner.ts:551-665 | Stops at the first success or the last attempt; events, checkpoints, sleeps, executor calls and the returned outcome are those of the attempts 1 to k; a failure carries the last attempt's error |
| NodeExecution.NodeRun.Attempt | packages/workflow-engine/src/dag-runner.ts:579-640 | One attempt: started event, running checkpoint, one executor call, the checkpoint resolved, completed or failed event |
| NodeExecution.NodeRun.Resolve | packages/workflow-engine/src/dag-runner.ts:594-639 | A checkpoint is updated only while it is running, hence at most once |
| NodeExecution.AttemptsAreConsecutive | packages/workflow-engine/src/dag-runner.ts:574-584 | The attempts announced by a retry sequence are 1 to k in order |
| NodeExecution.CompletesLast | packages/workflow-engine/src/dag-runner.ts:591-612 | A retry sequence completes at most once, with its last event, and only when its last attempt succeeded |
| NodeExecution.TraceIs | packages/workflow-engine/src/dag-runner.ts:574-653 | The whole trace of a sequence, event by event: each attempt but the last is started, failed with its own error and announces the next with its computed delay; the last is started and completes or fails |
| NodeExecution.SleepsAsAnnounced | packages/workflow-engine/src/dag-runner.ts:642-652 | What a finished sequence sleeps in all is the sum of the delays its events announce |
| NodeExecution.AnnouncedDelays | packages/workflow-engine/src/dag-runner.ts:642-652 | Every announced delay lies between 0 and round(maxDelayMs * (1 + jitter)); without jitter and with a factor of at least 1 later delays are not smaller |
| NodeExecution.SleepBound | packages/workflow-engine/src/dag-runner.ts:642-652 | The sleeps between k attempts together are at most k - 1 times that bound |
| NodeExecution.NodeRun.ExecuteBoundedLoop | packages/workflow-engine/src/dag-runner.ts:671-779 | Invalid or over-cap limits fail with one event, no executor call and no sleep; otherwise iterations stay within limit and cap, stop at the first stopping output, and events, calls and sleeps are those of the retry sequences run: at most min(maxIterations, cap) * maxAttempts calls, and per iteration at most maxAttempts - 1 bounded sleeps |
| NodeExecution.LoopCallBound | packages/workflow-engine/src/dag-runner.ts:671-779 | The executor calls of an admissible loop are at most min(maxIterations, cap) * maxAttempts, a fractional limit rounded up |
| NodeExecution.LoopSleepBound | packages/workflow-engine/src/dag-runner.ts:671-779 | All sleeps between attempts, over all iterations, are together at most iterations * (maxAttempts - 1) times the bound of one delay |
| Backoff.DelaysNeverShrink | packages/workflow-engine/src/types.ts:135-144 | With factor at least 1 and no jitter the delays are non-decreasing in the attempt |
| Backoff.DelayBounds | packages/workflow-engine/src/types.ts:135-144 | Every delay lies between its unjittered value and round(maxDelayMs * (1 + jitter)) |
| Backoff.FirstDelay | packages/workflow-engine/src/types.ts:139-143 | The first delay is the initial one, capped, jittered and rounded |
| Backoff.NextDelay | packages/workflow-engine/src/types.ts:139-143 | Every further delay is the one before it, of the policy whose initial delay is multiplied by the factor: growth is exponential |
| NodeLease.KeyIdentifiesIffPipeFree | packages/workflow-engine/src/types.ts:270-279 | A (workflow, run, node, attempt) tuple is identified by its key among all tuples if and only if none of its three ids contains a pipe |
| SequentialRunner.RunNode | packages/workflow-engine/src/runner.ts:63-81 | Attempts stop at the first success or run out; the kept result is the last reply that was not a throw, and the next input changes only on success |
| SequentialRunner.RecordedIff | packages/workflow-engine/src/runner.ts:63-99 | A result is recorded as replied if and only if it was the last reply before attempts that only threw, and no failure; anything else becomes an empty failure |
| SequentialRunner.Run | packages/workflow-engine/src/runner.ts:30-103 | Results follow the sort order, each from its node and input, and the run stops short only behind a failed node |
| SequentialRunner.ReliableRunIsComplete | packages/workflow-engine/src/runner.ts:30-103 | If every node succeeds within its attempts the results are the whole sort, and each node is given its predecessor's output |
| SequentialRunner.RunnersAgree | packages/workflow-engine/src/runner.ts:30-103 | One node at a time and nothing failing, the concurrent runner records the same ids in the same order as this one |
| SequentialRunner.PredecessorsCameFirst | packages/workflow-engine/src/runner.ts:41-100 | Whoever is recorded has all its predecessors recorded before it, none of them failed |
| Saga.SagaCoordinator.Undo | packages/workflow-engine/src/saga.ts:56-92 | Calls the first executor that handles the compensation type, by compensate or by execute, and catches its error |
| Saga.UndoneByFirst | packages/workflow-engine/src/saga.ts:53-83 | The only call for an entry goes to the first executor of its compensation type, through compensate if it has one and otherwise through execute, and its error is the entry's |
| Saga.FailuresSay | packages/workflow-engine/src/saga.ts:84-90 | A failure is reported if and only if some visit met exactly that error, from its call or from the first callback |
| Saga.SagaCoordinator.CompensateAll | packages/workflow-engine/src/saga.ts:43-96 | Walks the stack last pushed first; no failing step ends the walk, an error thrown by onFailed does; lists and calls are those of the visits made, and the stack is emptied, or left as it was when an error escaped |
| Saga.ReportedOnceIff | packages/workflow-engine/src/saga.ts:76-91 | An id is reported as often as it was visited if and only if onCompensated never threw behind a step of it that worked; otherwise it is in both lists |
| Saga.WalkCompletesIff | packages/workflow-engine/src/saga.ts:51-95 | Every entry is visited and the stack ends empty if and only if onFailed never throws where it is called |
| Saga.NothingIsLost | packages/workflow-engine/src/saga.ts:48-95 | In a complete walk the ids pushed and the ids reported are the same, with the same multiplicity, but for the ids reported twice |
| Saga.LaterPushedFirst | packages/workflow-engine/src/saga.ts:51-86 | Of two compensated entries the one pushed later is reported first |
| Saga.RollbackAgrees | packages/workflow-engine/src/saga.ts:43-96 | The coordinator and the runner's own rollback compensate the same nodes in the same order |
| NodeLease.RedisLeaseStore.TrySet | packages/workflow-engine/src/node-lease.ts:120-122 | SET NX PX is the protocol's step on key and clock, granted exactly when that step lets the caller in |
| NodeLease.RedisLeaseStore.ReadBack | packages/workflow-engine/src/node-lease.ts:136 | The read before a delete is the protocol's step: it remembers whether a live value of the caller's was stored |
| NodeLease.RedisLeaseStore.Delete | packages/workflow-engine/src/node-lease.ts:137 | The delete is the protocol's step: decided by the earlier read, whatever is stored by now |
| LeaseHistory.GrantedIffNoneStands | packages/workflow-engine/src/node-lease.ts:112-131 | In every run, timely or not, a request is granted if and only if no earlier grant stands: each one's time to live is over or a delete was sent after it |
| LeaseHistory.MineIffOwnGrantStands | packages/workflow-engine/src/node-lease.ts:135-137 | The read before a release answers mine if and only if a grant to the reader's own worker stands |
| LeaseHistory.LeaseCountsFromRequest | packages/workflow-engine/src/node-lease.ts:115-131 | Whoever is inside holds a lease that runs out one time to live after its request was sent, not after the grant |
| LeaseHistory.ExecutesIffUnmarked | packages/workflow-engine/src/dag-runner.ts:183-197 | The probe lets its activation execute if and only if no attempt the store answers for was marked before, and what is marked is an attempt on which the marking activation succeeded |
| NodeLease.LeaseInvariant | packages/workflow-engine/src/node-lease.ts:112-140 | While holders stay within their lease, whoever is inside set the live value, under any interleaving of set, get, delete and time |
| NodeLease.AtMostOneHolder | packages/workflow-engine/src/node-lease.ts:112-140 | If every holder finishes its release before its lease runs out, at most one activation is inside at any time |
| NodeLease.ReleaseDeletesOwnLease | packages/workflow-engine/src/node-lease.ts:134-138 | Under the same condition no release deletes another holder's lease, although it is two steps |
| NodeLease.OverstayingBreaksExclusion | packages/workflow-engine/src/node-lease.ts:112-140 | For every time to live and any workers: a holder that outlives its lease lets a second one in, and its delete removes the second one's live lease while that one is inside |
| NodeLease.ExclusiveIffWithinTtl | packages/workflow-engine/src/node-lease.ts:112-140 | With a bound on the time between asking for the lease and leaving: no two activations are ever inside together if and only if the bound is at most the time to live |
| NodeLease.DeletesOwnIffWithinTtl | packages/workflow-engine/src/node-lease.ts:134-138 | With such a bound every delete removes the sender's own live lease if and only if the bound is at most the time to live |
| NodeLease.LeaseKeyIdentifiesIff | packages/workflow-engine/src/node-lease.ts:162-164 | An (execution, node) pair is identified by its lease key among all pairs if and only if neither part carries a colon |
| NodeLease.LeaseKeyInjective | packages/workflow-engine/src/node-lease.ts:162-164 | Among executions whose ids carry no colon, different pairs use different keys |
| NodeLease.InMemoryLeaseStore.Acquire | packages/workflow-engine/src/node-lease.ts:40-76 | A store never refuses its own worker: every acquire is granted and overwrites the record |
| NodeLease.InMemoryLeaseStore.Release | packages/workflow-engine/src/node-lease.ts:69-74 | Removes the record of its key |
| NodeLease.InMemoryLeaseStore.Cleanup | packages/workflow-engine/src/node-lease.ts:79-84 | Removes exactly the expired records |
| NodeLease.SuccessRecordedAtMostOnce | packages/workflow-engine/src/dag-runner.ts:145-298 | With any number of runners on one node, a lease never outlived, a store that answers for any completed attempt and no death between success and mark, the success is recorded at most once in every interleaving |
| NodeLease.RecordsOnceIffWithinTtl | packages/workflow-engine/src/dag-runner.ts:145-298 | With a store that answers for any attempt and no death before the mark, the success is recorded once in all runs within a bound if and only if the bound is at most the time to live |
| NodeLease.ExactStoreRecordsOnce | packages/workflow-engine/src/dag-runner.ts:183-196 | A store that answers only for attempt 1 still keeps the success single, in every timely run without a lost record whose first success was on attempt 1 |
| NodeLease.ExactStoreRecordsTwice | packages/workflow-engine/src/dag-runner.ts:183-196 | Whatever the time to live and the workers, such a store lets a success on attempt n be recorded twice, for every n from 2 |
| NodeLease.ExactStoreSafeIffFirstAttempt | packages/workflow-engine/src/dag-runner.ts:183-196 | With such a store all timely runs without a lost record whose first success is on attempt n record it once if and only if n is 1 |
| NodeLease.ExactStoreSafeIffOneAttempt | packages/workflow-engine/src/dag-runner.ts:183-196 | For a caller: with such a store and at most m attempts per node the success is recorded once in all timely runs without a lost record if and only if m is 1 |
| NodeLease.DeathBeforeMarkRecordsTwice | packages/workflow-engine/src/dag-runner.ts:238-275 | Every timely run whose first success dies before its mark goes on to a second success, on any attempt and with either store |
| NodeLease.DeathCanStrike | packages/workflow-engine/src/dag-runner.ts:238-275 | Runs in which the first success dies before its mark exist for every time to live, worker assignment and store |
| Json.DeepEqualReflexive | packages/workflow-engine/src/graph-contract.ts:258-278 | Every value is deeply equal to itself |
| Json.DeepEqualIsEquality | packages/workflow-engine/src/graph-contract.ts:258-278 | Between values with no array facing an object at a shared path the comparison is equality |
| Json.DeepEqualConfusesKinds | packages/workflow-engine/src/graph-contract.ts:258-278 | An array passes for the object with its index keys, and an object with a length key for an array, the latter in one direction only |
| Json.SegmentsAppend | packages/workflow-engine/src/graph-contract.ts:445 | Splitting a joined path gives the segments of its parts in order |
| GraphDiff.FindOpsParse | packages/workflow-engine/src/graph-contract.ts:336-386 | For non-empty slash-free keys the printed paths of all operations parse back to the key paths they came from |
| GraphDiff.OpsArePrefixFree | packages/workflow-engine/src/graph-contract.ts:336-386 | No operation's path is at or below another's |
| GraphDiff.DeepPatchedReaches | packages/workflow-engine/src/graph-contract.ts:336-386 | What the operations make of a value equals the target exactly when the pair is reproducible: no array faces an object where the search descends and no unreported difference remains |
| GraphDiff.SameKindsReproduce | packages/workflow-engine/src/graph-contract.ts:336-386 | Values of the same kinds at every shared path are always reproducible |
| GraphDiff.FindOpsSay | packages/workflow-engine/src/graph-contract.ts:336-386 | Each operation found adds what only the target has, removes what only the source has, or replaces a value that is not deeply equal, by the target's |
| GraphDiff.OpsPatchField | packages/workflow-engine/src/graph-contract.ts:444-484 | Applying the operations found for a field changes that field as specified and leaves every other field alone |
| GraphDiff.PatchRoundTripIff | packages/workflow-engine/src/graph-contract.ts:336-386 | Applying the operations found turns one value into the other if and only if the pair is reproducible (sections 4.1 to 4.3 of RFC 6902) |
| GraphDiff.SlashKeyIsLost | packages/workflow-engine/src/graph-contract.ts:366-377 | A key with a slash: the change is lost (section 3 of RFC 6901 without its escapes) |
| GraphDiff.EmptyKeyOverwritesParent | packages/workflow-engine/src/graph-contract.ts:366-377 | An empty key: the parent itself is overwritten |
| GraphContract.ApplyDiff | packages/workflow-engine/src/graph-contract.ts:438-507 | The loop applies the operations in order; it throws exactly when they left no metadata to stamp |
| GraphContract.RoundTripFields | packages/workflow-engine/src/graph-contract.ts:438-507 | Field by field, what applying a computed diff returns |
| GraphContract.OtherFieldsStay | packages/workflow-engine/src/graph-contract.ts:438-507 | Fields other than nodes, edges, metadata, version and checksum come back unchanged |
| GraphContract.DiffRoundTripIff | packages/workflow-engine/src/graph-contract.ts:388-507 | Applying the computed diff agrees with the target on id-sorted nodes, edges, version and all metadata but the two stamped fields, if and only if the comparison is not confused |
| GraphContract.DiffRoundTrip | packages/workflow-engine/src/graph-contract.ts:388-507 | In particular always when no array faces an object at a shared path |
| GraphContract.SelfDiffIsEmpty | packages/workflow-engine/src/graph-contract.ts:388-436 | A graph has no operations against itself |
| GraphSummary.SummaryMatchesPatch | packages/workflow-engine/src/graph-contract.ts:392-420 | For unique ids, no node operation is emitted exactly when no node is listed as added, removed or modified |
| GraphSummary.SummaryLists | packages/workflow-engine/src/graph-contract.ts:392-428 | Added are the ids only the target has, removed those only the source has, modified those of target nodes whose first source node is not deeply equal, each in its list's order; edgesChanged if and only if the sorted edge lists are not deeply equal |
| Sorting.SortTwice | packages/workflow-engine/src/graph-contract.ts:417-418 | Sorting by id is idempotent: the sort is stable |
| Sorting.SortMembers | packages/workflow-engine/src/graph-contract.ts:417-418 | Sorting loses, doubles and invents nothing |
| CanvasGraph.BuildAdjacency | packages/workflow-canvas/src/graph.ts:91-95 | Each source maps to its targets in edge order; keys come in order of first appearance |
| CanvasGraph.CycleFinder.Dfs | packages/workflow-canvas/src/graph.ts:100-113 | Keeps that every listed cycle is genuine, and that without their closing edges every finished id leads only to ids finished before it |
| CanvasGraph.DetectCycles | packages/workflow-canvas/src/graph.ts:90-116 | Every list returned is a simple cycle closed by its first node, and without the closing edges of the lists returned no cycle is left, so every cyclic part is reported and the result is empty if and only if the relation is acyclic |
| CanvasGraph.GetDownstreamNodes | packages/workflow-canvas/src/graph.ts:118-140 | Without repeats, exactly the ids reachable by a non-empty path, each behind the start or an id that leads to it; the recursion terminates on cyclic graphs |
| CanvasGraph.GetUpstreamNodes | packages/workflow-canvas/src/graph.ts:142-164 | Without repeats, exactly the ids from which a non-empty path leads here, each behind the start or an id it leads to |
| CanvasPatch.ComputeGraphPatch | packages/workflow-canvas/src/json-patch.ts:66-128 | The patch is the removals, additions and field differences of nodes, then of edges |
| CanvasPatch.ComputeKindPatch | packages/workflow-canvas/src/json-patch.ts:80-105 | One kind's three loops |
| CanvasPatch.ApplyPatch | packages/workflow-canvas/src/json-patch.ts:138-149 | The loop applies the operations in order |
| CanvasRoundTrip.PatchRoundTripIff | packages/workflow-canvas/src/json-patch.ts:66-221 | Applying the computed patch gives the target's id-to-node and id-to-edge maps if and only if every shared id already carries the same item |
| CanvasRoundTrip.KindReaches | packages/workflow-canvas/src/json-patch.ts:80-94 | When shared ids agree, removing and adding whole items reaches the target map |
| CanvasRoundTrip.KindMisses | packages/workflow-canvas/src/json-patch.ts:151-221 | When a shared id differs, the result's map is wrong: field operations are matched as whole-item ones and never repair it |
| CanvasRoundTrip.SameFields | packages/workflow-canvas/src/json-patch.ts:437-518 | Only the listed fields are compared: items that differ elsewhere produce no operation |
| CanvasRoundTrip.PatchSplits | packages/workflow-canvas/src/json-patch.ts:151-221 | Each of the two lists is changed only by the operations on its own kind of path |
| CanvasClassify.GroupOps | packages/workflow-canvas/src/json-patch.ts:264-281 | Operations are grouped by the first segment behind the prefix, in order of first appearance |
| CanvasClassify.ClassifyPatch | packages/workflow-canvas/src/json-patch.ts:249-419 | The changes are those of the node groups, then of the edge groups |
| CanvasClassify.PatchIsExact | packages/workflow-canvas/src/json-patch.ts:66-128 | The computed patch adds exactly the new ids and removes exactly the gone ones |
| CanvasClassify.EachIsReported | packages/workflow-canvas/src/json-patch.ts:285-314 | Every new id is reported added and every gone one removed |
| CanvasClassify.CountsAreConserved | packages/workflow-canvas/src/json-patch.ts:249-419 | The added and removed counts are the numbers of new and gone ids, so old size plus added minus removed is the new size, for nodes and edges |
| CanvasClassify.CountsAddUp | packages/workflow-canvas/src/diff.ts:93-112 | The nine counts of the summary add up to its total |
| CanvasMeaning.KeptOps | packages/workflow-canvas/src/json-patch.ts:249-281 | The operations grouped under a kept id are exactly those of its own comparison |
| CanvasFields.KeptItemIsBrought | packages/workflow-canvas/src/json-patch.ts:437-588 | An operation is in the patch for a kept item if and only if, at a place where the two versions differ, it brings the value the target has there, or removes what the target does not have |
| CanvasFields.ChangesListOperations | packages/workflow-canvas/src/json-patch.ts:316-368 | All changes shown for a kept node carry its id, and per type they list exactly the paths of the operations of that type, in order |
| CanvasMeaning.KeptNodeIsDescribed | packages/workflow-canvas/src/json-patch.ts:316-368 | A kept node is shown renamed, retyped, moved or reconfigured if and only if that part differs, configuration in a single entry |
| CanvasMeaning.KeptEdgeIsDescribed | packages/workflow-canvas/src/json-patch.ts:399-416 | A kept edge is shown rewired, once, if and only if an end or a handle differs |
| CanvasPatch.KeysCountIff | packages/workflow-canvas/src/json-patch.ts:66-80 | There are as many ids as items if and only if every item has an id of its own |
| CanvasSilence.NothingShownIff | packages/workflow-canvas/src/json-patch.ts:249-419 | The semantic diff is empty, its total zero, if and only if no id came or went, no kept node differs in name, type, position or configuration and no kept edge in an end or handle |
| CanvasSilence.PatchEmptyIff | packages/workflow-canvas/src/json-patch.ts:66-128 | The patch is empty if and only if no id came or went and no listed field of a kept item differs |
| CanvasSilence.PatchIsSilentIff | packages/workflow-canvas/src/json-patch.ts:249-419 | A patch with operations has an empty semantic diff exactly when nothing shown differs but some other listed field does, such as handles, policies or a condition |
| CanvasDiff.CountChanges | packages/workflow-canvas/src/diff.ts:94-111 | The length of the filtered list |
| CanvasDiff.ComputeFullDiff | packages/workflow-canvas/src/diff.ts:83-126 | Patch, changes and summary belong together; for printable ids the summary accounts for the difference in the number of ids, and in the number of items when no id is used twice |
| CanvasDiff.BuildLegacyChanges | packages/workflow-canvas/src/diff.ts:284-368 | The older list is the specified translation of the semantic one, in order |
| CanvasDiff.LegacyIff | packages/workflow-canvas/src/diff.ts:284-368 | The older list has exactly the entries that stand for some change, edges shown as they are in the graph they belong to |
| CanvasDiff.LegacyConservesEdges | packages/workflow-canvas/src/diff.ts:333-364 | The older list, with rewiring as a removal and an addition, conserves edges as well |
| CanvasDiff.RenderSemanticDiff | packages/workflow-canvas/src/diff.ts:214-280 | Every change lands in exactly one group, in order, and a breaking change is reported exactly when there is one |
| Checksum.Turn | packages/workflow-canvas/src/normalizer.ts:80-83 | One turn of the loop is one step of the polynomial modulo 2^32, and the sum before the reduction is below 2^53 in magnitude |
| Checksum.Roll | packages/workflow-canvas/src/normalizer.ts:79-84 | The shift-subtract loop computes the sum of c[i] * 31^(n-1-i) as a signed 32-bit value, for every string |
| Checksum.PrintedReads | packages/workflow-canvas/src/normalizer.ts:85 | The printed text has exactly the width asked for, only hex digits, and reads back as the magnitude |
| Checksum.ComputeChecksum | packages/workflow-canvas/src/normalizer.ts:74-86 | Eight hex digits that read back as the magnitude of the polynomial's 32-bit value |
| Checksum.SameChecksumIff | packages/workflow-canvas/src/normalizer.ts:85 | Two contents print the same checksum if and only if their 32-bit values agree up to sign |
| Checksum.ChecksumCollides | packages/workflow-canvas/src/normalizer.ts:74-86 | Two fixed pairs of characters are interchangeable anywhere in a content |
| GraphEquality.IsGraphEqual | packages/workflow-canvas/src/diff.ts:167-171 | Two graphs are called equal if and only if the hashes of their canonical texts agree up to sign |
| GraphEquality.DifferentGraphsCalledEqual | packages/workflow-canvas/src/diff.ts:167-171 | In every graph that has one, renaming the nodes called xAay to xBBy gives a different graph that is called equal, for all x and y |
| GraphEquality.DroppedFieldsAreInvisible | packages/workflow-canvas/src/normalizer.ts:39-57 | Retry policy, compensation, approval gate, loop and child workflow of a node do not reach the text that is compared |
| Sse.ParseAppend | apps/web/src/hooks/use-execution.ts:110-146 | Parsing a prefix and then the remainder with what follows is parsing the whole text |
| Sse.ChunkingIrrelevant | apps/web/src/hooks/use-execution.ts:110-146 | However the text is cut into chunks, the same events are dispatched and the same remainder is kept |
| Sse.SseParser.ReadFrame | apps/web/src/hooks/use-execution.ts:122-142 | One frame: its lines update the accumulators, one dispatch, accumulators reset |
| Sse.SseParser.Feed | apps/web/src/hooks/use-execution.ts:113-144 | One read dispatches every complete frame of the buffer and keeps the unfinished rest |
| Sse.SseParser.ReadStream | apps/web/src/hooks/use-execution.ts:110-146 | A whole response, chunk by chunk, dispatches what parsing the joined text gives |
| SseFrames.ReadLineIs | apps/web/src/hooks/use-execution.ts:124-137 | A line that gives a field a value, with or without the space, sets the event name or id, or adds a line of data; any other field is passed over |
| SseFrames.OtherLineIsPassedOver | apps/web/src/hooks/use-execution.ts:125-127 | Comments and lines without a field change nothing |
| SseFrames.TextRoundTripIff | apps/web/src/hooks/use-execution.ts:79-141 | A text sent as one data line per line comes back whole, with its event name and id, if and only if it neither begins nor ends with a newline |
| Sse.StreamRoundTrip | packages/shared-realtime/src/index.ts:138-157 | Printed messages with keepalives in between come back as exactly those messages in order, nothing left over (sections 9.2.5 and 9.2.6 of the WHATWG HTML standard) |
| Sse.ChunkedStreamRoundTrip | packages/shared-realtime/src/index.ts:138-157 | The same when the text arrives in arbitrary chunks |
| Sse.StreamRoundTripIffClean | packages/shared-realtime/src/index.ts:138-157 | The messages of a stream come back, in order and no others, if and only if every one of them has a non-empty newline-free name and newline-free data |
| Sse.SendRoundTripIffClean | packages/shared-realtime/src/index.ts:155-157 | A printed message comes back alone and complete if and only if its name is non-empty and newline-free and its data newline-free |
| Sse.BrokenDataIsLost | packages/shared-realtime/src/index.ts:155-157 | With a newline in the data no dispatched event carries that data |
| EventDedup.OneDispatchPerId | packages/shared-events/src/index.ts:980-1009 | At most one activation per event id is between its entry and its finally block, whatever the store does |
| EventDedup.CompletesAtMostOnce | packages/shared-events/src/index.ts:982-1006 | If marks are kept and reported, whatever is answered to them, and reads about marks succeed or the bus fails closed, the handler completes at most once per id over the whole run |
| EventDedup.CompletesOnceIffHarmless | packages/shared-events/src/index.ts:982-1006 | For each way a store may misbehave (lose marks, overlook them, fail to answer) and each setting of the fail-open flag: no run completes an event twice if and only if marks are neither lost nor overlooked and are always answered for or the bus fails closed |
| EventDedup.FaultCompletesTwice | packages/shared-events/src/index.ts:982-1006 | Otherwise every event can complete twice, whether or not the store acknowledges the marks it loses |
| EventDedup.OneHandlerPerEvent | packages/shared-events/src/index.ts:964-1012 | With such a store a single handler call per event completes, however many subscriptions of the wrapper receive it |
| EventDedup.MarkedMeansCompleted | packages/shared-events/src/index.ts:998-1006 | In every run, whatever the store does, no event is marked without a completed handler |
| EventDedup.SkippedOnlyIfCompleted | packages/shared-events/src/index.ts:982-990 | If reads report only marks that were made, an event is skipped as processed only when its handler has completed |
| EventDedup.UncompletedIsHandled | packages/shared-events/src/index.ts:979-998 | As long as an event has not completed, every delivery that finds its id free reaches the handler once its read is answered |
| EventDedup.ThrownEventIsRedeliverable | packages/shared-events/src/index.ts:998-1009 | With such a store a handler that throws leaves its event uncompleted, unmarked and free; any later delivery that finds the id free and is not failed closed reaches the handler, until some handler completes |
| EventDedup.CompletesAgain | packages/shared-events/src/index.ts:979-1006 | In any run a fresh delivery of an event not in flight completes it once more, if the store's answers let it pass |
| EventDedup.DeliverySpeaksInOrder | packages/shared-events/src/index.ts:972-1012 | In every interleaving the replies for one delivery follow the order of its calls, each at most once, and decide where it ends |
| EventDedup.RejectedIff | packages/shared-events/src/index.ts:982-1009 | The wrapped bus sees a rejection if and only if the handler threw, or the wrapper fails closed and the store failed to answer the read or the mark |
| EventDedup.DroppedIffInFlight | packages/shared-events/src/index.ts:979-981 | A delivery is dropped if and only if its id was in flight when it arrived |
| EventDedup.DeduplicatingBus.OnDeliver | packages/shared-events/src/index.ts:979-981 | A delivery is dropped exactly when its id is in flight, otherwise the id enters the set |
| EventDedup.DeduplicatingBus.OnRead | packages/shared-events/src/index.ts:982-997 | A read error is rethrown or ignored by the fail-open flag, a processed event skipped |
| EventDedup.DeduplicatingBus.OnHandled | packages/shared-events/src/index.ts:998 | A throw leaves through the finally block |
| EventDedup.DeduplicatingBus.OnStored | packages/shared-events/src/index.ts:999-1009 | After the store call the id leaves the set, whatever the reply |
| CircuitBreaker.Circuits.CanExecute | packages/shared-gateway/src/service-mesh.ts:68-81 | The answer is that of the replayed history, and only the asked service's history grows |
| CircuitBreaker.Circuits.RecordSuccess | packages/shared-gateway/src/service-mesh.ts:83-89 | The record is replaced; the other services stay |
| CircuitBreaker.Circuits.RecordFailure | packages/shared-gateway/src/service-mesh.ts:91-106 | The record counts one failure more; the other services stay |
| CircuitBreaker.RecordAgrees | packages/shared-gateway/src/service-mesh.ts:60-106 | With a monotone clock the failure count is the length of the trailing failure run and the breaker is closed exactly below the threshold |
| CircuitBreaker.RefusesExactlyWhenTripped | packages/shared-gateway/src/service-mesh.ts:68-81 | A call is refused exactly when the trailing run has reached the threshold and its last failure is no older than the timeout |
| CircuitBreaker.HalfOpenIsUnobservable | packages/shared-gateway/src/service-mesh.ts:72-76 | Dropping all queries from the history changes no answer: half-open adds no observable state |

## Left out

- DagTheorems.GatherLastWriter: shared state is taken at the moment of gathering; the Map and its outputs are values, so an executor that mutates its input or an earlier output in place is not modelled.
- Store, lease and release calls that reject, and an `onEvent` callback that throws, make `run` reject; the model has no such replies.
- Duplicate node ids: the scheduler is modelled on ids; which of two nodes with one id is executed is not.
- The id in an executor's result is assumed to be the node's own.
- Approval gates and child workflows appear to the scheduler only as paused, failed or successful replies; the nesting counter and the polling are not modelled.
- The execution.started event and the warnings written to the console.
- NodeExecution.NodeRun.ExecuteWithRetries: durations, the executor's own fields in its result and a checkpoint store that rejects are not modelled; error messages are shortened.
- Backoff.DelayBounds: over real numbers; floating-point rounding is not modelled.
- NodeLease.AtMostOneHolder: client and server share one clock, and the key expires exactly when its time to live is over.
- NodeLease.SuccessRecordedAtMostOnce: one (execution, node) pair at a time; pairs whose execution ids carry no colon do not meet, by NodeLease.LeaseKeyInjective.
- The no-op lease store, and the worker id generator.
- EventDedup.CompletesAtMostOnce: one wrapper; two wrappers with one consumer name share only the store. Events without any id bypass the bus and are not modelled.
- Saga.SagaCoordinator.CompensateAll: pushes made by a callback during the walk.
- SequentialRunner.Run: sleeping between attempts and the checkpoint callback.
- GraphDiff.PatchRoundTripIff: keys are non-empty and slash-free, as in every typed graph; GraphDiff.SlashKeyIsLost and GraphDiff.EmptyKeyOverwritesParent show what happens otherwise. Properties inherited from prototypes (a key named toString) are not modelled.
- GraphContract.ApplyDiff: move, copy and test operations, which no diff emits; writes to an array by anything but an existing index; the walk is a function, so sharing between the patch's values and the result is not modelled.
- Canonical JSON and SHA-256: the checksum is an arbitrary function of the graph.
- EngineWalks.WalkFrom: of the walking order, that each listed node follows the start or a listed node leading to it; which of several such orders it is, is not stated (the same holds for CanvasGraph.GetDownstreamNodes).
- GraphSummary.SummaryMatchesPatch: assumes that only equal ids compare as equal.
- CanvasPatch.ComputeGraphPatch: two values print alike exactly when they are equal, so a change of key order inside a field, which the code reports, is not a change here; the hash of the patch is left out.
- CanvasRoundTrip.PatchRoundTripIff: the viewport is not part of a graph here.
- CanvasDiff.ComputeFullDiff: descriptions, from and to values, labels and severities.
- Checksum.ComputeChecksum: the text that is hashed is an arbitrary sequence of UTF-16 code units.
- GraphEquality.IsGraphEqual: positions and configurations are given as their JSON text, so how numbers and nested values print is not modelled; strings are Unicode scalar values, so lone surrogates and their escapes are not; null members are not told from missing ones.
- Sse.SendRoundTripIffClean: the stream is characters; UTF-8 decoding and the abort of the request are left out.
- CircuitBreaker.Circuits.CanExecute: the state query for dashboards.
- The contract validation, the approval store, cron schedules, event buses other than the deduplicating one, and everything outside the files named above: input and output, tables, or single-branch facts.
