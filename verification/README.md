# Neuronium agent: verified model

A Dafny model of the deterministic core of the Neuronium agent, with proofs of what that core
promises. It covers:

- **Graphs and scheduling.** Action graphs, Kahn's algorithm, and the DAG executor with its retry loop,
  conditional branches, batches, interrupts and resume (`Graph`, `Kahn`, `ExecutorSpec`, `Executor`).
- **Recovery.** The failure classifier, the recovery policy, the rollback scope, the stage loop and the
  success gate with its checkpoint snapshot (`Classifier`, `Policy`, `Scope`, `StageLoop`, `StageExits`, `Gate`).
- **State patches.** JSON Pointer, the JSON Patch subset as functions and in place on the heap, the
  required paths of a schema, missing slots, and the clarification rounds that join them (`Pointer`,
  `Patch`, `PatchHeap`, `Schema`, `MissingSlots`, `Clarification`).
- **Planning.** The HTN decomposition queue, the graph built from its leaves, and plan validation
  (`Htn`, `HtnGraph`, `PlanArguments`, `PlannedGraph`).
- **Replay and memory.** Recording and replaying node responses, text chunking, and the over-fetched
  keyword query (`Replay`, `Chunking`, `TopK`).

Where the source changes state, the model does too: `DAGExecutor`, `ReplayNode` and `ReplayProvider` are
classes whose methods update their fields, `apply_patch` mutates a tree of heap cells, and every loop of the
source is a loop here. Each such method is proved against a function of its inputs or of the old state;
the `*Theory` modules, `ExecutorRuns`, `ExecutorSafety`, `ExecutorLiveness` and `Clarification` prove
properties of those functions over all runs.

A node is an arbitrary deterministic function of its inputs and the attempt number. A **session** is one
call of `execute` on a fresh executor; a **chain** is a list of sessions, each with its own batch size and
interrupt polls, where an interrupted session hands its results to the next. A graph is **well formed** when
ids are unique, edge ends are known and there is no cycle. A branch target is **rejectable** when its decision
is another node that can select a branch and does not lie downstream of the target (otherwise the target has run
before the decision can reject it). Branches are **downstream** when every rejectable target can be reached
from its decision along edges; a well-formed graph is **tame** when, moreover, no rejectable target has
successors.

The main results:

1. *Pause/resume and schedule independence.* On a tame graph every chain, cut anywhere and resumed any
   number of times, never raises and ends with the results of the one-node-at-a-time run (`PauseResume`);
   and among all well-formed graphs exactly on these, whatever the priorities and the nodes
   (`PauseResumeExactly`). Each half is exact on its own: chains never raise exactly when no rejectable target
   has successors (`DeadlockFreeExactly`), and then the batch size makes no difference exactly when branches
   are downstream (`AgreementExactly`). Through the executor object: what a cut run returns, handed to another
   executor, completes it (`PauseAndResume`). With downstream branches alone, whatever finishes agrees
   (`FinishedChainsAgree`). On every well-formed graph and from any initial results, nodes start at most once
   and after their predecessors (`SessionIsSafe`).
2. *Rollback.* The rollback set is exactly what the failed nodes can influence: nodes outside it agree
   between any two finished runs (`RollbackIsSound`), and on every well-formed graph some pair of setups differs
   on all of it (`RollbackIsTight`). Resuming from the preserved results with the failed nodes repaired gives
   the repaired setup's own results (`PreservationResumes`).
3. *Retry chain.* The attempt bound is proved and attained. "The policy never answers RETRY_STAGE to the
   executor under the default limits" holds for nodes with an implementation
   (`RegisteredNodesNeverRetryStage`) and is false otherwise: `_execute_single` classifies the message naming
   an unregistered node without any retry. RETRY_STAGE is the answer exactly when the id holds a transient
   phrase and no critical one (`MissingImplementationRetriesStage`), as "timeout" does
   (`TimeoutNodeRetriesStage`). The orchestrator registers a node for every id of the graph
   (core/orchestrator.py:2328), so only direct users of the executor meet this case.
4. *Stage loop.* What each pass does and how a stage ends is stated exactly in terms of what its nodes
   returned (`PassExactly`, `StageEndsExactly`). A stage is left within 1 + fixes + stage retries executions
   when replanning cannot go on (`StageExecutionBound`), and no bound exists when it can
   (`ReplanningIsUnbounded`).
5. *Gate.* The live and the resumed decision are stated exactly (`LiveGateExactly`, `ResumedGateExactly`). They
   are equal under an exact condition (`ResumedGateAgrees`); an extra field in the critic's object makes them
   differ, whatever the parser and the text (`ExtraFieldFlipsResumedGate`).
6. *Patches and slots.* The patch laws, the in-place refinement (`ApplyPatchInPlace`), missing slots as
   exactly the minimal missing required paths, when the answer to a slot fills it (`AnswerFillsExactly`), and
   clarification that makes progress and ends.
7. *Plans.* Every plan is acyclic, tame and contains the draft and the critic; it is refused only for room
   or for the number of nodes; and which tools it calls with which arguments follows from the request
   (`DocsAreRead`, `PageIsFetched`, `FileIsWritten`).
8. *Replay.* Strict replay of a run that went right the first time returns its results, exactly when no
   node that can replay was pruned; a node fed with what another recorded answers the same calls the same way.
9. *Memory.* The chunking loop ends under an exact condition, its spans have a closed form and rebuild the
   text; the over-fetched query is a prefix of the exact one, and the exact one under an exact condition.

The code accepts more than its standards ask: leading zeros in array indices (section 4 of RFC 6901 forbids
them), and tokens with a stray "~". It refuses null values for add and replace, which RFC 6902 allows. The
model follows the code.

## Model

| member | source | states |
|---|---|---|
| Graph.Adjacency | neuronium_agent/planning/dag.py:73-78 | the dictionary maps every id (and every unknown edge source) to the targets of its edges, in edge order, with repetitions |
| Graph.Predecessors | neuronium_agent/planning/dag.py:80-85 | the dictionary maps every id (and every unknown edge target) to the sources of its edges, in edge order, with repetitions |
| Kahn.InDegrees | neuronium_agent/planning/dag.py:89-93 | every known id or edge target is counted with the number of edges that enter it, parallel edges included |
| Kahn.TopologicalOrder | neuronium_agent/planning/dag.py:87-112 | for every graph, malformed ones included: exactly when it raises a cycle error; exactly when it fails on an unknown id, which is the one whose last edge is paid off first; and that otherwise it returns the order of repeatedly emitting the least ready node |
| KahnTheory.OrderIsCanonical | neuronium_agent/planning/dag.py:94-108 | each emitted node is the least by (priority, id) of those whose predecessors are emitted, and nothing is ready at the end |
| KahnTheory.CanonicalUnique | neuronium_agent/planning/dag.py:94-108 | two such orders of the same graph are equal |
| KahnTheory.OrderIgnoresListing | neuronium_agent/planning/dag.py:87-112 | permuting the node list or the edge list does not change the order |
| KahnTheory.KahnComplete | neuronium_agent/planning/dag.py:110-112 | the order covers the node list exactly when ids are unique, no edge enters from an unknown node and there is no cycle; then it is topological |
| KahnTheory.RaisesIffCyclic | neuronium_agent/planning/dag.py:87-112 | with unique ids and known ends it raises exactly when some closed walk exists, and otherwise lists every node once with sources before targets |
| Classifier.ClassifyFailure | neuronium_agent/recovery/classifier.py:11-130 | a failure is critical exactly on a critical phrase; transient, and then alone retryable, exactly below the upgrade threshold on a transient phrase without a critical one; systemic exactly below it on a systemic phrase without any of the others; persistent otherwise; a non-empty error is the message, which is never empty |
| Executor.DAGExecutor.GatherNodeInputs | neuronium_agent/execution/executor.py:384-420 | predecessor outputs in edge order, then missing initial inputs, then the preserved keys forced from the initial inputs, then the derived prompt or code |
| Executor.CallUntilDone | neuronium_agent/execution/executor.py:294-382 | the retry loop returns the outputs of exactly the calls the retry rule allows, in order |
| Executor.DAGExecutor.ExecuteSingle | neuronium_agent/execution/executor.py:262-382 | the output is that of the last call; a missing implementation fails without a call, with the message naming the node, classified as at attempt 0 |
| Executor.DAGExecutor.ExecuteBatch | neuronium_agent/execution/executor.py:225-260 | in whatever order the nodes of a batch finish, the pairs come back in (priority, id) order, each computed from the results before the batch |
| Executor.DAGExecutor.CommitBatch | neuronium_agent/execution/executor.py:185-197 | committing node by node adds all outputs to `results` and the completed nodes, removes them from `pending` and records each decision's branch |
| Executor.RestoreBranches | neuronium_agent/execution/executor.py:136-146 | on resume the selected branches are those of the completed decisions among the initial results |
| Executor.DAGExecutor.RunRound | neuronium_agent/execution/executor.py:150-197 | one pass of the loop: what is skipped, which batch runs, when it raises; `results` is the new state's |
| Executor.DAGExecutor.Execute | neuronium_agent/execution/executor.py:85-219 | the whole run: errors of the order, fresh start or resume, rounds, interrupts; `results` is the final state's and keeps what it held or was given. With a check the caller gets an outcome with these results, the answer of the poll after the last batch, and, if it answered, the order without the completed nodes as pending, else nothing pending; without a check a plain dictionary; or the error |
| Executor.PauseAndResume | neuronium_agent/execution/executor.py:127-219 | two executors on a tame graph: the first, with any check, never raises; the second, started from the results the first returned, returns the one-node-at-a-time results; an uncut first one already did |
| Executor.TameExecution | neuronium_agent/execution/executor.py:127-219 | without interrupts, fresh or from what a cut left, a fresh executor on a tame graph returns the one-node-at-a-time results |
| ExecutorTheory.InputPrecedence | neuronium_agent/execution/executor.py:384-420 | where each input comes from: preserved keys from the initial inputs, else the last predecessor in edge order that provides it, else the initial inputs; only a prompt or code is ever derived |
| ExecutorTheory.DerivedExactly | neuronium_agent/execution/executor.py:384-420 | when a prompt or code is derived and what it is: a prompt for a model node without one, from its schema, else from earlier code, else plain; code for a code node without it, from the content |
| ExecutorTheory.NodeAgree | neuronium_agent/execution/executor.py:384-420 | a node's output depends on the results of its predecessors only |
| ExecutorTheory.CompleteUnique | neuronium_agent/execution/executor.py:150-202 | with downstream branches, two results that are complete for the same setup are equal, however they came about |
| ExecutorRuns.RunKeepsBase | neuronium_agent/execution/executor.py:150-202 | over a whole run on every well-formed graph, from any initial results: pending is the rest of the graph, selected branches are the function of the results that resume rebuilds, every node completed without a result is rejected, results are only added and not to rejected nodes; and if the initial results are what the nodes yield on them, all are |
| ExecutorRuns.RunKeepsInv | neuronium_agent/execution/executor.py:150-202 | with downstream branches besides: every node completed without a result is pruned for good, and so is or has run everything above a completed node |
| ExecutorRuns.SequentialIsComplete | neuronium_agent/execution/executor.py:178-188 | the fold over the topological order, one node at a time, gives every node its result or prunes it |
| ExecutorRuns.FinishedChainsAgree | neuronium_agent/execution/executor.py:127-219 | with downstream branches, every chain of runs that finishes has the results of that fold |
| ExecutorRuns.RunsWhatIsChosen | neuronium_agent/execution/executor.py:150-197 | in a finished run with downstream branches exactly those nodes have results that no other decision, not downstream of them, has left aside by completing with another label; the label is the text of the output under the decision's key |
| ExecutorLiveness.NoDeadlock | neuronium_agent/execution/executor.py:162-173 | on a well-formed graph no round raises: from any results when no branch target has successors, and from results closed under predecessors when no rejectable one has |
| ExecutorLiveness.DeadlockExactly | neuronium_agent/execution/executor.py:150-173 | on a well-formed graph a round raises exactly when all nodes with completed predecessors are in unselected branches and others are pending; some node always has its predecessors completed |
| ExecutorSpec.RoundProgress | neuronium_agent/execution/executor.py:150-202 | a round that goes on makes `pending` shorter and keeps it within the graph |
| ExecutorLiveness.SessionsReturn | neuronium_agent/execution/executor.py:127-219 | under the same conditions, wherever the decisions are, a whole session never raises, finishes unless interrupted, and hands on results from which the next one returns too |
| ExecutorLiveness.PauseResume | neuronium_agent/execution/executor.py:127-219 | on a tame graph any number of interrupted sessions, each with its own batch size, followed by an uninterrupted one, ends with the one-node-at-a-time results |
| ExecutorLiveness.OtherGraphsDeadlock | neuronium_agent/execution/executor.py:135-173 | with downstream branches, if some rejectable target has a successor, then for every batch size, without touching the priorities, there are node behaviours and pauses under which a resumed run raises "Deadlock" |
| ExecutorLimits.BatchSizesDisagree | neuronium_agent/execution/executor.py:150-197 | when no rejectable target has successors and some is not downstream of its decision, then under some priorities and node behaviours batches of one and one batch of everything both finish, with different results |
| ExecutorLimits.AgreementExactly | neuronium_agent/execution/executor.py:150-197 | on a well-formed graph whose rejectable targets have no successors: the results are the same for all batch sizes, whatever the priorities and the nodes, exactly when every rejectable target is downstream of its decision |
| ExecutorDeadlock.OvertakenTargetsDeadlock | neuronium_agent/execution/executor.py:135-173 | when some rejectable target has successors, some priorities, nodes and pauses make a chain of batches of one raise "Deadlock" |
| ExecutorDeadlock.DeadlockFreeExactly | neuronium_agent/execution/executor.py:135-173 | on every well-formed graph: no chain raises, whatever the priorities, nodes, batch sizes and pauses, exactly when no rejectable target has successors |
| ExecutorExact.PauseResumeExactly | neuronium_agent/execution/executor.py:127-219 | on every well-formed graph: all chains with an uninterrupted last session end with the one-node-at-a-time results, whatever the priorities, nodes, batch sizes and cuts, exactly when the graph is tame |
| ExecutorExact.ApartIsNotDownstream | neuronium_agent/execution/executor.py:150-197 | a well-formed graph that fails the condition of `AgreementExactly`: a target apart from its decision, so `BatchSizesDisagree` applies |
| ExecutorExact.BetweenIsNoLeaf | neuronium_agent/execution/executor.py:150-173 | a well-formed graph that fails the condition of `DeadlockFreeExactly`: a target between its decision and another node, so `OvertakenTargetsDeadlock` applies |
| ExecutorExact.EarlyIsTame | neuronium_agent/execution/executor.py:150-173 | a tame graph whose branch target has a successor: its own decision |
| ExecutorSafety.SessionIsSafe | neuronium_agent/execution/executor.py:152-197 | on every well-formed graph and from any initial results: every node starts at most once and never when pre-filled, after its predecessors have results or are rejected and never start; results are the pre-filled and started nodes; the selected branches are those of the results; with downstream branches no pruned node has a result |
| ExecutorSafety.BatchTakesLeast | neuronium_agent/execution/executor.py:175-183 | a batch holds min(max_parallel, ready) nodes in (priority, id) order, and every ready node left out comes after all of them |
| ExecutorSafety.NoWorkersExactly | neuronium_agent/execution/executor.py:175-241 | with a non-positive worker count a round with ready nodes raises exactly unless the slice it takes holds one node |
| ExecutorSafety.BatchIsIndependent | neuronium_agent/execution/executor.py:175-183 | on every well-formed graph and from any initial results, no two nodes of one batch are joined by an edge |
| Scope.TransitiveDependents | neuronium_agent/recovery/scope.py:19-30 | the worklist finds exactly the nodes reachable from the seeds along edges |
| Scope.ComputeRollbackScope | neuronium_agent/recovery/scope.py:33-75 | type, node set and preservation set of the scope, for all four failure types |
| ScopeTheory.RollbackIsSound | neuronium_agent/recovery/scope.py:68-75 | two finished chains of runs that differ only in how the failed nodes behave agree on every node outside the rollback set |
| ScopeTheory.RollbackIsTight | neuronium_agent/recovery/scope.py:19-30 | on every well-formed graph two setups differing only on the failed nodes have runs, all of which end, that differ on every node of the set |
| ScopeTheory.PreservationResumes | neuronium_agent/recovery/scope.py:68-75 | a chain of the repaired setup that starts from the old results outside the rollback set ends, when it finishes, with the results the repaired setup has from scratch; on a tame graph it finishes |
| Policy.DecideRecovery | neuronium_agent/recovery/policy.py:21-121 | the exact condition of each action on the failed nodes: FAIL on a critical one, or without any known class unless the critic rejected with no node failed; RETRY_STAGE on transient ones with retries left; REPLAN on a repeated or all-systemic failure if allowed and possible; otherwise ESCALATE; a node that failed too often excludes the first without a class and the second; an escalation carries exactly its context |
| Policy.FailuresCountAttempts | neuronium_agent/recovery/policy.py:59-66 | a node that no attempt lists twice has failed as often as attempts list it |
| RetryTheory.AttemptsAreBounded | neuronium_agent/execution/executor.py:294-382 | at most 1 + min(node retries, threshold) calls, retried only after transient failures; a transient last output needs a retry limit below the threshold |
| RetryTheory.CallsAreMade | neuronium_agent/execution/executor.py:294-382 | the i-th call gets the number i, its output is what the node returned or that it raised, classified with that number unless completed, and the last call is the last because it did not fail transiently or no retry is left |
| RetryTheory.TimeoutsAttainTheBound | neuronium_agent/recovery/classifier.py:52-82 | a node that always times out attains the bound, and ends transient exactly when the retry limit is below the threshold |
| RetryTheory.RetryStageOnExecutorFailures | neuronium_agent/recovery/policy.py:86-99 | with the threshold within the retry limit, RETRY_STAGE is answered to executor failures exactly when retries are left, no node failed too often, and every failed node lacks an implementation and has a message that reads as transient |
| RetryTheory.RegisteredNodesNeverRetryStage | neuronium_agent/recovery/policy.py:86-99 | so never when all failed nodes have an implementation |
| MissingMessage.IdDecides | neuronium_agent/execution/executor.py:274-283 | the message about a missing implementation reads as critical, or as transient, exactly when the id in it does: no phrase lies in the fixed words or across their end |
| RetryTheory.LooksTransientByItsId | neuronium_agent/recovery/classifier.py:52-82 | hence it is classified as transient exactly when the id holds a transient phrase and no critical one, with a positive threshold |
| RetryTheory.MissingImplementationRetriesStage | neuronium_agent/execution/executor.py:272-292 | under the default limits one unregistered node gets RETRY_STAGE exactly when its id holds a transient phrase and no critical one |
| RetryTheory.TimeoutNodeRetriesStage | neuronium_agent/execution/executor.py:272-292 | the id "timeout" does |
| StageLoop.RunStage | neuronium_agent/core/orchestrator.py:889-1419 | the execute, control, adapt loop, watched for any number of passes |
| StageExits.FailedExactly | neuronium_agent/core/orchestrator.py:1154-1158 | the failed nodes are the required ones with a result that is not completed, as often as they are required |
| StageExits.PassExactly | neuronium_agent/core/orchestrator.py:889-1419 | one pass: it executes unless skipped; it leaves on a cut, on an unreadable critic, when the gate holds, or when the stage may proceed; otherwise it spends a fix if the critic rejected with reasons or suggestions and fixes are left, or fails, retries, replans or pauses as the policy's conditions say, with the new counters, history and flags |
| StageExits.StageEndsExactly | neuronium_agent/core/orchestrator.py:889-1419 | however a stage ends, each exit holds exactly under its condition in the state left: passed when all required nodes completed and the critic passes with evidence, proceeded when the gate fails and that is allowed, failed and paused by the failed nodes, retries and planner, cut short on a cut execution |
| StageLoopTheory.StageIsBounded | neuronium_agent/core/orchestrator.py:889-1419 | from any state, a stage that cannot keep replanning is left after as many passes as fixes and stage retries are left, plus one |
| StageLoopTheory.StageExecutionBound | neuronium_agent/core/orchestrator.py:785-1419 | it executes at most 1 + max_verdict_fix_attempts + max(0, max_stage_retries - starting count) times |
| StageLoopTheory.ReplanningIsUnbounded | neuronium_agent/core/orchestrator.py:1329-1345 | a stage that can keep replanning executes any number of times in some world |
| Gate.LivePasses | neuronium_agent/core/orchestrator.py:1982-2017 | the live verdict passes exactly when the critic's object conforms, says PASS and has evidence |
| Gate.HeardHints | neuronium_agent/core/orchestrator.py:1982-2017 | a verdict that does not pass carries gaps or suggestions exactly unless the critic was understood, did not say PASS and gave none |
| Gate.LiveGateExactly | neuronium_agent/core/orchestrator.py:1945-2017 | the live gate holds exactly when every required node completed and the critic, if there is one, completed with a conforming object (its parse, else its text) that says PASS with evidence |
| Gate.ResumedGateExactly | neuronium_agent/core/orchestrator.py:1901-1980 | the gate on resume raises exactly when the kept fields do not have the verdict's types; otherwise it holds exactly when every required node had completed and the kept fields, if there is a critic, say PASS with evidence |
| Gate.ResumedGateAgrees | neuronium_agent/core/orchestrator.py:1901-2017 | the decision recomputed from the snapshot equals the live one exactly when the five kept fields conform and no extra field hides a passing verdict from the live parse |
| Gate.ExtraFieldFlipsResumedGate | neuronium_agent/verification/demo_critic.py:20-36 | whatever the parser, a text it reads as a passing verdict with one field more fails the live gate and passes the one recomputed from the snapshot |
| Pointer.UnescapeEscape | neuronium_agent/schemas/tool_schema_registry.py:13-18 | unescaping undoes escaping, for every string |
| Pointer.DecodeEncode | neuronium_agent/planning/state_patch.py:31-37 | decoding the pointer of any non-empty token list gives the list back |
| Pointer.EncodeInjective | neuronium_agent/schemas/tool_schema_registry.py:21-25 | different token lists have different pointers |
| Pointer.EscapeUnescapeIff | neuronium_agent/schemas/tool_schema_registry.py:13-18 | a raw token is the escape of what it decodes to exactly when every "~" is followed by "0" or "1" |
| PatchTheory.PatchesCompose | neuronium_agent/planning/state_patch.py:114-147 | applying p ++ q is applying p and then q |
| PatchTheory.ActsOnParent | neuronium_agent/planning/state_patch.py:40-111 | an operation succeeds exactly when its parent exists and it succeeds there; then only the value at the parent's location changes |
| PatchTheory.SucceedsExactly | neuronium_agent/planning/state_patch.py:40-111 | replace and remove succeed exactly where something can be read; add exactly under an object, at a list's end or at a position up to its length |
| PatchTheory.UntouchedLocations | neuronium_agent/planning/state_patch.py:62-111 | every location not under the touched one keeps its value; elements behind an insertion or removal shift by one |
| PatchTheory.ReadAfterWrite | neuronium_agent/planning/state_patch.py:62-94 | a read at the pointer after an add (at a member or numeric index) or a replace gives the value |
| PatchTheory.AppendedLast | neuronium_agent/planning/state_patch.py:66-69 | an add at "-" puts the value after the old elements |
| PatchTheory.AddThenRemove | neuronium_agent/planning/state_patch.py:62-111 | adding a fresh member or an element and removing it restores the document |
| PatchTheory.RemoveThenAdd | neuronium_agent/planning/state_patch.py:62-111 | removing a value and adding it back at the same pointer restores the document |
| PatchTheory.ReplaceThenReplaceBack | neuronium_agent/planning/state_patch.py:80-94 | replacing a value and replacing it by the old one restores the document |
| PatchTheory.DifferentMembersCommute | neuronium_agent/planning/state_patch.py:40-111 | operations through different members of one object commute, success and failure included |
| PatchTheory.SeparatePatchesCommute | neuronium_agent/planning/state_patch.py:114-147 | so do whole patches |
| PatchHeap.DeepCopy | neuronium_agent/planning/state_patch.py:120-120 | the copy holds the same value in new cells, each occurring once |
| PatchHeap.ResolveParent | neuronium_agent/planning/state_patch.py:40-59 | the walk reaches exactly the cell of the parent, or fails with the error the operation has |
| PatchHeap.ApplyAdd | neuronium_agent/planning/state_patch.py:62-77 | writing one container in place makes it hold the value with the member or element added; on an error nothing changes |
| PatchHeap.ApplyReplace | neuronium_agent/planning/state_patch.py:80-94 | the same for a replaced member or element |
| PatchHeap.ApplyRemove | neuronium_agent/planning/state_patch.py:97-111 | the same for a removed member or element |
| PatchHeap.ApplyOperation | neuronium_agent/planning/state_patch.py:122-145 | one operation changes the tree in place into what the operation on values gives, or fails with its error |
| PatchHeap.ApplyPatchInPlace | neuronium_agent/planning/state_patch.py:114-147 | the result is a new value on new cells, the one the patch on values gives, or its error; neither the state nor the operations' values change |
| Schema.Visit | neuronium_agent/schemas/tool_schema_registry.py:48-65 | the recursive visit adds exactly the paths required at and below a schema |
| Schema.ExtractRequiredPointers | neuronium_agent/schemas/tool_schema_registry.py:39-68 | exactly the pointers of token lists required level by level, sorted |
| Schema.RequiredExactly | neuronium_agent/schemas/tool_schema_registry.py:48-65 | one level requires the names its list holds, if it has an object of properties; below a required name, what the property's schema requires |
| MissingSlots.StateValueAt | neuronium_agent/planning/missing_slots.py:48-70 | the walk reads what is at the pointer, or finds nothing; a pointer without "/" raises |
| MissingSlots.NullIsNoGap | neuronium_agent/planning/missing_slots.py:24-36 | a null is no gap exactly where null is among the listed types or, without a list, is the type or that of a union's branch; an absent value always is one, any other never |
| MissingSlots.FragmentAtTokens | neuronium_agent/schemas/tool_schema_registry.py:71-94 | the walk through `properties` reads the fragment at the tokens, empty when a step is missing |
| MissingSlots.HasMissingAncestor | neuronium_agent/planning/missing_slots.py:73-79 | it holds exactly when some missing path is a proper ancestor |
| MissingSlots.SlotAbove | neuronium_agent/planning/missing_slots.py:82-121 | at or above every missing required path there is a slot, so the slots cover all of them |
| MissingSlots.AncestorSortsFirst | neuronium_agent/planning/missing_slots.py:73-79 | a proper ancestor is shorter and sorts first |
| MissingSlots.ComputeMissingSlots | neuronium_agent/planning/missing_slots.py:82-121 | the result lists, sorted, exactly the missing required paths without a missing required ancestor, with their reason and fragment; when a base pointer makes it raise |
| Clarification.AncestorIffPrefix | neuronium_agent/planning/missing_slots.py:73-79 | on pointers, ancestors are exactly the proper token prefixes |
| Clarification.AnswerFillsExactly | neuronium_agent/planning/state_patch.py:62-77 | the answer to a slot, under whatever parent, succeeds and leaves the slot filled exactly under an object, or under a list at a numeric position up to its length |
| Clarification.FillingFills | neuronium_agent/planning/state_patch.py:114-147 | a patch adding non-null values at empty members of objects never fails, fills every place it names and empties none |
| Clarification.ClarificationProgress | neuronium_agent/planning/missing_slots.py:82-121 | answering every slot, each under an object, never fails; none of the slots is missing afterwards, nothing new is, and every slot left is strictly below an answered one |
| Clarification.ClarificationEnds | neuronium_agent/planning/missing_slots.py:82-121 | after as many rounds as the deepest required path has tokens nothing is missing |
| Clarification.NullParentRefusesAnswer | neuronium_agent/planning/state_patch.py:62-77 | a slot under a null that the schema allows: its answer is refused, so the object condition is needed |
| PlannedGraph.ValidatePlannedGraph | neuronium_agent/planning/dynamic_planner.py:85-124 | a graph is accepted, unchanged, exactly when its plan id, ids, node types, tools and edge ends are fine and it is acyclic; otherwise the first failing check decides the error, exactly: the first node that is not allowed, or the unknown end (source before target) of the first open edge |
| PlanArguments.NodeAllowedExactly | neuronium_agent/planning/operator_catalog.py:263-279 | a tool is checked against the allowed tools under its written name and against the catalog under its trimmed one; any other node by its type |
| Htn.CollectReads | neuronium_agent/planning/htn_recursive_backend.py:1444-1475 | the loop makes one numbered read per document and a merge depending on all of them; which document each reads is in `DocsAreRead` |
| Htn.StepShrinks | neuronium_agent/planning/htn_recursive_backend.py:162-232 | every expansion lowers the weight of the queue, so the loop ends |
| Htn.Decompose | neuronium_agent/planning/htn_recursive_backend.py:143-232 | draining the queue with its frontier, depth and node checks computes the specified decomposition |
| HtnGraph.BuildActionGraph | neuronium_agent/planning/htn_recursive_backend.py:1601-1649 | one node per id made from its first leaf, in id order with its rank as priority; one edge per leaf and distinct known dependency, sorted; no leaves raises |
| HtnGraph.BuiltGraphIsClosed | neuronium_agent/planning/htn_recursive_backend.py:1613-1637 | whatever the leaves: unique ids, known edge ends, and exactly the known dependencies as edges |
| HtnTheory.DecompositionResult | neuronium_agent/planning/htn_recursive_backend.py:162-232 | whatever the model replies, the decomposition succeeds exactly with enough frontier, depth and nodes, and yields the same leaves |
| HtnTheory.ModelCallsAreBounded | neuronium_agent/planning/htn_recursive_backend.py:1226-1260 | a choice of the model is taken only when that is allowed, and at most max_calls times |
| HtnTheory.PlanSizeIsExact | neuronium_agent/planning/htn_recursive_backend.py:1371-1598 | k documents make k + 3 distinct nodes, a page 5, a file 3, anything else 2 |
| HtnTheory.PlansAreValid | neuronium_agent/planning/dynamic_planner.py:85-124 | a plan contains draft_report and critic_report, is acyclic, and passes validation exactly under a specification and catalog that know the context's tools and node types |
| HtnTheory.DocsDataFlow | neuronium_agent/planning/htn_recursive_backend.py:1444-1598 | in a document plan exactly the reads feed the merge, the merge the draft, and draft and merge the critic |
| HtnTheory.WebDataFlow | neuronium_agent/planning/htn_recursive_backend.py:1418-1598 | in a web plan exactly: page to article, article to draft, both to the export, and page, article and draft to the critic |
| HtnTheory.OtherDataFlow | neuronium_agent/planning/htn_recursive_backend.py:1477-1598 | otherwise the draft takes exactly the written file, if any, and the critic exactly the draft |
| PlanArguments.ContextExactly | neuronium_agent/planning/htn_recursive_backend.py:1211-1224 | a page address goes before documents, documents before a file name; blank texts and empty lists do not count |
| PlanArguments.DocsAreRead | neuronium_agent/planning/htn_recursive_backend.py:1444-1475 | node read_i reads the i-th of the sorted document paths under the key doc_i, for exactly the given documents; the merge has no arguments; draft and critic have their prompts |
| PlanArguments.PageIsFetched | neuronium_agent/planning/htn_recursive_backend.py:1418-1558 | the page and its article are fetched from the trimmed address; the summary is exported under the trimmed file name, or one made from the output format, with the run id |
| PlanArguments.FileIsWritten | neuronium_agent/planning/htn_recursive_backend.py:1477-1516 | the given text is written under the trimmed file name with the run id |
| PlanArguments.ReportIsDrafted | neuronium_agent/planning/htn_recursive_backend.py:1517-1598 | any other plan is a draft and its critic |
| HtnTheory.PlansAreTame | neuronium_agent/planning/htn_recursive_backend.py:1601-1649 | plans are tame graphs, so no run of a plan deadlocks |
| HtnTheory.Plan | neuronium_agent/planning/htn_recursive_backend.py:141-272 | for every metadata, option and reply: when planning raises, why, and which graph it returns otherwise; its data flow and arguments are in the lemmas above |
| HtnTheory.PlanSuperAgent | neuronium_agent/planning/super_agent_runbook.py:61-85 | under the super-agent runbook planning and validation fail only for more than 61 documents |
| Replay.ReplayNode.Execute | neuronium_agent/nodes/model_node.py:78-123 | while replaying, each call takes the next response and moves the cursor; exhausted or refused calls do not; live calls are recorded |
| Replay.CallTimes | neuronium_agent/nodes/mcp_node.py:113-144 | called repeatedly with the same inputs, a replaying node is the function of the call's number |
| Replay.RunsOut | neuronium_agent/nodes/code_node.py:91-113 | a replaying node gives the response with the number of the call, completed if it has no status, and fails without outputs beyond the last one or on blank code |
| Replay.RecordThenReplay | neuronium_agent/nodes/code_node.py:81-125 | a node whose calls were recorded, and another of its kind fed with the records, answer the same calls with the same outputs, quality and status, although refused calls leave no record |
| Replay.ReplayProvider.constructor | neuronium_agent/trace/replay.py:30-62 | the dictionaries hold, for each node, all its recorded responses and all its node_end outputs, in trace order |
| Replay.ReplayProvider.Inject | neuronium_agent/trace/replay.py:64-109 | which nodes get which responses with the cursor reset, the three lists of the report, and that strict mode raises exactly when a node is missing, naming all of them in order |
| Replay.PrepareStrictReplay | neuronium_agent/core/orchestrator.py:2256-2267 | strict injection from a trace succeeds exactly when every node that can replay has a recorded response, and then each holds its own |
| Replay.PrepareLenientReplay | neuronium_agent/trace/replay.py:64-109 | lenient injection never raises: nodes without recorded responses get their node_end outputs, nodes without either stay as they are, and the three lists say which |
| Replay.EndedAt | neuronium_agent/trace/replay.py:40-56 | a node's node_end outputs are those of its events in trace order, without quality signals |
| ReplayTheory.ChainRecords | neuronium_agent/core/orchestrator.py:2318-2324 | on every well-formed graph the trace of a paused and resumed run holds each executed node's calls once, and nothing for the others |
| ReplayTheory.StrictReplayRoundTrip | neuronium_agent/trace/replay.py:30-109 | when every node of a finished run completed at its first call, strict injection finds something missing exactly when a node that can replay did not run or has an empty id; otherwise, with downstream branches, every replay that finishes, cut and scheduled in any way, has the same results, and on a tame graph it finishes |
| Chunking.ChunkText | neuronium_agent/tools/memory_tools.py:32-50 | the loop's spans, and whether it has ended within a number of passes, for all parameters |
| Chunking.EndsIff | neuronium_agent/tools/memory_tools.py:42-49 | the loop ends exactly on an empty text, a text of one chunk, or an overlap smaller than the chunk |
| Chunking.ChunkSpans | neuronium_agent/tools/memory_tools.py:41-50 | span i starts at i * (max_chars - overlap); a text of n > max_chars characters gets 1 + ceil((n - max_chars) / (max_chars - overlap)) spans |
| Chunking.CeilDivRoundsUp | neuronium_agent/tools/memory_tools.py:41-50 | the quotient in that count is the rounded-up one |
| Chunking.ChunksRebuildText | neuronium_agent/tools/memory_tools.py:41-50 | spans are non-empty, at most max_chars long, and joined without their overlaps give the text back |
| TopK.SearchKeywordTopK | neuronium_agent/memory/sqlite_memory_store.py:111-158 | scoring, sorting and slicing give the first k of the ranking of all rows with a positive score |
| TopK.MemoryQuery | neuronium_agent/tools/memory_tools.py:246-274 | the query over-fetches three times k hits, filters them in order and keeps k |
| TopK.CountIsReached | neuronium_agent/memory/sqlite_memory_store.py:148-148 | the count of a word is the number of some places where it stands without overlapping |
| TopK.CountIsMost | neuronium_agent/memory/sqlite_memory_store.py:148-148 | and no more such places exist |
| TopK.ScoreAdds | neuronium_agent/memory/sqlite_memory_store.py:145-149 | the score adds up the counts of the words in the lower-cased text |
| TopK.RanksExactly | neuronium_agent/memory/sqlite_memory_store.py:152-153 | a higher score goes first, then the smaller chunk id |
| TopK.AcceptsExactly | neuronium_agent/tools/memory_tools.py:255-270 | a row is accepted when each filter that is set lists its source kind or visibility |
| TopK.QueryIsPrefixOfExact | neuronium_agent/tools/memory_tools.py:246-274 | the query is a prefix of filter-then-top-k for every k, and for k >= 0 equals it exactly when the fetched hits hold k accepted ones or all there are |
| TopK.ExactQueryIsBest | neuronium_agent/memory/sqlite_memory_store.py:144-158 | filter-then-top-k lists accepted hits, best first, and every accepted hit it leaves out ranks behind all of a full result |

## Left out

- LLM calls, Docker and subprocess execution, web and file tools, databases, queues, clocks and threads: nodes, JSON parsing, the store and the model's replies are functions or sequences; a batch may finish in any order, which is the only effect of its threads.
- Prompt builders, trace emission, logging, retry delays, report rendering and the decision trace of a plan: text and time without influence on the modelled state.
- The CLI, configuration loading, model catalogs, canonical hashing, memory ingestion apart from chunking, and evidence references.
- `_infer_runbook_metadata`, the input extraction and resolution that precede planning, and the wording and order of clarification questions: planning starts from the effective metadata.
- Resume through the orchestrator's checkpoints: pause and resume are stated for `execute` itself, with the results of one call as the initial results of the next; a checkpoint written after control carries no gate snapshot.
- `str.isdigit`, `str.lower` and `str.strip` are modelled for ASCII; JSON numbers are reals, so the difference between 1 and 1.0 is not modelled.
- Sharing inside a state or a patch value (the same object reachable twice): `deepcopy` would keep it, so the in-place model asks for values in which no cell occurs twice, as parsed JSON has them.
- Coercions of `DemoCriticVerdict` (a number written as a string, for example): a field of another type does not conform.
- Splitting a search query into lower-case words: the keyword search starts from the words.
- Decision outputs that cannot be dictionary keys, and edge types, labels and conditions, which no modelled code reads.
- ExecutorRuns.FinishedChainsAgree: on graphs whose chains can raise, downstream branches are a sufficient condition for finished chains to agree; where no chain raises the condition is exact.
- StageLoop.RunStage: the loop is watched for a number of passes instead of being run to its end, because the replanning path need not end; the content of a completed critic is text, as model nodes write it.
- StageLoopTheory.StageExecutionBound: assumes that a completed critic's content is text, as model nodes write it.
- Gate.ResumedGateAgrees: assumes that a parsed critic object is the parse of its text, as model nodes record it, and that the snapshot could be built.
- Chunking.ChunkText: the loop is watched for a number of passes, because it does not end for every choice of parameters.
- Clarification.ClarificationProgress: asks for an object as the parent of every slot; under a list an add inserts and moves the elements behind it.
- ReplayTheory.StrictReplayRoundTrip: runs in which some node failed or was retried are not replayed, because recorded failures come back without their error.
- Executor.DAGExecutor.Execute: an executor used again without initial results keeps its old results, which the contract states; the theorems on sessions are for a fresh executor.
