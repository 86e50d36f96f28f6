# Orqestra: a verified model of the workflow engine and its surroundings

Orqestra stores agent workflows as JSON graphs, compiles them into state machines, and runs them against
language models. This project models its stateful cores in Dafny 4.11 and proves what they promise:

- **Engine** (`WorkflowGraph`, `BranchResolution`, `GraphBuilder`, `AgentChain`, `Conditions`, `Execution`,
  `Termination`, `EndlessRuns`, `Repetition`, `RepeatingRuns`, `CycleTest`, `CompiledWorkflow`, `Seeds`). The stored
  graph, its compilation, and execution as one token against arbitrary texts; what a condition decides is a function
  of the latest text. Main results: the numeric bound of `Termination.HaltsWithinBound`, its exactness
  (`EndlessRuns.BoundIsExact`, where no channel leads straight to a condition; with twice the bound, for every
  graph and extractor: `RepeatingRuns.TwiceBoundIsExact`), and the test on the graph alone (`CycleTest.HaltsExactly`).
- **Editor** (`Editor`, `EditorRoundTrip`, `EditorAndRuntime`, `SavedWorkflow`, `SavedBlueprint`, `SavedRuns`). The
  visual builder's printer and parser. Opening and saving is a stable sort of the drawable edges, idempotent, and keeps
  every resolved branch; what it changes of the compiled graph (`SavedBlueprint.CompiledAfterSaving`) and of its runs
  (`SavedRuns.SavedRunsAgreeExactly`) is stated exactly.
- **Run lifecycle** (`RunRecord`, `RunLifecycle`, `RunExecution`). One worker and any number of cancel calls on
  one row, in every interleaving; `RunExecution.ExecuteRun` is the worker itself, proved to follow the protocol and
  to end the run as what it meets demands.
- **Telegram polling** (`Redis`, `PollingLease`, `UpdateDedup`). The leader lease as a timed system with
  several replicas, exclusive exactly under safe timing, and de-duplication over all of them.
- **Smaller cores** (`ToolRunner`, `WorkflowNames`, `ChannelLinks`, `AgentMap`, `Pagination`, `ToolsField`).

`Prelude` and `Text` hold options, results, sequence filters, and Python's `strip` and decimal formatting.
Code that changes state is imperative here too: classes and methods, each proved against a specification
function, about which the lemmas then speak. Beside the main results stand laws that say in plain terms what
each operation gives (`GraphBuilder.NodesRunAsDeclared`, `Conditions.VerdictByField`, `PollingLease.LeavesExactly`).

`dafny verify dfyconfig.toml` checks the whole project.

## Where the code and what one expects of it differ

- A condition with two branches, neither labelled low, takes the second one whatever the verdict. This case and a
  single low branch are all there are (`BranchResolution.CollapsesExactly`).
- A condition entered before any agent has spoken judges the empty text, and two conditions in a row judge the same
  text: a cycle that looks reachable may not be (`CycleTest.BlankEntryHalts`, `CycleTest.SharedTextHalts`).
- The editor loses loop budgets, which then default to 3, and wires edges whose label the runtime ignored
  (`EditorAndRuntime.BranchesSurviveSaving`, `SavedWorkflow.PlainEdgesAfterSaving`).
- A cancel call can be accepted and the run still complete (`RunLifecycle.CancelCanComeTooLate`); when it is sure
  to work is `RunLifecycle.BoundToBeCancelledExactly`.
- `stop_telegram_polling` releases the lock after 25 s even if the poll goes on, so with stop calls exclusion
  needs 27 s from stop check to end of poll, not the 45 s of the lock (`PollingLease.ExclusionExactly`).
- Turning a workflow into a template, or back, does not check its name
  (`WorkflowNames.UpdateKeepsUniqueExactly`).
- Requests past the last page fetch with an offset that is not clamped (`Pagination.FetchedAgreesExactly`).

## Model

| member | source | states |
|---|---|---|
| `WorkflowGraph.NormalizeNodes` | backend/app/runtime/graph_builder.py:247-259 | The loop keeps exactly the nodes whose id is not blank, in order, with the id trimmed. |
| `WorkflowGraph.NormalizeEdges` | backend/app/runtime/graph_builder.py:262-274 | The loop keeps exactly the edges with two ends that are not blank, in order, with the ends trimmed. |
| `WorkflowGraph.NormalizedExactly` | backend/app/runtime/graph_builder.py:247-274 | A node or edge is kept exactly if its ids are not blank, and only its ids change: they are trimmed. |
| `WorkflowGraph.NormalizedIdentity` | backend/app/runtime/graph_builder.py:247-274 | Normalizing changes nothing if and only if every id and every edge end is trimmed and not blank. |
| `Text.StripExactly` | backend/app/runtime/graph_builder.py:255-256 | What strip removes of an id is white space at its two ends, and nothing else. |
| `Text.SpacesAre` | backend/app/runtime/graph_builder.py:255 | The white space that strip removes: the 29 characters for which the isspace method of Python strings holds. |
| `WorkflowGraph.OutgoingMap` | backend/app/runtime/graph_builder.py:277-281 | For every id the map holds exactly the edges that leave it, in stored order, and no entry where there are none. |
| `WorkflowGraph.PickEntryNode` | backend/app/runtime/graph_builder.py:291-298 | The loop finds the first node that no edge enters, or the first node when all are entered, or the empty id when there is none. |
| `WorkflowGraph.EntryNode` | backend/app/runtime/graph_builder.py:291-298 | Exactly one id meets that description. |
| `BranchResolution.ResolveForNode` | backend/app/runtime/graph_builder.py:129-154 | The first copy of the resolution: last branch of each label, the fallbacks, and the budget of the last low branch that has one. |
| `BranchResolution.ResolveForWiring` | backend/app/runtime/graph_builder.py:204-238 | The second copy resolves to the same targets and collects exactly the branch targets as the mapping. |
| `BranchResolution.LastTargetMeaning` | backend/app/runtime/graph_builder.py:140-149 | The loop ends with the target of the last branch with the label, or with none exactly when no branch has it. |
| `BranchResolution.LoopBudgetMeaning` | backend/app/runtime/graph_builder.py:132-149 | The budget is that of the last low branch that carries one, or three if none does. |
| `BranchResolution.ResolvedBranchesAreTargets` | backend/app/runtime/graph_builder.py:136-166 | Both resolved branches, fallbacks included, are targets of the condition. |
| `BranchResolution.ResolvesExactly` | backend/app/runtime/graph_builder.py:150-155 | A condition resolves both ways if and only if it has two branches, or a single one labelled low. |
| `BranchResolution.CollapsesExactly` | backend/app/runtime/graph_builder.py:140-153 | Ok and low resolve to the last branch of their kind or to the first and the second; they resolve to the same branch if and only if there is one branch, labelled low, or two, neither labelled low. With distinct targets the verdict makes no difference in exactly these cases. |
| `BranchResolution.UnlabelledPairCollapses` | backend/app/runtime/graph_builder.py:140-153 | The concrete case: of two branches without a low label the first can never be followed. |
| `GraphBuilder.CompileGraph` | backend/app/runtime/graph_builder.py:83-172 | For every input the builder ends with exactly the specified nodes, edges, routings and entry, or with the first error in node order. |
| `GraphBuilder.NodesRunAsDeclared` | backend/app/runtime/graph_builder.py:109-168 | In every graph that compiles, an agent node (or one without a type) runs the agent that the map has for its id, a channel node its channel (internal by default), a condition its field, threshold (confidence and 0.7 by default), branches and budget, an end nothing. |
| `GraphBuilder.ErrorsMeanFaults` | backend/app/runtime/graph_builder.py:109-168 | The error is that of the first node that cannot be added: an agent node without an agent, a condition that does not resolve both ways, or an id used before. |
| `GraphBuilder.EdgesExactly` | backend/app/runtime/graph_builder.py:184-202 | A plain edge between nodes is wired exactly for an unlabelled edge whose source is neither condition nor end and whose target is no end; one to END exactly for an unlabelled edge of no condition to an end node, or for a node that no edge leaves and that is neither condition nor end. |
| `GraphBuilder.RoutesExactly` | backend/app/runtime/graph_builder.py:204-231 | Exactly the condition nodes are routed, among the targets of all their edges, and to their ok branch by default. |
| `GraphBuilder.EntryExactly` | backend/app/runtime/graph_builder.py:187-188 | The entry point is the entry node, unless that is an end node or has a blank id. |
| `GraphBuilder.AddNodes` | backend/app/runtime/graph_builder.py:109-168 | The node loop adds one function a node with everything its closure captures, and stops at the first failure. |
| `GraphBuilder.WireEdges` | backend/app/runtime/graph_builder.py:175-244 | Plain edges, END edges, conditional routings, entry point and closing edges are exactly the specified sets. |
| `GraphBuilder.StateGraph.AddNode` | backend/app/runtime/graph_builder.py:117-166 | A name that is taken is refused; otherwise the node is added and nothing else changes. |
| `GraphBuilder.BranchResolutionsAgree` | backend/app/runtime/graph_builder.py:129-166 | In every graph that compiles, both targets a condition can store are keys of the mapping wired for it, and the wired fallback is its ok branch. |
| `AgentChain.LinearAgentChain` | backend/app/runtime/graph_builder.py:301-321 | The search ends on cyclic graphs too, and lists exactly the agents reachable from the entry over unlabelled edges, each once, in non-decreasing distance. |
| `Conditions.LoopKeyInjective` | backend/app/runtime/edges.py:76-79 | Two conditions never share a loop counter. |
| `Conditions.BranchMeaning` | backend/app/runtime/edges.py:58-105 | The low branch is taken if and only if the output fails and budget is left; then this counter, and no other, goes up by one. |
| `Conditions.VerdictByField` | backend/app/runtime/edges.py:75-105 | approved and tests_passed are judged by their own flag, which fails only if it is there and false; confidence by the number in the text; anything else by 0.85 or 0.5 against the threshold. A failure with budget left goes low and adds one to the counter of this node; all else goes ok and changes nothing. |
| `Conditions.FavouredExactly` | backend/app/runtime/edges.py:81-105 | A condition that any text passes is passed by one that speaks for passing in every respect, and no other condition is ever passed. |
| `Conditions.BothVerdictsOccur` | backend/app/runtime/edges.py:81-105 | Both verdicts can occur if and only if the field is approved, tests_passed or confidence, or the threshold lies above 0.5 and up to 0.85. |
| `Execution.StepMeaning` | backend/app/runtime/nodes.py:230-254 | A step of a runnable graph goes to the low branch if the judged text fails and budget is left, else to the forward successor, or ends; only a low step changes a counter. |
| `Execution.NeverStuck` | backend/app/runtime/graph_builder.py:207-238 | In no reachable state is the token stuck: every stored route is wired; and no counter exceeds its budget. |
| `Execution.LoopCountsAreExact` | backend/app/runtime/edges.py:78-105 | Over every run `loop_counts["c:low"]` is the number of low routings by c, and at most max(0, max_loops). |
| `Execution.SpentBudgetGoesOk` | backend/app/runtime/edges.py:78-105 | Counters never go down, and once a budget is spent every later visit to the condition goes to its ok branch. |
| `Execution.OutputsAreLatest` | backend/app/runtime/nodes.py:154-213 | Over every run node_outputs holds exactly the agents and channels visited, each with its latest output; a channel records the first output on record, clipped, and marked when it was not delivered. |
| `Execution.ChannelsPassOnFirst` | backend/app/runtime/nodes.py:174-213 | A channel records the latest output of the node that spoke first in the run, or the task if none has spoken, clipped to 4000 characters; a Telegram message not taken, 1500 of them behind the name of the channel. |
| `Execution.JudgedIsLatest` | backend/app/runtime/edges.py:75-77 | The text a condition looks up is the latest output of all, and the empty text before the first. |
| `Execution.ConditionsJudgeLatest` | backend/app/runtime/edges.py:75-105 | At every step of every run a condition goes low if and only if the latest output of all fails its test and budget is left. |
| `Termination.StepsLeftDecrease` | backend/app/runtime/edges.py:78-105 | Every step of a forward-acyclic graph lowers the bound on the steps still to come. |
| `Termination.HaltsWithinBound` | backend/app/runtime/graph_builder.py:54-80 | Whatever the agents answer, a graph without a reachable cycle of plain edges and ok branches ends within N * (1 + sum of max(0, max_loops)) steps. |
| `Termination.SmallGraphsFinish` | backend/app/runtime/graph_builder.py:54-80 | Where that bound is at most 100, the recursion limit is never hit. |
| `EndlessRuns.LongRunComesBack` | backend/app/runtime/graph_builder.py:54-80 | Pigeonhole: a run longer than N * (1 + sum of budgets) steps comes back to a node without having spent budget on the way. |
| `EndlessRuns.ComesBackForever` | backend/app/runtime/edges.py:75-105 | Where no channel leads straight to a condition: from such a run, agents can be given answers that keep a run going for ever, each condition judging the latest text. |
| `EndlessRuns.BoundIsExact` | backend/app/runtime/graph_builder.py:54-80 | Where no channel leads straight to a condition, for extractors that both kinds of verdict can be got from: all runs end, for all answers, if and only if all end within N * (1 + sum of max(0, max_loops)) steps: one longer run means an endless one. |
| `EndlessRuns.SomeReadIsExpressive` | backend/app/runtime/edges.py:81-105 | Some extractor is such that for every threshold some text speaks for passing in every respect and some against: what the converse results suppose can be met. |
| `EndlessRuns.LimitIsExact` | backend/app/runtime/graph_builder.py:54-80 | Where, besides, that bound is at most 100, some run hits the recursion limit if and only if some run never ends. |
| `RepeatingRuns.RecorderCloses` | backend/app/runtime/nodes.py:174-213 | Back at an agent or channel with the first output unchanged, some answer leaves the same texts as the last time: a channel passes on the clipped first output, so its own text can be kept by delivering it. |
| `RepeatingRuns.LongRunMeansEndless` | backend/app/runtime/graph_builder.py:54-80 | In any graph, a run longer than 2 * N * (1 + sum of budgets) steps can be turned into an endless one on the same task: the same answers up to some step of it, one answer that closes a stretch, and then the answers of that stretch over and over. |
| `RepeatingRuns.TwiceBoundIsExact` | backend/app/runtime/graph_builder.py:54-80 | For every runnable graph, task and extractor: all runs end, for all answers, if and only if all end within 2 * N * (1 + sum of max(0, max_loops)) steps. |
| `RepeatingRuns.TwiceLimitIsExact` | backend/app/runtime/graph_builder.py:54-80 | For every runnable graph, task and extractor, where twice the bound is at most 100: some run hits the recursion limit if and only if some run never ends. |
| `CycleTest.CycleNeverHalts` | backend/app/runtime/graph_builder.py:54-80 | Where each condition judges the agent right before it, a reachable cycle of forward steps lets some answers keep a run going for ever. |
| `CycleTest.HaltsExactly` | backend/app/runtime/graph_builder.py:54-80 | Where each condition judges the agent right before it, every run ends, for all answers, if and only if no reachable node lies on a cycle of plain edges and ok branches. |
| `CycleTest.CompiledIsFedByAgents` | backend/app/runtime/graph_builder.py:83-244 | That each condition judges the agent right before it can be read off the edges of the stored graph. |
| `CycleTest.DevIsFedByAgents` | backend/app/services/workflow_service.py:202-245 | The seeded development pipeline is such a graph. |
| `CycleTest.BlankEntryHalts` | backend/app/runtime/edges.py:75-88 | A condition as entry judges the empty text and passes: every run ends although a cycle lies behind its low branch. |
| `CycleTest.SharedTextHalts` | backend/app/runtime/edges.py:75-90 | Two conditions on one text: every run ends although a cycle lies behind the ok branch of the second, since what the first failed the second cannot pass. |
| `CompiledWorkflow.AcceptedExactly` | backend/app/runtime/graph_builder.py:63-69 | A workflow with distinct ids that compiles gives a graph that the library accepts if and only if its entry, its wired edges, its closing edges and all branches of its conditions refer to nodes of a known type; nodes and edges that the runtime ignores do not matter. |
| `CompiledWorkflow.CompiledIsRunnable` | backend/app/runtime/graph_builder.py:83-244 | A workflow with distinct ids that compiles meets the conditions that the run theorems need if and only if the library accepts its graph and it has no fan-out. |
| `CompiledWorkflow.ForwardOrigin` | backend/app/runtime/graph_builder.py:136-244 | A forward step of the compiled graph is a resolved ok branch or an unlabelled edge of the stored graph. |
| `CompiledWorkflow.StepBoundOfCompiled` | backend/app/runtime/graph_builder.py:83-172 | The bound of the compiled graph is the one read off the stored graph: nodes times one plus the loop budgets. |
| `CompiledWorkflow.RankedWorkflow` | backend/app/runtime/graph_builder.py:83-244 | If plain edges and ok branches climb some numbering, the compiled graph is runnable and free of forward cycles. |
| `Seeds.DevPipelineFinishes` | backend/app/services/workflow_service.py:202-245 | The seeded development pipeline compiles, its bound is 40 steps, and every run ends below the limit, whatever the agents answer. |
| `Seeds.SupportTriageFinishes` | backend/app/services/workflow_service.py:511-544 | The seeded triage loop compiles, its bound is 16 steps, and every run ends below the limit. |
| `Editor.SimpleToDrawflow` | ui/js/workflow-graph.js:191-261 | The two loops draw exactly the edges with known ends whose source has the port, each connection in stored order at its port. |
| `Editor.DrawflowToSimple` | ui/js/workflow-graph.js:276-340 | The loops read nodes in order and edges by node, then port, then connection, skipping connections to unknown nodes. |
| `Editor.AgentsByNameMeaning` | ui/js/workflow-graph.js:194-197 | Of several agents with one name in the list, the last one counts. |
| `Editor.AgentsByNameKeys` | ui/js/workflow-graph.js:194-197 | The names known are exactly those in the list. |
| `Editor.LoadAndSave` | ui/js/workflow-graph.js:191-340 | Opening and saving is the composition of the two. |
| `Editor.ReadConnectionExactly` | ui/js/workflow-graph.js:314-337 | A connection to a known node is saved with its loop budget, labelled ok or low by its port if it leaves a condition and not at all otherwise; one to an unknown node is not saved. |
| `Editor.ReadConnectionsJoin` | ui/js/workflow-graph.js:314-337 | The connections of a port are saved one by one, in order. |
| `Editor.ReadNodeExactly` | ui/js/workflow-graph.js:283-311 | What is saved of a node in the editor: id, type, label and position, and the settings of its type that are not blank. |
| `EditorRoundTrip.RoundTripEdges` | ui/js/workflow-graph.js:233-258 | The edges that come back are the drawable ones, normalised and stably sorted by (source position, port): sorted, and each port holds its own in stored order. |
| `EditorRoundTrip.SavedNodes` | ui/js/workflow-graph.js:191-231 | Every node comes back at its place with its id and type, and the id map is the same. |
| `EditorRoundTrip.RoundTripTwice` | ui/js/workflow-graph.js:191-340 | Opening and saving twice gives what doing it once gives, even if the agent list changed in between. |
| `EditorAndRuntime.RegroupingKeepsTargets` | backend/app/runtime/graph_builder.py:140-153 | Moving the low branches behind the others changes neither resolution, fallbacks included. |
| `EditorAndRuntime.BranchesSurviveSaving` | ui/js/workflow-graph.js:233-258 | Every condition with known targets resolves to the same ok and low targets after the editor saved it; its budget becomes 3. |
| `SavedWorkflow.SavedEdges` | ui/js/workflow-graph.js:233-258 | An edge is in the saved graph if and only if it is the normalised form of a drawable one. |
| `SavedWorkflow.PlainEdgesAfterSaving` | ui/js/workflow-graph.js:314-337 | Saving wires exactly the plain edges wired before, and also every edge whose label (other than low) the runtime used to ignore. |
| `SavedWorkflow.SavingWiresIgnoredEdge` | backend/app/runtime/graph_builder.py:191-202 | The case in which saving does change the wiring: an edge labelled ok between two agents is ignored before, wired after. |
| `SavedWorkflow.SettingsAfterSaving` | ui/js/workflow-graph.js:201-231 | Every setting of a saved node, default position included. An agent known by name becomes the id that the list has for that name; a blank field, an unnamed channel and the name itself do not survive, and exactly these change what a run reads. |
| `SavedBlueprint.CompiledAfterSaving` | ui/js/workflow-graph.js:191-340 | A workflow in which only conditions label their edges and no edge leaves an end compiles after saving to the same edges, closing edges, routes and entry, or fails with the same error; node functions differ at most in loops (three), a blank field and an unnamed channel. |
| `SavedBlueprint.SavingKeepsBlueprintExactly` | ui/js/workflow-graph.js:191-340 | The compiled graph is the very same after saving if and only if every condition has a budget of three and no blank field, and every channel is named. |
| `SavedRuns.RunsPartExactly` | backend/app/runtime/edges.py:78-105 | Two graphs that differ in budgets only: in one world their runs agree for n steps if and only if at none of these a condition has budget left in one graph alone. |
| `SavedRuns.SavedRunsAgreeExactly` | ui/js/workflow-graph.js:233-258 | In one world, the runs before and after saving agree for n steps, outputs and counts included, if and only if at none of these a condition fails with a count below one of its own budget and three but not below both. |
| `SavedWorkflow.SavedWorkflowFinishes` | backend/app/runtime/graph_builder.py:136-139 | A ranked workflow that the editor saved still ends, and its bound has three loops for each condition. |
| `SavedWorkflow.DevPipelineFinishesAfterSaving` | backend/app/services/workflow_service.py:202-245 | The development pipeline, its budgets of two lost to the editor, still ends under the limit; its bound is then 56. |
| `RunRecord.WorkflowRun.constructor` | backend/app/repositories/run_repository.py:94-103 | A new run is pending, with no times, no error and the flag down. |
| `RunRecord.WorkflowRun.MarkRunning` | backend/app/repositories/run_repository.py:105-111 | The whole new row: running, started now, error cleared. |
| `RunRecord.WorkflowRun.MarkCompleted` | backend/app/repositories/run_repository.py:113-118 | The whole new row: completed, finished now. |
| `RunRecord.WorkflowRun.MarkFailed` | backend/app/repositories/run_repository.py:120-126 | The whole new row: failed, finished now, the error clipped to 4000 characters. |
| `RunRecord.WorkflowRun.MarkCancelled` | backend/app/repositories/run_repository.py:128-135 | The whole new row: cancelled, flag up, finished now, the reason clipped. |
| `RunRecord.WorkflowRun.RequestCancel` | backend/app/repositories/run_repository.py:137-141 | Raises the flag and leaves every other column as it is by then. |
| `RunRecord.WorkflowRun.IsCancelRequested` | backend/app/repositories/run_repository.py:143-145 | Reads the flag. |
| `RunLifecycle.StepKeepsSound` | backend/app/services/run_service.py:189-280 | Every read and every write, of the worker or of a caller, keeps the row sound and lets it evolve only forward; a pending run never jumps to completed. |
| `RunLifecycle.ReachableIsSound` | backend/app/services/run_service.py:189-280 | In every interleaving: finished_at is set iff the run is terminal, completed implies started and no error, cancelled implies the flag. |
| `RunLifecycle.RowEvolves` | backend/app/services/run_service.py:189-280 | Between any two moments: terminal states never change, running never goes back, the flag is never taken down. |
| `RunLifecycle.NothingStartsAfterCancel` | backend/app/runtime/cancellation.py:12-15 | Once the flag is up no node body starts, and at most the one already past its check finishes. |
| `RunLifecycle.FinishedWereStarted` | backend/app/runtime/nodes.py:34-44 | In every interleaving, no more bodies finish than have passed a check, one that is running included. |
| `RunLifecycle.OutsideSteps` | backend/app/services/run_service.py:73-89 | What cancel calls and crashes can touch: the flag and who waits to raise it, and where the worker stands. |
| `RunLifecycle.WaysOn` | backend/app/services/run_service.py:189-280 | What the worker can do next, from each place in its course. |
| `RunLifecycle.CancelledExactly` | backend/app/services/run_service.py:202-263 | After a cancel commits, a run that ends is cancelled if and only if the worker comes to read the flag again. |
| `RunLifecycle.BoundToBeCancelledExactly` | backend/app/services/run_service.py:202-263 | What is known when a cancel commits: every way the run can end from there is cancelled if and only if it has not ended and the worker is idle, or about to read the flag. |
| `RunLifecycle.CancelCanComeTooLate` | backend/app/services/run_service.py:73-89 | An accepted cancel can land on a run that then completes, after its last check. |
| `RunExecution.CancelRun` | backend/app/services/run_service.py:73-89 | Refuses finished runs, answers an already requested one without a write, and otherwise raises the flag and leaves the rest alone; this is the read and the write of the lifecycle, one after the other. |
| `RunExecution.ExecuteRun` | backend/app/services/run_service.py:189-280 | Whatever API calls do before any access, the worker follows the lifecycle and ends the run: completed only if a workflow is found and neither a node nor the graph raises, failed only if not, with the clipped message; every node body due has then run, and every call that comes has been heard. Without cancel calls the outcome is settled by the initial row and these facts alone. |
| `RunExecution.OpenRun` | backend/app/services/run_service.py:199-224 | The part before the graph: a finished run stays as it is, a flagged one is cancelled, one without workflow fails, and any other is running and goes on. |
| `RunExecution.LookUpAndBegin` | backend/app/services/run_service.py:212-224 | A run without workflow fails with the message; any other is running, since now if it was pending. |
| `RunExecution.RunGraph` | backend/app/runtime/nodes.py:34-44 | Node after node: it is through only if nothing raises, fails only if something does, and then has run the bodies of exactly the nodes before the first that raises; a flag that is up stops it at the first node that reads it. |
| `RunExecution.RunNode` | backend/app/runtime/nodes.py:34-44 | A node other than an end reads the flag first; if it is up, or the body raises, the node ends the graph and its body does not count as run. |
| `RunExecution.RunNodes` | backend/app/runtime/graph_builder.py:80 | Nodes are run until one ends the graph: the first that raises, or one that finds the flag up. |
| `RunExecution.RunToEnd` | backend/app/services/run_service.py:226-276 | The write after the graph matches how it ended: cancelled, failed with the message, or completed. |
| `Redis.Store.AcquirePollingLock` | backend/app/channels/telegram_polling.py:46-57 | Granted exactly when the lock is free or expired, then held for 45 s; no other key changes. |
| `Redis.Store.RenewPollingLock` | backend/app/channels/telegram_polling.py:60-71 | Succeeds exactly for the holder of a live lock, and then extends it; no other key changes. |
| `Redis.Store.ReleasePollingLock` | backend/app/channels/telegram_polling.py:104-112 | Frees the lock exactly when the caller holds it; no other key changes. |
| `Redis.Store.MarkUpdateSeen` | backend/app/channels/telegram_polling.py:74-85 | New exactly when the key is not live; then it is marked for 3600 s; the lock is untouched. |
| `Redis.UpdateKeyInjective` | backend/app/channels/telegram_polling.py:79-82 | Two update ids never share a key. |
| `Redis.LockKeyIsApart` | backend/app/channels/telegram_polling.py:18-20 | No update shares a key with the lock. |
| `PollingLease.GuardStays` | backend/app/channels/telegram_polling.py:60-71 | Every step keeps this: a polling replica leads, or lost the lock so late that its successor started late. |
| `PollingLease.LeavesExactly` | backend/app/channels/telegram_polling.py:119-124 | A replica leaves its loop exactly at a look that finds the stop event set or at a renewal when it does not lead. |
| `PollingLease.PollsExactly` | backend/app/channels/telegram_polling.py:119-129 | A poll begins exactly at a renewal by the leader, which then holds the lock for 45 s; it ends only by itself or by a crash. |
| `PollingLease.LockExactly` | backend/app/channels/telegram_polling.py:46-112 | The lock goes exactly to who acquires it while it is free or renews it while leading, and is freed only by its holder, on leaving or when a stop call returns. |
| `PollingLease.StopEventExactly` | backend/app/channels/telegram_polling.py:157-215 | The stop event is set by stop calls and cleared by starts, and by nothing else. |
| `PollingLease.OthersStay` | backend/app/channels/telegram_polling.py:115-154 | A replica changes by its own steps only, and time passes by ticks only. |
| `PollingLease.AtFirst` | backend/app/channels/telegram_polling.py:22-30 | At first nobody polls, no stop event is set, and the lock is free. |
| `PollingLease.NobodyIsStuck` | backend/app/channels/telegram_polling.py:115-215 | Every replica can take the step it is about to take, a start after 2 s and the return of a stop call after 25 s at the latest; and it can crash at any moment. |
| `PollingLease.NewLeaderPolls` | backend/app/channels/telegram_polling.py:157-194 | A replica that finds the lock free starts to poll 2 s later, as leader. |
| `PollingLease.LeaderPollsAgain` | backend/app/channels/telegram_polling.py:118-139 | A leader without a stop call polls again after each poll. |
| `PollingLease.StopCallStops` | backend/app/channels/telegram_polling.py:197-215 | A stop call takes effect at the next look: the replica lets the lock go and is off. |
| `PollingLease.RunIsOk` | backend/app/channels/telegram_polling.py:115-194 | Over every run the timing invariant holds, and with safe timing no two replicas poll at once. |
| `PollingLease.ExclusionExactly` | backend/app/channels/telegram_polling.py:115-194 | No two replicas are ever inside getUpdates at once if and only if the timing is safe: without stop calls, renewal to end of poll under 47 s; with them, min(stop check to renewal, 25 s) plus renewal to end of poll under 27 s. |
| `PollingLease.SafeMeans` | backend/app/channels/telegram_polling.py:20-21 | Safe timing in seconds: 47 from renewal to end of poll without stop calls, 27 from the look with them. |
| `PollingLease.LapsedLeaves` | backend/app/channels/telegram_polling.py:119-124 | A replica whose lease lapsed starts no further poll until it acquires anew, and its next renewal makes it leave its loop. |
| `UpdateDedup.HandedOncePerWindow` | backend/app/channels/telegram_polling.py:88-101 | Over every interleaving of all replicas an integer id is handed over if and only if it was not within the last 3600 s, so two hand-overs are that far apart. |
| `UpdateDedup.StepsExactly` | backend/app/channels/telegram_polling.py:74-101 | A delivery touches the mark of its own update and the hand-overs, the lock is apart from all marks, and marks outlast ticks. |
| `UpdateDedup.RunKeepsMarks` | backend/app/channels/telegram_polling.py:74-85 | Every mark in Redis is a hand-over and every hand-over is marked for as long as it lasts. |
| `UpdateDedup.BatchHandsOver` | backend/app/channels/telegram_polling.py:130-137 | One batch hands over each new id once, at its first place, and every update without an integer id, in order. |
| `UpdateDedup.OffsetAfterBatch` | backend/app/channels/telegram_polling.py:133-135 | The next offset is one more than the last integer id of the batch, or unchanged if there is none. |
| `UpdateDedup.OffsetStaysAbove` | backend/app/channels/telegram_polling.py:115-139 | Over any number of ascending batches the offset stays above every id handled. |
| `UpdateDedup.Poller.Enqueue` | backend/app/channels/telegram_polling.py:88-101 | One update: handed over unless its id is already marked. |
| `UpdateDedup.Poller.Round` | backend/app/channels/telegram_polling.py:125-154 | One round: the batch loop, or the doubled and capped back-off after a conflict, or the pause after any other error. |
| `ToolRunner.RunToolCalls` | backend/app/runtime/tool_runner.py:71-80 | The inner loop executes, reports and answers every call in order. |
| `ToolRunner.InvokeAgentLlm` | backend/app/runtime/tool_runner.py:39-88 | At most max_iterations model calls, each sent the conversation of the rounds before it; the limit is reported if and only if all of them asked for tools; otherwise the answer is the first response that did not. |
| `ToolRunner.AnswersAreAi` | backend/app/runtime/tool_runner.py:45-68 | The answer is an AI message: the own one of the model, or one with the text of its response and no tool calls. |
| `ToolRunner.ConversationIsBlocks` | backend/app/runtime/tool_runner.py:70-80 | The conversation is the original messages, then per round one AI message and one tool message per call, in call order, under the id of the call or its name for want of one, with what the tool gave for that call; the log reports the same results. |
| `WorkflowNames.CandidatesDiffer` | backend/app/services/workflow_service.py:574-582 | No two candidate names look up the same stored name, blank base included. |
| `WorkflowNames.CandidatesAre` | backend/app/services/workflow_service.py:574-582 | The names tried are the base, then the base followed by (2), (3), and so on. |
| `WorkflowNames.CheckedNameExactly` | backend/app/schemas/workflow.py:6-19 | A name is accepted exactly if it has 1 to 255 characters without the white space around it, and is stored without that. |
| `WorkflowNames.TakenCandidatesAreFew` | backend/app/services/workflow_service.py:574-582 | Pigeonhole: no more candidates can be taken than there are names. |
| `WorkflowNames.WorkflowTable.GetByName` | backend/app/repositories/workflow_repository.py:52-57 | Finds a row of the kind whose name is the trimmed one, exactly when there is one. |
| `WorkflowNames.WorkflowTable.NextAvailableName` | backend/app/services/workflow_service.py:574-582 | Ends within (number of names + 1) lookups with the first free candidate. |
| `WorkflowNames.WorkflowTable.CreateWorkflow` | backend/app/services/workflow_service.py:55-66 | Refuses bad and taken names exactly, otherwise appends the row; names stay unique. |
| `WorkflowNames.WorkflowTable.DuplicateFromTemplate` | backend/app/services/workflow_service.py:110-137 | The copy gets the first free candidate and is never refused as taken: only for not being of a template, or for a blank or too long name. |
| `WorkflowNames.WorkflowTable.UpdateWorkflow` | backend/app/services/workflow_service.py:68-89 | Exactly which renames are refused, and that all other rows stay. |
| `WorkflowNames.UpdateKeepsUniqueExactly` | backend/app/services/workflow_service.py:73-78 | An update keeps names unique if and only if it is not one that keeps the name and changes the kind onto a name the other kind has. |
| `WorkflowNames.KindChangeCollides` | backend/app/services/workflow_service.py:73-78 | The concrete case: a workflow turned into a template ends up with the name of another template. |
| `ChannelLinks.RunIsSound` | backend/app/services/channel_service.py:75-117 | After any sequence of operations active links are one-to-one between agents and chats, and no two links share a conversation run. |
| `ChannelLinks.LookupHasOneAnswer` | backend/app/repositories/channel_repository.py:38-51 | After any sequence of operations the lookup by chat id finds the same link in whatever order rows are scanned. |
| `ChannelLinks.LinkingMeaning` | backend/app/services/channel_service.py:95-111 | Linking is refused for a chat exactly when another agent answers it; otherwise the agent moves from its old chat to the new one and all other chats are as before. |
| `ChannelLinks.LinkingExactly` | backend/app/services/channel_service.py:95-111 | Linking moves an active link of the agent to the chat, keeping its id and run, or adds one with a new id and no run; all other rows stay, and a refusal changes nothing. |
| `ChannelLinks.RefusalsExactly` | backend/app/services/channel_service.py:75-98 | Every fault of the form is reported at once: a blank chat id, an unknown agent, a type other than telegram; a taken chat only if there is none. |
| `ChannelLinks.DeletionExactly` | backend/app/services/channel_service.py:113-117 | Deleting a link, or an agent with its links, removes exactly those rows. |
| `ChannelLinks.ResetExactly` | backend/app/services/channel_service.py:397-407 | A reset makes the link of the chat forget its run and does nothing else. |
| `ChannelLinks.ConversationExactly` | backend/app/services/channel_service.py:409-444 | A message gets the run of its link while that exists, else a new one with a new id, if there is a workflow; all other rows stay. |
| `ChannelLinks.UnlinkedChatsStay` | backend/app/services/channel_service.py:397-444 | For a chat without an active link nothing changes. |
| `ChannelLinks.ChannelService.GetTelegramByChatId` | backend/app/repositories/channel_repository.py:38-51 | The scan stops at the first active Telegram link of the chat. |
| `ChannelLinks.ChannelService.GetActiveTelegramForAgent` | backend/app/repositories/channel_repository.py:53-63 | The active Telegram link of the agent with the highest id. |
| `ChannelLinks.ChannelService.LinkAgent` | backend/app/services/channel_service.py:75-111 | All errors of the form at once, then the taken chat, then update of the prior link or a new row: the whole new table. |
| `ChannelLinks.ChannelService.DeleteLink` | backend/app/services/channel_service.py:113-117 | Deletes exactly that link. |
| `ChannelLinks.ChannelService.ResetConversation` | backend/app/services/channel_service.py:397-407 | Forgets the conversation run of the link of this chat and nothing else. |
| `ChannelLinks.ChannelService.EnsureConversationRun` | backend/app/services/channel_service.py:409-444 | Reuses the stored run while it exists, else stores a fresh one, and fails exactly when a fresh one needs a workflow that is not there. |
| `AgentMap.AgentLinksFromGraph` | backend/app/services/workflow_service.py:596-621 | The loop ends with one link per agent node with an id and an agent, or with the first error. |
| `AgentMap.AcceptedExactly` | backend/app/services/workflow_service.py:596-621 | A graph is accepted if and only if no two linked nodes share a trimmed id and every agent they name exists. |
| `AgentMap.LinksAreAskedFor` | backend/app/services/workflow_service.py:596-621 | The links are exactly those that some node asks for. |
| `AgentMap.Workflow.SaveGraph` | backend/app/services/workflow_service.py:95-108 | A refused graph changes nothing; an accepted one replaces graph and links and counts the version up. |
| `AgentMap.AgentsForWorkflow` | backend/app/services/run_service.py:382-410 | The two loops: the stored links first, then what the graph nodes name by id or by name, without overwriting. |
| `AgentMap.RunMapExactly` | backend/app/services/run_service.py:382-410 | After an accepted save, and until an agent is deleted, the run map has exactly the ids of nodes that name an agent, and a node that names one by id gets that agent. |
| `AgentMap.NodesRunTheirAgents` | backend/app/runtime/graph_builder.py:109-126 | After an accepted save, and until an agent is deleted, a node that names its agent by id runs that agent, if the graph compiles. |
| `AgentMap.NamedExactly` | backend/app/services/run_service.py:399-409 | A node comes to the agent with its id if there is one, else to the one with its name. |
| `AgentMap.FirstNodeCounts` | backend/app/services/run_service.py:393-409 | Of several nodes with one id that no link row settles, the first that names an agent counts. |
| `AgentMap.LastLinkCounts` | backend/app/services/run_service.py:385-388 | Of several link rows for one node, the last whose agent exists counts. |
| `AgentMap.SavedGraphFindsItsAgents` | backend/app/runtime/graph_builder.py:113-116 | Such a graph never compiles to a missing agent if every node that runs as an agent is named one, and compiles only if so; an explicit type and agent id on each is enough. |
| `Pagination.PagesMakeTheList` | backend/app/web/pagination.py:89-107 | The slices of all pages, one after the other, are the list. |
| `Pagination.IndicesAreHonest` | backend/app/web/pagination.py:26-44 | The start and end index name exactly the slice shown; a next (previous) page is offered exactly when items follow (precede). |
| `Pagination.NothingToShow` | backend/app/web/pagination.py:20-44 | An empty list has the indices 0 and 0 and no page before or after. |
| `Pagination.PageSizes` | backend/app/web/pagination.py:83-86 | Ten items a page by default, and between 1 and 100 whatever is asked for. |
| `Pagination.FetchedAgreesExactly` | backend/app/web/pagination.py:83-107 | Fetching by offset and limit agrees with slicing if and only if the request is not past the last page (or the list is empty). |
| `Pagination.BuiltAgreesExactly` | backend/app/web/pagination.py:89-137 | The whole page built from a fetch agrees with the sliced one if and only if the request is not past the last page, an empty list counting as one page. |
| `Pagination.PastTheLastPage` | backend/app/web/pagination.py:83-137 | The concrete case: one item and a request for page 2 show page 1 without the item. |
| `Pagination.PageNumbers` | backend/app/web/pagination.py:50-70 | The numbers shown: strictly increasing from 1 to the last page, exactly those within 2 of the current one besides the ends, a gap marker exactly where pages are skipped, at most 9 entries. |
| `ToolsField.ParsedAreNames` | backend/app/services/agent_service.py:355-363 | Whatever is typed, every parsed name is trimmed, not empty, and free of commas and newlines. |
| `ToolsField.SeparatorsSeparate` | backend/app/services/agent_service.py:355-363 | A comma separates names, and so does a newline: the names of a text are those before it and then those after it. |
| `ToolsField.OneName` | backend/app/services/agent_service.py:355-363 | A text without separators is one name, trimmed, or none if it is blank. |
| `ToolsField.PrintedParsesExactly` | backend/app/api/web/agents.py:52 | Printing and parsing gives a list back if and only if it consists of such names, with either kind of line end. |
| `ToolsField.ReparseIsStable` | backend/app/services/agent_service.py:355-363 | For every raw text, parsing what is printed for its parse gives the same list. |

## Left out

- Language models, LangGraph, Celery delivery, SQLAlchemy and Postgres: outputs are arbitrary, a run is a single
  token, a row write is atomic. What LangGraph checks of its own (reserved characters in names, say) is not modelled.
- Graphs that fan out (a node other than a condition with several plain edges to nodes): merging concurrent writes is library behaviour.
- Text extraction (`edges.py` lines 7-55): the extractors are an arbitrary function of the text. `RepeatingRuns` supposes
  nothing of it; `EndlessRuns` and `CycleTest` suppose, for the converse (an endless run exists), that for every
  threshold some text speaks for passing in every respect and some against, as the JSON objects the extractors look for do.
- CycleTest.HaltsExactly: supposes that each condition judges the agent right before it, which the two examples beside
  it show to be needed, and that both verdicts can occur at each; for other graphs there is RepeatingRuns.TwiceBoundIsExact.
- EndlessRuns.BoundIsExact, EndlessRuns.LimitIsExact, EndlessRuns.ComesBackForever: not claimed for graphs in which a
  run comes from a channel straight to a condition. What a channel records is derived from the first output of the run,
  so such a verdict cannot be chosen again later; RepeatingRuns.TwiceBoundIsExact and RepeatingRuns.TwiceLimitIsExact
  cover these graphs with twice the bound.
- SavedBlueprint.CompiledAfterSaving: for workflows in which another node's edge has a label, or an edge leaves an end, only
  the plain edges are compared (SavedWorkflow.PlainEdgesAfterSaving); a type that is the empty string becomes agent.
- Handoff messages, usage, logs, `next_agent_id` (only the chain it is read from is modelled); delivery by a channel succeeds or not, and does not raise.
- JSON entries that are no objects, a type of null, loop budgets that are no integers, and thresholds that are no numbers.
- Editor nodes without a name (their class or "agent" stands in), the editor's input-side connection lists, HTML and DOM code, `prepareGraphForEditor`, and ids that are names of
  built-in object properties.
- Two workers on one run, deletion of agents or workflows during a run, and failing log writes.
- RunLifecycle.CancelledExactly: a worker that dies and is never restarted leaves the run unfinished; the lemma speaks of runs that end.
- Redis being unavailable (the helpers then answer true) and `reset_telegram_connections` (it deletes the lock
  unconditionally): both void lease and de-duplication by design.
- PollingLease.ExclusionExactly: renew (get, expire) and release (get, delete) are one Redis step each; taken
  apart, exclusion does not hold. Start and stop calls of one process do not overlap, clocks agree, and polling is the whole getUpdates call.
- UpdateDedup.Poller.Round: handing over does not raise; if it does, the update stays marked and is skipped later.
  Updates whose id is a boolean count as having no integer id.
- ToolRunner.InvokeAgentLlm: content blocks of messages are plain text, and tool errors are ordinary results.
- Links, names and rows are changed one request at a time; the races between check and write of two requests are not modelled.
- Pagination.TotalPages: `ceil` of a float quotient is the exact one.
- WorkflowNames.WorkflowTable.UpdateWorkflow: only name and kind; descriptions, versions and graphs are other columns.
- Publishing, mail, authentication, routes, schemas (except the name rules), migrations, and page templates.
