# Hermes OS: planning, supervision, conversations, checkpoints and subtitles, verified

This project models the parts of Hermes OS in which a wrong step is hard to see, and proves what they keep. A model
follows the form of its source: what the source changes in place is a class whose methods change fields, and each
such method is proved against a specification on values; the properties are proved about that specification, over every
run.

| files | source | what they hold |
|---|---|---|
| `Dag`, `Kahn`, `Levels`, `ExecutionGraphs` | `backend/agent/execution_graph.py` | paths and cycles; the Kahn loop; levels as longest paths; the mutable graph |
| `TaskLists`, `Durations`, `Planner` | `backend/agent/task_planner.py` | validity of task lists, the four strategies, the duration estimate, `create_plan` |
| `Lifecycle` | `backend/agent/lifecycle.py` | the agent state machine and its manager |
| `Missions`, `MissionRuns`, `MissionTheorems`, `MissionControls`, `MissionRounds`, `MissionHopes`, `Supervisors` | `backend/agent/supervisor.py` | missions as a state machine, its invariant, its theorems, what the controls do to agents, the exact number of rounds, which missions can still complete, and the supervisor object shown to be that machine |
| `EngineRuns`, `EngineRounds`, `Engines` | `backend/agent/execution_engine.py` | the engine as a state machine, the exact number of its rounds, and the engine object on top of the supervisor |
| `ConversationStore`, `Conversations`, `ConversationTurns`, `ConversationManagers` | `backend/conversation/` | the two tables, the evicting cache against a map that never evicts, what each operation adds to a conversation, and the manager object |
| `Checkpoints` | `backend/checkpoints/repli_fichiers.py` | the hashed copy, its check and its restoration |
| `Subtitles` | `scripts/sous_titres_lune.py` | cutting lines into cards and timing the cards |
| `Collections`, `Texts`, `Results` | | facts about sets and maps, white space, and the error datatypes that stand for exceptions |

`dafny verify dfyconfig.toml` checks everything.

## Main results

* **Leaves are enough.** The supervisor looks only at leaves, and yet in every run a completed mission has every node
  completed. A node that has left PENDING has all its ancestors completed, it never runs twice, nothing below a failed
  node is ever started, and no tick leaves a running mission that has tasks with nothing running and nothing failed.
* **Which missions can still complete** is known exactly, in every reachable state: those that are READY, RUNNING or
  PAUSED, have a task, no empty id and no FAILED node, and have for every RUNNING node an agent that runs, is paused
  or has completed. From each such state a run completes the mission; from no other state does any.
* **The number of rounds is exact.** When every agent completes between two ticks, tick k starts exactly level k-1,
  and a plan of L levels completes at tick L+1 and not before, if and only if it has a task and no task has the empty
  id. The engine keeps the same schedule on its own graph, whatever the ids are. The supervisor object is always in a
  state that a run reaches, so every theorem about runs applies to it.
* **Levels are longest paths**, they are unique, and no other assignment of rounds places a node earlier or uses
  fewer.
* **Kahn's loop is exact** with dangling edges, duplicates and self-loops: the nodes it never reaches are exactly
  those on or behind a cycle. The graph API keeps the graph acyclic, and `add_edge` refuses exactly the edges that
  would dangle or close a cycle.
* **Planning succeeds exactly** on clean lists, unless a strategy that adds no edges meets a list with both a
  dependency and an isolated task. No edge that is offered to the graph is refused, and every strategy keeps every
  declared order: SEQUENTIAL links consecutive tasks, CONSERVATIVE every task to all later ones, and the other two
  exactly what is declared.
* **The cache cannot be seen.** For every run with any evictions, lookups agree with one map that never evicts. `sync`
  only appends and repairs what earlier calls missed. Every operation adds exactly its messages, in order, each with
  its own role.
* **Controls reach the agents.** A pause, a resumption and a cancel change exactly the agents of their mission, and in
  every reachable state no agent of a cancelled mission is left at work.
* **A checkpoint round trip is exact**, and a restoration reaches the snapshot if and only if no directory stands
  where a file must go or the other way round.
* **Greedy cutting is optimal**, cards never overlap, each card has its share of the line's time, and the last card of
  each line ends with its recording.

## What the code does otherwise than its prose

* The supervisor ignores an agent whose task id is empty (`backend/agent/supervisor.py:415`), while the planner
  accepts such a task: a mission with one never completes. Nor does a mission without tasks, which is accepted and
  started too (`EmptyTaskIdNeverCompletes`, `NoTasksNeverCompletes`, `DoomedListsAreAccepted`).
* `tick` promises to make a mission FAILED when an irrecoverable error occurs (`backend/agent/supervisor.py:383`). No
  tick ever does (`OnlyCreationFails`). A tick looks for completed and failed agents only; when an agent is timed out,
  cancelled on its own or cleaned up, its node is RUNNING for ever and its mission never completes (`LostForEver`,
  `LostRun`). `CanCompleteIff` gives the exact condition under which a mission is not lost.
* `create_mission` promises a mission that is READY or FAILED, and a failed start an engine that is FAILED. A failed
  validation of the generated graph is not caught. The mission is left in PLANNING exactly when the list is clean but
  has an isolated task beside a dependency, under a strategy that adds no edges (`Planner.LeavesOrphan`,
  `Supervisors.MultiAgentSupervisor.CreateMission`), and the engine in INITIALIZING exactly when this happens to one
  of its two plannings (`Engines.ExecutionEngine.Start`). The list a, b after a, c alone does it
  (`OneAsideLeavesOrphan`).
* `start_mission` promises to start a mission that is READY, and `cancel_mission` to cancel one in whatever state. A
  PAUSED mission starts too, while its agents stay paused (`StartLeavesAgents`), and one that has ended is not cancelled
  (`MissionControls.WaysInto`).
* The engine reports success when every node has ended, well or badly; that means "all completed" exactly when all
  leaves are completed (`SuccessMeansAllDoneIff`). A run whose only task fails ends COMPLETED with a report of success
  (`SuccessWithFailedLeaf`).
* After a tick that leaves nothing running, the engine stays RUNNING for ever exactly when it has no task at all, or
  something is pending and no pending node has all its dependencies FAILED (`StuckExactly`). A run reaches such a
  state with three tasks (`StuckRun`). Of all engines, those without tasks and those with a dependency can get there,
  and no others: cancelling the agents of the first tick is enough (`CanGetStuckIff`).
* Recovery does not help an engine that has failed in a tick: it never completes afterwards, and every tick fails
  again (`RecoveryFailsAgain`). An engine that failed in its own start, because its planner refused the list or the
  supervisor knew the mission, recovers with success, and then stays RUNNING for ever without a graph
  (`RecoveryOfUnstarted`). When only the supervisor's planner refused, the mission is FAILED there, and no recovery
  succeeds (`Engines.ExecutionEngine.Start`, `Recover`).
* The lifecycle module calls `started_at` the latest start and `execution_count` the number of starts; the code keeps
  the first start and counts endings. SCHEDULED and WAITING, which it documents, are never entered.
* `validate_tasks` lets a task name itself as a dependency; only the cycle check that follows refuses it.
* `rafraichir_resume` holds its session while the model answers. If the conversation was evicted, loaded again and
  changed meanwhile, the late write loses no message but puts back the old status and context, until the next write of
  the live session, or for good when that has been evicted too (`LateSummary`, `LaterSyncRepairs`,
  `LateSummaryUncached`). Every idle conversation can get there with one question (`LateSummaryRollsBack`). After an
  eviction alone the late write does what it should.
* An empty line of narration has no length to share its time by: its card ends when it begins.

## Conventions

Exceptions are values of `Result`. Dictionaries are maps and their iteration order is arbitrary, so what is proved
holds for any order. A fresh `uuid4` is a datatype or a parameter that differs from all that exist; `time.time()` is a
parameter, read once per operation, positive and not decreasing where that matters; the runtime selector is any total
function. A method holding a lock is one step. Complexities, durations and clock readings are reals.

## Model

| member | source | states |
|---|---|---|
| Kahn.CountDegrees | backend/agent/execution_graph.py:129-135 | in-degrees count the edges with both ends present, duplicates included, and adjacency lists their targets |
| Kahn.Release | backend/agent/execution_graph.py:143-146 | lowering the successors' degrees queues each node exactly when its last open edge is gone |
| Kahn.Run | backend/agent/execution_graph.py:137-146 | the queue loop lists distinct nodes, each after all its predecessors, and stops only when every other node waits for another; it terminates by the nodes not yet listed |
| Kahn.VisitedIffNotAfterCycle | backend/agent/execution_graph.py:118-151 | a node is left out exactly when a cycle leads to it |
| Kahn.CompleteIffAcyclic | backend/agent/execution_graph.py:118-151 | the loop lists every node exactly when the edges form no cycle |
| ExecutionGraphs.DetectCycles | backend/agent/execution_graph.py:118-151 | no error exactly for acyclic graphs; otherwise the one error names exactly the nodes on or behind a cycle |
| ExecutionGraphs.CheckInvalidReferences | backend/agent/execution_graph.py:154-165 | reports exactly the edge ends that name no node |
| ExecutionGraphs.CheckOrphanNodes | backend/agent/execution_graph.py:168-189 | reports exactly the nodes no edge touches, and only if some edge exists |
| ExecutionGraphs.Validate | backend/agent/execution_graph.py:192-202 | clean exactly when the graph is acyclic, has no dangling edge and no orphan |
| Levels.LevelOf | backend/agent/execution_graph.py:463-485 | the level loop gives every node a level that each edge raises and that is 0 or one above some predecessor |
| Levels.Buckets | backend/agent/execution_graph.py:487-494 | the buckets partition the nodes without a gap |
| Levels.LevelsAreLongestPaths | backend/agent/execution_graph.py:463-494 | level l is exactly the set of nodes whose longest incoming path has length l |
| Levels.LevelingIsUnique | backend/agent/execution_graph.py:463-494 | the local rules of the level loop fix the levels |
| Levels.LevelIsEarliest | backend/agent/execution_graph.py:463-494 | no assignment of rounds that every edge raises places a node before its level |
| Levels.LevelsAreFewest | backend/agent/execution_graph.py:463-494 | no such assignment uses fewer rounds than there are levels |
| ExecutionGraphs.DependencyMap | backend/agent/execution_graph.py:458-461 | every node is listed with the sources of its incoming edges |
| ExecutionGraphs.ExecutionGraph.constructor | backend/agent/execution_graph.py:244-258 | takes unchecked edges; a later node replaces an earlier one with the same id |
| ExecutionGraphs.LatestIsLast | backend/agent/execution_graph.py:244-258 | the node that is kept is the one after which no other has its id |
| ExecutionGraphs.ExecutionGraph.AddNode | backend/agent/execution_graph.py:264-278 | refuses a known id, otherwise adds the node and changes nothing else |
| ExecutionGraphs.ExecutionGraph.RemoveNode | backend/agent/execution_graph.py:280-298 | removes the node and every edge that touches it, and nothing else |
| ExecutionGraphs.WithoutInPlace | backend/agent/execution_graph.py:280-298 | every other edge stays in its place, as often as it was there |
| ExecutionGraphs.ExecutionGraph.AddEdge | backend/agent/execution_graph.py:322-350 | succeeds exactly when both ends exist and the edge closes no cycle; otherwise the graph is as before |
| ExecutionGraphs.ExecutionGraph.RemoveEdge | backend/agent/execution_graph.py:352-369 | removes the first edge between the two nodes |
| ExecutionGraphs.RemoveFirstAt | backend/agent/execution_graph.py:352-369 | exactly one edge goes: the others keep their order, and no earlier one matched |
| ExecutionGraphs.ExecutionGraph.GetNode | backend/agent/execution_graph.py:300-311 | the node stored under the id, or an error exactly when the id is unknown |
| ExecutionGraphs.ExecutionGraph.GetRoots | backend/agent/execution_graph.py:380-384 | the nodes without an incoming edge |
| ExecutionGraphs.ExecutionGraph.GetLeaves | backend/agent/execution_graph.py:386-390 | the nodes without an outgoing edge |
| ExecutionGraphs.ExecutionGraph.TopologicalSort | backend/agent/execution_graph.py:392-421 | every node once, every edge forward; fails exactly on a cycle |
| ExecutionGraphs.ExecutionGraph.GeneratePlan | backend/agent/execution_graph.py:440-507 | succeeds exactly on valid graphs, with order, levels and dependencies as specified |
| ExecutionGraphs.ApiKeepsSound | backend/agent/execution_graph.py:264-369 | any sequence of API calls from the empty graph leaves it acyclic without dangling edges |
| ExecutionGraphs.AddEdgeExact | backend/agent/execution_graph.py:322-350 | on such a graph add_edge accepts exactly the edges after which the graph is again such |
| ExecutionGraphs.ApiPlanFailsOnlyOnOrphans | backend/agent/execution_graph.py:440-455 | on such a graph only the orphan check can make generate_plan fail |
| Dag.AddEdgeAcyclic | backend/agent/execution_graph.py:335-349 | adding an edge to an acyclic graph closes a cycle exactly when its target already reaches its source |
| Dag.PathToLeaf | backend/agent/supervisor.py:462-467 | in an acyclic graph every node reaches a leaf |
| Planner.ValidateTasks | backend/agent/task_planner.py:138-166 | reports exactly the duplicate ids, the complexities out of range and the dependencies on tasks not listed so far |
| Planner.ValidateCycleAmongTasks | backend/agent/task_planner.py:169-197 | no error exactly when the known dependencies form no cycle |
| Planner.ValidateCapabilities | backend/agent/task_planner.py:200-223 | reports exactly the tasks whose capability is not available, when a list is given |
| Planner.ValidatePlan | backend/agent/task_planner.py:226-242 | no error exactly on clean lists |
| TaskLists.ValidIffWellOrdered | backend/agent/task_planner.py:138-197 | no fault and no cycle exactly when ids are unique, complexities in range and every dependency stands strictly earlier: list order is a topological order |
| Planner.MakeSequential | backend/agent/task_planner.py:458-475 | each task depends on the one before it, and on nothing else |
| Planner.MakeConservative | backend/agent/task_planner.py:478-497 | each task keeps its dependencies and gains all earlier tasks |
| TaskLists.RewrittenIsClean | backend/agent/task_planner.py:445-497 | every strategy turns clean lists into clean lists |
| TaskLists.DeclaredOrderKept | backend/agent/task_planner.py:445-497 | under all four strategies every declared dependency still has a path to its task |
| TaskLists.ChainsHaveNoIsolated | backend/agent/task_planner.py:458-497 | SEQUENTIAL and CONSERVATIVE isolate no task |
| Planner.NextEdgeAccepted | backend/agent/task_planner.py:522-531 | on a clean list no add_edge of the graph construction can fail |
| Planner.TasksToGraph | backend/agent/task_planner.py:500-533 | one pending node per task, and as edges exactly the declared dependencies, each once |
| Planner.EstimateDuration | backend/agent/task_planner.py:536-559 | the sum over the levels of the heaviest complexity in each |
| Durations.ChainFits | backend/agent/task_planner.py:536-559 | the estimate is at least the total of every dependency chain |
| Durations.AtMostTotal | backend/agent/task_planner.py:536-559 | the estimate is at most the sum of all complexities |
| Durations.ChainedIsTotal | backend/agent/task_planner.py:536-559 | under SEQUENTIAL and CONSERVATIVE it is exactly that sum |
| Durations.BalancedIsNoLonger | backend/agent/task_planner.py:536-559 | BALANCED and PARALLEL never estimate more than the chained strategies |
| Planner.OrphanIffIsolated | backend/agent/task_planner.py:500-533 | the graph has an orphan exactly when some task is isolated and some dependency exists |
| Planner.PlannableIffSchedulable | backend/agent/task_planner.py:289-343 | on clean lists the generated graph is valid exactly under the condition of the strategy |
| Planner.TaskPlanner.CreatePlan | backend/agent/task_planner.py:289-343 | fails with a planning error exactly when an id is repeated, a dependency does not stand earlier, a complexity is out of range or a capability is missing, and succeeds exactly on plannable lists; then the graph links each task to the next one (SEQUENTIAL), to all later ones (CONSERVATIVE), or exactly where a dependency is declared (BALANCED, PARALLEL), with its levels and the estimate |
| Planner.TaskPlanner.SetStrategy | backend/agent/task_planner.py:276-283 | changes the strategy of later plans and nothing else |
| Planner.SequentialEdges | backend/agent/task_planner.py:458-475 | under SEQUENTIAL the edges are exactly those between consecutive tasks of the list |
| Planner.ConservativeEdges | backend/agent/task_planner.py:478-497 | under CONSERVATIVE the edges are exactly those from every task to every later one |
| Planner.DeclaredEdges | backend/agent/task_planner.py:445-456 | under BALANCED and PARALLEL the edges are exactly the declared dependencies |
| Planner.TaskKept | backend/agent/task_planner.py:500-533 | no strategy changes anything of a task but its dependencies, and each task has a pending node with its capability, its kind and the first 200 characters of its title |
| TaskLists.IsolatedMeans | backend/agent/execution_graph.py:168-189 | the lists that leave an orphan have a dependency, and a task that has none and is none |
| Planner.OneAsideLeavesOrphan | backend/agent/supervisor.py:252-285 | a concrete list that passes every validator and whose graph is rejected: the promise "READY or FAILED" fails on it |
| Lifecycle.AgentLifecycleManager.CreateAgent | backend/agent/lifecycle.py:204-238 | a known id is refused; a new agent is READY and nothing else changes |
| Lifecycle.AgentLifecycleManager.Transition | backend/agent/lifecycle.py:440-508 | moves along the table of transitions only, and otherwise leaves every agent as it was |
| Lifecycle.WaysInto | backend/agent/lifecycle.py:140-151 | the table read backwards: from which states each state can be entered |
| Lifecycle.MovedRecords | backend/agent/lifecycle.py:472-505 | what a transition writes down: the first start, or the end with its time, its duration and the two counts, and nothing else |
| Lifecycle.AgentLifecycleManager.ResumeAgent | backend/agent/lifecycle.py:275-304 | resumes exactly paused agents, although it bypasses the transition table |
| Lifecycle.AgentLifecycleManager.CheckTimeouts | backend/agent/lifecycle.py:409-428 | times out exactly the running agents whose start lies further back than the limit, and touches no other |
| Lifecycle.AgentLifecycleManager.Cleanup | backend/agent/lifecycle.py:386-407 | removes exactly the agents that have ended longer ago than the age, and counts them |
| Lifecycle.AgentLifecycleManager.CompleteAgent | backend/agent/lifecycle.py:324-334 | completes exactly running agents |
| Lifecycle.AgentLifecycleManager.FailAgent | backend/agent/lifecycle.py:336-346 | fails exactly running agents, and waiting ones, which never occur |
| Lifecycle.AgentLifecycleManager.GetAgent | backend/agent/lifecycle.py:352-365 | the agent stored under the id, or an error exactly when the id is unknown |
| Lifecycle.RunIsCoherent | backend/agent/lifecycle.py:204-508 | over every run: finished_at is set exactly in terminal states, execution_count is 1 exactly there, failures is 1 exactly when FAILED, WAITING and SCHEDULED never occur, and the duration is the end minus the first start |
| Lifecycle.RunIsStable | backend/agent/lifecycle.py:440-508 | terminal states are absorbing and the first start time is fixed through pause and resume |
| Supervisors.SyncGraph | backend/agent/supervisor.py:408-446 | phase 1 puts the mission's completed and failed agents down in the graph, and nothing else |
| Supervisors.Assess | backend/agent/supervisor.py:448-472 | phase 2 tells an invalid graph, an empty one, one whose leaves are all completed, and one that goes on |
| Supervisors.ConsiderNode | backend/agent/supervisor.py:478-538 | one new running agent for a pending node with completed dependencies and a task, and no change otherwise |
| Supervisors.DispatchReady | backend/agent/supervisor.py:474-538 | exactly the ready nodes get one new running agent each and become RUNNING |
| Supervisors.MultiAgentSupervisor.CreateMission | backend/agent/supervisor.py:214-285 | is a creation step; the mission is left in PLANNING exactly when the graph of a clean list has an orphan, and is READY or FAILED otherwise |
| Supervisors.MultiAgentSupervisor.StartMission | backend/agent/supervisor.py:287-304 | is a start step exactly from READY and PAUSED, and otherwise an error that changes nothing |
| Supervisors.MultiAgentSupervisor.PauseMission | backend/agent/supervisor.py:306-326 | exactly from RUNNING: every running agent of the mission is PAUSED and no other agent changes; otherwise an error that changes nothing |
| Supervisors.MultiAgentSupervisor.ResumeMission | backend/agent/supervisor.py:328-348 | exactly from READY and PAUSED: every paused agent of the mission is RUNNING and no other agent changes; otherwise an error that changes nothing |
| Supervisors.MultiAgentSupervisor.CancelMission | backend/agent/supervisor.py:350-370 | exactly from states that have not ended: every agent of the mission that had not ended is CANCELLED and no other agent changes; otherwise an error that changes nothing |
| MissionControls.WaysInto | backend/agent/supervisor.py:150-159 | from which states a mission can enter each state |
| MissionControls.StartLeavesAgents | backend/agent/supervisor.py:287-304 | a start changes the state alone, from READY or PAUSED; the agents of a paused mission stay paused |
| MissionControls.PauseStopsAgents | backend/agent/supervisor.py:306-326 | a pause makes every running agent of the mission PAUSED and changes no other |
| MissionControls.ResumeStartsAgents | backend/agent/supervisor.py:328-348 | a resumption makes every paused agent of the mission RUNNING, with its first start time, and changes no other |
| MissionControls.CancelEndsAgents | backend/agent/supervisor.py:350-370 | a cancel makes every agent of the mission that has not ended CANCELLED and changes no other |
| MissionControls.CancelledIsQuiet | backend/agent/supervisor.py:350-370 | in every reachable state all agents of a cancelled mission have ended |
| MissionControls.LaunchedAgent | backend/agent/supervisor.py:503-525 | a started node's agent runs since then, for its mission and task, with the task's capability and the runtime selected for it |
| Supervisors.MultiAgentSupervisor.TickMission | backend/agent/supervisor.py:398-540 | is a tick step of the state machine on this mission, leaves the others alone, and reports a change exactly when the plan has a task |
| Supervisors.MultiAgentSupervisor.Tick | backend/agent/supervisor.py:376-396 | ticks every mission that is running at its beginning exactly once, as a run of such steps, and returns exactly those whose plan has a task |
| MissionRuns.NextKeepsInv | backend/agent/supervisor.py:214-540 | every operation of the supervisor or of an agent keeps the invariant |
| MissionRuns.ReachableInv | backend/agent/supervisor.py:214-540 | the invariant holds in every reachable state |
| MissionRuns.NextIsReachable | backend/agent/supervisor.py:214-540 | every operation leads from a reachable state to a reachable one; the supervisor object never leaves them |
| Missions.LeavesDoneMeansAllDone | backend/agent/supervisor.py:462-472 | when all leaves are completed, so is every node |
| MissionTheorems.CompletedMeansAllDone | backend/agent/supervisor.py:462-472 | a completed mission has every node completed, in every reachable state |
| MissionTheorems.DispatchIsSafe | backend/agent/supervisor.py:474-538 | a node that is not PENDING has all its ancestors completed and exactly one agent, carrying its id |
| MissionTheorems.PendingHasNoAgent | backend/agent/supervisor.py:474-538 | a pending node has no agent: each node leaves PENDING with at most one |
| MissionTheorems.RunAdvances | backend/agent/supervisor.py:398-540 | between any two states of a run statuses only move forward, COMPLETED and FAILED stay, agents are only added and ended missions stay ended |
| MissionTheorems.FailureIsContained | backend/agent/supervisor.py:398-540 | once a node has failed no descendant is ever started and the mission never completes |
| MissionTheorems.FailureNeverCompletes | backend/agent/supervisor.py:398-540 | a mission with a failed node, leaf or not, never completes |
| MissionTheorems.TickMakesProgress | backend/agent/supervisor.py:398-540 | after any tick of a running non-empty mission it is completed or some node is running or has failed |
| MissionTheorems.EmptyTaskIdNeverCompletes | backend/agent/supervisor.py:414-416 | a mission with a task whose id is empty never completes |
| MissionTheorems.NoTasksNeverCompletes | backend/agent/supervisor.py:456-460 | a mission whose plan has no task is started and never completes |
| MissionTheorems.DoomedListsAreAccepted | backend/agent/task_planner.py:138-166 | a list of one task with the empty id and a list without tasks pass validation under every strategy |
| MissionRounds.RoundBound | backend/agent/supervisor.py:398-540 | with agents that complete between ticks, tick k starts exactly level k-1, and tick L+1, no earlier one, completes |
| MissionRounds.RoundBoundIff | backend/agent/supervisor.py:398-540 | under that schedule the mission completes at tick L+1 exactly when it has a task and no task id is empty |
| MissionHopes.LostForEver | backend/agent/supervisor.py:408-446 | in every run, a RUNNING node whose agent was timed out, cancelled on its own or cleaned up is RUNNING ever after, and its mission never completes |
| MissionHopes.LostRun | backend/agent/supervisor.py:408-446 | a run from the empty supervisor that loses the agent of a running mission's only task |
| MissionHopes.OnlyCreationFails | backend/agent/supervisor.py:376-395 | in every run, a mission is FAILED from its creation or never: no tick makes it so |
| MissionHopes.CanCompleteIff | backend/agent/supervisor.py:235-540 | some run completes the mission exactly when it has completed, or it is READY, RUNNING or PAUSED with a task, without an empty id, without a FAILED node, and with a completed, running or paused agent for every RUNNING node |
| Engines.GetReadyTasks | backend/agent/execution_engine.py:202-246 | exactly the pending nodes with completed dependencies, each once |
| Engines.FindAgent | backend/agent/execution_engine.py:791-801 | some agent with this task id, whoever created it, or none if there is none |
| Engines.SyncAgentStates | backend/agent/execution_engine.py:786-801 | each running node takes over the end of an agent with its task id, all others stay |
| EngineRuns.SyncDecides | backend/agent/execution_engine.py:786-801 | a node becomes FAILED only through a failed or timed-out agent, SKIPPED only through a cancelled one and COMPLETED only through a completed one, and stays RUNNING only while some agent has not ended or there is none |
| EngineRuns.SyncAgrees | backend/agent/execution_engine.py:786-801 | when all agents of a running node have failed or timed out it is FAILED, when all were cancelled SKIPPED, when all have completed COMPLETED, and when none has ended RUNNING |
| Engines.HasGraphFailed | backend/agent/execution_engine.py:866-906 | true exactly when something failed or was skipped and some pending node has all its dependencies FAILED |
| Engines.ExecutionEngine.Start | backend/agent/execution_engine.py:413-499 | succeeds exactly from IDLE for an unknown mission that both planners accept. Otherwise the engine is INITIALIZING exactly when one of the two graphs of a clean list has an orphan, and FAILED in all other cases; it has a mission id and a graph afterwards only when the supervisor's planner alone found the list unclean, and then the supervisor's mission is FAILED |
| Engines.ExecutionEngine.Pause | backend/agent/execution_engine.py:501-518 | only from RUNNING; the engine is PAUSED in any case, and the answer is an error exactly when the supervisor's mission is unknown or not RUNNING; if it is RUNNING it is paused, and otherwise the supervisor is as before |
| Engines.ExecutionEngine.Resume | backend/agent/execution_engine.py:520-537 | only from PAUSED; the engine is RUNNING in any case, and the answer is an error exactly when the supervisor's mission is unknown or cannot run; otherwise it is resumed |
| Engines.ExecutionEngine.Cancel | backend/agent/execution_engine.py:539-559 | is a cancel step, from states that have not ended; the supervisor's mission is cancelled, or it is unknown or final, and then there is an error and no result |
| EngineRuns.ControlSteps | backend/agent/execution_engine.py:501-604 | from which states the engine is paused, resumed, cancelled and recovered, and that nothing but its state and the result's flag changes |
| Engines.ForwardedMeans | backend/agent/execution_engine.py:515-555 | which request reaches the supervisor, and for which states of its mission it is refused |
| Engines.ForwardedReachesAgents | backend/agent/execution_engine.py:515-555 | after an accepted pause no agent of the mission runs, after an accepted resumption none is paused, after an accepted cancel all have ended |
| Engines.ExecutionEngine.Recover | backend/agent/execution_engine.py:561-604 | succeeds exactly when there is no mission or the supervisor's exists and has not failed; a paused one is resumed, and nothing else changes there |
| Engines.RecoveryReachesAgents | backend/agent/execution_engine.py:573-577 | a recovery gets a paused mission of the supervisor going with all its paused agents; it fails exactly when that mission has failed or is unknown |
| Engines.ExecutionEngine.DispatchTask | backend/agent/execution_engine.py:684-748 | the node becomes RUNNING and exactly one new agent, with its task id and runtime, runs for it |
| Engines.ExecutionEngine.DispatchReady | backend/agent/execution_engine.py:643-648 | exactly the ready nodes become RUNNING, each with exactly one new running agent, and no other agent changes |
| Engines.HiredAgent | backend/agent/execution_engine.py:684-748 | a started node's agent runs since then, for the engine's mission and the node, with the node's capability and the runtime decided on |
| Engines.ExecutionEngine.Tick | backend/agent/execution_engine.py:610-678 | the supervisor's ticks run first, one per running mission; against the agents they leave the graph is synchronised, its ready nodes are started with one agent each, and the verdict follows; this is a tick of the engine's state machine |
| Engines.TookIsTick | backend/agent/execution_engine.py:610-678 | such a turn is a tick of the engine's state machine |
| EngineRuns.BlockedTickFails | backend/agent/execution_engine.py:644-673 | when failures and timeouts leave a pending node with none but FAILED dependencies, that very tick ends FAILED |
| EngineRuns.TickFailsIff | backend/agent/execution_engine.py:866-906 | a tick ends FAILED exactly when something has ended badly and all dependencies of some pending node have FAILED |
| EngineRuns.TickCompletesIff | backend/agent/execution_engine.py:855-864 | a tick ends COMPLETED exactly when there are nodes and all have ended |
| EngineRuns.DispatchIsSafe | backend/agent/execution_engine.py:202-246 | in every run, whatever the agents report, a node that is not PENDING has all its ancestors completed |
| EngineRuns.RunAdvances | backend/agent/execution_engine.py:610-678 | ended nodes stay as they are and every node leaves PENDING at most once |
| EngineRuns.FailureIsContained | backend/agent/execution_engine.py:610-678 | nothing behind a failed or skipped node is ever dispatched |
| EngineRuns.CompletedFailsOnlyAtLeaves | backend/agent/execution_engine.py:855-864 | in a completed engine every node that something depends on is completed |
| EngineRuns.CompletedReportsSuccess | backend/agent/execution_engine.py:651-655 | a completed engine always reports success |
| EngineRuns.SuccessMeansAllDoneIff | backend/agent/execution_engine.py:651-655 | that report means every node completed exactly when every leaf is |
| EngineRuns.SuccessWithFailedLeaf | backend/agent/execution_engine.py:651-655 | a run whose only task fails and that ends COMPLETED with success |
| EngineRuns.StuckExactly | backend/agent/execution_engine.py:855-896 | with nothing running after a tick, the engine goes on exactly when there is no task at all, or some node is pending and none has all its dependencies FAILED; then no later tick changes anything |
| EngineRuns.StuckRun | backend/agent/execution_engine.py:866-896 | a run from everything pending to one completed and one failed dependency of a third node, after which no tick changes anything |
| EngineRuns.CanGetStuckIff | backend/agent/execution_engine.py:610-678 | some run brings a fresh engine to stay RUNNING for ever exactly when it has no task or some dependency |
| EngineRuns.RecoveryFailsAgain | backend/agent/execution_engine.py:561-604 | in every run of a started engine, once it has failed it never completes, and every later tick that finds it RUNNING makes it FAILED |
| EngineRuns.RecoveryOfUnstarted | backend/agent/execution_engine.py:577-642 | in every run of an engine whose start failed before it had a mission, it never completes, a recovery makes it RUNNING, and no tick changes it from then on |
| EngineRuns.UnstartedRecovers | backend/agent/execution_engine.py:577-604 | a run of such an engine: one recovery, after which it is RUNNING and no tick changes it |
| EngineRounds.RoundBound | backend/agent/execution_engine.py:610-678 | with agents that complete between ticks, after tick k exactly level k-1 runs and all earlier ones are completed; tick L+1, no earlier one, ends COMPLETED with every node completed, exactly when there is a task |
| ConversationStore.SqliteConversationStore.Sync | backend/conversation/conversation_store.py:139-179 | the tables become the specified ones and the number of new message rows is returned |
| ConversationStore.SqliteConversationStore.Load | backend/conversation/conversation_store.py:193-233 | a new session object with exactly what the tables give, or none if there is no row |
| ConversationStore.SqliteConversationStore.Delete | backend/conversation/conversation_store.py:181-189 | both tables forget the session; the answer tells whether it had a row |
| ConversationStore.RestoreContext | backend/conversation/conversation_store.py:205-208 | the declared fields are taken from the stored ones or their defaults, anything else is dropped |
| ConversationStore.SyncThenLoad | backend/conversation/conversation_store.py:139-233 | however long a prefix was stored, afterwards all messages are, numbered 0 to n-1, and loading gives the session back |
| ConversationStore.SyncOnlyAppends | backend/conversation/conversation_store.py:161-176 | no message row is changed or removed, new rows hold the messages at their own positions, other sessions are untouched |
| ConversationStore.SyncTwice | backend/conversation/conversation_store.py:139-179 | a second sync changes nothing |
| ConversationStore.SyncOfOlderSnapshot | backend/conversation/conversation_store.py:139-179 | syncing an older snapshot changes no message row and rolls the session row back |
| ConversationStore.NamesRoundTrip | backend/conversation/conversation_store.py:210-213 | statuses and roles survive their encoding |
| ConversationStore.DeleteForgets | backend/conversation/conversation_store.py:181-189 | nothing of the session is left and every other one loads as before |
| Conversations.UpdateCommutes | backend/conversation/conversation_manager.py:167-498 | no operation can tell a session from the form storage keeps of it |
| Conversations.EvictionIsInvisible | backend/conversation/conversation_manager.py:576-592 | dropping any sessions from the cache loses no conversation |
| Conversations.StepRefines | backend/conversation/conversation_manager.py:119-558 | each operation on cache and store acts as the same operation on one plain map |
| Conversations.Refines | backend/conversation/conversation_manager.py:119-592 | so does every run, whatever was evicted and whenever |
| Conversations.SameConversations | backend/conversation/conversation_manager.py:119-592 | after any run a lookup finds a conversation exactly when the plain map has it, with the same messages, status and context |
| ConversationTurns.QuestionIsKept | backend/conversation/conversation_manager.py:191-223 | begin_stream adds exactly the user's question and leaves PROCESSING |
| ConversationTurns.QuestionRenewsContext | backend/conversation/context_builder.py:32-56 | a question renews agents, workspace and security in the context, keeps the last five events, notes a memory hit, and leaves goal, mission, project, model and summary alone |
| ConversationTurns.AnswerIsKept | backend/conversation/conversation_manager.py:372-398 | finish_stream adds exactly Hermes's answer with its metadata, or nothing when it is blank, and leaves ACTIVE; an unknown conversation is ignored |
| ConversationTurns.ExchangeIsKept | backend/conversation/conversation_manager.py:400-449 | handle_message adds exactly the user's question and the reply, in this order, and leaves AWAITING_APPROVAL or ACTIVE as asked |
| ConversationTurns.ApprovalIsKept | backend/conversation/conversation_manager.py:451-475 | approve_action adds exactly the reply and leaves ACTIVE |
| ConversationTurns.CancellationIsKept | backend/conversation/conversation_manager.py:477-494 | cancel_action adds exactly the reply and leaves CANCELLED |
| ConversationTurns.ProjectIsKept | backend/conversation/conversation_manager.py:167-184 | set_project changes the project and no message, status or other attribute |
| ConversationTurns.SummaryIsKept | backend/conversation/conversation_manager.py:253-259 | a summary changes two attributes and nothing else, not even the time of the last update |
| ConversationTurns.NewConversationIsKept | backend/conversation/conversation_manager.py:149-161 | a new conversation is ACTIVE, without messages, and belongs to its user, or to nobody in particular |
| ConversationTurns.OthersStay | backend/conversation/conversation_manager.py:545-558 | a deletion forgets this conversation and no other |
| ConversationTurns.LookChangesNothing | backend/conversation/conversation_manager.py:163-165 | a lookup changes no conversation |
| Conversations.LateSummary | backend/conversation/conversation_manager.py:225-259 | a late write of an older session object changes no message row and puts its status and context back; cache and store still agree exactly when those were equal |
| Conversations.LaterSyncRepairs | backend/conversation/conversation_manager.py:104-117 | the next write of the live session repairs that |
| Conversations.LateSummaryUncached | backend/conversation/conversation_manager.py:225-259 | when the session is not in the cache, cache and store agree after the late write, no message is lost, and it acts as the operation exactly when the stored session differs from the snapshot in messages and summary at most |
| Conversations.LateSummaryRollsBack | backend/conversation/conversation_manager.py:191-259 | from every coherent state with an idle session, an eviction and a question lead to a state in which the late write breaks coherence, and with one more eviction the status goes back for good |
| ConversationManagers.SortedByAge | backend/conversation/conversation_manager.py:586-589 | all sessions once, from the least to the most recently updated |
| ConversationManagers.ConversationManager.CachedOrLoaded | backend/conversation/conversation_manager.py:119-138 | finds a session in the cache or the store, and caches it |
| ConversationManagers.ConversationManager.CleanupOldSessions | backend/conversation/conversation_manager.py:576-592 | nothing below 100; otherwise 90 stay, none of them older than one that goes |
| ConversationManagers.ConversationManager.CreateSession | backend/conversation/conversation_manager.py:149-161 | is a creation step after an eviction, and leaves at most 100 sessions in the cache |
| ConversationManagers.ConversationManager.BeginStream | backend/conversation/conversation_manager.py:191-223 | is the step that records the question, in a new session if there is none |
| ConversationManagers.ConversationManager.FinishStream | backend/conversation/conversation_manager.py:372-398 | is the step that records the answer, unless it is blank or the session is unknown |
| ConversationManagers.ConversationManager.HandleMessage | backend/conversation/conversation_manager.py:400-449 | is the step that records question and reply |
| ConversationManagers.ConversationManager.SetProject | backend/conversation/conversation_manager.py:167-184 | is the step that binds a known session to a project |
| ConversationManagers.ConversationManager.ApproveAction | backend/conversation/conversation_manager.py:451-475 | is the step that appends the reply and makes the session ACTIVE, or an error that changes nothing |
| ConversationManagers.ConversationManager.CancelAction | backend/conversation/conversation_manager.py:477-494 | is the step that appends the reply and makes the session CANCELLED, or an error that changes nothing |
| ConversationManagers.ConversationManager.BeginSummary | backend/conversation/conversation_manager.py:241-251 | is a lookup step that finds the live session exactly when a summary is needed: it has more than 24 messages, all but the last 20 are old, and no summary covers that many |
| ConversationManagers.ConversationManager.FinishSummary | backend/conversation/conversation_manager.py:253-259 | an empty answer changes nothing; otherwise the session gets the summary and the count taken before and is synced; on the cached object this is a step, and when the session has left the cache it is as good as one if the store has it as the object does |
| ConversationManagers.ConversationManager.GetSession | backend/conversation/conversation_manager.py:163-165 | is a lookup step and returns what it finds |
| ConversationManagers.ConversationManager.DeleteSession | backend/conversation/conversation_manager.py:545-560 | is the deletion step; the answer tells whether the conversation was stored |
| Checkpoints.Measure | backend/checkpoints/repli_fichiers.py:112-121 | the total size of the tracked files |
| Checkpoints.Checkpoint.Take | backend/checkpoints/repli_fichiers.py:124-152 | refuses exactly what is over the limit; otherwise the copy is there and intact exactly when no tracked path clashes with what the destination holds |
| Checkpoints.FindDamaged | backend/checkpoints/repli_fichiers.py:162-175 | exactly the entries whose copy is missing or has another hash |
| Checkpoints.Checkpoint.Verify | backend/checkpoints/repli_fichiers.py:155-175 | an error without a manifest, otherwise the damaged entries |
| Checkpoints.Directory.CopyFile | backend/checkpoints/repli_fichiers.py:206-209 | fails exactly when a file stands in the way of a parent or of the place inside a directory; onto a directory the file lands inside it; ignored files stay |
| Checkpoints.Directory.CopyFiles | backend/checkpoints/repli_fichiers.py:206-209 | in any order, without a clash the files are laid over the tree; with one, there is an error or a file is missing |
| Checkpoints.Checkpoint.Restore | backend/checkpoints/repli_fichiers.py:191-213 | a damaged copy changes nothing; an intact one reaches the snapshot exactly when no path clashes, ignored files stay, and the answer lists the files that had changed, those that were missing and those that were new |
| Checkpoints.RoundTrip | backend/checkpoints/repli_fichiers.py:124-213 | take, any edit, restore: with an injective hash every tracked file is back, no other is left and ignored files are as edited, exactly when no path of the snapshot clashes with the edited tree |
| Checkpoints.NoGapIffBack | backend/checkpoints/repli_fichiers.py:178-188 | the difference is empty exactly when every tracked file has its old content and no other is left |
| Checkpoints.GapTells | backend/checkpoints/repli_fichiers.py:178-188 | the difference lists the tracked files whose content has another hash, those that are gone and those that are new |
| Checkpoints.GapIsTheEdit | backend/checkpoints/repli_fichiers.py:178-188 | with an injective hash those are exactly the files edited, deleted and added since the snapshot |
| Checkpoints.IgnoredAtAnyDepth | backend/checkpoints/repli_fichiers.py:67-70 | a file is ignored when any part of its path, at any depth, has one of the ignored names |
| Checkpoints.GapNeedsNoClash | backend/checkpoints/repli_fichiers.py:201-209 | with an intact copy, what has to be written meets an obstacle exactly when some path of the manifest does |
| Subtitles.Pack | scripts/sous_titres_lune.py:69-79 | the cards are consecutive groups of the phrases that fit, and none could have taken one phrase more |
| Subtitles.Cut | scripts/sous_titres_lune.py:53-79 | texts of up to 62 characters and single phrases stay whole, all others become full groups of their phrases; a card is longer only if it is one phrase |
| Subtitles.PhrasesTellText | scripts/sous_titres_lune.py:64 | the text is its phrases with white space around and between them: no phrase could be cut further, and every phrase but the last ends with a mark |
| Subtitles.StaysAhead | scripts/sous_titres_lune.py:69-79 | the k-th card reaches at least as far as the k-th group of any other grouping |
| Subtitles.CutIsFewest | scripts/sous_titres_lune.py:53-79 | no consecutive grouping within the limit has fewer cards |
| Subtitles.CardsSayTheText | scripts/sous_titres_lune.py:69-79 | the cards, read in order, give all phrases back |
| Subtitles.AddCards | scripts/sous_titres_lune.py:99-114 | each card of a line begins and ends with its share of the duration by length, after the shares before it, in order and without overlap |
| Subtitles.CueTimes | scripts/sous_titres_lune.py:99-114 | a card ends with its share, and appears a tenth of a second before it is read, but not before zero nor before the card in front of it has gone |
| Subtitles.ClockAdvances | scripts/sous_titres_lune.py:115 | each line begins after all recordings and pauses before it; there is no pause where the list of pauses has ended |
| Subtitles.Segments | scripts/sous_titres_lune.py:82-116 | the cues are the cards of the lines in order, each line's cards share exactly its recording and the last of them ends with it; for positive durations and pauses that are not negative no card ends before it starts and no two overlap |

## Left out

- Event handlers, callbacks, logging, locks, statistics, `explain_plan`, `to_dict` and `from_dict`, `get_parallel_groups` and `estimate_wait_time`: they change nothing that is modelled.
- Titles, descriptions, priorities and free metadata of missions, tasks, nodes and agents; a node keeps its title, capability and type.
- Node statuses given as strings: the model has the enumeration only.
- `MultiAgentSupervisor.cleanup`, which deletes outside its loop; missions therefore never leave the table.
- The guard of a running mission without a plan: the invariant excludes it.
- The three copies of Kahn's loop (cycle check, topological sort, planner) are one loop here.
- Clock readings within one operation are one value; runtime selection is any total function that may give no runtime.
- In a tick the supervisor adds each agent to the mission at once; the model adds all agents of the tick at its end, which no one can see in between.
- Engines.FindAgent: does not model which of several agents with one task id comes first in the dictionary, because what is proved holds for any of them.
- Exceptions of the supervisor's tick that the engine swallows: the supervisor's tick never fails here.
- Conversation titles, `list_sessions`, `get_history` and the texts sent to the model; `build_context` is modelled with what it reads from the rest of the system as a parameter.
- JSON text: values are stored as they are. Timestamps are instants; the empty timestamp, which every constructor replaces, does not occur.
- Failed writes to the store, and a deletion that races with a load or a late write.
- The order of SQL rows other than by number, transactions, and the time zone texts of timestamps.
- Links, unreadable files, permissions, modification times and empty directories of a workspace; the checkpoint lies outside the workspace.
- Checkpoints.Checkpoint.Verify: does not model that the list is sorted, because sets are returned; likewise the three lists of a difference.
- The git half of checkpoints and the approval half of `checkpoint.py`, the agent registry, `backend/autonomous/`, routes, clients, the frontend and the installer: foreign calls or plumbing.
- Floating-point rounding in durations and subtitle times: they are reals. Writing the subtitle file is left out.
