/** backend/agent/execution_engine.py as an object, driving the supervisor and its own copy of the graph. */
module Engines {
  import opened Results
  import opened Dag
  import opened Kahn
  import opened TaskLists
  import opened Levels
  import opened EngineRuns
  import G = ExecutionGraphs
  import L = Lifecycle
  import P = Planner
  import C = MissionControls
  import M = Missions
  import R = MissionRuns
  import S = Supervisors

  // ---- ExecutionScheduler ----

  /** The pending nodes whose dependencies are completed, level by level. */
  method GetReadyTasks(graph: G.ExecutionGraph, plan: G.ExecutionPlan) returns (ready: seq<Id>)
    requires G.PlanFor(graph.nodes.Keys, graph.edges, plan)
    ensures NoDup(ready)
    ensures forall v :: v in ready <==> v in graph.nodes && M.IsReady(graph.Value(), v)
  {
    var ids := S.VisitOrder(graph.nodes.Keys, graph.edges, plan.levels);
    ready := [];
    for i := 0 to |ids|
      invariant NoDup(ready)
      invariant forall v :: v in ready <==> v in ids[..i] && M.IsReady(graph.Value(), v)
    {
      var v := ids[i];
      assert v in Elems(ids);
      assert ids[..i + 1] == ids[..i] + [v];
      assert v !in ids[..i];
      AppendNew(ready, v);
      var ok := S.DependenciesCompleted(graph.nodes, graph.edges, v, plan.dependencies[v]);
      if graph.nodes[v].status == G.Pending && ok {
        ready := ready + [v];
      }
    }
    assert ids[..|ids|] == ids;
    assert forall v :: v in ids <==> v in Elems(ids);
  }

  lemma AppendNew(s: seq<Id>, v: Id)
    requires NoDup(s)
    ensures v !in s ==> NoDup(s + [v])
  {
  }

  // ---- State synchronisation ----

  /** The inner loop of _sync_agent_states: the first agent found with this task id decides. */
  method FindAgent(agents: L.Agents, v: Id) returns (found: Option<L.AgentId>)
    ensures found.Some? ==> found.value in agents && agents[found.value].context.taskId == v
    ensures found.None? ==> forall a :: a in agents ==> agents[a].context.taskId != v
  {
    var rest := agents.Keys;
    while rest != {}
      invariant rest <= agents.Keys
      invariant forall a :: a in agents && a !in rest ==> agents[a].context.taskId != v
      decreases |rest|
    {
      var a :| a in rest;
      if agents[a].context.taskId == v {
        return Some(a);
      }
      rest := rest - {a};
    }
    return None;
  }

  method SyncAgentStates(graph: G.ExecutionGraph, agents: L.Agents)
    modifies graph`nodes
    ensures SyncsTo(old(graph.Value()), agents, graph.Value())
  {
    var rest := graph.nodes.Keys;
    ghost var before := graph.nodes;
    while rest != {}
      invariant rest <= graph.nodes.Keys == before.Keys
      invariant forall v :: v in rest ==> graph.nodes[v] == before[v]
      invariant forall v {:trigger Follows(before[v], agents, v, graph.nodes[v])} ::
                  v in before && v !in rest ==> Follows(before[v], agents, v, graph.nodes[v])
      decreases |rest|
    {
      var v :| v in rest;
      ghost var now := graph.nodes;
      rest := rest - {v};
      if graph.nodes[v].status == G.Running {
        var found := FindAgent(agents, v);
        if found.Some? {
          graph.nodes := graph.nodes[v := graph.nodes[v].(
            status := Settled(graph.nodes[v].status, agents[found.value].state))];
        }
      }
      assert Follows(before[v], agents, v, graph.nodes[v]);
      forall u | u in before && u !in rest && u != v ensures Follows(before[u], agents, u, graph.nodes[u]) {
        assert Follows(before[u], agents, u, now[u]);
      }
    }
  }

  // ---- Completion detection ----

  predicate IsGraphFinished(nodes: map<Id, G.AgentNode>) {
    nodes != map[] && forall v :: v in nodes ==> nodes[v].status in {G.Completed, G.Failed, G.Skipped}
  }

  /** All dependencies of one node are FAILED, by the plan's dependency lists; no dependencies means no. */
  method DependenciesFailed(nodes: map<Id, G.AgentNode>, ghost es: seq<Edge>, v: Id, deps: seq<Id>)
    returns (failed: bool)
    requires deps == Preds(es, v)
    ensures failed <==> AllPredsFailed(G.GraphValue(nodes, es), v)
  {
    failed := deps != [];
    for i := 0 to |deps|
      invariant failed <==> deps != [] && forall d :: d in deps[..i] ==> d in nodes && nodes[d].status == G.Failed
    {
      assert deps[..i + 1] == deps[..i] + [deps[i]];
      if deps[i] !in nodes || nodes[deps[i]].status != G.Failed {
        failed := false;
      }
    }
    assert deps[..|deps|] == deps;
    forall e | e in es && e.target == v ensures e.source in deps {
      PredsAreLinked(es, e.source, v);
    }
    forall d | d in deps ensures exists e :: e in es && e.target == v && e.source == d {
      PredsAreLinked(es, d, v);
    }
    if deps != [] {
      assert deps[0] in deps;
    }
  }

  method HasGraphFailed(graph: G.ExecutionGraph, plan: G.ExecutionPlan) returns (failed: bool)
    requires G.PlanFor(graph.nodes.Keys, graph.edges, plan)
    ensures failed <==> HasFailed(graph.Value())
  {
    var anyFailed := exists v :: v in graph.nodes && graph.nodes[v].status in {G.Failed, G.Skipped};
    if !anyFailed {
      return false;
    }
    failed := SomeBlocked(graph, plan);
  }

  /** Some pending node has dependencies, all of them FAILED. */
  method SomeBlocked(graph: G.ExecutionGraph, plan: G.ExecutionPlan) returns (blocked: bool)
    requires G.PlanFor(graph.nodes.Keys, graph.edges, plan)
    ensures blocked <==> !NoneBlocked(graph.Value())
  {
    ghost var g := graph.Value();
    var rest := set v | v in graph.nodes && graph.nodes[v].status == G.Pending;
    while rest != {}
      invariant forall v :: v in rest ==> v in g.nodes && g.nodes[v].status == G.Pending
      invariant forall v :: v in g.nodes && g.nodes[v].status == G.Pending && v !in rest ==> !AllPredsFailed(g, v)
      decreases |rest|
    {
      var v :| v in rest;
      blocked := DependenciesFailed(graph.nodes, graph.edges, v, plan.dependencies[v]);
      if blocked {
        return true;
      }
      rest := rest - {v};
    }
    return false;
  }

  // ---- The engine ----

  datatype EngineError = WrongState | PlanningError | SupervisorRefused | UncaughtValidation

  datatype StartEnd = Starts | Records | Refuses | Escapes

  function Target(c: M.Control): (state: M.MissionState) {
    match c
    case Pause => M.Paused
    case Resume => M.Running
    case Cancel => M.Cancelled
  }

  function Request(c: M.Control, mid: Id): (action: M.Action) {
    match c
    case Pause => M.PauseMission(mid)
    case Resume => M.ResumeMission(mid)
    case Cancel => M.CancelMission(mid)
  }

  /** A request has reached the supervisor: its mission has moved, or it refused and nothing has changed there. */
  ghost predicate Forwarded(
    c: M.Control, mid: Id, now: real, s: M.System, r: Result<(), EngineError>, s': M.System)
  {
    if mid in s.missions && M.CanMove(s.missions[mid].state, Target(c)) then
      r == Ok(()) && M.Next(s, Request(c, mid), now, s')
    else
      r == Err(SupervisorRefused) && s' == s
  }

  /** A recovery fails when the supervisor's mission has failed or is unknown; otherwise it resumes it if it is paused.
      Nothing else changes there. */
  ghost predicate ResumedIfNeeded(mission: Option<Id>, now: real, s: M.System, ok: bool, s': M.System) {
    && (ok <==> mission.Some? ==> mission.value in s.missions && s.missions[mission.value].state != M.Failed)
    && (if mission.Some? && mission.value in s.missions && s.missions[mission.value].state == M.Paused then
          M.Next(s, M.ResumeMission(mission.value), now, s')
        else
          s' == s)
  }

  /** What reaches the supervisor: a pause, of a mission that is RUNNING; a resumption, of one that is READY or PAUSED;
      a cancel, of one that has not ended. Anything else is refused. */
  lemma ForwardedMeans(mid: Id, now: real, s: M.System, r: Result<(), EngineError>, s': M.System)
    ensures forall c :: ForwardedIfAny(c, None, now, s, r, s') <==> r == Ok(()) && s' == s
    ensures forall c :: ForwardedIfAny(c, Some(mid), now, s, r, s') <==> Forwarded(c, mid, now, s, r, s')
    ensures Forwarded(M.Control.Pause, mid, now, s, r, s') <==>
      (if mid in s.missions && s.missions[mid].state == M.Running
       then r == Ok(()) && M.Next(s, M.PauseMission(mid), now, s') else r == Err(SupervisorRefused) && s' == s)
    ensures Forwarded(M.Control.Resume, mid, now, s, r, s') <==>
      (if mid in s.missions && s.missions[mid].state in {M.Ready, M.Paused}
       then r == Ok(()) && M.Next(s, M.ResumeMission(mid), now, s') else r == Err(SupervisorRefused) && s' == s)
    ensures Forwarded(M.Control.Cancel, mid, now, s, r, s') <==>
      (if mid in s.missions && s.missions[mid].state !in {M.Completed, M.Failed, M.Cancelled}
       then r == Ok(()) && M.Next(s, M.CancelMission(mid), now, s') else r == Err(SupervisorRefused) && s' == s)
  {
  }

  /** Cancelling an engine leaves no agent of its mission at work; pausing it leaves none running. */
  lemma ForwardedReachesAgents(c: M.Control, mid: Id, now: real, s: M.System, s': M.System, a: L.AgentId)
    requires Forwarded(c, mid, now, s, Ok(()), s')
    requires mid in s.missions && a in s.missions[mid].agents && a in s.agents
    ensures a in s'.agents
    ensures c.Pause? ==> s'.missions[mid].state == M.Paused && s'.agents[a].state != L.Running
    ensures c.Resume? ==> s'.missions[mid].state == M.Running && s'.agents[a].state != L.Paused
    ensures c.Cancel? ==>
      s'.missions[mid].state == M.Cancelled && s'.agents[a].state in {L.Completed, L.Failed, L.Cancelled, L.Timeout}
  {
    ForwardedMeans(mid, now, s, Ok(()), s');
    match c
    case Pause => C.PauseStopsAgents(s, mid, now, s');
    case Resume => C.ResumeStartsAgents(s, mid, now, s');
    case Cancel => C.CancelEndsAgents(s, mid, now, s');
  }

  /** A recovery gets a paused mission of the supervisor going again, agents included; it fails exactly when that
      mission has failed or is unknown. */
  lemma RecoveryReachesAgents(mid: Id, now: real, s: M.System, ok: bool, s': M.System)
    requires ResumedIfNeeded(Some(mid), now, s, ok, s')
    ensures ok <==> mid in s.missions && s.missions[mid].state != M.Failed
    ensures mid in s.missions && s.missions[mid].state == M.Paused ==>
      && s'.missions == s.missions[mid := s.missions[mid].(state := M.Running)]
      && s'.agents.Keys == s.agents.Keys
      && forall a :: a in s.agents && a in s.missions[mid].agents ==> s'.agents[a].state != L.Paused
    ensures mid !in s.missions || s.missions[mid].state != M.Paused ==> s' == s
  {
    if mid in s.missions && s.missions[mid].state == M.Paused {
      C.ResumeStartsAgents(s, mid, now, s');
    }
  }

  lemma RequestCreatesNoAgent(
    c: M.Control, mid: Id, now: real, s: M.System, r: Result<(), EngineError>, s': M.System)
    requires Forwarded(c, mid, now, s, r, s')
    ensures s'.agents.Keys == s.agents.Keys
  {
  }

  ghost predicate ForwardedIfAny(
    c: M.Control, mission: Option<Id>, now: real, s: M.System, r: Result<(), EngineError>, s': M.System)
  {
    if mission.Some? then Forwarded(c, mission.value, now, s, r, s') else r == Ok(()) && s' == s
  }

  class ExecutionEngine {
    const supervisor: S.MultiAgentSupervisor
    const planner: P.TaskPlanner
    const decide: string -> Option<string>
    var state: EngineState
    var missionId: Option<Id>
    var graph: G.ExecutionGraph
    var plan: G.ExecutionPlan
    var success: Option<bool>
    var taskStarts: map<Id, real>
    var serial: nat

    /** Before a successful start the graph is empty. */
    function Value(): (r: Engine)
      reads this, graph
    {
      Engine(state, graph.Value(), success)
    }

    ghost predicate Valid()
      reads this, graph, supervisor, supervisor.lifecycle, supervisor.Graphs()
    {
      && supervisor.Valid()
      && graph !in supervisor.Graphs()
      && G.PlanFor(graph.nodes.Keys, graph.edges, plan)
      && NextIdsAreNew(supervisor.lifecycle.agents, serial)
      && (state == Idle ==> success == None && missionId == None && graph.Value() == G.EmptyGraph)
    }

    constructor (supervisor: S.MultiAgentSupervisor, planner: P.TaskPlanner, decide: string -> Option<string>)
      requires supervisor.Valid() && supervisor.lifecycle.agents == map[]
      ensures this.supervisor == supervisor && this.planner == planner && this.decide == decide
      ensures Valid() && Value() == Engine(Idle, G.EmptyGraph, None) && fresh(graph)
    {
      this.supervisor := supervisor;
      this.planner := planner;
      this.decide := decide;
      state, missionId, success := Idle, None, None;
      graph := new G.ExecutionGraph([], []);
      plan := G.ExecutionPlan([], [], map[]);
      taskStarts := map[];
      serial := 0;
    }

    /** The supervisor's half of the planning. A planning error there does not show: it leaves a FAILED mission. */
    method Register(mid: Id, tasks: seq<PlannedTask>, now: real) returns (r: Result<(), EngineError>)
      requires supervisor.Valid()
      modifies supervisor`missions, supervisor`missionAgents
      ensures supervisor.Valid() && fresh(supervisor.Graphs() - old(supervisor.Graphs()))
      ensures r.Ok? ==> mid in supervisor.missions && mid !in old(supervisor.missions)
      ensures r.Ok? ==> (supervisor.missions[mid].state == M.Ready <==>
                           P.Plannable(supervisor.planner.strategy, tasks, supervisor.planner.available))
      ensures r.Ok? ==> supervisor.missions[mid].state in {M.Ready, M.Failed}
      ensures r.Err? ==> mid in old(supervisor.missions) ||
                         P.LeavesOrphan(supervisor.planner.strategy, tasks, supervisor.planner.available)
      ensures r.Err? ==> r.error in {UncaughtValidation, SupervisorRefused}
      ensures r == Err(UncaughtValidation) <==>
        && mid !in old(supervisor.missions)
        && P.LeavesOrphan(supervisor.planner.strategy, tasks, supervisor.planner.available)
    {
      var created := supervisor.CreateMission(mid, tasks, now);
      ghost var s := supervisor.View();
      assert s.missions.Keys == supervisor.missions.Keys;
      if created.Err? {
        return Err(if created.error.InvalidGraph? then UncaughtValidation else SupervisorRefused);
      }
      return Ok(());
    }

    /** How a start will end. A graph validation that fails, on either side, is a ValidationError that nobody catches; a
        list that only the supervisor's planner finds unclean is recorded there and raises nothing. */
    ghost function Foreseen(mid: Id, tasks: seq<PlannedTask>): (end: StartEnd)
      reads supervisor, planner, supervisor.planner
    {
      if P.LeavesOrphan(planner.strategy, tasks, planner.available) then Escapes
      else if !P.Plannable(planner.strategy, tasks, planner.available) || mid in supervisor.missions then Refuses
      else if P.LeavesOrphan(supervisor.planner.strategy, tasks, supervisor.planner.available) then Escapes
      else if P.Plannable(supervisor.planner.strategy, tasks, supervisor.planner.available) then Starts
      else Records
    }

    /** The engine's own half of the planning. */
    method PlanOwn(mid: Id, tasks: seq<PlannedTask>) returns (r: Result<G.ExecutionGraph, EngineError>)
      ensures r.Ok? <==> P.Plannable(planner.strategy, tasks, planner.available)
      ensures r.Ok? ==> fresh(r.value) && Untouched(r.value.Value())
      ensures r.Ok? ==> G.Schedulable(r.value.nodes.Keys, r.value.edges)
      ensures r.Ok? ==> P.EdgesOf(Rewritten(planner.strategy, tasks), r.value.edges)
      ensures r.Err? ==> r.error in {UncaughtValidation, PlanningError}
      ensures r == Err(UncaughtValidation) <==> P.LeavesOrphan(planner.strategy, tasks, planner.available)
    {
      var planned := planner.CreatePlan(mid, tasks);
      if planned.Err? {
        return Err(if planned.error.ValidationFailed? then UncaughtValidation else PlanningError);
      }
      R.InitialNodesArePending(planned.value.tasks, planned.value.graph.Value());
      return Ok(planned.value.graph);
    }

    /** The engine's graph and the supervisor's mission, made from the same tasks by two planners. */
    method PlanTwice(mid: Id, tasks: seq<PlannedTask>, now: real) returns (r: Result<G.ExecutionGraph, EngineError>)
      requires supervisor.Valid()
      modifies supervisor`missions, supervisor`missionAgents
      ensures supervisor.Valid() && fresh(supervisor.Graphs() - old(supervisor.Graphs()))
      ensures r.Ok? ==> mid in supervisor.missions && supervisor.missions[mid].state in {M.Ready, M.Failed}
      ensures r.Ok? ==> (supervisor.missions[mid].state == M.Ready <==> old(Foreseen(mid, tasks)) == Starts)
      ensures r.Ok? ==> fresh(r.value) && r.value !in supervisor.Graphs() && Untouched(r.value.Value())
      ensures r.Ok? ==> G.Schedulable(r.value.nodes.Keys, r.value.edges)
      ensures r.Ok? ==> P.EdgesOf(Rewritten(planner.strategy, tasks), r.value.edges)
      ensures r.Ok? <==> old(Foreseen(mid, tasks)) in {Starts, Records}
      ensures r.Err? ==> r.error != WrongState
      ensures r == Err(UncaughtValidation) <==> old(Foreseen(mid, tasks)) == Escapes
    {
      r := PlanOwn(mid, tasks);
      if r.Ok? {
        var registered := Register(mid, tasks, now);
        if registered.Err? {
          return Err(registered.error);
        }
      }
    }

    /** The supervisor starts the mission if its own planning left it READY. */
    method StartInSupervisor(mid: Id, now: real) returns (ok: bool)
      requires supervisor.Valid() && mid in supervisor.missions
      modifies supervisor`missions
      ensures supervisor.Valid() && supervisor.Graphs() == old(supervisor.Graphs())
      ensures ok <==> M.CanMove(old(supervisor.missions)[mid].state, M.Running)
      ensures !ok ==>
        mid in supervisor.missions && supervisor.missions[mid].state == old(supervisor.missions)[mid].state
    {
      ghost var s := supervisor.View();
      assert s.missions[mid].state == supervisor.missions[mid].state;
      var started := supervisor.StartMission(mid, now);
      ok := started.Ok?;
      if !ok {
        assert supervisor.View().missions[mid].state == supervisor.missions[mid].state;
      }
    }

    /** The engine runs the mission on the graph of its tasks, of which nothing has been dispatched. */
    ghost predicate Carries(mid: Id, tasks: seq<PlannedTask>)
      reads this, graph, planner
    {
      && missionId == Some(mid) && Untouched(graph.Value())
      && P.EdgesOf(Rewritten(planner.strategy, tasks), graph.edges)
    }

    /** Plans twice and takes over the plan. */
    method Prepare(mid: Id, tasks: seq<PlannedTask>, now: real) returns (r: Result<(), EngineError>)
      requires Valid() && state == Initializing
      modifies this, supervisor`missions, supervisor`missionAgents
      ensures Valid()
      ensures r.Ok? ==> mid in supervisor.missions && supervisor.missions[mid].state in {M.Ready, M.Failed}
      ensures r.Ok? ==> (supervisor.missions[mid].state == M.Ready <==> old(Foreseen(mid, tasks)) == Starts)
      ensures r.Ok? ==> fresh(graph) && Carries(mid, tasks) && state == Running
      ensures r.Ok? <==> old(Foreseen(mid, tasks)) in {Starts, Records}
      ensures r.Err? ==> r.error != WrongState
      ensures r.Err? ==> state == Initializing && graph == old(graph) && missionId == old(missionId)
      ensures success == old(success)
      ensures r == Err(UncaughtValidation) <==> old(Foreseen(mid, tasks)) == Escapes
    {
      var planned := PlanTwice(mid, tasks, now);
      if planned.Err? {
        return Err(planned.error);
      }
      Adopt(mid, planned.value);
      return Ok(());
    }

    /** The guarded part of start: the plans, then the supervisor's mission. */
    method Launch(mid: Id, tasks: seq<PlannedTask>, now: real) returns (r: Result<(), EngineError>)
      requires Valid() && state == Initializing
      modifies this, supervisor`missions, supervisor`missionAgents
      ensures Valid()
      ensures r.Ok? <==> old(Foreseen(mid, tasks)) == Starts
      ensures r.Ok? ==> state == Running
      ensures old(Foreseen(mid, tasks)) in {Starts, Records} ==> fresh(graph) && Carries(mid, tasks)
      ensures old(Foreseen(mid, tasks)) == Records ==>
        mid in supervisor.missions && supervisor.missions[mid].state == M.Failed
      ensures old(Foreseen(mid, tasks)) in {Refuses, Escapes} ==> graph == old(graph) && missionId == old(missionId)
      ensures r.Err? ==> r.error != WrongState && (r.error == UncaughtValidation ==> state == Initializing)
      ensures success == old(success)
      ensures r == Err(UncaughtValidation) <==> old(Foreseen(mid, tasks)) == Escapes
    {
      ghost var end := Foreseen(mid, tasks);
      r := Prepare(mid, tasks, now);
      if r.Ok? {
        ghost var state := supervisor.missions[mid].state;
        assert end == if state == M.Ready then Starts else Records;
        var ok := StartInSupervisor(mid, now);
        assert ok <==> end == Starts;
        if !ok {
          r := Err(SupervisorRefused);
        }
      }
    }

    /** A failed start makes the engine FAILED, except that a failed graph validation, on either side, is not caught and
        leaves it INITIALIZING. It has a mission and a graph afterwards only if the supervisor has recorded the mission
        as a failed one; otherwise it is left without either. */
    method StartIdle(mid: Id, tasks: seq<PlannedTask>, now: real) returns (r: Result<(), EngineError>)
      requires Valid() && state == Idle
      modifies this, supervisor`missions, supervisor`missionAgents
      ensures Valid()
      ensures r.Ok? <==> old(Foreseen(mid, tasks)) == Starts
      ensures r == Err(UncaughtValidation) <==> old(Foreseen(mid, tasks)) == Escapes
      ensures r.Err? ==> r.error != WrongState
      ensures state == if r.Ok? then Running else if r.error == UncaughtValidation then Initializing else Failed
      ensures success == None
      ensures old(Foreseen(mid, tasks)) in {Starts, Records} ==> fresh(graph) && Carries(mid, tasks)
      ensures old(Foreseen(mid, tasks)) == Records ==>
        mid in supervisor.missions && supervisor.missions[mid].state == M.Failed
      ensures old(Foreseen(mid, tasks)) in {Refuses, Escapes} ==> missionId == None && graph.Value() == G.EmptyGraph
    {
      ghost var g, end := graph.Value(), Foreseen(mid, tasks);
      state := Initializing;
      r := Launch(mid, tasks, now);
      assert end in {Refuses, Escapes} ==> graph.Value() == g;
      if r.Err? && r.error != UncaughtValidation {
        state := Failed;
      }
    }

    /** Only an idle engine starts; IsFresh says that it runs with nothing dispatched and no result. */
    method Start(mid: Id, tasks: seq<PlannedTask>, now: real) returns (r: Result<(), EngineError>)
      requires Valid()
      modifies this, supervisor`missions, supervisor`missionAgents
      ensures Valid()
      ensures r.Ok? <==> old(state) == Idle && old(Foreseen(mid, tasks)) == Starts
      ensures r.Ok? ==> IsFresh(Value()) && fresh(graph) && Carries(mid, tasks)
      ensures old(state) != Idle ==> r == Err(WrongState) && Value() == old(Value()) && missionId == old(missionId)
      ensures old(state) == Idle && old(Foreseen(mid, tasks)) == Records ==>
        && state == Failed && success == None && fresh(graph) && Carries(mid, tasks)
        && mid in supervisor.missions && supervisor.missions[mid].state == M.Failed
      ensures old(state) == Idle && old(Foreseen(mid, tasks)) == Refuses ==> missionId == None && Value() == Unstarted
      ensures old(state) == Idle && old(Foreseen(mid, tasks)) == Escapes ==>
        missionId == None && Value() == Unstarted.(state := Initializing)
      ensures r == Err(UncaughtValidation) <==> old(state) == Idle && old(Foreseen(mid, tasks)) == Escapes
    {
      if state != Idle {
        return Err(WrongState);
      }
      r := StartIdle(mid, tasks, now);
    }

    /** The engine takes over its plan and runs. */
    method Adopt(mid: Id, planned: G.ExecutionGraph)
      requires G.Schedulable(planned.nodes.Keys, planned.edges)
      modifies this
      ensures graph == planned && G.PlanFor(graph.nodes.Keys, graph.edges, plan)
      ensures missionId == Some(mid) && serial == old(serial) && success == old(success) && state == Running
    {
      var generated := planned.GeneratePlan();
      missionId := Some(mid);
      graph := planned;
      plan := generated.value;
      state := Running;
    }

    /** A change of state that leaves everything else alone. */
    method Become(next: EngineState)
      requires Valid() && next != Idle
      modifies this`state
      ensures Valid() && state == next && supervisor.View() == old(supervisor.View())
    {
      ghost var s := supervisor.View();
      state := next;
      assert supervisor.View() == s;
    }

    /** The supervisor is asked to pause, resume or cancel the mission. */
    method Ask(c: M.Control, mid: Id, now: real) returns (ok: bool)
      requires supervisor.Valid()
      modifies supervisor`missions, supervisor.lifecycle`agents
      ensures supervisor.Valid() && supervisor.Graphs() == old(supervisor.Graphs())
      ensures ok <==> mid in old(supervisor.missions) && M.CanMove(old(supervisor.missions)[mid].state, Target(c))
      ensures ok ==> M.Next(old(supervisor.View()), Request(c, mid), now, supervisor.View())
      ensures !ok ==> supervisor.View() == old(supervisor.View())
    {
      var r;
      match c {
        case Pause => r := supervisor.PauseMission(mid, now);
        case Resume => r := supervisor.ResumeMission(mid, now);
        case Cancel => r := supervisor.CancelMission(mid, now);
      }
      ok := r.Ok?;
    }

    /** That never touches the engine's graph, and creates no agent. */
    method Forward(c: M.Control, mid: Id, now: real) returns (r: Result<(), EngineError>)
      requires supervisor.Valid() && NextIdsAreNew(supervisor.lifecycle.agents, serial)
      modifies supervisor`missions, supervisor.lifecycle`agents
      ensures supervisor.Valid() && NextIdsAreNew(supervisor.lifecycle.agents, serial)
      ensures supervisor.Graphs() == old(supervisor.Graphs())
      ensures Forwarded(c, mid, now, old(supervisor.View()), r, supervisor.View())
    {
      ghost var s := supervisor.View();
      assert s.agents == supervisor.lifecycle.agents && s.missions.Keys == supervisor.missions.Keys;
      assert mid in s.missions ==> s.missions[mid].state == supervisor.missions[mid].state;
      var ok := Ask(c, mid, now);
      ghost var s' := supervisor.View();
      r := if ok then Ok(()) else Err(SupervisorRefused);
      RequestCreatesNoAgent(c, mid, now, s, r, s');
      assert s'.agents == supervisor.lifecycle.agents;
    }

    /** Without a mission there is nothing to forward. */
    method ForwardIfAny(c: M.Control, now: real) returns (r: Result<(), EngineError>)
      requires supervisor.Valid() && NextIdsAreNew(supervisor.lifecycle.agents, serial)
      modifies supervisor`missions, supervisor.lifecycle`agents
      ensures supervisor.Valid() && NextIdsAreNew(supervisor.lifecycle.agents, serial)
      ensures supervisor.Graphs() == old(supervisor.Graphs())
      ensures ForwardedIfAny(c, missionId, now, old(supervisor.View()), r, supervisor.View())
    {
      r := Ok(());
      if missionId.Some? {
        r := Forward(c, missionId.value, now);
      }
    }

    /** When the supervisor refuses, the engine is paused all the same; likewise for resuming and cancelling. */
    method Pause(now: real) returns (r: Result<(), EngineError>)
      requires Valid()
      modifies this`state, supervisor`missions, supervisor.lifecycle`agents
      ensures Valid()
      ensures old(state) != Running ==>
        r == Err(WrongState) && Value() == old(Value()) && supervisor.View() == old(supervisor.View())
      ensures old(state) == Running ==> Next(old(Value()), Action.Pause, Value())
      ensures old(state) == Running ==>
        ForwardedIfAny(M.Control.Pause, missionId, now, old(supervisor.View()), r, supervisor.View())
    {
      if state != Running {
        return Err(WrongState);
      }
      Become(Paused);
      r := ForwardIfAny(M.Control.Pause, now);
    }

    method Resume(now: real) returns (r: Result<(), EngineError>)
      requires Valid()
      modifies this`state, supervisor`missions, supervisor.lifecycle`agents
      ensures Valid()
      ensures old(state) != Paused ==>
        r == Err(WrongState) && Value() == old(Value()) && supervisor.View() == old(supervisor.View())
      ensures old(state) == Paused ==> Next(old(Value()), Action.Resume, Value())
      ensures old(state) == Paused ==>
        ForwardedIfAny(M.Control.Resume, missionId, now, old(supervisor.View()), r, supervisor.View())
    {
      if state != Paused {
        return Err(WrongState);
      }
      Become(Running);
      r := ForwardIfAny(M.Control.Resume, now);
    }

    /** When the supervisor refuses, no result is built. */
    method CancelLive(now: real) returns (r: Result<(), EngineError>)
      requires Valid() && state !in {Completed, Failed, Cancelled}
      modifies this`state, this`success, supervisor`missions, supervisor.lifecycle`agents
      ensures Valid() && state == Cancelled
      ensures success == if r.Ok? && missionId.Some? then Some(false) else old(success)
      ensures ForwardedIfAny(M.Control.Cancel, missionId, now, old(supervisor.View()), r, supervisor.View())
    {
      Become(Cancelled);
      r := ForwardIfAny(M.Control.Cancel, now);
      ghost var s' := supervisor.View();
      success := if r.Ok? && missionId.Some? then Some(false) else success;
      assert supervisor.View() == s';
    }

    method Cancel(now: real) returns (r: Result<(), EngineError>)
      requires Valid()
      modifies this`state, this`success, supervisor`missions, supervisor.lifecycle`agents
      ensures Valid()
      ensures if old(state) in {Completed, Failed, Cancelled} then
                r == Err(WrongState) && Value() == old(Value()) && supervisor.View() == old(supervisor.View())
              else
                && Next(old(Value()), Action.Cancel(r.Ok? && missionId.Some?), Value())
                && ForwardedIfAny(M.Control.Cancel, missionId, now, old(supervisor.View()), r, supervisor.View())
    {
      if state in {Completed, Failed, Cancelled} {
        return Err(WrongState);
      }
      r := CancelLive(now);
    }

    /** Resumes the supervisor's mission if it is paused; fails when it has failed or does not exist. */
    method ResumeIfNeeded(now: real) returns (ok: bool)
      requires supervisor.Valid() && NextIdsAreNew(supervisor.lifecycle.agents, serial)
      modifies supervisor`missions, supervisor.lifecycle`agents
      ensures supervisor.Valid() && NextIdsAreNew(supervisor.lifecycle.agents, serial)
      ensures supervisor.Graphs() == old(supervisor.Graphs())
      ensures ResumedIfNeeded(missionId, now, old(supervisor.View()), ok, supervisor.View())
    {
      if missionId.None? {
        return true;
      }
      ghost var s := supervisor.View();
      assert s.missions.Keys == supervisor.missions.Keys;
      if missionId.value !in supervisor.missions {
        return false;
      }
      ok := true;
      assert s.missions[missionId.value].state == supervisor.missions[missionId.value].state;
      if supervisor.missions[missionId.value].state in {M.Failed, M.Paused} {
        var r := Forward(M.Control.Resume, missionId.value, now);
        ok := r.Ok?;
      }
    }

    /** The recovery of a failed engine. */
    method RecoverFailed(now: real) returns (recovered: bool)
      requires Valid() && state == Failed
      modifies this`state, supervisor`missions, supervisor.lifecycle`agents
      ensures Valid() && state == if recovered then Running else Failed
      ensures ResumedIfNeeded(missionId, now, old(supervisor.View()), recovered, supervisor.View())
    {
      Become(Recovering);
      recovered := ResumeIfNeeded(now);
      assert Valid();
      Become(if recovered then Running else Failed);
    }

    /** Recovery resumes a paused mission; a failed mission cannot be resumed, so recovery fails with it. */
    method Recover(now: real) returns (recovered: bool)
      requires Valid()
      modifies this`state, supervisor`missions, supervisor.lifecycle`agents
      ensures Valid()
      ensures if old(state) == Failed then
                && Next(old(Value()), Action.Recover(recovered), Value())
                && ResumedIfNeeded(missionId, now, old(supervisor.View()), recovered, supervisor.View())
              else
                !recovered && Value() == old(Value()) && supervisor.View() == old(supervisor.View())
    {
      recovered := false;
      if state == Failed {
        recovered := RecoverFailed(now);
      }
    }

    /** Creating and starting an agent is two requests to the shared manager; the supervisor does not mind. */
    method CreateAndStart(ctx: L.AgentContext, now: real)
      requires supervisor.Valid() && ctx.id.Executed? && ctx.id !in supervisor.lifecycle.agents
      modifies supervisor.lifecycle`agents
      ensures supervisor.Valid()
      ensures supervisor.lifecycle.agents ==
              old(supervisor.lifecycle.agents)[ctx.id := L.Moved(L.Fresh(ctx, now), L.Running, now)]
    {
      ghost var s := supervisor.View();
      ghost var timeout := supervisor.lifecycle.timeout;
      var created := supervisor.lifecycle.CreateAgent(ctx, now);
      var started := supervisor.lifecycle.StartAgent(ctx.id, now);
      supervisor.MissionsUnchanged();
      CreateAndStartIsReachable(s, ctx, timeout, now, supervisor.View());
    }

    /** What agents are told about the mission. */
    function MissionName(): (name: Id)
      reads this
      ensures missionId == Some(name) || (missionId == None && name == "")
    {
      if missionId.Some? then missionId.value else ""
    }

    /** _dispatch_task for one node: the node runs, and one new agent runs for it. */
    method DispatchTask(v: Id, now: real)
      requires supervisor.Valid() && v in graph.nodes && graph !in supervisor.Graphs()
      requires NextIdsAreNew(supervisor.lifecycle.agents, serial)
      modifies this`taskStarts, this`serial, graph`nodes, supervisor.lifecycle`agents
      ensures supervisor.Valid() && NextIdsAreNew(supervisor.lifecycle.agents, serial) && serial == old(serial) + 1
      ensures graph.nodes == old(graph.nodes)[v := old(graph.nodes)[v].(status := G.Running)]
      ensures var id := L.Executed(v, old(serial));
              && id !in old(supervisor.lifecycle.agents)
              && supervisor.lifecycle.agents == old(supervisor.lifecycle.agents)[
                   id := Hire(id, MissionName(), v, old(graph.nodes)[v].capability, decide, now)]
    {
      var node := graph.nodes[v];
      var runtime := decide(node.capability);
      graph.nodes := graph.nodes[v := node.(status := G.Running)];
      taskStarts := taskStarts[v := now];
      var id := L.Executed(v, serial);
      serial := serial + 1;
      CreateAndStart(L.AgentContext(id, MissionName(), v, node.capability, runtime), now);
    }

    /** All ready tasks, in the scheduler's order: each runs, with exactly one new agent, and no other agent changes. */
    method DispatchReady(ready: seq<Id>, now: real) returns (ghost hired: map<Id, L.AgentId>)
      requires supervisor.Valid() && graph !in supervisor.Graphs()
      requires NextIdsAreNew(supervisor.lifecycle.agents, serial)
      requires NoDup(ready) && forall v :: v in ready <==> v in graph.nodes && M.IsReady(graph.Value(), v)
      modifies this`taskStarts, this`serial, graph`nodes, supervisor.lifecycle`agents
      ensures supervisor.Valid() && NextIdsAreNew(supervisor.lifecycle.agents, serial)
      ensures graph.Value() == M.Started(old(graph.Value())) && hired.Keys == Elems(ready)
      ensures Hired(old(supervisor.lifecycle.agents), supervisor.lifecycle.agents, hired, old(serial), serial,
                    old(graph.nodes), MissionName(), decide, now)
    {
      ghost var g, before, n, mission := graph.Value(), supervisor.lifecycle.agents, serial, MissionName();
      hired := map[];
      NothingDispatched(g, before, n, mission, decide, now);
      for i := 0 to |ready|
        invariant supervisor.Valid() && graph !in supervisor.Graphs() && mission == MissionName()
        invariant NextIdsAreNew(supervisor.lifecycle.agents, serial)
        invariant Dispatching(g, Elems(ready[..i]), graph.nodes, hired, before, supervisor.lifecycle.agents, n, serial,
                              mission, decide, now)
      {
        S.ElemsNext(ready, i);
        assert ready[i] in ready;
        hired := DispatchNext(g, Elems(ready[..i]), hired, before, n, mission, ready[i], now);
      }
      assert ready[..|ready|] == ready;
      assert S.StartedOn(g, Elems(ready)).nodes == M.Started(g).nodes;
    }

    /** One turn of that loop. */
    method DispatchNext(ghost g: G.GraphValue, ghost seen: set<Id>, ghost hired: map<Id, L.AgentId>,
                        ghost before: L.Agents, ghost n: nat, ghost mission: Id, v: Id, now: real)
      returns (ghost hired': map<Id, L.AgentId>)
      requires supervisor.Valid() && graph !in supervisor.Graphs() && mission == MissionName()
      requires NextIdsAreNew(supervisor.lifecycle.agents, serial) && v in g.nodes && v !in seen
      requires Dispatching(g, seen, graph.nodes, hired, before, supervisor.lifecycle.agents, n, serial,
                           mission, decide, now)
      modifies this`taskStarts, this`serial, graph`nodes, supervisor.lifecycle`agents
      ensures supervisor.Valid() && NextIdsAreNew(supervisor.lifecycle.agents, serial)
      ensures Dispatching(g, seen + {v}, graph.nodes, hired', before, supervisor.lifecycle.agents, n, serial,
                          mission, decide, now)
    {
      DispatchOneMore(g, seen, graph.nodes, hired, before, supervisor.lifecycle.agents, n, serial, mission,
                      decide, now, v);
      ghost var id, nodes, agents := L.Executed(v, serial), graph.nodes, supervisor.lifecycle.agents;
      ghost var node, agent := nodes[v].(status := G.Running), Hire(id, mission, v, nodes[v].capability, decide, now);
      hired' := hired[v := id];
      DispatchTask(v, now);
      assert graph.nodes == nodes[v := node] && supervisor.lifecycle.agents == agents[id := agent];
    }

    /** The supervisor's turn, as a run of its ticks: it leaves the engine's graph alone and creates no engine agent. */
    method TickSupervisor(now: real) returns (ghost states: seq<M.System>, ghost what: seq<M.Occurrence>)
      requires Valid()
      modifies supervisor, supervisor.lifecycle`agents, supervisor.Graphs()
      ensures supervisor.Valid() && graph !in supervisor.Graphs()
      ensures NextIdsAreNew(supervisor.lifecycle.agents, serial)
      ensures SupervisorRan(old(supervisor.View()), S.RunningIn(old(supervisor.missions)), states, what)
      ensures states[|states| - 1].agents == supervisor.lifecycle.agents
    {
      ghost var before := supervisor.missions;
      var changed;
      changed, states, what := supervisor.Tick(now);
      S.SamePlansSameGraphs(before, supervisor.missions);
      TicksAddSupervised(states, what, |what|);
    }

    /** Steps 2 to 4 of a tick, on the engine's own graph. */
    method SyncAndDispatch(now: real) returns (ghost synced: G.GraphValue, ghost hired: map<Id, L.AgentId>)
      requires supervisor.Valid() && graph !in supervisor.Graphs()
      requires NextIdsAreNew(supervisor.lifecycle.agents, serial)
      requires G.PlanFor(graph.nodes.Keys, graph.edges, plan)
      modifies this`taskStarts, this`serial, graph`nodes, supervisor.lifecycle`agents
      ensures supervisor.Valid()
      ensures NextIdsAreNew(supervisor.lifecycle.agents, serial)
      ensures SyncsTo(old(graph.Value()), old(supervisor.lifecycle.agents), synced)
      ensures graph.Value() == M.Started(synced) && hired.Keys == ReadyIn(synced)
      ensures Hired(old(supervisor.lifecycle.agents), supervisor.lifecycle.agents, hired, old(serial), serial,
                    synced.nodes, MissionName(), decide, now)
    {
      SyncAgentStates(graph, supervisor.lifecycle.agents);
      synced := graph.Value();
      var ready := GetReadyTasks(graph, plan);
      hired := DispatchReady(ready, now);
    }

    /** Steps 5 and 6: completion first, failure second. */
    method Judge(ghost e: Engine)
      requires G.PlanFor(graph.nodes.Keys, graph.edges, plan)
      requires state != Idle && e.state == state && e.success == success
      modifies this`state, this`success
      ensures Value() == Judged(e, graph.Value()) && state != Idle
    {
      if IsGraphFinished(graph.nodes) {
        state, success := Completed, Some(true);
      }
      var failed := HasGraphFailed(graph, plan);
      if failed {
        state, success := Failed, Some(false);
      }
    }

    /** Steps 1 to 4: the supervisor's ticks, then the engine's own graph against what the agents report after them. */
    method Advance(now: real) returns (ghost turn: Turn)
      requires Valid()
      modifies this`taskStarts, this`serial, graph`nodes, supervisor, supervisor.lifecycle`agents, supervisor.Graphs()
      ensures supervisor.Valid() && graph !in supervisor.Graphs()
      ensures NextIdsAreNew(supervisor.lifecycle.agents, serial)
      ensures Took(old(supervisor.View()), S.RunningIn(old(supervisor.missions)), old(graph.Value()), turn,
                   graph.Value(), supervisor.lifecycle.agents, old(serial), serial, MissionName(), decide, now)
    {
      ghost var states, what := TickSupervisor(now);
      ghost var synced, hired := SyncAndDispatch(now);
      turn := Turn(states, what, synced, hired);
    }

    /** The tick of a running engine. */
    method TakeTurn(now: real) returns (ghost turn: Turn)
      requires Valid() && state == Running
      modifies this`state, this`success, this`taskStarts, this`serial, graph`nodes
      modifies supervisor, supervisor.lifecycle`agents, supervisor.Graphs()
      ensures Valid() && Value() == Judged(old(Value()), graph.Value())
      ensures Took(old(supervisor.View()), S.RunningIn(old(supervisor.missions)), old(graph.Value()), turn,
                   graph.Value(), supervisor.lifecycle.agents, old(serial), serial, MissionName(), decide, now)
    {
      ghost var e := Value();
      turn := Advance(now);
      ghost var g, agents, n := graph.Value(), supervisor.lifecycle.agents, serial;
      Judge(e);
      assert supervisor.Valid();
      assert graph.Value() == g && supervisor.lifecycle.agents == agents && serial == n;
    }

    /** One tick of the engine. Exactly the nodes that are ready after the sync are started, each with one new agent. */
    method Tick(now: real) returns (ghost turn: Turn)
      requires Valid()
      modifies this`state, this`success, this`taskStarts, this`serial, graph`nodes
      modifies supervisor, supervisor.lifecycle`agents, supervisor.Graphs()
      ensures Valid()
      ensures old(state) != Running ==>
        Value() == old(Value()) && supervisor.lifecycle.agents == old(supervisor.lifecycle.agents)
      ensures old(state) == Running ==> Value() == Judged(old(Value()), graph.Value())
      ensures old(state) == Running ==>
        Took(old(supervisor.View()), S.RunningIn(old(supervisor.missions)), old(graph.Value()), turn, graph.Value(),
             supervisor.lifecycle.agents, old(serial), serial, MissionName(), decide, now)
      ensures old(state) == Running ==> EngineRuns.Tick(old(Value()), turn.Reported(), Value())
    {
      turn := Turn([], [], G.EmptyGraph, map[]);
      if state == Running {
        ghost var e, s, running, n := Value(), supervisor.View(), S.RunningIn(supervisor.missions), serial;
        turn := TakeTurn(now);
        TookIsTick(s, running, e, turn, Value(), supervisor.lifecycle.agents, n, serial, MissionName(), decide, now);
      }
    }
  }

  /** That is a tick of the engine's state machine, against the agents as the supervisor's ticks leave them. */
  lemma TookIsTick(s: M.System, running: set<Id>, e: Engine, turn: Turn, e': Engine, agents: L.Agents, n: nat, n': nat,
                   mission: Id, decide: string -> Option<string>, now: real)
    requires e.state == Running && e' == Judged(e, e'.graph)
    requires Took(s, running, e.graph, turn, e'.graph, agents, n, n', mission, decide, now)
    ensures EngineRuns.Tick(e, turn.Reported(), e')
  {
    assert SyncsTo(e.graph, turn.Reported(), turn.synced);
  }

  /** What happened in a tick: the supervisor's run, the graph after the sync, and the agents of the started nodes. */
  datatype Turn = Turn(
    states: seq<M.System>, what: seq<M.Occurrence>, synced: G.GraphValue, hired: map<Id, L.AgentId>)
  {
    /** The agents as the supervisor's ticks leave them. */
    function Reported(): (agents: L.Agents) {
      if states == [] then map[] else states[|states| - 1].agents
    }
  }

  /** A run of the supervisor from s that ticks each of these missions once. */
  ghost predicate SupervisorRan(s: M.System, running: set<Id>, states: seq<M.System>, what: seq<M.Occurrence>) {
    M.IsRun(states, what) && states[0] == s && S.TicksEachOnce(what, running)
  }

  /** A turn: the supervisor has run from s, the graph has taken over what the agents then reported, and exactly its
      ready nodes have been started, each with one new agent. */
  ghost predicate Took(
    s: M.System, running: set<Id>, g: G.GraphValue, turn: Turn, g': G.GraphValue, agents: L.Agents, n: nat, n': nat,
    mission: Id, decide: string -> Option<string>, now: real)
  {
    && SupervisorRan(s, running, turn.states, turn.what)
    && SyncsTo(g, turn.Reported(), turn.synced)
    && g' == M.Started(turn.synced) && turn.hired.Keys == ReadyIn(turn.synced)
    && Hired(turn.Reported(), agents, turn.hired, n, n', turn.synced.nodes, mission, decide, now)
  }

  /** The loop of dispatches, once the nodes in `seen` have been started. */
  ghost predicate Dispatching(
    g: G.GraphValue, seen: set<Id>, nodes: map<Id, G.AgentNode>, hired: map<Id, L.AgentId>, before: L.Agents,
    agents: L.Agents, n: nat, n': nat, mission: Id, decide: string -> Option<string>, now: real)
  {
    && nodes == S.StartedOn(g, seen).nodes && hired.Keys == seen
    && Hired(before, agents, hired, n, n', g.nodes, mission, decide, now)
  }

  lemma NothingDispatched(g: G.GraphValue, agents: L.Agents, n: nat, mission: Id, decide: string -> Option<string>,
                          now: real)
    ensures Dispatching(g, {}, g.nodes, map[], agents, agents, n, n, mission, decide, now)
  {
    var nobody: map<Id, L.AgentId> := map[];
    assert nobody.Keys == {} && nobody.Values == {};
    assert S.StartedOn(g, {}).nodes == g.nodes;
  }

  lemma DispatchOneMore(
    g: G.GraphValue, seen: set<Id>, nodes: map<Id, G.AgentNode>, hired: map<Id, L.AgentId>, before: L.Agents,
    agents: L.Agents, n: nat, m: nat, mission: Id, decide: string -> Option<string>, now: real, v: Id)
    requires Dispatching(g, seen, nodes, hired, before, agents, n, m, mission, decide, now)
    requires v in g.nodes && v !in seen && NextIdsAreNew(agents, m)
    ensures v in nodes && L.Executed(v, m) !in agents
    ensures var id := L.Executed(v, m);
            Dispatching(g, seen + {v}, nodes[v := nodes[v].(status := G.Running)], hired[v := id], before,
                        agents[id := Hire(id, mission, v, nodes[v].capability, decide, now)], n, m + 1,
                        mission, decide, now)
  {
    var nodes' := nodes[v := nodes[v].(status := G.Running)];
    assert nodes' == S.StartedOn(g, seen + {v}).nodes;
    HireOneMore(before, agents, hired, n, m, g.nodes, mission, decide, now, v);
  }

  ghost function ReadyIn(g: G.GraphValue): (r: set<Id>) {
    set v | v in g.nodes && M.IsReady(g, v)
  }

  /** A new running agent for node v. */
  function Hire(id: L.AgentId, mission: Id, v: Id, capability: string, decide: string -> Option<string>, now: real)
    : (a: L.AgentInstance)
  {
    L.Moved(L.Fresh(L.AgentContext(id, mission, v, capability, decide(capability)), now), L.Running, now)
  }

  /** The agent of node v is new, runs, and carries a serial of its own. */
  ghost predicate HiredFor(
    before: L.Agents, after: L.Agents, id: L.AgentId, n: nat, n': nat, nodes: map<Id, G.AgentNode>, mission: Id,
    decide: string -> Option<string>, now: real, v: Id)
  {
    && v in nodes && id.Executed? && id.task == v && n <= id.serial < n' && id !in before
    && id in after && after[id] == Hire(id, mission, v, nodes[v].capability, decide, now)
  }

  /** One new agent for each key of `hired`, and no other change. */
  ghost predicate Hired(
    before: L.Agents, after: L.Agents, hired: map<Id, L.AgentId>, n: nat, n': nat, nodes: map<Id, G.AgentNode>,
    mission: Id, decide: string -> Option<string>, now: real)
  {
    && n <= n' && after.Keys == before.Keys + hired.Values && Unchanged(before, after)
    && forall v {:trigger HiredFor(before, after, hired[v], n, n', nodes, mission, decide, now, v)} ::
         v in hired ==> HiredFor(before, after, hired[v], n, n', nodes, mission, decide, now, v)
  }

  /** Each new agent runs since now for its node and mission, with the node's capability and the runtime decided on. */
  lemma HiredAgent(
    before: L.Agents, after: L.Agents, hired: map<Id, L.AgentId>, n: nat, n': nat, nodes: map<Id, G.AgentNode>,
    mission: Id, decide: string -> Option<string>, now: real, v: Id)
    requires Hired(before, after, hired, n, n', nodes, mission, decide, now) && v in hired
    ensures v in nodes && hired[v] in after && hired[v] !in before
    ensures var a := after[hired[v]];
            && a.id == a.context.id == hired[v] && a.context.taskId == v && a.context.missionId == mission
            && a.context.capability == nodes[v].capability && a.context.assignedRuntime == decide(nodes[v].capability)
            && a.state == L.Running && a.createdAt == now && a.startedAt == Some(now) && a.finishedAt == None
            && a.statistics.executionCount == 0 && a.statistics.failures == 0
  {
    assert HiredFor(before, after, hired[v], n, n', nodes, mission, decide, now, v);
  }

  ghost predicate Unchanged(before: L.Agents, after: L.Agents) {
    forall a :: a in before ==> a in after && after[a] == before[a]
  }

  lemma HireOneMore(
    before: L.Agents, agents: L.Agents, hired: map<Id, L.AgentId>, n: nat, m: nat, nodes: map<Id, G.AgentNode>,
    mission: Id, decide: string -> Option<string>, now: real, v: Id)
    requires Hired(before, agents, hired, n, m, nodes, mission, decide, now)
    requires v in nodes && v !in hired && L.Executed(v, m) !in agents
    ensures var id := L.Executed(v, m);
            Hired(before, agents[id := Hire(id, mission, v, nodes[v].capability, decide, now)], hired[v := id], n,
                  m + 1, nodes, mission, decide, now)
  {
    var id := L.Executed(v, m);
    var agents', hired' := agents[id := Hire(id, mission, v, nodes[v].capability, decide, now)], hired[v := id];
    S.ValuesGrow(hired, v, id);
    forall u | u in hired' ensures HiredFor(before, agents', hired'[u], n, m + 1, nodes, mission, decide, now, u) {
      if u != v {
        assert HiredFor(before, agents, hired[u], n, m, nodes, mission, decide, now, u);
        assert hired[u] in hired.Values;
      }
    }
  }

  /** No executed agent carries a serial that is still to come. */
  ghost predicate NextIdsAreNew(agents: L.Agents, serial: nat) {
    forall a :: a in agents && a.Executed? ==> a.serial < serial
  }

  lemma CreateAndStartIsReachable(s: M.System, ctx: L.AgentContext, timeout: real, now: real, s': M.System)
    requires M.Reachable(s) && !ctx.id.Supervised? && ctx.id !in s.agents
    requires s' == s.(agents := s.agents[ctx.id := L.Moved(L.Fresh(ctx, now), L.Running, now)])
    ensures M.Reachable(s')
  {
    var create, start := L.Create(ctx), L.Move(ctx.id, L.Running);
    var mid := s.(agents := L.Step(s.agents, create, timeout, now));
    R.NextIsReachable(s, M.AgentRequest(create, timeout), now, mid);
    assert s' == mid.(agents := L.Step(mid.agents, start, timeout, now));
    R.NextIsReachable(mid, M.AgentRequest(start, timeout), now, s');
  }

  /** Ticks of the supervisor create supervised agents only. */
  lemma {:induction false} TicksAddSupervised(states: seq<M.System>, what: seq<M.Occurrence>, j: nat)
    requires M.IsRun(states, what) && j < |states|
    requires forall i :: 0 <= i < |what| ==> what[i].action.TickMission?
    ensures forall a :: a in states[j].agents && a.Executed? ==> a in states[0].agents
  {
    if j > 0 {
      TicksAddSupervised(states, what, j - 1);
      assert M.Next(states[j - 1], what[j - 1].action, what[j - 1].now, states[j]);
    }
  }
}
