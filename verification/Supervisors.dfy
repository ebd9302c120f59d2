/** backend/agent/supervisor.py as an object: missions, their graphs and the shared agents, updated in place.
    Every operation is shown to be a step of the state machine in module Missions. */
module Supervisors {
  import opened Results
  import opened Collections
  import opened Dag
  import opened Kahn
  import opened TaskLists
  import opened Levels
  import opened Missions
  import opened MissionRuns
  import opened MissionControls
  import G = ExecutionGraphs
  import L = Lifecycle
  import P = Planner

  // ---- Phase 1 ----

  /** No two agents of the mission work on the same task. */
  ghost predicate OneEach(mine: set<L.AgentId>, agents: L.Agents) {
    forall a, b ::
      (a in mine && b in mine && a in agents && b in agents && agents[a].context.taskId == agents[b].context.taskId)
      ==> a == b
  }

  function WithStatus(nodes: map<Id, G.AgentNode>, v: Id, status: G.NodeStatus): (r: map<Id, G.AgentNode>) {
    if v in nodes then nodes[v := nodes[v].(status := status)] else nodes
  }

  /** Taking one more agent into account. */
  lemma SyncNext(g: G.GraphValue, agents: L.Agents, mine: set<L.AgentId>, seen: set<L.AgentId>, a: L.AgentId)
    requires OneEach(mine, agents) && seen <= mine && a in mine && a !in seen
    ensures var before, after := Synced(seen, agents, g).nodes, Synced(seen + {a}, agents, g).nodes;
            after == if a in agents && agents[a].context.taskId != "" then
                       (if agents[a].state == L.Completed then WithStatus(before, agents[a].context.taskId, G.Completed)
                        else if agents[a].state == L.Failed then WithStatus(before, agents[a].context.taskId, G.Failed)
                        else before)
                     else before
  {
    ReportedNext(agents, seen, a);
    if a in agents {
      forall state ensures !Reported(seen, agents, agents[a].context.taskId, state) {
      }
    }
  }

  lemma ReportedNext(agents: L.Agents, seen: set<L.AgentId>, a: L.AgentId)
    ensures forall v, state :: Reported(seen + {a}, agents, v, state) <==>
      Reported(seen, agents, v, state) ||
      (v != "" && a in agents && agents[a].context.taskId == v && agents[a].state == state)
  {
    assert a in seen + {a};
  }

  /** What one agent reports, put down in the graph. */
  method SyncAgent(graph: G.ExecutionGraph, agents: L.Agents, a: L.AgentId)
    modifies graph`nodes
    ensures graph.nodes == if a in agents && agents[a].context.taskId != "" then
              (if agents[a].state == L.Completed then
                 WithStatus(old(graph.nodes), agents[a].context.taskId, G.Completed)
               else if agents[a].state == L.Failed then
                 WithStatus(old(graph.nodes), agents[a].context.taskId, G.Failed)
               else old(graph.nodes))
            else old(graph.nodes)
  {
    if a in agents {
      var agent := agents[a];
      if agent.context.taskId != "" {
        if agent.state == L.Completed {
          graph.nodes := WithStatus(graph.nodes, agent.context.taskId, G.Completed);
        } else if agent.state == L.Failed {
          graph.nodes := WithStatus(graph.nodes, agent.context.taskId, G.Failed);
        }
      }
    }
  }

  method SyncGraph(graph: G.ExecutionGraph, agents: L.Agents, mine: set<L.AgentId>)
    requires OneEach(mine, agents)
    modifies graph`nodes
    ensures graph.Value() == Synced(mine, agents, old(graph.Value()))
  {
    ghost var g := graph.Value();
    var rest := mine;
    ghost var seen: set<L.AgentId> := {};
    assert graph.nodes == Synced({}, agents, g).nodes;
    while rest != {}
      invariant seen + rest == mine && seen !! rest
      invariant graph.nodes == Synced(seen, agents, g).nodes
      decreases |rest|
    {
      var a :| a in rest;
      SyncNext(g, agents, mine, seen, a);
      MoveOver(seen, rest, a);
      SyncAgent(graph, agents, a);
      seen, rest := seen + {a}, rest - {a};
    }
    assert seen == mine;
  }

  // ---- Phase 3 ----

  method TaskLookup(tasks: seq<PlannedTask>) returns (lookup: map<Id, PlannedTask>)
    ensures lookup.Keys == Ids(tasks)
    ensures forall v :: v in lookup ==> lookup[v] in tasks && lookup[v].id == v
  {
    lookup := map[];
    for i := 0 to |tasks|
      invariant lookup.Keys == Ids(tasks[..i])
      invariant forall v :: v in lookup ==> lookup[v] in tasks && lookup[v].id == v
    {
      P.IdsNext(tasks, i);
      lookup := lookup[tasks[i].id := tasks[i]];
    }
    assert tasks[..|tasks|] == tasks;
  }

  method DependenciesCompleted(nodes: map<Id, G.AgentNode>, ghost es: seq<Edge>, v: Id, deps: seq<Id>)
    returns (ok: bool)
    requires deps == Preds(es, v)
    ensures ok <==> PredsDone(G.GraphValue(nodes, es), v)
  {
    ok := true;
    for i := 0 to |deps|
      invariant ok <==> forall d :: d in deps[..i] ==> d in nodes && nodes[d].status == G.Completed
    {
      assert deps[..i + 1] == deps[..i] + [deps[i]];
      if deps[i] !in nodes || nodes[deps[i]].status != G.Completed {
        ok := false;
      }
    }
    assert deps[..|deps|] == deps;
    forall e | e in es && e.target == v ensures e.source in deps {
      PredsAreLinked(es, e.source, v);
    }
    forall d | d in deps ensures exists e :: e in es && e.target == v && e.source == d {
      PredsAreLinked(es, d, v);
    }
  }

  /** The graph after some nodes have been started. */
  ghost function StartedOn(g: G.GraphValue, some: set<Id>): (r: G.GraphValue) {
    g.(nodes := map v | v in g.nodes :: if v in some then g.nodes[v].(status := G.Running) else g.nodes[v])
  }

  /** Starting other nodes does not change whether a node is ready. */
  lemma ReadyIsStable(g: G.GraphValue, some: set<Id>, v: Id)
    requires v !in some && forall u :: u in some ==> IsReady(g, u)
    ensures IsReady(StartedOn(g, some), v) <==> IsReady(g, v)
  {
  }

  /** One new id per ready node looked at so far. */
  ghost predicate LaunchedIds(
    mid: Id, tasks: seq<PlannedTask>, g: G.GraphValue, seen: set<Id>, launched: map<Id, L.AgentId>, n: nat, n': nat)
  {
    && n <= n'
    && (forall v {:trigger v in launched} {:trigger IsReady(g, v)} ::
          v in launched <==> v in seen && v in g.nodes && IsReady(g, v) && v in Ids(tasks))
    && (forall v :: v in launched ==>
          launched[v].Supervised? && launched[v].mission == mid && launched[v].task == v &&
          n <= launched[v].serial < n')
  }

  /** Their agents run, and no other agent has changed. */
  ghost predicate LaunchedAgents(
    before: L.Agents, mid: Id, tasks: seq<PlannedTask>, launched: map<Id, L.AgentId>,
    selector: string -> Option<string>, now: real, agents: L.Agents)
  {
    && agents.Keys == before.Keys + launched.Values
    && (forall a :: a in before && a !in launched.Values ==> agents[a] == before[a])
    && (forall v :: v in launched ==> LaunchedFor(agents[launched[v]], launched[v], mid, tasks, v, selector, now))
  }

  /** What phase 3 has done once the nodes in `seen` have been looked at. */
  ghost predicate Dispatched(
    s: System, mid: Id, tasks: seq<PlannedTask>, g: G.GraphValue, seen: set<Id>, launched: map<Id, L.AgentId>,
    selector: string -> Option<string>, now: real, agents: L.Agents, serial: nat)
  {
    && LaunchedIds(mid, tasks, g, seen, launched, s.nextSerial, serial)
    && LaunchedAgents(s.agents, mid, tasks, launched, selector, now, agents)
  }

  lemma LaunchedAgentsNext(
    before: L.Agents, mid: Id, tasks: seq<PlannedTask>, launched: map<Id, L.AgentId>,
    selector: string -> Option<string>, now: real, agents: L.Agents, v: Id, id: L.AgentId, a: L.AgentInstance)
    requires LaunchedAgents(before, mid, tasks, launched, selector, now, agents)
    requires v !in launched && id !in agents && LaunchedFor(a, id, mid, tasks, v, selector, now)
    ensures LaunchedAgents(before, mid, tasks, launched[v := id], selector, now, agents[id := a])
  {
    ValuesGrow(launched, v, id);
    forall u | u in launched ensures launched[u] != id {
      assert launched[u] in launched.Values;
    }
  }

  lemma LaunchedIdsNext(
    mid: Id, tasks: seq<PlannedTask>, g: G.GraphValue, seen: set<Id>, launched: map<Id, L.AgentId>, n: nat, n': nat,
    v: Id)
    requires LaunchedIds(mid, tasks, g, seen, launched, n, n')
    requires v !in seen && v in g.nodes && IsReady(g, v) && v in Ids(tasks)
    ensures LaunchedIds(mid, tasks, g, seen + {v}, launched[v := L.Supervised(mid, v, n')], n, n' + 1)
  {
  }

  lemma DispatchedNext(
    s: System, mid: Id, tasks: seq<PlannedTask>, g: G.GraphValue, seen: set<Id>, launched: map<Id, L.AgentId>,
    selector: string -> Option<string>, now: real, agents: L.Agents, serial: nat, v: Id, id: L.AgentId,
    a: L.AgentInstance)
    requires Dispatched(s, mid, tasks, g, seen, launched, selector, now, agents, serial)
    requires v !in seen && v in g.nodes && IsReady(g, v) && v in Ids(tasks)
    requires id == L.Supervised(mid, v, serial) && id !in agents
    requires LaunchedFor(a, id, mid, tasks, v, selector, now)
    ensures Dispatched(s, mid, tasks, g, seen + {v}, launched[v := id], selector, now, agents[id := a], serial + 1)
  {
    LaunchedAgentsNext(s.agents, mid, tasks, launched, selector, now, agents, v, id, a);
    LaunchedIdsNext(mid, tasks, g, seen, launched, s.nextSerial, serial, v);
  }

  /** A serial that has not been handed out yet belongs to no agent. */
  lemma NextIdIsNew(
    s: System, mid: Id, tasks: seq<PlannedTask>, g: G.GraphValue, seen: set<Id>, launched: map<Id, L.AgentId>,
    selector: string -> Option<string>, now: real, agents: L.Agents, serial: nat, v: Id)
    requires Dispatched(s, mid, tasks, g, seen, launched, selector, now, agents, serial)
    requires Fresh(s.agents, s.nextSerial)
    ensures L.Supervised(mid, v, serial) !in agents
  {
    var id := L.Supervised(mid, v, serial);
    assert forall u :: u in launched ==> launched[u] != id;
  }

  lemma ValuesGrow(launched: map<Id, L.AgentId>, v: Id, id: L.AgentId)
    requires v !in launched
    ensures launched[v := id].Values == launched.Values + {id}
  {
    forall x ensures x in launched[v := id].Values <==> x in launched.Values || x == id {
      if x in launched.Values {
        var u :| u in launched && launched[u] == x;
        assert launched[v := id][u] == x;
      }
      if x == id {
        assert launched[v := id][v] == id;
      }
    }
  }

  /** Phase 3 for one node: launch an agent when it is pending, its dependencies are completed and it has a task. */
  method ConsiderNode(
    mid: Id, v: Id, deps: seq<Id>, lookup: map<Id, PlannedTask>, graph: G.ExecutionGraph,
    lifecycle: L.AgentLifecycleManager, selector: string -> Option<string>, serial: nat, now: real)
    returns (started: Option<L.AgentId>, serial': nat)
    requires deps == Preds(graph.edges, v) && v in graph.nodes
    requires L.Supervised(mid, v, serial) !in lifecycle.agents
    modifies graph`nodes, lifecycle`agents
    ensures if IsReady(old(graph.Value()), v) && v in lookup then
              && started == Some(L.Supervised(mid, v, serial)) && serial' == serial + 1
              && graph.nodes == old(graph.nodes)[v := old(graph.nodes[v]).(status := G.Running)]
              && var id, t := started.value, lookup[v];
              lifecycle.agents == old(lifecycle.agents)[id :=
                L.Moved(L.Fresh(L.AgentContext(id, mid, v, t.capability, selector(t.capability)), now), L.Running, now)]
            else
              && started == None && serial' == serial
              && graph.nodes == old(graph.nodes) && lifecycle.agents == old(lifecycle.agents)
  {
    started, serial' := None, serial;
    if graph.nodes[v].status != G.Pending {
      return;
    }
    var ok := DependenciesCompleted(graph.nodes, graph.edges, v, deps);
    if !ok || v !in lookup {
      return;
    }
    var task := lookup[v];
    var id := L.Supervised(mid, v, serial);
    var ctx := L.AgentContext(id, mid, v, task.capability, selector(task.capability));
    var created := lifecycle.CreateAgent(ctx, now);
    var running := lifecycle.StartAgent(id, now);
    graph.nodes := graph.nodes[v := graph.nodes[v].(status := G.Running)];
    started, serial' := Some(id), serial + 1;
  }

  ghost predicate Fresh(agents: L.Agents, n: nat) {
    forall a :: a in agents && a.Supervised? ==> a.serial < n
  }

  /** The set of nodes started so far, and that nothing else about the graph has changed. */
  ghost predicate InProgress(g: G.GraphValue, launched: map<Id, L.AgentId>, now_: G.GraphValue) {
    launched.Keys <= g.nodes.Keys && now_ == StartedOn(g, launched.Keys)
  }

  lemma StartOneMore(g: G.GraphValue, launched: map<Id, L.AgentId>, v: Id, id: L.AgentId, now_: G.GraphValue)
    requires InProgress(g, launched, now_) && v in g.nodes && v !in launched
    ensures InProgress(g, launched[v := id],
                       now_.(nodes := now_.nodes[v := now_.nodes[v].(status := G.Running)]))
  {
  }

  /** One node after another; each is looked at once. */
  method ConsiderAndRecord(
    ghost s: System, ghost g: G.GraphValue, ghost seen: set<Id>, ghost tasks: seq<PlannedTask>,
    mid: Id, v: Id, deps: seq<Id>, lookup: map<Id, PlannedTask>, graph: G.ExecutionGraph,
    lifecycle: L.AgentLifecycleManager, selector: string -> Option<string>, launched: map<Id, L.AgentId>,
    serial: nat, now: real)
    returns (launched': map<Id, L.AgentId>, serial': nat)
    requires Fresh(s.agents, s.nextSerial)
    requires InProgress(g, launched, graph.Value())
    requires Dispatched(s, mid, tasks, g, seen, launched, selector, now, lifecycle.agents, serial)
    requires v in g.nodes && v !in seen && deps == Preds(g.edges, v)
    requires lookup.Keys == Ids(tasks) && (v in lookup ==> lookup[v] in tasks && lookup[v].id == v)
    modifies graph`nodes, lifecycle`agents
    ensures InProgress(g, launched', graph.Value())
    ensures Dispatched(s, mid, tasks, g, seen + {v}, launched', selector, now, lifecycle.agents, serial')
  {
    ghost var id := L.Supervised(mid, v, serial);
    NextIdIsNew(s, mid, tasks, g, seen, launched, selector, now, lifecycle.agents, serial, v);
    ReadyIsStable(g, launched.Keys, v);
    var started: Option<L.AgentId>;
    ghost var agents := lifecycle.agents;
    started, serial' := ConsiderNode(mid, v, deps, lookup, graph, lifecycle, selector, serial, now);
    if started.Some? {
      launched' := launched[v := started.value];
      StartOneMore(g, launched, v, id, GraphAt(g, launched));
      DispatchedNext(s, mid, tasks, g, seen, launched, selector, now, agents, serial, v, id, lifecycle.agents[id]);
    } else {
      launched' := launched;
    }
  }

  ghost function GraphAt(g: G.GraphValue, launched: map<Id, L.AgentId>): (r: G.GraphValue) {
    StartedOn(g, launched.Keys)
  }

  /** The nodes in the order phase 3 visits them: level by level, each level in its own order. */
  method VisitOrder(nodes: set<Id>, ghost live: seq<Edge>, levels: seq<set<Id>>) returns (ids: seq<Id>)
    requires IsLeveling(nodes, live, levels)
    ensures NoDup(ids) && Elems(ids) == nodes
  {
    ids := [];
    for l := 0 to |levels|
      invariant NoDup(ids) && forall v :: v in ids <==> exists k :: 0 <= k < l && v in levels[k]
    {
      var next := Enumerate(levels[l]);
      assert forall v :: v in next <==> v in Elems(next);
      NoDupJoin(ids, next);
      ids := ids + next;
    }
    forall v ensures v in ids <==> v in nodes {
      if v in nodes {
        var l := LevelFor(nodes, live, levels, v);
      }
    }
  }

  lemma NoDupJoin(a: seq<Id>, b: seq<Id>)
    requires NoDup(a) && NoDup(b) && forall v :: v in a ==> v !in b
    ensures NoDup(a + b)
  {
    var c := a + b;
    forall i, j | 0 <= i < j < |c| ensures c[i] != c[j] {
      if i < |a| <= j {
        assert c[i] in a && c[j] in b;
      }
    }
  }

  /** The loop of phase 3. */
  method DispatchAll(
    ghost s: System, ghost g: G.GraphValue, ghost tasks: seq<PlannedTask>,
    mid: Id, ids: seq<Id>, deps: map<Id, seq<Id>>, lookup: map<Id, PlannedTask>, graph: G.ExecutionGraph,
    lifecycle: L.AgentLifecycleManager, selector: string -> Option<string>, serial: nat, now: real)
    returns (launched: map<Id, L.AgentId>, serial': nat)
    requires Fresh(s.agents, s.nextSerial) && s.agents == lifecycle.agents && s.nextSerial == serial
    requires graph.Value() == g && NoDup(ids) && Elems(ids) == g.nodes.Keys
    requires DependenciesOf(g, deps)
    requires lookup.Keys == Ids(tasks) == g.nodes.Keys
    requires forall v :: v in lookup ==> lookup[v] in tasks && lookup[v].id == v
    modifies graph`nodes, lifecycle`agents
    ensures InProgress(g, launched, graph.Value())
    ensures Dispatched(s, mid, tasks, g, g.nodes.Keys, launched, selector, now, lifecycle.agents, serial')
  {
    launched, serial' := map[], serial;
    NothingDispatched(s, mid, tasks, g, selector, now);
    ghost var seen := {};
    for i := 0 to |ids|
      invariant InProgress(g, launched, graph.Value())
      invariant seen == Elems(ids[..i])
      invariant Dispatched(s, mid, tasks, g, seen, launched, selector, now, lifecycle.agents, serial')
    {
      var v := ids[i];
      ElemsNext(ids, i);
      launched, serial' := ConsiderAndRecord(
        s, g, seen, tasks, mid, v, deps[v], lookup, graph, lifecycle, selector, launched, serial', now);
      seen := seen + {v};
    }
    assert ids[..|ids|] == ids;
  }

  lemma ElemsNext(ids: seq<Id>, i: nat)
    requires NoDup(ids) && i < |ids|
    ensures ids[i] in Elems(ids) && ids[i] !in Elems(ids[..i])
    ensures Elems(ids[..i + 1]) == Elems(ids[..i]) + {ids[i]}
  {
    assert ids[..i + 1] == ids[..i] + [ids[i]];
  }

  ghost predicate DependenciesOf(g: G.GraphValue, deps: map<Id, seq<Id>>) {
    deps.Keys == g.nodes.Keys && forall v {:trigger deps[v]} :: v in deps ==> deps[v] == Preds(g.edges, v)
  }

  /** Phase 3. */
  method DispatchReady(
    ghost s: System, mid: Id, tasks: seq<PlannedTask>, graph: G.ExecutionGraph, plan: G.ExecutionPlan,
    lifecycle: L.AgentLifecycleManager, selector: string -> Option<string>, serial: nat, now: real)
    returns (launched: map<Id, L.AgentId>, serial': nat)
    requires G.PlanFor(graph.nodes.Keys, graph.edges, plan) && graph.nodes.Keys == Ids(tasks)
    requires Fresh(s.agents, s.nextSerial) && s.agents == lifecycle.agents && s.nextSerial == serial
    modifies graph`nodes, lifecycle`agents
    ensures graph.Value() == StartedOn(old(graph.Value()), launched.Keys)
    ensures Dispatched(s, mid, tasks, old(graph.Value()), old(graph.nodes).Keys, launched, selector, now,
                       lifecycle.agents, serial')
  {
    var lookup := TaskLookup(tasks);
    var ids := VisitOrder(graph.nodes.Keys, graph.edges, plan.levels);
    launched, serial' := DispatchAll(
      s, graph.Value(), tasks, mid, ids, plan.dependencies, lookup, graph, lifecycle, selector, serial, now);
  }

  lemma NothingDispatched(
    s: System, mid: Id, tasks: seq<PlannedTask>, g: G.GraphValue, selector: string -> Option<string>, now: real)
    ensures InProgress(g, map[], g)
    ensures Dispatched(s, mid, tasks, g, {}, map[], selector, now, s.agents, s.nextSerial)
  {
    var none: map<Id, L.AgentId> := map[];
    assert none.Values == {};
    assert StartedOn(g, {}).nodes == g.nodes;
  }

  // ---- A whole tick of one mission ----

  datatype Verdict = EmptyGraph | Unplannable | GraphDone | InProgressStill

  lemma LeavesDoneByNode(g: G.GraphValue, leaves: set<G.AgentNode>)
    requires forall v :: v in g.nodes ==> g.nodes[v].id == v
    requires forall n :: n in leaves <==> n in g.nodes.Values && IsLeaf(g.edges, n.id)
    ensures LeavesDone(g) <==> forall n :: n in leaves ==> n.status == G.Completed
  {
    if forall n :: n in leaves ==> n.status == G.Completed {
      forall v | v in g.nodes && IsLeaf(g.edges, v) ensures g.nodes[v].status == G.Completed {
        assert g.nodes[v] in leaves;
      }
    }
    if LeavesDone(g) {
      forall n | n in leaves ensures n.status == G.Completed {
        var v :| v in g.nodes && g.nodes[v] == n;
      }
    }
  }

  lemma AllReadyStarted(s: System, mid: Id, tasks: seq<PlannedTask>, g: G.GraphValue, launched: map<Id, L.AgentId>,
                        n: nat, n': nat)
    requires LaunchedIds(mid, tasks, g, g.nodes.Keys, launched, n, n') && Ids(tasks) == g.nodes.Keys
    ensures StartedOn(g, launched.Keys) == Started(g)
    ensures launched.Keys == set v | v in g.nodes && IsReady(g, v) && v in Ids(tasks)
  {
    assert StartedOn(g, launched.Keys).nodes == Started(g).nodes;
  }

  /** What phases 1 to 3 do to the graph and the agents. */
  ghost predicate TickedGraph(
    s: System, mid: Id, tasks: seq<PlannedTask>, g: G.GraphValue, verdict: Verdict, launched: map<Id, L.AgentId>,
    selector: string -> Option<string>, now: real, after: G.GraphValue, agents: L.Agents, serial: nat)
  {
    if Dispatches(g) then
      && verdict == InProgressStill && after == Started(g)
      && Dispatched(s, mid, tasks, g, g.nodes.Keys, launched, selector, now, agents, serial)
    else
      && after == g && agents == s.agents && serial == s.nextSerial && launched == map[]
      && verdict == if !G.Schedulable(g.nodes.Keys, g.edges) then Unplannable
                    else if g.nodes == map[] then EmptyGraph else GraphDone
  }

  method TickGraph(
    ghost s: System, mid: Id, tasks: seq<PlannedTask>, graph: G.ExecutionGraph, mine: set<L.AgentId>,
    lifecycle: L.AgentLifecycleManager, selector: string -> Option<string>, serial: nat, now: real)
    returns (verdict: Verdict, launched: map<Id, L.AgentId>, serial': nat)
    requires OneEach(mine, lifecycle.agents) && graph.nodes.Keys == Ids(tasks)
    requires forall v :: v in graph.nodes ==> graph.nodes[v].id == v
    requires Fresh(s.agents, s.nextSerial) && s.agents == lifecycle.agents && s.nextSerial == serial
    modifies graph`nodes, lifecycle`agents
    ensures TickedGraph(s, mid, tasks, Synced(mine, s.agents, old(graph.Value())), verdict, launched, selector, now,
                        graph.Value(), lifecycle.agents, serial')
  {
    SyncGraph(graph, lifecycle.agents, mine);
    verdict, launched, serial' := AssessAndDispatch(s, mid, tasks, graph, lifecycle, selector, serial, now);
  }

  method AssessAndDispatch(
    ghost s: System, mid: Id, tasks: seq<PlannedTask>, graph: G.ExecutionGraph,
    lifecycle: L.AgentLifecycleManager, selector: string -> Option<string>, serial: nat, now: real)
    returns (verdict: Verdict, launched: map<Id, L.AgentId>, serial': nat)
    requires graph.nodes.Keys == Ids(tasks) && forall v :: v in graph.nodes ==> graph.nodes[v].id == v
    requires Fresh(s.agents, s.nextSerial) && s.agents == lifecycle.agents && s.nextSerial == serial
    modifies graph`nodes, lifecycle`agents
    ensures TickedGraph(s, mid, tasks, old(graph.Value()), verdict, launched, selector, now,
                        graph.Value(), lifecycle.agents, serial')
  {
    ghost var g := graph.Value();
    launched, serial' := map[], serial;
    var plan;
    verdict, plan := Assess(graph);
    if verdict == InProgressStill {
      launched, serial' := DispatchReady(s, mid, tasks, graph, plan, lifecycle, selector, serial, now);
      AllReadyStarted(s, mid, tasks, g, launched, s.nextSerial, serial');
    }
  }

  /** Phase 2: plan the graph anew and look at its leaves. */
  method Assess(graph: G.ExecutionGraph) returns (verdict: Verdict, plan: G.ExecutionPlan)
    requires forall v :: v in graph.nodes ==> graph.nodes[v].id == v
    ensures verdict ==
      if Dispatches(graph.Value()) then InProgressStill
      else if !G.Schedulable(graph.nodes.Keys, graph.edges) then Unplannable
      else if graph.nodes == map[] then EmptyGraph else GraphDone
    ensures verdict == InProgressStill ==> G.PlanFor(graph.nodes.Keys, graph.edges, plan)
  {
    plan := G.ExecutionPlan([], [], map[]);
    var r := graph.GeneratePlan();
    if r.Err? {
      return Unplannable, plan;
    }
    if graph.nodes == map[] {
      return EmptyGraph, plan;
    }
    var leaves := graph.GetLeaves();
    LeavesDoneByNode(graph.Value(), leaves);
    verdict := if forall n | n in leaves :: n.status == G.Completed then GraphDone else InProgressStill;
    plan := r.value;
  }

  /** The graph has one node per task, stored under its own id. */
  ghost predicate Keyed(p: PlanValue) {
    && p.graph.nodes.Keys == Ids(p.tasks)
    && forall v :: v in p.graph.nodes ==> p.graph.nodes[v].id == v
  }

  lemma TickFacts(s: System, mid: Id)
    requires Inv(s) && mid in s.missions && s.missions[mid].state == Running
    ensures s.missions[mid].plan.Some? && Keyed(s.missions[mid].plan.value)
    ensures OneEach(s.missions[mid].agents, s.agents) && Fresh(s.agents, s.nextSerial)
    ensures var g := s.missions[mid].plan.value.graph; G.Schedulable(g.nodes.Keys, g.edges)
  {
    assert MissionInv(mid, s.missions[mid], s.agents, s.nextSerial);
  }

  /** In a planned graph phase 2 finds no node exactly when the plan has no task. */
  lemma EmptyGraphMeansNoTasks(
    s: System, mid: Id, verdict: Verdict, launched: map<Id, L.AgentId>, selector: string -> Option<string>, now: real,
    after: G.GraphValue, agents: L.Agents, serial: nat)
    requires mid in s.missions && s.missions[mid].plan.Some? && Keyed(s.missions[mid].plan.value)
    requires var g := s.missions[mid].plan.value.graph; G.Schedulable(g.nodes.Keys, g.edges)
    requires TickedGraph(s, mid, s.missions[mid].plan.value.tasks, Seen(s.missions[mid], s.agents), verdict, launched,
                         selector, now, after, agents, serial)
    ensures verdict == EmptyGraph <==> s.missions[mid].plan.value.tasks == []
  {
    var tasks, g := s.missions[mid].plan.value.tasks, Seen(s.missions[mid], s.agents);
    assert g.nodes.Keys == Ids(tasks) && g.edges == s.missions[mid].plan.value.graph.edges;
    if tasks != [] {
      assert tasks[0].id in Ids(tasks);
    }
    assert g.nodes == map[] <==> g.nodes.Keys == {};
  }

  lemma DispatchLaunches(s: System, mid: Id, launched: map<Id, L.AgentId>,
                         selector: string -> Option<string>, now: real, s': System)
    requires mid in s.missions && s.missions[mid].plan.Some? && Dispatches(Seen(s.missions[mid], s.agents))
    requires Ids(s.missions[mid].plan.value.tasks) == s.missions[mid].plan.value.graph.nodes.Keys
    requires var m := s.missions[mid];
             Dispatched(s, mid, m.plan.value.tasks, Seen(m, s.agents), m.plan.value.graph.nodes.Keys, launched,
                        selector, now, s'.agents, s'.nextSerial)
    ensures Launches(s, mid, launched, selector, now, s')
  {
    var m := s.missions[mid];
    var g := Seen(m, s.agents);
    assert g.nodes.Keys == m.plan.value.graph.nodes.Keys;
    AllReadyStarted(s, mid, m.plan.value.tasks, g, launched, s.nextSerial, s'.nextSerial);
    assert launched.Keys == ReadySet(m, s.agents);
    IdsAndAgentsLaunch(s, mid, m.plan.value.tasks, g, g.nodes.Keys, launched, selector, now, s');
  }

  lemma IdsAndAgentsLaunch(
    s: System, mid: Id, tasks: seq<PlannedTask>, g: G.GraphValue, seen: set<Id>, launched: map<Id, L.AgentId>,
    selector: string -> Option<string>, now: real, s': System)
    requires mid in s.missions && s.missions[mid].plan.Some? && tasks == s.missions[mid].plan.value.tasks
    requires launched.Keys == ReadySet(s.missions[mid], s.agents)
    requires LaunchedIds(mid, tasks, g, seen, launched, s.nextSerial, s'.nextSerial)
    requires LaunchedAgents(s.agents, mid, tasks, launched, selector, now, s'.agents)
    ensures Launches(s, mid, launched, selector, now, s')
  {
  }

  lemma NothingLaunches(s: System, mid: Id, selector: string -> Option<string>, now: real, s': System)
    requires mid in s.missions && ReadySet(s.missions[mid], s.agents) == {}
    requires s'.agents == s.agents && s'.nextSerial == s.nextSerial
    ensures Launches(s, mid, map[], selector, now, s')
  {
    var none: map<Id, L.AgentId> := map[];
    assert none.Values == {};
  }

  lemma TickedGraphLaunches(s: System, mid: Id, verdict: Verdict, launched: map<Id, L.AgentId>,
                            selector: string -> Option<string>, now: real, after: G.GraphValue, s': System)
    requires mid in s.missions && s.missions[mid].plan.Some?
    requires Ids(s.missions[mid].plan.value.tasks) == s.missions[mid].plan.value.graph.nodes.Keys
    requires TickedGraph(s, mid, s.missions[mid].plan.value.tasks, Seen(s.missions[mid], s.agents), verdict, launched,
                         selector, now, after, s'.agents, s'.nextSerial)
    ensures Launches(s, mid, launched, selector, now, s')
  {
    var m := s.missions[mid];
    assert Seen(m, s.agents).nodes.Keys == m.plan.value.graph.nodes.Keys;
    if Dispatches(Seen(m, s.agents)) {
      DispatchLaunches(s, mid, launched, selector, now, s');
    } else {
      NothingLaunches(s, mid, selector, now, s');
    }
  }

  lemma TickedGraphIsTicked(s: System, mid: Id, m: Mission, verdict: Verdict, launched: map<Id, L.AgentId>,
                            selector: string -> Option<string>, now: real, after: G.GraphValue,
                            agents: L.Agents, serial: nat)
    requires m.state == Running && m.plan.Some?
    requires TickedGraph(s, mid, m.plan.value.tasks, Seen(m, s.agents), verdict, launched, selector, now, after,
                         agents, serial)
    ensures Ticked(m, s.agents, launched) ==
            Mission(if verdict == GraphDone then Completed else Running,
                    Some(m.plan.value.(graph := after)), m.agents + launched.Values)
  {
    if !Dispatches(Seen(m, s.agents)) {
      assert launched.Values == {};
      assert m.agents + launched.Values == m.agents;
    }
  }

  /** What the phases have done to graph and agents is what the state machine says a tick does. */
  lemma TickIsNext(s: System, mid: Id, verdict: Verdict, launched: map<Id, L.AgentId>,
                   selector: string -> Option<string>, now: real, after: G.GraphValue, s': System)
    requires mid in s.missions && s.missions[mid].state == Running && s.missions[mid].plan.Some?
    requires Ids(s.missions[mid].plan.value.tasks) == s.missions[mid].plan.value.graph.nodes.Keys
    requires TickedGraph(s, mid, s.missions[mid].plan.value.tasks, Seen(s.missions[mid], s.agents), verdict, launched,
                         selector, now, after, s'.agents, s'.nextSerial)
    requires s'.missions == s.missions[mid :=
      Mission(if verdict == GraphDone then Completed else Running,
              Some(s.missions[mid].plan.value.(graph := after)),
              s.missions[mid].agents + launched.Values)]
    ensures Next(s, Action.TickMission(mid, launched, selector), now, s')
  {
    TickedGraphLaunches(s, mid, verdict, launched, selector, now, after, s');
    TickedGraphIsTicked(s, mid, s.missions[mid], verdict, launched, selector, now, after, s'.agents, s'.nextSerial);
  }

  // ---- The supervisor ----

  datatype MissionRecord = MissionRecord(state: MissionState, plan: Option<P.TaskPlan>)

  datatype SupervisorError = AlreadyExists | NotFound | InvalidTransition | InvalidGraph(errors: seq<G.GraphError>)

  ghost function PlanValueOf(plan: P.TaskPlan): (r: PlanValue)
    reads plan.graph
  {
    PlanValue(plan.tasks, plan.graph.Value())
  }

  ghost function GraphOf(rec: MissionRecord): (r: set<G.ExecutionGraph>) {
    if rec.plan.Some? then {rec.plan.value.graph} else {}
  }

  ghost function MissionOf(rec: MissionRecord, mine: set<L.AgentId>): (r: Mission)
    reads GraphOf(rec)
  {
    Mission(rec.state, if rec.plan.Some? then Some(PlanValueOf(rec.plan.value)) else None, mine)
  }

  ghost function GraphsOf(missions: map<Id, MissionRecord>): (r: set<G.ExecutionGraph>) {
    set mid | mid in missions && missions[mid].plan.Some? :: missions[mid].plan.value.graph
  }

  lemma GraphIsListed(missions: map<Id, MissionRecord>, mid: Id)
    requires mid in missions
    ensures GraphOf(missions[mid]) <= GraphsOf(missions)
  {
  }

  lemma SamePlansSameGraphs(missions: map<Id, MissionRecord>, missions': map<Id, MissionRecord>)
    requires missions.Keys == missions'.Keys
    requires forall o :: o in missions ==> missions'[o].plan == missions[o].plan
    ensures GraphsOf(missions) == GraphsOf(missions')
  {
  }

  class MultiAgentSupervisor {
    const planner: P.TaskPlanner
    const lifecycle: L.AgentLifecycleManager
    const selector: string -> Option<string>
    var missions: map<Id, MissionRecord>
    var missionAgents: map<Id, set<L.AgentId>>
    var serial: nat

    ghost function Graphs(): (r: set<G.ExecutionGraph>)
      reads this
    {
      GraphsOf(missions)
    }

    /** The supervisor, its graphs and the agents as one value. */
    ghost function View(): (r: System)
      reads this, lifecycle, Graphs()
    {
      System(map mid | mid in missions ::
               MissionOf(missions[mid], if mid in missionAgents then missionAgents[mid] else {}),
             lifecycle.agents, serial)
    }

    /** When neither the tables nor the graphs have changed, the view shows the same missions. */
    twostate lemma MissionsUnchanged()
      requires missions == old(missions) && missionAgents == old(missionAgents)
      requires forall o :: o in missions && missions[o].plan.Some? ==>
        missions[o].plan.value.graph.Value() == old(missions[o].plan.value.graph.Value())
      ensures View().missions == old(View()).missions
    {
      var was, is_ := old(View()).missions, View().missions;
      assert is_.Keys == was.Keys;
      forall o | o in was ensures is_[o] == was[o] {
      }
    }

    /** When nothing about any other mission has changed, the view differs in this mission only. */
    twostate lemma OthersUnchanged(mid: Id)
      requires mid in missions && missions.Keys == old(missions).Keys + {mid}
      requires missionAgents.Keys == missions.Keys && old(missionAgents.Keys == missions.Keys)
      requires forall o :: o in old(missions) && o != mid ==>
        missions[o] == old(missions)[o] && missionAgents[o] == old(missionAgents)[o]
      requires forall o :: o in old(missions) && o != mid && old(missions)[o].plan.Some? ==>
        missions[o].plan.value.graph.Value() == old(missions[o].plan.value.graph.Value())
      ensures View().missions == old(View()).missions[mid := View().missions[mid]]
    {
      var was, is_ := old(View()).missions, View().missions;
      forall o | o in was && o != mid ensures is_[o] == was[o] {
      }
      DiffersAt(was, is_, mid);
    }

    /** Every mission has its set of agents, and missions do not share graphs. */
    ghost predicate Separate()
      reads this
    {
      && missionAgents.Keys == missions.Keys
      && (forall a, b ::
            a in missions && b in missions && a != b && missions[a].plan.Some? && missions[b].plan.Some? ==>
            missions[a].plan.value.graph != missions[b].plan.value.graph)
    }

    /** The supervisor is in a state that some run of the state machine reaches. */
    ghost predicate Valid()
      reads this, lifecycle, Graphs()
    {
      Separate() && Reachable(View())
    }

    constructor (planner: P.TaskPlanner, lifecycle: L.AgentLifecycleManager, selector: string -> Option<string>)
      requires lifecycle.agents == map[]
      ensures this.planner == planner && this.lifecycle == lifecycle && this.selector == selector
      ensures Valid() && View() == Start
    {
      this.planner := planner;
      this.lifecycle := lifecycle;
      this.selector := selector;
      missions := map[];
      missionAgents := map[];
      serial := 0;
      new;
      StartIsReachable();
    }

    method TransitionMission(mid: Id, target: MissionState) returns (r: Result<MissionState, SupervisorError>)
      modifies this`missions
      ensures r.Ok? <==> mid in old(missions) && CanMove(old(missions)[mid].state, target)
      ensures r.Ok? ==> r.value == target && missions == old(missions)[mid := old(missions)[mid].(state := target)]
      ensures r.Err? ==> missions == old(missions)
      ensures r.Err? ==> r.error == if mid in old(missions) then InvalidTransition else NotFound
    {
      if mid !in missions {
        return Err(NotFound);
      }
      if !CanMove(missions[mid].state, target) {
        return Err(InvalidTransition);
      }
      missions := missions[mid := missions[mid].(state := target)];
      return Ok(target);
    }

    /** Records the mission, plans it and stores the outcome. */
    method StoreMission(mid: Id, tasks: seq<PlannedTask>) returns (r: Result<MissionState, SupervisorError>)
      requires mid !in missions
      modifies this`missions, this`missionAgents
      ensures missionAgents == old(missionAgents)[mid := {}]
      ensures mid in missions && missions == old(missions)[mid := missions[mid]]
      ensures missions[mid].plan.Some? ==> fresh(missions[mid].plan.value.graph)
      ensures P.Plannable(planner.strategy, tasks, planner.available) <==> missions[mid].plan.Some?
      ensures missions[mid].plan.Some? ==>
        missions[mid].state == Ready && P.DeclaredPlan(planner.strategy, tasks, missions[mid].plan.value)
      ensures missions[mid].plan.None? ==>
        missions[mid].state == if Clean(tasks, planner.available) then Planning else Failed
      ensures r.Ok? ==> r.value == missions[mid].state
      ensures r.Err? ==> r.error.InvalidGraph?
      ensures r.Err? <==> missions[mid].state == Planning
    {
      BeginPlanning(mid);
      var planned := PlanTasks(mid, tasks);
      r := FinishPlanning(mid, planned);
    }

    method PlanTasks(mid: Id, tasks: seq<PlannedTask>) returns (planned: Result<P.TaskPlan, P.PlanFailure>)
      ensures planned.Ok? <==> P.Plannable(planner.strategy, tasks, planner.available)
      ensures planned.Err? ==> (planned.error.PlanningFailed? <==> !Clean(tasks, planner.available))
      ensures planned.Ok? ==> fresh(planned.value.graph) && P.DeclaredPlan(planner.strategy, tasks, planned.value)
    {
      planned := planner.CreatePlan(mid, tasks);
    }

    method BeginPlanning(mid: Id)
      modifies this`missions, this`missionAgents
      ensures missionAgents == old(missionAgents)[mid := {}]
      ensures missions == old(missions)[mid := MissionRecord(Planning, None)]
    {
      missions := missions[mid := MissionRecord(Created, None)];
      missionAgents := missionAgents[mid := {}];
      var _ := TransitionMission(mid, Planning);
    }

    method FinishPlanning(mid: Id, planned: Result<P.TaskPlan, P.PlanFailure>)
      returns (r: Result<MissionState, SupervisorError>)
      requires mid in missions && missions[mid] == MissionRecord(Planning, None)
      modifies this`missions
      ensures missions == old(missions)[mid :=
        if planned.Ok? then MissionRecord(Ready, Some(planned.value))
        else MissionRecord(if planned.error.PlanningFailed? then Failed else Planning, None)]
      ensures r ==
        if planned.Ok? then Ok(Ready)
        else if planned.error.PlanningFailed? then Ok(Failed)
        else Err(InvalidGraph(planned.error.graphErrors))
    {
      if planned.Err? {
        if planned.error.PlanningFailed? {
          r := TransitionMission(mid, Failed);
        } else {
          r := Err(InvalidGraph(planned.error.graphErrors));
        }
      } else {
        missions := missions[mid := MissionRecord(missions[mid].state, Some(planned.value))];
        r := TransitionMission(mid, Ready);
      }
    }

    /** The mission ends READY or FAILED, except that a failed validation of the generated graph is not caught and
        leaves it in PLANNING. */
    method CreateMission(mid: Id, tasks: seq<PlannedTask>, now: real) returns (r: Result<MissionState, SupervisorError>)
      requires Valid()
      modifies this`missions, this`missionAgents
      ensures Valid() && fresh(Graphs() - old(Graphs()))
      ensures mid in old(missions) ==> r == Err(AlreadyExists) && View() == old(View())
      ensures mid !in old(missions) ==>
        Next(old(View()), Action.CreateMission(mid, tasks, planner.strategy, planner.available), now, View())
      ensures mid !in old(missions) ==>
        (r.Ok? && r.value == View().missions[mid].state) || (r.Err? && r.error.InvalidGraph?)
      ensures mid !in old(missions) ==> (r.Err? <==> View().missions[mid].state == Planning)
      ensures mid !in old(missions) ==> mid in missions
      ensures mid !in old(missions) ==>
        missions[mid].state == if P.LeavesOrphan(planner.strategy, tasks, planner.available) then Planning
                               else if Clean(tasks, planner.available) then Ready else Failed
    {
      if mid in missions {
        return Err(AlreadyExists);
      }
      ghost var s := View();
      r := StoreMission(mid, tasks);
      OthersUnchanged(mid);
      NextIsReachable(s, Action.CreateMission(mid, tasks, planner.strategy, planner.available), now, View());
    }

    /** When one record has changed its state, the view shows just that. */
    twostate lemma StateUpdated(mid: Id)
      requires mid in old(missions) && mid in missions && missions.Keys == old(missions).Keys == missionAgents.Keys
      requires missions[mid].plan == old(missions)[mid].plan
      requires forall o :: o in missions && o != mid ==> missions[o] == old(missions)[o]
      requires missionAgents == old(missionAgents)
      requires forall o :: o in old(missions) && old(missions)[o].plan.Some? ==>
        missions[o].plan.value.graph.Value() == old(missions[o].plan.value.graph.Value())
      ensures mid in old(View()).missions
      ensures View().missions ==
              old(View()).missions[mid := old(View()).missions[mid].(state := missions[mid].state)]
    {
      OthersUnchanged(mid);
    }

    method SetState(mid: Id, target: MissionState)
      requires Separate() && mid in missions
      modifies this`missions
      ensures Separate() && Graphs() == old(Graphs())
      ensures mid in old(View()).missions && View() == MoveMission(old(View()), mid, target)
    {
      ghost var before := missions;
      missions := missions[mid := missions[mid].(state := target)];
      SamePlansSameGraphs(before, missions);
      StateUpdated(mid);
    }

    /** A checked transition of one mission record, seen on the whole view. */
    method MoveRecord(mid: Id, target: MissionState) returns (r: Result<MissionState, SupervisorError>)
      requires Separate()
      modifies this`missions
      ensures Separate() && Graphs() == old(Graphs())
      ensures r.Ok? <==> mid in old(missions) && CanMove(old(missions)[mid].state, target)
      ensures r.Ok? ==> mid in old(View()).missions && View() == MoveMission(old(View()), mid, target)
      ensures r.Err? ==> View() == old(View())
    {
      if mid !in missions {
        return Err(NotFound);
      }
      if !CanMove(missions[mid].state, target) {
        return Err(InvalidTransition);
      }
      SetState(mid, target);
      return Ok(target);
    }

    method StartMission(mid: Id, now: real) returns (r: Result<MissionState, SupervisorError>)
      requires Valid()
      modifies this`missions
      ensures Valid() && Graphs() == old(Graphs())
      ensures r.Ok? <==> mid in old(missions) && old(missions)[mid].state in {Ready, Paused}
      ensures r.Ok? ==> Next(old(View()), Action.StartMission(mid), now, View())
      ensures r.Err? ==> View() == old(View())
    {
      ghost var s := View();
      r := MoveRecord(mid, Running);
      if r.Ok? {
        NextIsReachable(s, Action.StartMission(mid), now, View());
      }
    }

    /** The loops over a mission's agents in pause, resume and cancel; agents that are gone are skipped. */
    method ControlAgents(c: Control, mine: set<L.AgentId>, now: real)
      modifies lifecycle`agents
      ensures lifecycle.agents == OnAgents(c, old(lifecycle.agents), mine, now)
    {
      var rest := mine;
      while rest != {}
        invariant rest <= mine
        invariant lifecycle.agents == OnAgents(c, old(lifecycle.agents), mine - rest, now)
        decreases |rest|
      {
        var a :| a in rest;
        rest := rest - {a};
        if a in lifecycle.agents {
          match c
          case Pause =>
            if lifecycle.agents[a].state == L.Running {
              var _ := lifecycle.PauseAgent(a, now);
            }
          case Resume =>
            if lifecycle.agents[a].state == L.Paused {
              var _ := lifecycle.ResumeAgent(a, now);
            }
          case Cancel =>
            var _ := lifecycle.CancelAgent(a, now);
        }
      }
      assert mine - rest == mine;
    }

    method ControlMission(c: Control, mid: Id, now: real)
      requires Separate() && mid in missions
      modifies lifecycle`agents
      ensures lifecycle.agents == OnAgents(c, old(lifecycle.agents), missionAgents[mid], now)
      ensures View() == old(View()).(agents := lifecycle.agents)
    {
      ControlAgents(c, missionAgents[mid], now);
      MissionsUnchanged();
    }

    /** A transition followed by the same control on every agent of the mission. */
    method MoveAndControl(mid: Id, target: MissionState, c: Control, now: real)
      returns (r: Result<MissionState, SupervisorError>)
      requires Separate()
      modifies this`missions, lifecycle`agents
      ensures Separate() && Graphs() == old(Graphs())
      ensures r.Ok? <==> mid in old(missions) && CanMove(old(missions)[mid].state, target)
      ensures r.Ok? ==>
        && mid in old(View()).missions
        && View() == MoveMission(old(View()), mid, target).(
             agents := OnAgents(c, old(lifecycle.agents), old(View()).missions[mid].agents, now))
      ensures r.Err? ==> View() == old(View())
    {
      r := MoveRecord(mid, target);
      if r.Ok? {
        ControlMission(c, mid, now);
      }
    }

    method PauseMission(mid: Id, now: real) returns (r: Result<MissionState, SupervisorError>)
      requires Valid()
      modifies this`missions, lifecycle`agents
      ensures Valid() && Graphs() == old(Graphs())
      ensures r.Ok? <==> mid in old(missions) && old(missions)[mid].state == Running
      ensures r.Ok? ==> Next(old(View()), Action.PauseMission(mid), now, View())
      ensures r.Ok? ==> View().agents.Keys == old(View()).agents.Keys
      ensures r.Ok? ==> forall a :: a in old(View()).agents ==>
        View().agents[a] ==
          if a in old(View()).missions[mid].agents && old(View()).agents[a].state == L.Running
          then old(View()).agents[a].(state := L.Paused) else old(View()).agents[a]
      ensures r.Err? ==> View() == old(View())
    {
      ghost var s := View();
      r := MoveAndControl(mid, Paused, Pause, now);
      if r.Ok? {
        NextIsReachable(s, Action.PauseMission(mid), now, View());
        PauseStopsAgents(s, mid, now, View());
      }
    }

    method ResumeMission(mid: Id, now: real) returns (r: Result<MissionState, SupervisorError>)
      requires Valid()
      modifies this`missions, lifecycle`agents
      ensures Valid() && Graphs() == old(Graphs())
      ensures r.Ok? <==> mid in old(missions) && old(missions)[mid].state in {Ready, Paused}
      ensures r.Ok? ==> Next(old(View()), Action.ResumeMission(mid), now, View())
      ensures r.Ok? ==> View().agents.Keys == old(View()).agents.Keys
      ensures r.Ok? ==> forall a :: a in old(View()).agents ==>
        if a in old(View()).missions[mid].agents && old(View()).agents[a].state == L.Paused
        then View().agents[a].state == L.Running else View().agents[a] == old(View()).agents[a]
      ensures r.Err? ==> View() == old(View())
    {
      ghost var s := View();
      r := MoveAndControl(mid, Running, Resume, now);
      if r.Ok? {
        NextIsReachable(s, Action.ResumeMission(mid), now, View());
        ResumeStartsAgents(s, mid, now, View());
      }
    }

    method CancelMission(mid: Id, now: real) returns (r: Result<MissionState, SupervisorError>)
      requires Valid()
      modifies this`missions, lifecycle`agents
      ensures Valid() && Graphs() == old(Graphs())
      ensures r.Ok? <==> mid in old(missions) && old(missions)[mid].state !in {Completed, Failed, Cancelled}
      ensures r.Ok? ==> Next(old(View()), Action.CancelMission(mid), now, View())
      ensures r.Ok? ==> View().agents.Keys == old(View()).agents.Keys
      ensures r.Ok? ==> forall a :: a in old(View()).agents ==>
        if a in old(View()).missions[mid].agents &&
           old(View()).agents[a].state !in {L.Completed, L.Failed, L.Cancelled, L.Timeout}
        then View().agents[a].state == L.Cancelled else View().agents[a] == old(View()).agents[a]
      ensures r.Err? ==> View() == old(View())
    {
      ghost var s := View();
      r := MoveAndControl(mid, Cancelled, Cancel, now);
      if r.Ok? {
        NextIsReachable(s, Action.CancelMission(mid), now, View());
        CancelEndsAgents(s, mid, now, View());
      }
    }

    /** The three phases, on the mission's graph and the shared agents. */
    method RunPhases(mid: Id, now: real, ghost s: System, ghost m: Mission)
      returns (verdict: Verdict, launched: map<Id, L.AgentId>, serial': nat, ghost after: G.GraphValue)
      requires mid in missions && missions[mid].plan.Some? && mid in missionAgents
      requires s.agents == lifecycle.agents && s.nextSerial == serial
      requires m == MissionOf(missions[mid], missionAgents[mid]) && Keyed(m.plan.value)
      requires OneEach(missionAgents[mid], lifecycle.agents) && Fresh(lifecycle.agents, serial)
      modifies lifecycle`agents, GraphOf(missions[mid])
      ensures after == missions[mid].plan.value.graph.Value()
      ensures TickedGraph(s, mid, m.plan.value.tasks, Seen(m, s.agents), verdict, launched, selector, now, after,
                          lifecycle.agents, serial')
    {
      var plan := missions[mid].plan.value;
      verdict, launched, serial' :=
        TickGraph(s, mid, plan.tasks, plan.graph, missionAgents[mid], lifecycle, selector, serial, now);
      after := plan.graph.Value();
    }

    /** When only this mission's graph has changed, the view shows the new graph and nothing else. */
    twostate lemma GraphUpdated(mid: Id)
      requires Separate() && mid in missions && missions[mid].plan.Some?
      requires missions == old(missions) && missionAgents == old(missionAgents)
      requires forall o :: o in missions && o != mid && missions[o].plan.Some? ==>
        missions[o].plan.value.graph.Value() == old(missions[o].plan.value.graph.Value())
      ensures mid in old(View()).missions && old(View()).missions[mid].plan.Some?
      ensures var m := old(View()).missions[mid];
              View().missions == old(View()).missions[mid :=
                m.(plan := Some(m.plan.value.(graph := missions[mid].plan.value.graph.Value())))]
    {
      OthersUnchanged(mid);
    }

    /** The bookkeeping of a tick in the supervisor's own tables. */
    method RecordTick(mid: Id, verdict: Verdict, launched: map<Id, L.AgentId>, serial': nat)
      requires Separate() && mid in missions && missions[mid].state == Running
      modifies this
      ensures Separate() && serial == serial'
      ensures missionAgents == old(missionAgents)[mid := old(missionAgents)[mid] + launched.Values]
      ensures missions == old(missions)[mid :=
        MissionRecord(if verdict == GraphDone then Completed else Running, old(missions)[mid].plan)]
    {
      serial := serial';
      missionAgents := missionAgents[mid := missionAgents[mid] + launched.Values];
      if verdict == GraphDone {
        var _ := TransitionMission(mid, Completed);
      }
    }

    method RecordAndSee(mid: Id, verdict: Verdict, launched: map<Id, L.AgentId>, serial': nat)
      requires Separate() && mid in missions && missions[mid].state == Running
      modifies this
      ensures Separate() && serial == serial'
      ensures missions.Keys == old(missions).Keys
      ensures forall o :: o in missions ==> missions[o].plan == old(missions)[o].plan
      ensures mid in old(View()).missions
      ensures var m := old(View()).missions[mid];
              View().missions == old(View()).missions[mid :=
                Mission(if verdict == GraphDone then Completed else Running, m.plan, m.agents + launched.Values)]
    {
      RecordTick(mid, verdict, launched, serial');
      OthersUnchanged(mid);
    }

    method RunAndSee(mid: Id, now: real, ghost s: System)
      returns (verdict: Verdict, launched: map<Id, L.AgentId>, serial': nat, ghost after: G.GraphValue)
      requires Separate() && s == View()
      requires mid in missions && missions[mid].plan.Some?
      requires Keyed(PlanValueOf(missions[mid].plan.value))
      requires OneEach(missionAgents[mid], lifecycle.agents) && Fresh(lifecycle.agents, serial)
      modifies lifecycle`agents, GraphOf(missions[mid])
      ensures mid in s.missions && s.missions[mid].plan.Some?
      ensures TickedGraph(s, mid, s.missions[mid].plan.value.tasks, Seen(s.missions[mid], s.agents),
                          verdict, launched, selector, now, after, lifecycle.agents, serial')
      ensures View().missions == s.missions[mid :=
                s.missions[mid].(plan := Some(s.missions[mid].plan.value.(graph := after)))]
    {
      verdict, launched, serial', after := RunPhases(mid, now, s, s.missions[mid]);
      GraphUpdated(mid);
    }

    /** Phases and bookkeeping together, seen on the whole view. */
    method AdvanceMission(mid: Id, now: real, ghost s: System)
      returns (verdict: Verdict, launched: map<Id, L.AgentId>, ghost after: G.GraphValue)
      requires Separate() && s == View()
      requires mid in missions && missions[mid].state == Running && missions[mid].plan.Some?
      requires Keyed(PlanValueOf(missions[mid].plan.value))
      requires OneEach(missionAgents[mid], lifecycle.agents) && Fresh(lifecycle.agents, serial)
      modifies this, lifecycle`agents, GraphOf(missions[mid])
      ensures Separate()
      ensures missions.Keys == old(missions).Keys
      ensures forall o :: o in missions ==> missions[o].plan == old(missions)[o].plan
      ensures mid in s.missions && s.missions[mid].plan.Some?
      ensures TickedGraph(s, mid, s.missions[mid].plan.value.tasks, Seen(s.missions[mid], s.agents),
                          verdict, launched, selector, now, after, lifecycle.agents, serial)
      ensures View().missions == s.missions[mid :=
                Mission(if verdict == GraphDone then Completed else Running,
                        Some(s.missions[mid].plan.value.(graph := after)), s.missions[mid].agents + launched.Values)]
    {
      var serial';
      verdict, launched, serial', after := RunAndSee(mid, now, s);
      ghost var planned := View().missions[mid];
      RecordAndSee(mid, verdict, launched, serial');
      UpdateTwice(s.missions, mid, planned,
                  Mission(if verdict == GraphDone then Completed else Running, planned.plan,
                          planned.agents + launched.Values));
    }

    /** One tick of one running mission. A running mission always has a plan. */
    method TickMission(mid: Id, now: real) returns (changed: bool, launched: map<Id, L.AgentId>)
      requires Valid() && mid in missions && missions[mid].state == Running
      modifies this, lifecycle`agents, GraphOf(missions[mid])
      ensures Valid() && SamePlans(old(missions), missions)
      ensures Next(old(View()), Action.TickMission(mid, launched, selector), now, View())
      ensures missions[mid].plan.Some? && (changed <==> missions[mid].plan.value.tasks != [])
    {
      ghost var s := View();
      ReachableInv(s);
      TickFacts(s, mid);
      var verdict;
      ghost var after;
      verdict, launched, after := AdvanceMission(mid, now, s);
      EmptyGraphMeansNoTasks(s, mid, verdict, launched, selector, now, after, lifecycle.agents, serial);
      TickIsNext(s, mid, verdict, launched, selector, now, after, View());
      NextIsReachable(s, Action.TickMission(mid, launched, selector), now, View());
      changed := verdict != EmptyGraph;
    }

    /** One turn of the loop of tick. */
    method TickNext(mid: Id, now: real, ghost s: System, ghost before: seq<System>, ghost done: seq<Occurrence>,
                    ghost ticked: set<Id>)
      returns (c: bool, ghost states: seq<System>, ghost what: seq<Occurrence>)
      requires Valid() && mid in missions && missions[mid].state == Running
      requires Progress(s, before, done, ticked, View()) && mid !in ticked
      modifies this, lifecycle`agents, GraphOf(missions[mid])
      ensures Valid() && SamePlans(old(missions), missions)
      ensures mid in missions && (c <==> HasTasks(missions[mid])) && SameStates(old(missions), missions, mid)
      ensures Progress(s, states, what, ticked + {mid}, View())
    {
      ghost var was := View();
      var launched;
      c, launched := TickMission(mid, now);
      ghost var o := Occurrence(Action.TickMission(mid, launched, selector), now);
      TickedOthers(was, o, View());
      ProgressNext(s, before, done, ticked, was, o, View());
      states, what := before + [View()], done + [o];
      assert forall x :: x in missions ==> x in was.missions && View().missions[x].state == missions[x].state;
    }

    /** One tick: every mission that is running when it begins advances by one step, each exactly once. */
    method Tick(now: real) returns (changed: set<Id>, ghost states: seq<System>, ghost what: seq<Occurrence>)
      requires Valid()
      modifies this, lifecycle`agents, Graphs()
      ensures Valid() && SamePlans(old(missions), missions)
      ensures IsRun(states, what) && states[0] == old(View()) && states[|states| - 1] == View()
      ensures TicksEachOnce(what, RunningIn(old(missions)))
      ensures changed == WithTasks(RunningIn(old(missions)), old(missions))
      ensures forall mid :: mid in changed <==>
        && mid in old(missions) && old(missions)[mid].state == Running
        && old(missions)[mid].plan.Some? && old(missions)[mid].plan.value.tasks != []
    {
      changed := {};
      var rest := RunningIn(missions);
      ghost var running, ticked, s, were := rest, {}, View(), missions;
      states, what := [s], [];
      while rest != {}
        invariant rest <= RunningIn(missions)
        invariant ticked + rest == running && ticked !! rest
        invariant changed == WithTasks(ticked, were)
        invariant Valid() && SamePlans(were, missions)
        invariant Progress(s, states, what, ticked, View())
        decreases |rest|
      {
        var mid :| mid in rest;
        GraphIsListed(were, mid);
        ghost var before := missions;
        var c;
        c, states, what := TickNext(mid, now, s, states, what, ticked);
        LoopFacts(were, before, missions, mid, rest, ticked, changed);
        changed := changed + if c then {mid} else {};
        MoveOver(ticked, rest, mid);
        ticked, rest := ticked + {mid}, rest - {mid};
      }
      assert ticked + {} == ticked;
    }
  }

  ghost predicate SameStates(were: map<Id, MissionRecord>, missions: map<Id, MissionRecord>, but: Id) {
    forall o :: o in missions && o in were && o != but ==> missions[o].state == were[o].state
  }

  /** What one turn of the loop of tick keeps about the sets that the loop works with. */
  lemma LoopFacts(were: map<Id, MissionRecord>, before: map<Id, MissionRecord>, after: map<Id, MissionRecord>, mid: Id,
                  rest: set<Id>, ticked: set<Id>, changed: set<Id>)
    requires SamePlans(were, before) && SamePlans(before, after) && SameStates(before, after, mid)
    requires mid in rest && rest <= RunningIn(before) && changed == WithTasks(ticked, were)
    ensures SamePlans(were, after) && rest - {mid} <= RunningIn(after)
    ensures (changed + if HasTasks(after[mid]) then {mid} else {}) == WithTasks(ticked + {mid}, were)
  {
  }

  function RunningIn(missions: map<Id, MissionRecord>): (r: set<Id>)
    ensures forall mid :: mid in r <==> mid in missions && missions[mid].state == Running
  {
    set mid | mid in missions && missions[mid].state == Running
  }

  predicate HasTasks(rec: MissionRecord) {
    rec.plan.Some? && rec.plan.value.tasks != []
  }

  /** The missions among these whose plan has a task: the ones that a tick reports as changed. */
  function WithTasks(mids: set<Id>, missions: map<Id, MissionRecord>): (r: set<Id>) {
    set mid | mid in mids && mid in missions && HasTasks(missions[mid])
  }

  ghost predicate SamePlans(were: map<Id, MissionRecord>, missions: map<Id, MissionRecord>) {
    missions.Keys == were.Keys && forall o :: o in missions ==> missions[o].plan == were[o].plan
  }

  /** From s to s', ticking each of the given missions once. */
  ghost predicate Progress(s: System, states: seq<System>, what: seq<Occurrence>, ticked: set<Id>, s': System) {
    IsRun(states, what) && states[0] == s && states[|states| - 1] == s' && TicksEachOnce(what, ticked)
  }

  lemma ProgressNext(s: System, states: seq<System>, what: seq<Occurrence>, ticked: set<Id>, last: System,
                     o: Occurrence, s': System)
    requires Progress(s, states, what, ticked, last)
    requires o.action.TickMission? && o.action.id !in ticked && Next(last, o.action, o.now, s')
    ensures Progress(s, states + [s'], what + [o], ticked + {o.action.id}, s')
  {
    RunNext(states, what, o, s');
    TickOnceMore(what, ticked, o);
  }

  /** The occurrences are ticks, one for each of the given missions. */
  ghost predicate TicksEachOnce(what: seq<Occurrence>, mids: set<Id>) {
    && (forall i :: 0 <= i < |what| ==> what[i].action.TickMission? && what[i].action.id in mids)
    && (forall i, j :: 0 <= i < j < |what| ==> what[i].action.id != what[j].action.id)
    && |what| == |mids|
  }

  lemma TickOnceMore(what: seq<Occurrence>, mids: set<Id>, o: Occurrence)
    requires TicksEachOnce(what, mids) && o.action.TickMission? && o.action.id !in mids
    ensures TicksEachOnce(what + [o], mids + {o.action.id})
  {
  }

  lemma RunNext(states: seq<System>, what: seq<Occurrence>, o: Occurrence, s': System)
    requires IsRun(states, what) && Next(states[|states| - 1], o.action, o.now, s')
    ensures IsRun(states + [s'], what + [o])
  {
    var states', what' := states + [s'], what + [o];
    forall i, j | 0 <= i && j == i + 1 && j < |states'|
      ensures Next(states'[i], what'[i].action, what'[i].now, states'[j])
    {
      if j < |states| {
        assert Next(states[i], what[i].action, what[i].now, states[j]);
      }
    }
  }

  /** The tick of one mission leaves the others as they are. */
  lemma TickedOthers(s: System, o: Occurrence, s': System)
    requires o.action.TickMission? && Next(s, o.action, o.now, s')
    ensures s'.missions.Keys == s.missions.Keys
    ensures forall mid :: mid in s.missions && mid != o.action.id ==> s'.missions[mid] == s.missions[mid]
  {
  }
}
