/** backend/agent/task_planner.py: validating a task list and turning it into a plan. */
module Planner {
  import opened Results
  import opened Dag
  import opened Kahn
  import opened Levels
  import opened TaskLists
  import opened Durations
  import opened ExecutionGraphs

  // ---- PlanningValidator ----

  method ValidateTasks(tasks: seq<PlannedTask>) returns (errors: seq<TaskError>)
    ensures forall err :: err in errors <==> Fault(tasks, err)
  {
    errors := [];
    var ids: set<Id> := {};
    for i := 0 to |tasks|
      invariant ids == Ids(tasks[..i])
      invariant forall err :: err in errors <==> exists k :: 0 <= k < i && FaultAt(tasks, k, err)
    {
      var found := FaultsOf(tasks, i, ids);
      errors := errors + found;
      assert tasks[..i + 1] == tasks[..i] + [tasks[i]];
      ids := ids + {tasks[i].id};
    }
  }

  /** The loop body of validate_tasks: the faults of one task, given the ids seen before it. */
  method FaultsOf(tasks: seq<PlannedTask>, i: nat, seen: set<Id>) returns (errors: seq<TaskError>)
    requires i < |tasks| && seen == Ids(tasks[..i])
    ensures forall err :: err in errors <==> FaultAt(tasks, i, err)
  {
    var task := tasks[i];
    forall v ensures v in seen <==> exists j :: 0 <= j < i && tasks[j].id == v {
      if v in seen {
        var j := IdsAt(tasks[..i], v);
        assert tasks[j].id == v;
      }
      if j :| 0 <= j < i && tasks[j].id == v {
        assert tasks[..i][j] in tasks[..i];
      }
    }
    errors := [];
    if task.id in seen {
      errors := errors + [DuplicateTask(task.id)];
    }
    var ids := seen + {task.id};
    if task.complexity < 0.0 || task.complexity > 10.0 {
      errors := errors + [ComplexityOutOfRange(task.id)];
    }
    var deps := Enumerate(task.dependencies);
    ghost var before := errors;
    for m := 0 to |deps|
      invariant before <= errors
      invariant forall err :: err in errors <==>
        err in before || (exists d :: d in deps[..m] && d !in ids && err == UnknownDependency(task.id, d))
    {
      assert deps[..m + 1] == deps[..m] + [deps[m]];
      if deps[m] !in ids {
        errors := errors + [UnknownDependency(task.id, deps[m])];
      }
    }
    assert deps[..|deps|] == deps;
    forall err ensures err in errors <==> FaultAt(tasks, i, err) {
      if err.UnknownDependency? {
        assert err.dependency in Elems(deps) <==> err.dependency in deps;
      }
    }
  }

  /** The edges that the cycle check counts: declared dependencies on known tasks. */
  method KnownEdges(tasks: seq<PlannedTask>) returns (es: seq<Edge>)
    ensures DeclaresKnown(tasks, es)
  {
    var ids := Ids(tasks);
    es := [];
    for i := 0 to |tasks|
      invariant forall a, b :: Linked(es, a, b) <==> DependsOn(tasks[..i], a, b) && a in ids
    {
      var task := tasks[i];
      var known := set d | d in task.dependencies && d in ids;
      var deps := Enumerate(known);
      var added := seq(|deps|, m requires 0 <= m < |deps| => Edge(deps[m], task.id, ""));
      assert tasks[..i + 1] == tasks[..i] + [task];
      forall a, b ensures Linked(es + added, a, b) <==> DependsOn(tasks[..i + 1], a, b) && a in ids {
        assert Linked(es + added, a, b) <==> Linked(es, a, b) || Linked(added, a, b);
        assert DependsOn(tasks[..i + 1], a, b) <==>
               DependsOn(tasks[..i], a, b) || (task.id == b && a in task.dependencies);
        if a in known && b == task.id {
          assert a in Elems(deps);
          var m :| 0 <= m < |deps| && deps[m] == a;
          assert added[m] in added;
        }
        if Linked(added, a, b) {
          var e :| e in added && e.source == a && e.target == b;
          var m :| 0 <= m < |added| && added[m] == e;
          assert deps[m] in Elems(deps);
        }
      }
      es := es + added;
    }
    assert tasks[..|tasks|] == tasks;
  }

  method ValidateCycleAmongTasks(tasks: seq<PlannedTask>, ghost es: seq<Edge>) returns (errors: seq<TaskError>)
    requires DeclaresKnown(tasks, es)
    ensures errors == [] <==> Acyclic(es)
    ensures errors != [] ==> |errors| == 1 && errors[0].TaskCycle?
    ensures errors != [] ==> forall v :: v in errors[0].ids <==> v in Ids(tasks) && AfterCycle(es, v)
  {
    var nodeIds := Ids(tasks);
    var known := KnownEdges(tasks);
    var done, deg := Kahn.Run(nodeIds, known);
    KnownEdgesAreLive(tasks, known);
    CompleteIffAcyclic(nodeIds, known, done, deg);
    SameLinksSameCycles(known, es);
    if |done| != |nodeIds| {
      var cycled := set v | v in nodeIds && deg[v] > 0;
      forall v | v in nodeIds ensures v in cycled <==> AfterCycle(es, v) {
        VisitedIffNotAfterCycle(nodeIds, known, done, deg, v);
      }
      var ids := Enumerate(cycled);
      assert forall v :: v in ids <==> v in Elems(ids);
      errors := [TaskCycle(ids)];
    } else {
      errors := [];
    }
  }

  lemma KnownEdgesAreLive(tasks: seq<PlannedTask>, es: seq<Edge>)
    requires DeclaresKnown(tasks, es)
    ensures Within(es, Ids(tasks)) && Live(Ids(tasks), es) == es
  {
    forall e | e in es ensures e.source in Ids(tasks) && e.target in Ids(tasks) {
      assert Linked(es, e.source, e.target);
    }
    LiveIsAll(Ids(tasks), es);
  }

  lemma SameLinksSamePath(es: seq<Edge>, es': seq<Edge>, p: seq<Id>)
    requires forall a, b :: Linked(es, a, b) <==> Linked(es', a, b)
    ensures IsPath(es, p) <==> IsPath(es', p)
  {
  }

  /** Cycles depend on which nodes are linked, not on how the list presents the links. */
  lemma SameLinksSameCycles(es: seq<Edge>, es': seq<Edge>)
    requires forall a, b :: Linked(es, a, b) <==> Linked(es', a, b)
    ensures Acyclic(es) <==> Acyclic(es')
    ensures forall v :: AfterCycle(es, v) <==> AfterCycle(es', v)
  {
    forall p: seq<Id> ensures IsPath(es, p) <==> IsPath(es', p) {
      SameLinksSamePath(es, es', p);
    }
    assert forall p :: IsCycle(es, p) <==> IsCycle(es', p);
    assert forall p, a, b :: IsPathFromTo(es, p, a, b) <==> IsPathFromTo(es', p, a, b);
  }

  method ValidateCapabilities(tasks: seq<PlannedTask>, available: Option<set<string>>) returns (errors: seq<TaskError>)
    ensures forall err :: err in errors <==>
      exists t :: t in tasks && !Capable(t, available) && err == UnknownCapability(t.id, t.capability)
  {
    errors := [];
    if available.None? {
      return;
    }
    for i := 0 to |tasks|
      invariant forall err :: err in errors <==>
        exists t :: t in tasks[..i] && !Capable(t, available) && err == UnknownCapability(t.id, t.capability)
    {
      assert tasks[..i + 1] == tasks[..i] + [tasks[i]];
      if tasks[i].capability !in available.value {
        errors := errors + [UnknownCapability(tasks[i].id, tasks[i].capability)];
      }
    }
    assert tasks[..|tasks|] == tasks;
  }

  /** A clean verdict means: list order is already a topological order, and every value is in range. */
  method ValidatePlan(tasks: seq<PlannedTask>, available: Option<set<string>>) returns (errors: seq<TaskError>)
    ensures errors == [] <==> Clean(tasks, available)
  {
    var es := KnownEdges(tasks);
    var taskErrors := ValidateTasks(tasks);
    var cycleErrors := ValidateCycleAmongTasks(tasks, es);
    var capabilityErrors := ValidateCapabilities(tasks, available);
    errors := taskErrors + cycleErrors + capabilityErrors;
    ValidIffWellOrdered(tasks, es);
    assert taskErrors == [] <==> forall err :: !Fault(tasks, err) by {
      if taskErrors != [] { assert taskErrors[0] in taskErrors; }
    }
    assert capabilityErrors == [] <==> forall t :: t in tasks ==> Capable(t, available) by {
      if capabilityErrors != [] { assert capabilityErrors[0] in capabilityErrors; }
      if t :| t in tasks && !Capable(t, available) {
        assert UnknownCapability(t.id, t.capability) in capabilityErrors;
      }
    }
  }

  // ---- Strategies ----

  method MakeSequential(tasks: seq<PlannedTask>) returns (updated: seq<PlannedTask>)
    ensures updated == Chain(tasks)
  {
    updated := [];
    for i := 0 to |tasks|
      invariant updated == Chain(tasks)[..i]
    {
      var deps := if i > 0 then {tasks[i - 1].id} else {};
      updated := updated + [tasks[i].(dependencies := deps)];
    }
  }

  lemma IdsNext(tasks: seq<PlannedTask>, i: nat)
    requires i < |tasks|
    ensures Ids(tasks[..i + 1]) == Ids(tasks[..i]) + {tasks[i].id}
  {
    assert tasks[..i + 1] == tasks[..i] + [tasks[i]];
  }

  method MakeConservative(tasks: seq<PlannedTask>) returns (updated: seq<PlannedTask>)
    ensures updated == AfterAllPrevious(tasks)
  {
    updated := [];
    var allPrevious: set<Id> := {};
    for i := 0 to |tasks|
      invariant allPrevious == Ids(tasks[..i])
      invariant |updated| == i && forall k :: 0 <= k < i ==> updated[k] == AfterAllPrevious(tasks)[k]
    {
      var task := tasks[i];
      var merged := task.dependencies + allPrevious - {task.id};
      assert AfterAllPrevious(tasks)[i] == task.(dependencies := merged);
      updated := updated + [task.(dependencies := merged)];
      IdsNext(tasks, i);
      allPrevious := allPrevious + {task.id};
    }
  }

  // ---- From tasks to a graph ----

  function NodeOf(t: PlannedTask): (r: AgentNode) {
    AgentNode(t.id, if |t.title| > 200 then t.title[..200] else t.title,
              if t.parallelizable then NodeType.Parallel else NodeType.Task, Pending, t.capability)
  }

  /** One pending node per task, under the task's id. */
  ghost predicate NodesOf(tasks: seq<PlannedTask>, nodes: map<Id, AgentNode>) {
    && nodes.Keys == Ids(tasks)
    && forall t :: t in tasks ==> t.id in nodes && nodes[t.id] == NodeOf(t)
  }

  /** The edges are the declared dependencies: each exactly once, unconditional, and nothing else. */
  ghost predicate EdgesOf(tasks: seq<PlannedTask>, es: seq<Edge>) {
    && NoDup(es)
    && forall e :: e in es <==> e.condition == "" && DependsOn(tasks, e.source, e.target)
  }

  lemma EdgesOfDeclares(tasks: seq<PlannedTask>, es: seq<Edge>)
    requires EdgesOf(tasks, es)
    ensures Declares(tasks, es)
  {
    forall a, b ensures Linked(es, a, b) <==> DependsOn(tasks, a, b) {
      if DependsOn(tasks, a, b) {
        assert Edge(a, b, "") in es;
      }
    }
  }

  lemma DependenciesExist(tasks: seq<PlannedTask>, a: Id, b: Id)
    requires WellOrdered(tasks) && DependsOn(tasks, a, b)
    ensures a in Ids(tasks) && b in Ids(tasks) && a != b
  {
    var t :| t in tasks && t.id == b && a in t.dependencies;
    var i :| 0 <= i < |tasks| && tasks[i] == t;
    var j :| 0 <= j < i && tasks[j].id == a;
    assert tasks[j] in tasks;
  }

  /** None of the edges that _tasks_to_graph offers is refused. */
  lemma NextEdgeAccepted(tasks: seq<PlannedTask>, g: GraphValue, e: Edge)
    requires WellOrdered(tasks) && g.nodes.Keys == Ids(tasks)
    requires forall d :: d in g.edges ==> DependsOn(tasks, d.source, d.target)
    requires DependsOn(tasks, e.source, e.target)
    ensures Accepts(g, GraphOp.AddEdge(e))
  {
    BackwardRises(tasks, g.edges + [e]);
    forall d | d in g.edges + [e] ensures d.source in g.nodes && d.target in g.nodes {
      DependenciesExist(tasks, d.source, d.target);
    }
  }

  /** The edges offered for the first i tasks and for the first m dependencies of the next one. */
  ghost predicate Offered(tasks: seq<PlannedTask>, i: nat, deps: seq<Id>, m: nat, e: Edge)
    requires i <= |tasks| && m <= |deps|
  {
    && e.condition == ""
    && (DependsOn(tasks[..i], e.source, e.target) || (i < |tasks| && e.target == tasks[i].id && e.source in deps[..m]))
  }

  lemma PrefixDependsOn(tasks: seq<PlannedTask>, i: nat, a: Id, b: Id)
    requires i < |tasks|
    ensures DependsOn(tasks[..i + 1], a, b) <==>
            DependsOn(tasks[..i], a, b) || (tasks[i].id == b && a in tasks[i].dependencies)
    ensures DependsOn(tasks[..i + 1], a, b) ==> DependsOn(tasks, a, b)
  {
    assert tasks[..i + 1] == tasks[..i] + [tasks[i]];
  }

  lemma NotYetOffered(tasks: seq<PlannedTask>, i: nat, deps: seq<Id>, m: nat)
    requires UniqueIds(tasks) && i < |tasks| && m < |deps| && NoDup(deps)
    ensures !Offered(tasks, i, deps, m, Edge(deps[m], tasks[i].id, ""))
  {
    assert deps[m] !in deps[..m];
    assert forall t :: t in tasks[..i] ==> t.id != tasks[i].id;
  }

  /** The inner loop of _tasks_to_graph: offer one task's dependencies; refusals would be swallowed. */
  method OfferDependencies(tasks: seq<PlannedTask>, i: nat, graph: ExecutionGraph)
    requires WellOrdered(tasks) && i < |tasks| && graph.nodes.Keys == Ids(tasks)
    requires NoDup(graph.edges)
    requires forall e :: e in graph.edges <==> e.condition == "" && DependsOn(tasks[..i], e.source, e.target)
    modifies graph`edges
    ensures NoDup(graph.edges)
    ensures forall e :: e in graph.edges <==> e.condition == "" && DependsOn(tasks[..i + 1], e.source, e.target)
  {
    var task := tasks[i];
    var deps := Enumerate(task.dependencies);
    for m := 0 to |deps|
      invariant graph.nodes == old(graph.nodes)
      invariant NoDup(graph.edges)
      invariant forall e :: e in graph.edges <==> Offered(tasks, i, deps, m, e)
    {
      var edge := Edge(deps[m], task.id, "");
      assert deps[m] in Elems(deps);
      assert deps[..m + 1] == deps[..m] + [deps[m]];
      NotYetOffered(tasks, i, deps, m);
      PrefixDependsOn(tasks, i, edge.source, edge.target);
      forall e | e in graph.edges ensures DependsOn(tasks, e.source, e.target) {
        assert e.source in deps[..m] ==> e.source in Elems(deps);
        PrefixDependsOn(tasks, i, e.source, e.target);
      }
      NextEdgeAccepted(tasks, graph.Value(), edge);
      var _ := graph.AddEdge(edge);
    }
    forall e ensures e in graph.edges <==> e.condition == "" && DependsOn(tasks[..i + 1], e.source, e.target) {
      PrefixDependsOn(tasks, i, e.source, e.target);
      assert deps[..|deps|] == deps && (e.source in deps <==> e.source in Elems(deps));
    }
  }

  method AddNodes(tasks: seq<PlannedTask>, graph: ExecutionGraph)
    requires UniqueIds(tasks) && graph.nodes == map[]
    modifies graph`nodes
    ensures NodesOf(tasks, graph.nodes)
  {
    for i := 0 to |tasks|
      invariant NodesOf(tasks[..i], graph.nodes)
    {
      IdsNext(tasks, i);
      assert tasks[..i + 1] == tasks[..i] + [tasks[i]];
      assert forall t :: t in tasks[..i] ==> t.id != tasks[i].id;
      var _ := graph.AddNode(NodeOf(tasks[i]));
    }
    assert tasks[..|tasks|] == tasks;
  }

  method TasksToGraph(tasks: seq<PlannedTask>) returns (graph: ExecutionGraph)
    requires WellOrdered(tasks)
    ensures fresh(graph)
    ensures NodesOf(tasks, graph.nodes) && EdgesOf(tasks, graph.edges)
  {
    graph := new ExecutionGraph([], []);
    AddNodes(tasks, graph);
    ghost var nodes := graph.nodes;
    for i := 0 to |tasks|
      invariant fresh(graph) && graph.nodes == nodes
      invariant NoDup(graph.edges)
      invariant forall e :: e in graph.edges <==> e.condition == "" && DependsOn(tasks[..i], e.source, e.target)
    {
      OfferDependencies(tasks, i, graph);
    }
    assert tasks[..|tasks|] == tasks;
  }

  // ---- Duration ----

  lemma HeaviestInsert(tasks: seq<PlannedTask>, s: set<Id>, v: Id)
    requires UniqueIds(tasks)
    ensures forall i :: 0 <= i < |tasks| && tasks[i].id == v ==>
      Heaviest(tasks, s + {v}) == Max(Heaviest(tasks, s), tasks[i].complexity)
    ensures v !in Ids(tasks) ==> Heaviest(tasks, s + {v}) == Heaviest(tasks, s)
  {
    HeaviestBounds(tasks, s);
    HeaviestBounds(tasks, s + {v});
    forall i | 0 <= i < |tasks| && tasks[i].id == v
      ensures Heaviest(tasks, s + {v}) == Max(Heaviest(tasks, s), tasks[i].complexity)
    {
      assert tasks[i] in tasks;
      forall t | t in tasks && t.id == v ensures t == tasks[i] {
        var j :| 0 <= j < |tasks| && tasks[j] == t;
      }
    }
  }

  /** The maximum complexity on one level, by looking every node id up in the task list. */
  method LevelMax(tasks: seq<PlannedTask>, level: set<Id>) returns (maxC: real)
    requires UniqueIds(tasks)
    ensures maxC == Heaviest(tasks, level)
  {
    var ids := Enumerate(level);
    maxC := 0.0;
    HeaviestBounds(tasks, {});
    assert Elems(ids[..0]) == {};
    for m := 0 to |ids|
      invariant maxC == Heaviest(tasks, Elems(ids[..m]))
    {
      HeaviestInsert(tasks, Elems(ids[..m]), ids[m]);
      assert ids[..m + 1] == ids[..m] + [ids[m]];
      assert Elems(ids[..m + 1]) == Elems(ids[..m]) + {ids[m]};
      var k := 0;
      while k < |tasks| && tasks[k].id != ids[m]
        invariant 0 <= k <= |tasks| && forall j :: 0 <= j < k ==> tasks[j].id != ids[m]
      {
        k := k + 1;
      }
      if k < |tasks| {
        maxC := Max(maxC, tasks[k].complexity);
      } else {
        assert forall t :: t in tasks ==> t.id != ids[m];
      }
    }
    assert ids[..|ids|] == ids;
  }

  method EstimateDuration(tasks: seq<PlannedTask>, levels: seq<set<Id>>) returns (total: real)
    requires UniqueIds(tasks)
    ensures total == if levels == [] then Total(tasks) else LevelSum(tasks, levels)
  {
    total := 0.0;
    if levels == [] {
      for i := 0 to |tasks|
        invariant total == Total(tasks[..i])
      {
        assert tasks[..i + 1][..i] == tasks[..i];
        total := total + tasks[i].complexity;
      }
      assert tasks[..|tasks|] == tasks;
      return;
    }
    for l := 0 to |levels|
      invariant total == LevelSum(tasks, levels[..l])
    {
      var maxC := LevelMax(tasks, levels[l]);
      LevelSumNext(tasks, levels, l);
      total := total + maxC;
    }
    assert levels[..|levels|] == levels;
  }

  // ---- TaskPlanner ----

  datatype TaskPlan = TaskPlan(
    missionId: Id, tasks: seq<PlannedTask>, graph: ExecutionGraph, strategy: Strategy,
    duration: real, groups: seq<set<Id>>)

  /** PlanningError, which callers catch, and ValidationError, which they do not. */
  datatype PlanFailure = PlanningFailed(errors: seq<TaskError>) | ValidationFailed(graphErrors: seq<GraphError>)

  /** Planning succeeds exactly on clean lists without an isolated task, and the chained strategies isolate nothing. */
  ghost predicate Plannable(strategy: Strategy, tasks: seq<PlannedTask>, available: Option<set<string>>) {
    Clean(tasks, available) && (strategy == Sequential || strategy == Conservative || !HasIsolated(tasks))
  }

  /** The lists whose graph create_plan builds and then rejects with a ValidationError: clean, but with an isolated task
      under a strategy that adds no edges. */
  ghost predicate LeavesOrphan(strategy: Strategy, tasks: seq<PlannedTask>, available: Option<set<string>>) {
    Clean(tasks, available) && !Plannable(strategy, tasks, available)
  }

  /** b depends on a, c stands alone. */
  function OneAside(): (tasks: seq<PlannedTask>) {
    [PlannedTask("a", "", 1.0, "", {}, false), PlannedTask("b", "", 1.0, "", {"a"}, false),
     PlannedTask("c", "", 1.0, "", {}, false)]
  }

  /** Such a list: every validator lets it through, and the graph has an orphan. */
  lemma OneAsideLeavesOrphan(strategy: Strategy)
    requires strategy != Sequential && strategy != Conservative
    ensures LeavesOrphan(strategy, OneAside(), None)
  {
    var tasks := OneAside();
    assert forall t :: t in tasks ==> t == tasks[0] || t == tasks[1] || t == tasks[2];
    assert tasks[1] in tasks && tasks[1].dependencies != {};
    assert tasks[2] in tasks && "c" in Ids(tasks);
    assert Isolated(tasks, "c");
    forall i, d | 0 <= i < |tasks| && d in tasks[i].dependencies ensures exists j :: 0 <= j < i && tasks[j].id == d {
      assert tasks[0].id == d;
    }
  }

  /** The plan's tasks are the rewritten ones and its graph is exactly what they declare. */
  ghost predicate DeclaredPlan(strategy: Strategy, tasks: seq<PlannedTask>, plan: TaskPlan)
    reads plan.graph
  {
    && plan.tasks == Rewritten(strategy, tasks)
    && NodesOf(plan.tasks, plan.graph.nodes) && EdgesOf(plan.tasks, plan.graph.edges)
  }

  /** What create_plan promises about its result. */
  ghost predicate PlanOf(strategy: Strategy, tasks: seq<PlannedTask>, plan: TaskPlan)
    reads plan.graph
  {
    && plan.strategy == strategy && DeclaredPlan(strategy, tasks, plan)
    && WellOrdered(plan.tasks)
    && Schedulable(plan.graph.nodes.Keys, plan.graph.edges)
    && IsLeveling(Ids(plan.tasks), plan.graph.edges, plan.groups)
    && plan.duration == LevelSum(plan.tasks, plan.groups)
  }

  lemma OrphanIffIsolated(tasks: seq<PlannedTask>, es: seq<Edge>)
    requires WellOrdered(tasks) && EdgesOf(tasks, es)
    ensures HasOrphan(Ids(tasks), es) <==> HasIsolated(tasks)
  {
    EdgesOfDeclares(tasks, es);
    forall v ensures Touched(es, v) <==> !Isolated(tasks, v) {
      if Touched(es, v) {
        var e :| e in es && (e.source == v || e.target == v);
        assert DependsOn(tasks, e.source, e.target);
      }
      if !Isolated(tasks, v) {
        var u :| DependsOn(tasks, u, v) || DependsOn(tasks, v, u);
        assert Edge(u, v, "") in es || Edge(v, u, "") in es;
      }
    }
    if HasIsolated(tasks) {
      var t :| t in tasks && t.dependencies != {};
      var d :| d in t.dependencies;
      assert DependsOn(tasks, d, t.id);
      DependenciesExist(tasks, d, t.id);
      SubsetCardinality({d, t.id}, Ids(tasks));
      assert Edge(d, t.id, "") in es;
    }
    if HasOrphan(Ids(tasks), es) {
      var e := es[0];
      assert e in es;
      var t :| t in tasks && t.id == e.target && e.source in t.dependencies;
      assert t.dependencies != {};
    }
  }

  // ---- What each strategy makes of a list ----

  lemma ChainDepends(tasks: seq<PlannedTask>, i: nat)
    requires i + 1 < |tasks|
    ensures DependsOn(Chain(tasks), tasks[i].id, tasks[i + 1].id)
  {
    assert Chain(tasks)[i + 1] in Chain(tasks);
  }

  lemma ChainEntry(tasks: seq<PlannedTask>, t: PlannedTask) returns (j: nat)
    requires t in Chain(tasks)
    ensures j < |tasks| && t.id == tasks[j].id && t.dependencies == if j > 0 then {tasks[j - 1].id} else {}
  {
    j :| 0 <= j < |Chain(tasks)| && Chain(tasks)[j] == t;
  }

  lemma ChainDependsOnly(tasks: seq<PlannedTask>, a: Id, b: Id) returns (i: nat)
    requires DependsOn(Chain(tasks), a, b)
    ensures i + 1 < |tasks| && tasks[i].id == a && tasks[i + 1].id == b
  {
    var t :| t in Chain(tasks) && t.id == b && a in t.dependencies;
    var j := ChainEntry(tasks, t);
    i := j - 1;
  }

  lemma ChainDependsIff(tasks: seq<PlannedTask>, a: Id, b: Id)
    ensures DependsOn(Chain(tasks), a, b) <==>
      exists i, j :: 0 <= i && j == i + 1 && j < |tasks| && tasks[i].id == a && tasks[j].id == b
  {
    if i, j :| 0 <= i && j == i + 1 && j < |tasks| && tasks[i].id == a && tasks[j].id == b {
      ChainDepends(tasks, i);
    } else if DependsOn(Chain(tasks), a, b) {
      var i := ChainDependsOnly(tasks, a, b);
      assert false;
    }
  }

  /** SEQUENTIAL: the edges are exactly those from each task to the next one in the list. */
  lemma SequentialEdges(tasks: seq<PlannedTask>, es: seq<Edge>)
    requires EdgesOf(Rewritten(Sequential, tasks), es)
    ensures forall a, b :: Linked(es, a, b) <==>
      exists i, j :: 0 <= i && j == i + 1 && j < |tasks| && tasks[i].id == a && tasks[j].id == b
  {
    EdgesOfDeclares(Chain(tasks), es);
    forall a, b ensures Linked(es, a, b) <==>
      exists i, j :: 0 <= i && j == i + 1 && j < |tasks| && tasks[i].id == a && tasks[j].id == b
    {
      ChainDependsIff(tasks, a, b);
    }
  }

  /** CONSERVATIVE: the edges are exactly those from every task to every later one. */
  lemma ConservativeEdges(tasks: seq<PlannedTask>, es: seq<Edge>)
    requires WellOrdered(tasks) && EdgesOf(Rewritten(Conservative, tasks), es)
    ensures forall a, b :: Linked(es, a, b) <==>
      exists i, j :: 0 <= i < j < |tasks| && tasks[i].id == a && tasks[j].id == b
  {
    var r := Rewritten(Conservative, tasks);
    EdgesOfDeclares(r, es);
    forall a, b ensures Linked(es, a, b) <==>
      exists i, j :: 0 <= i < j < |tasks| && tasks[i].id == a && tasks[j].id == b
    {
      if i, j :| 0 <= i < j < |tasks| && tasks[i].id == a && tasks[j].id == b {
        assert tasks[i] == tasks[..j][i];
        assert r[j] in r && r[j].id == b && a in r[j].dependencies;
      }
      if DependsOn(r, a, b) {
        var t :| t in r && t.id == b && a in t.dependencies;
        var j :| 0 <= j < |r| && r[j] == t;
        var i := EarlierTask(tasks, j, a);
      }
    }
  }

  /** What a task depends on after the CONSERVATIVE rewrite stands before it. */
  lemma EarlierTask(tasks: seq<PlannedTask>, j: nat, d: Id) returns (i: nat)
    requires WellOrdered(tasks) && j < |tasks| && d in tasks[j].dependencies + Ids(tasks[..j])
    ensures i < j && tasks[i].id == d
  {
    if d in Ids(tasks[..j]) {
      i := IdsAt(tasks[..j], d);
    } else {
      i :| 0 <= i < j && tasks[i].id == d;
    }
  }

  /** BALANCED and PARALLEL: the edges are exactly the declared dependencies. */
  lemma DeclaredEdges(strategy: Strategy, tasks: seq<PlannedTask>, es: seq<Edge>)
    requires strategy in {Balanced, Strategy.Parallel}
    requires EdgesOf(Rewritten(strategy, tasks), es)
    ensures forall a, b :: Linked(es, a, b) <==> exists t :: t in tasks && t.id == b && a in t.dependencies
  {
    EdgesOfDeclares(tasks, es);
  }

  /** Apart from its dependencies no task changes, and each has a pending node of its own in the graph. */
  lemma TaskKept(strategy: Strategy, tasks: seq<PlannedTask>, nodes: map<Id, AgentNode>, i: nat)
    requires NodesOf(Rewritten(strategy, tasks), nodes) && i < |tasks|
    ensures var r, t := Rewritten(strategy, tasks), tasks[i];
            && |r| == |tasks| && r[i] == t.(dependencies := r[i].dependencies)
            && t.id in nodes && nodes[t.id].id == t.id && nodes[t.id].status == NodeStatus.Pending
            && nodes[t.id].capability == t.capability
            && nodes[t.id].kind == (if t.parallelizable then NodeType.Parallel else NodeType.Task)
            && nodes[t.id].name <= t.title && |nodes[t.id].name| == if |t.title| < 200 then |t.title| else 200
  {
    RewrittenKeepsIds(strategy, tasks);
    assert Rewritten(strategy, tasks)[i] in Rewritten(strategy, tasks);
  }

  class TaskPlanner {
    var strategy: Strategy
    const available: Option<set<string>>

    constructor (strategy: Strategy, available: Option<set<string>>)
      ensures this.strategy == strategy && this.available == available
    {
      this.strategy := strategy;
      this.available := available;
    }

    method SetStrategy(strategy: Strategy)
      modifies this`strategy
      ensures this.strategy == strategy
    {
      this.strategy := strategy;
    }

    method ApplyStrategy(tasks: seq<PlannedTask>) returns (r: seq<PlannedTask>)
      ensures r == Rewritten(strategy, tasks)
    {
      match strategy
      case Sequential => r := MakeSequential(tasks);
      case Conservative => r := MakeConservative(tasks);
      case _ => r := tasks;
    }

    method CreatePlan(missionId: Id, tasks: seq<PlannedTask>) returns (r: Result<TaskPlan, PlanFailure>)
      ensures r.Ok? <==> Plannable(strategy, tasks, available)
      ensures r.Err? ==> (r.error.PlanningFailed? <==> !Clean(tasks, available))
      ensures r.Err? && r.error.PlanningFailed? <==>
        !(&& (forall i, j :: 0 <= i < j < |tasks| ==> tasks[i].id != tasks[j].id)
          && (forall i, d :: 0 <= i < |tasks| && d in tasks[i].dependencies ==>
                exists j :: 0 <= j < i && tasks[j].id == d)
          && (forall t :: t in tasks ==> 0.0 <= t.complexity <= 10.0)
          && (available.Some? ==> forall t :: t in tasks ==> t.capability in available.value))
      ensures r.Ok? ==> fresh(r.value.graph) && r.value.missionId == missionId && PlanOf(strategy, tasks, r.value)
      ensures r.Ok? && strategy == Sequential ==>
        forall a, b :: Linked(r.value.graph.edges, a, b) <==>
          exists i, j :: 0 <= i && j == i + 1 && j < |tasks| && tasks[i].id == a && tasks[j].id == b
      ensures r.Ok? && strategy == Conservative ==>
        forall a, b :: Linked(r.value.graph.edges, a, b) <==>
          exists i, j :: 0 <= i < j < |tasks| && tasks[i].id == a && tasks[j].id == b
      ensures r.Ok? && (strategy in {Balanced, Strategy.Parallel}) ==>
        forall a, b :: Linked(r.value.graph.edges, a, b) <==>
          exists t :: t in tasks && t.id == b && a in t.dependencies
    {
      var errors := ValidatePlan(tasks, available);
      if errors != [] {
        return Err(PlanningFailed(errors));
      }
      var optimised := ApplyStrategy(tasks);
      RewrittenIsClean(strategy, tasks, available);
      var graph := TasksToGraph(optimised);
      var plan := graph.GeneratePlan();
      OrphanIffIsolated(optimised, graph.edges);
      if strategy == Sequential {
        SequentialEdges(tasks, graph.edges);
      } else if strategy == Conservative {
        ConservativeEdges(tasks, graph.edges);
      } else {
        DeclaredEdges(strategy, tasks, graph.edges);
      }
      PlannableIffSchedulable(strategy, tasks, graph.edges);
      if plan.Err? {
        return Err(ValidationFailed(plan.error));
      }
      var duration := EstimateDuration(optimised, plan.value.levels);
      NoLevelsNoTasks(optimised, graph.edges, plan.value.levels);
      return Ok(TaskPlan(missionId, optimised, graph, strategy, duration, plan.value.levels));
    }
  }

  lemma NoLevelsNoTasks(tasks: seq<PlannedTask>, es: seq<Edge>, levels: seq<set<Id>>)
    requires IsLeveling(Ids(tasks), es, levels)
    ensures levels == [] ==> tasks == []
  {
    if tasks != [] {
      assert tasks[0].id in Ids(tasks);
      var l := LevelFor(Ids(tasks), es, levels, tasks[0].id);
    }
  }

  lemma PlannableIffSchedulable(strategy: Strategy, tasks: seq<PlannedTask>, es: seq<Edge>)
    requires WellOrdered(Rewritten(strategy, tasks)) && UniqueIds(tasks)
    requires EdgesOf(Rewritten(strategy, tasks), es)
    ensures Schedulable(Ids(Rewritten(strategy, tasks)), es) <==>
            strategy == Sequential || strategy == Conservative || !HasIsolated(tasks)
  {
    var r := Rewritten(strategy, tasks);
    forall e | e in es ensures e.source in Ids(r) && e.target in Ids(r) {
      DependenciesExist(r, e.source, e.target);
    }
    BackwardRises(r, es);
    OrphanIffIsolated(r, es);
    if strategy == Sequential || strategy == Conservative {
      ChainsHaveNoIsolated(strategy, tasks);
    }
  }
}
