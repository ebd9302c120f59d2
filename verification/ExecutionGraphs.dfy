/** backend/agent/execution_graph.py: the validator, the mutable graph and its execution plan. */
module ExecutionGraphs {
  import opened Results
  import opened Dag
  import opened Kahn
  import opened Levels

  datatype NodeStatus = Pending | Ready | Running | Completed | Failed | Skipped
  datatype NodeType = Task | Decision | Parallel | Subgraph | Observer

  datatype AgentNode = AgentNode(id: Id, name: string, kind: NodeType, status: NodeStatus, capability: string)

  /** The messages of the validator, as data. */
  datatype GraphError =
    | MissingSource(id: Id)
    | MissingTarget(id: Id)
    | CycleAmong(ids: seq<Id>)
    | OrphanNodes(ids: seq<Id>)

  datatype GraphFailure = DuplicateNode | NoSuchNode | NoSuchEdge | InvalidReference | WouldCycle

  datatype ExecutionPlan = ExecutionPlan(order: seq<Id>, levels: seq<set<Id>>, dependencies: map<Id, seq<Id>>)

  // ---- Validator ----

  method DetectCycles(nodes: map<Id, AgentNode>, edges: seq<Edge>) returns (errors: seq<GraphError>)
    ensures errors == [] <==> Acyclic(Live(nodes.Keys, edges))
    ensures errors != [] ==> |errors| == 1 && errors[0].CycleAmong? && NoDup(errors[0].ids)
    ensures errors != [] ==>
      forall v :: v in errors[0].ids <==> v in nodes && AfterCycle(Live(nodes.Keys, edges), v)
  {
    var done, deg := Kahn.Run(nodes.Keys, edges);
    ghost var live := Live(nodes.Keys, edges);
    CompleteIffAcyclic(nodes.Keys, live, done, deg);
    if |done| != |nodes.Keys| {
      var cycled := set v | v in nodes && deg[v] > 0;
      forall v | v in nodes ensures v in cycled <==> AfterCycle(live, v) {
        VisitedIffNotAfterCycle(nodes.Keys, live, done, deg, v);
      }
      var ids := Enumerate(cycled);
      assert forall v :: v in ids <==> v in Elems(ids);
      errors := [CycleAmong(ids)];
    } else {
      errors := [];
    }
  }

  method CheckInvalidReferences(nodes: map<Id, AgentNode>, edges: seq<Edge>) returns (errors: seq<GraphError>)
    ensures errors == [] <==> Within(edges, nodes.Keys)
    ensures forall x :: x in errors ==> x.MissingSource? || x.MissingTarget?
    ensures forall v :: MissingSource(v) in errors <==> v !in nodes && exists e :: e in edges && e.source == v
    ensures forall v :: MissingTarget(v) in errors <==> v !in nodes && exists e :: e in edges && e.target == v
  {
    errors := [];
    for i := 0 to |edges|
      invariant errors == [] <==> Within(edges[..i], nodes.Keys)
      invariant forall x :: x in errors ==> x.MissingSource? || x.MissingTarget?
      invariant forall v :: MissingSource(v) in errors <==> v !in nodes && exists e :: e in edges[..i] && e.source == v
      invariant forall v :: MissingTarget(v) in errors <==> v !in nodes && exists e :: e in edges[..i] && e.target == v
    {
      var e := edges[i];
      assert edges[..i + 1] == edges[..i] + [e];
      if e.source !in nodes {
        errors := errors + [MissingSource(e.source)];
      }
      if e.target !in nodes {
        errors := errors + [MissingTarget(e.target)];
      }
    }
    assert edges[..|edges|] == edges;
  }

  predicate Touched(edges: seq<Edge>, v: Id) {
    exists e :: e in edges && (e.source == v || e.target == v)
  }

  /** Some node stands alone in a graph that has at least two nodes and at least one edge. */
  ghost predicate HasOrphan(nodes: set<Id>, edges: seq<Edge>) {
    |nodes| > 1 && edges != [] && exists v {:trigger Touched(edges, v)} :: v in nodes && !Touched(edges, v)
  }

  method CheckOrphanNodes(nodes: map<Id, AgentNode>, edges: seq<Edge>) returns (errors: seq<GraphError>)
    ensures errors != [] <==> HasOrphan(nodes.Keys, edges)
    ensures errors != [] ==> |errors| == 1 && errors[0].OrphanNodes? && NoDup(errors[0].ids)
    ensures errors != [] ==> forall v :: v in errors[0].ids <==> v in nodes && !Touched(edges, v)
  {
    if |nodes.Keys| <= 1 || edges == [] {
      return [];
    }
    var connected := (set e | e in edges :: e.target) + (set e | e in edges :: e.source);
    var orphans := set v | v in nodes && v !in connected;
    assert forall v :: v in connected <==> Touched(edges, v);
    assert forall v :: v in orphans <==> v in nodes && !Touched(edges, v);
    var ids := Enumerate(orphans);
    assert forall v :: v in ids <==> v in Elems(ids);
    assert orphans != {} <==> exists v :: v in orphans;
    assert HasOrphan(nodes.Keys, edges) <==> exists v :: v in orphans;
    errors := if orphans != {} then [OrphanNodes(ids)] else [];
  }

  /** The graphs that generate_plan accepts. */
  ghost predicate Schedulable(nodes: set<Id>, edges: seq<Edge>) {
    Within(edges, nodes) && Acyclic(edges) && !HasOrphan(nodes, edges)
  }

  lemma {:induction false} LiveIsAll(nodes: set<Id>, edges: seq<Edge>)
    requires Within(edges, nodes)
    ensures Live(nodes, edges) == edges
  {
    if edges != [] {
      var n := |edges| - 1;
      LiveIsAll(nodes, edges[..n]);
      assert edges == edges[..n] + [edges[n]];
      assert edges[n] in edges;
    }
  }

  method Validate(nodes: map<Id, AgentNode>, edges: seq<Edge>) returns (errors: seq<GraphError>)
    ensures errors == [] <==> Schedulable(nodes.Keys, edges)
  {
    var references := CheckInvalidReferences(nodes, edges);
    var cycles := DetectCycles(nodes, edges);
    var orphans := CheckOrphanNodes(nodes, edges);
    errors := references + cycles + orphans;
    if references == [] {
      LiveIsAll(nodes.Keys, edges);
    }
  }

  // ---- Plans ----

  /** What a plan says about the graph it was derived from. */
  ghost predicate PlanFor(nodes: set<Id>, edges: seq<Edge>, plan: ExecutionPlan) {
    && NoDup(plan.order) && Elems(plan.order) == nodes && Ordered(edges, plan.order)
    && IsLeveling(nodes, edges, plan.levels)
    && plan.dependencies.Keys == nodes
    && (forall v :: v in nodes ==> plan.dependencies[v] == Preds(edges, v))
  }

  method DependencyMap(nodes: set<Id>, edges: seq<Edge>) returns (deps: map<Id, seq<Id>>)
    requires Within(edges, nodes)
    ensures deps.Keys == nodes && forall v :: v in nodes ==> deps[v] == Preds(edges, v)
  {
    deps := map v | v in nodes :: [];
    for i := 0 to |edges|
      invariant deps.Keys == nodes && forall v :: v in nodes ==> deps[v] == Preds(edges[..i], v)
    {
      var e := edges[i];
      assert edges[..i + 1][..i] == edges[..i];
      deps := deps[e.target := deps[e.target] + [e.source]];
    }
    assert edges[..|edges|] == edges;
  }

  // ---- The graph as a value: what its four write operations do ----

  datatype GraphValue = GraphValue(nodes: map<Id, AgentNode>, edges: seq<Edge>)

  datatype GraphOp =
    | AddNode(node: AgentNode)
    | RemoveNode(id: Id)
    | AddEdge(edge: Edge)
    | RemoveEdge(source: Id, target: Id)

  const EmptyGraph := GraphValue(map[], [])

  function Without(edges: seq<Edge>, v: Id): (r: seq<Edge>) {
    if edges == [] then [] else
      (if edges[0].source != v && edges[0].target != v then [edges[0]] else []) + Without(edges[1..], v)
  }

  lemma {:induction false} WithoutHas(edges: seq<Edge>, v: Id)
    ensures forall e :: e in Without(edges, v) <==> e in edges && e.source != v && e.target != v
  {
    if edges != [] {
      WithoutHas(edges[1..], v);
      assert edges == [edges[0]] + edges[1..];
    }
  }

  lemma Regroup(a: seq<Edge>, b: seq<Edge>, c: seq<Edge>)
    ensures (a + b) + c == a + (b + c)
  {
  }

  lemma {:induction false} WithoutJoins(left: seq<Edge>, right: seq<Edge>, v: Id)
    ensures Without(left + right, v) == Without(left, v) + Without(right, v)
  {
    if left == [] {
      assert left + right == right;
    } else {
      var rest, all := left[1..], left + right;
      WithoutJoins(rest, right, v);
      assert all[0] == left[0] && all[1..] == rest + right;
      var first := if left[0].source != v && left[0].target != v then [left[0]] else [];
      Regroup(first, Without(rest, v), Without(right, v));
    }
  }

  /** Every edge of the list is kept or dropped in its own place: order and repetitions stay. */
  lemma WithoutInPlace(left: seq<Edge>, e: Edge, right: seq<Edge>, v: Id)
    ensures Without(left + [e] + right, v) ==
            Without(left, v) + (if e.source == v || e.target == v then [] else [e]) + Without(right, v)
    ensures Without([], v) == []
  {
    WithoutJoins(left + [e], right, v);
    WithoutJoins(left, [e], v);
  }

  /** The list without its first edge from a to b. */
  function RemoveFirst(edges: seq<Edge>, a: Id, b: Id): (r: seq<Edge>)
    ensures forall e :: e in r ==> e in edges
    ensures forall e :: e in edges && (e.source != a || e.target != b) ==> e in r
    ensures Linked(edges, a, b) ==> |r| == |edges| - 1
  {
    if edges == [] then [] else
      if edges[0].source == a && edges[0].target == b then edges[1..]
      else
        assert Linked(edges, a, b) ==> Linked(edges[1..], a, b);
        [edges[0]] + RemoveFirst(edges[1..], a, b)
  }

  ghost predicate Accepts(g: GraphValue, op: GraphOp) {
    match op
    case AddNode(n) => n.id !in g.nodes
    case RemoveNode(v) => v in g.nodes
    case AddEdge(e) => Within(g.edges + [e], g.nodes.Keys) && Acyclic(g.edges + [e])
    case RemoveEdge(a, b) => Linked(g.edges, a, b)
  }

  /** A rejected operation changes nothing. */
  ghost function Apply(g: GraphValue, op: GraphOp): (r: GraphValue) {
    if !Accepts(g, op) then g else
      match op
      case AddNode(n) => g.(nodes := g.nodes[n.id := n])
      case RemoveNode(v) => GraphValue(g.nodes - {v}, Without(g.edges, v))
      case AddEdge(e) => g.(edges := g.edges + [e])
      case RemoveEdge(a, b) => g.(edges := RemoveFirst(g.edges, a, b))
  }

  ghost function ApplyAll(g: GraphValue, ops: seq<GraphOp>): (r: GraphValue) {
    if ops == [] then g else Apply(ApplyAll(g, ops[..|ops| - 1]), ops[|ops| - 1])
  }

  /** Keys agree with ids, no edge dangles, no cycle. */
  ghost predicate Sound(g: GraphValue) {
    && (forall v :: v in g.nodes ==> g.nodes[v].id == v)
    && Within(g.edges, g.nodes.Keys)
    && Acyclic(g.edges)
  }

  lemma ApplyKeepsSound(g: GraphValue, op: GraphOp)
    requires Sound(g)
    ensures Sound(Apply(g, op))
  {
    if op.RemoveNode? {
      WithoutHas(g.edges, op.id);
    }
    if Accepts(g, op) {
      AcyclicMonotone(Apply(g, op).edges, if op.AddEdge? then g.edges + [op.edge] else g.edges);
    }
  }

  /** Whatever the operations, accepted or not, a graph grown from nothing is a DAG without dangling edges. */
  lemma {:induction false} ApiKeepsSound(ops: seq<GraphOp>)
    ensures Sound(ApplyAll(EmptyGraph, ops))
  {
    if ops == [] {
      RankedIsAcyclic([], v => 0);
    } else {
      ApiKeepsSound(ops[..|ops| - 1]);
      ApplyKeepsSound(ApplyAll(EmptyGraph, ops[..|ops| - 1]), ops[|ops| - 1]);
    }
  }

  /** add_edge rejects exactly the edges that would dangle or close a cycle. */
  lemma AddEdgeExact(g: GraphValue, e: Edge)
    requires Sound(g)
    ensures Accepts(g, AddEdge(e)) <==>
            e.source in g.nodes && e.target in g.nodes && !Reaches(g.edges, e.target, e.source)
  {
    AddEdgeAcyclic(g.edges, e);
    assert e in g.edges + [e];
  }

  /** On a graph grown by the API only the orphan check can make generate_plan fail. */
  lemma ApiPlanFailsOnlyOnOrphans(ops: seq<GraphOp>)
    ensures var g := ApplyAll(EmptyGraph, ops);
            Schedulable(g.nodes.Keys, g.edges) <==> !HasOrphan(g.nodes.Keys, g.edges)
  {
    ApiKeepsSound(ops);
  }

  // ---- The graph as an object ----

  /** Of several nodes with one id the last one counts. */
  lemma {:induction false} LatestIsLast(ns: seq<AgentNode>, v: Id)
    ensures Latest(ns, v).None? <==> forall n :: n in ns ==> n.id != v
    ensures forall i :: 0 <= i < |ns| && ns[i].id == v && (forall j :: i < j < |ns| ==> ns[j].id != v) ==>
              Latest(ns, v) == Some(ns[i])
  {
    if ns != [] {
      var last := |ns| - 1;
      if ns[last].id != v {
        LatestIsLast(ns[..last], v);
        assert forall n :: n in ns <==> n in ns[..last] || n == ns[last];
      }
    }
  }

  /** The last node of the list with this id. */
  function Latest(ns: seq<AgentNode>, v: Id): (r: Option<AgentNode>) {
    if ns == [] then None
    else if ns[|ns| - 1].id == v then Some(ns[|ns| - 1])
    else Latest(ns[..|ns| - 1], v)
  }

  class ExecutionGraph {
    var nodes: map<Id, AgentNode>
    var edges: seq<Edge>

    function Value(): (r: GraphValue)
      reads this
    {
      GraphValue(nodes, edges)
    }

    /** The initial nodes and edges are taken as they come: no check of any kind. Of two nodes with one id the later one
        is kept. */
    constructor (initialNodes: seq<AgentNode>, initialEdges: seq<Edge>)
      ensures nodes.Keys == set n | n in initialNodes :: n.id
      ensures forall v :: v in nodes ==> nodes[v] in initialNodes && nodes[v].id == v
      ensures forall v :: v in nodes ==> Latest(initialNodes, v) == Some(nodes[v])
      ensures edges == initialEdges
      ensures initialNodes == [] ==> nodes == map[]
    {
      var ns: map<Id, AgentNode> := map[];
      for i := 0 to |initialNodes|
        invariant ns.Keys == set n | n in initialNodes[..i] :: n.id
        invariant forall v :: v in ns ==> ns[v] in initialNodes[..i] && ns[v].id == v
        invariant forall v :: v in ns ==> Latest(initialNodes[..i], v) == Some(ns[v])
      {
        assert initialNodes[..i + 1][..i] == initialNodes[..i];
        assert initialNodes[..i + 1] == initialNodes[..i] + [initialNodes[i]];
        ns := ns[initialNodes[i].id := initialNodes[i]];
      }
      assert initialNodes[..|initialNodes|] == initialNodes;
      nodes := ns;
      edges := initialEdges;
    }

    method AddNode(node: AgentNode) returns (r: Result<(), GraphFailure>)
      modifies this`nodes
      ensures Value() == Apply(old(Value()), GraphOp.AddNode(node))
      ensures r.Ok? <==> node.id !in old(nodes)
      ensures nodes == if r.Ok? then old(nodes)[node.id := node] else old(nodes)
      ensures r.Err? ==> r.error == DuplicateNode
    {
      if node.id in nodes {
        return Err(DuplicateNode);
      }
      nodes := nodes[node.id := node];
      return Ok(());
    }

    method RemoveNode(id: Id) returns (r: Result<(), GraphFailure>)
      modifies this
      ensures Value() == Apply(old(Value()), GraphOp.RemoveNode(id))
      ensures r.Ok? <==> id in old(nodes)
      ensures r.Ok? ==> nodes == old(nodes) - {id} && forall e :: e in edges <==>
        e in old(edges) && e.source != id && e.target != id
      ensures r.Err? ==> r.error == NoSuchNode && nodes == old(nodes) && edges == old(edges)
    {
      if id !in nodes {
        return Err(NoSuchNode);
      }
      nodes := nodes - {id};
      WithoutHas(edges, id);
      edges := Without(edges, id);
      return Ok(());
    }

    function GetNode(id: Id): (r: Result<AgentNode, GraphFailure>)
      reads this
      ensures r.Ok? <==> id in nodes
      ensures r.Ok? ==> r.value == nodes[id]
    {
      if id in nodes then Ok(nodes[id]) else Err(NoSuchNode)
    }

    method AddEdge(edge: Edge) returns (r: Result<(), GraphFailure>)
      modifies this`edges
      ensures Value() == Apply(old(Value()), GraphOp.AddEdge(edge))
      ensures r.Ok? <==> Accepts(old(Value()), GraphOp.AddEdge(edge))
      ensures edges == if r.Ok? then old(edges) + [edge] else old(edges)
      ensures r.Err? ==>
        r.error == (if Within(old(edges) + [edge], old(nodes).Keys) then WouldCycle else InvalidReference)
    {
      var testEdges := edges + [edge];
      var errors := CheckInvalidReferences(nodes, testEdges);
      if errors != [] {
        return Err(InvalidReference);
      }
      errors := DetectCycles(nodes, testEdges);
      LiveIsAll(nodes.Keys, testEdges);
      if errors != [] {
        return Err(WouldCycle);
      }
      edges := testEdges;
      return Ok(());
    }

    method RemoveEdge(source: Id, target: Id) returns (r: Result<(), GraphFailure>)
      modifies this`edges
      ensures Value() == Apply(old(Value()), GraphOp.RemoveEdge(source, target))
      ensures r.Ok? <==> Linked(old(edges), source, target)
      ensures r.Err? ==> r.error == NoSuchEdge
    {
      for i := 0 to |edges|
        invariant edges == old(edges)
        invariant forall k :: 0 <= k < i ==> edges[k].source != source || edges[k].target != target
      {
        if edges[i].source == source && edges[i].target == target {
          assert edges[i] in edges;
          RemoveFirstAt(edges, i, source, target);
          edges := edges[..i] + edges[i + 1..];
          return Ok(());
        }
      }
      return Err(NoSuchEdge);
    }

    /** The nodes without incoming edges. */
    function GetRoots(): (r: set<AgentNode>)
      reads this
      ensures forall n :: n in r <==> n in nodes.Values && forall e :: e in edges ==> e.target != n.id
    {
      var targets := set e | e in edges :: e.target;
      set n | n in nodes.Values && n.id !in targets
    }

    /** The nodes without outgoing edges. */
    function GetLeaves(): (r: set<AgentNode>)
      reads this
      ensures forall n :: n in r <==> n in nodes.Values && IsLeaf(edges, n.id)
    {
      var sources := set e | e in edges :: e.source;
      set n | n in nodes.Values && n.id !in sources
    }

    /** Succeeds exactly on acyclic graphs: every node once, every edge forward. */
    method TopologicalSort() returns (r: Result<seq<Id>, GraphFailure>)
      ensures r.Ok? <==> Acyclic(Live(nodes.Keys, edges))
      ensures r.Ok? ==> NoDup(r.value) && Elems(r.value) == nodes.Keys
      ensures r.Ok? ==> Ordered(Live(nodes.Keys, edges), r.value)
    {
      var done, deg := Kahn.Run(nodes.Keys, edges);
      CompleteIffAcyclic(nodes.Keys, Live(nodes.Keys, edges), done, deg);
      if |done| != |nodes.Keys| {
        return Err(WouldCycle);
      }
      return Ok(done);
    }

    method GeneratePlan() returns (r: Result<ExecutionPlan, seq<GraphError>>)
      ensures r.Ok? <==> Schedulable(nodes.Keys, edges)
      ensures r.Ok? ==> PlanFor(nodes.Keys, edges, r.value)
    {
      var errors := Validate(nodes, edges);
      if errors != [] {
        return Err(errors);
      }
      LiveIsAll(nodes.Keys, edges);
      var sorted := TopologicalSort();
      var deps := DependencyMap(nodes.Keys, edges);
      var levelOf := LevelOf(nodes.Keys, edges);
      var levels := Buckets(nodes.Keys, edges, levelOf);
      return Ok(ExecutionPlan(sorted.value, levels, deps));
    }
  }

  lemma RestSlices(edges: seq<Edge>, i: nat)
    requires 0 < i < |edges|
    ensures edges[1..][..i - 1] == edges[..i][1..]
    ensures [edges[0]] + (edges[1..][..i - 1] + edges[1..][i..]) == edges[..i] + edges[i + 1..]
  {
  }

  lemma {:induction false} RemoveFirstAt(edges: seq<Edge>, i: nat, a: Id, b: Id)
    requires i < |edges| && edges[i].source == a && edges[i].target == b
    requires forall k :: 0 <= k < i ==> edges[k].source != a || edges[k].target != b
    ensures RemoveFirst(edges, a, b) == edges[..i] + edges[i + 1..]
  {
    if i > 0 {
      RemoveFirstAt(edges[1..], i - 1, a, b);
      RestSlices(edges, i);
    }
  }
}
