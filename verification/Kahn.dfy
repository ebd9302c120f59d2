/** Kahn's algorithm as backend/agent/execution_graph.py writes it three times: in-degrees,
    a work queue, and a loop that releases a node when its last incoming edge is removed. */
module Kahn {
  import opened Dag

  // ---- What the loops count ----

  /** The edges with both ends present, in list order. */
  function Live(nodes: set<Id>, es: seq<Edge>): (r: seq<Edge>)
    ensures forall e :: e in r <==> e in es && e.source in nodes && e.target in nodes
  {
    if es == [] then [] else
      var e := es[|es| - 1];
      Live(nodes, es[..|es| - 1]) + (if e.source in nodes && e.target in nodes then [e] else [])
  }

  /** The targets of the edges leaving u, in list order, once per edge. */
  function Succs(es: seq<Edge>, u: Id): (r: seq<Id>) {
    if es == [] then [] else
      var e := es[|es| - 1];
      Succs(es[..|es| - 1], u) + (if e.source == u then [e.target] else [])
  }

  /** The sources of the edges entering v, in list order, once per edge. */
  function Preds(es: seq<Edge>, v: Id): (r: seq<Id>) {
    if es == [] then [] else
      var e := es[|es| - 1];
      Preds(es[..|es| - 1], v) + (if e.target == v then [e.source] else [])
  }

  lemma {:induction false} SuccsAreLinked(es: seq<Edge>, u: Id, v: Id)
    ensures v in Succs(es, u) <==> Linked(es, u, v)
  {
    if es != [] {
      SuccsAreLinked(es[..|es| - 1], u, v);
      assert es == es[..|es| - 1] + [es[|es| - 1]];
    }
  }

  lemma {:induction false} PredsAreLinked(es: seq<Edge>, u: Id, v: Id)
    ensures u in Preds(es, v) <==> Linked(es, u, v)
  {
    if es != [] {
      PredsAreLinked(es[..|es| - 1], u, v);
      assert es == es[..|es| - 1] + [es[|es| - 1]];
    }
  }

  /** How many edges enter v from nodes that are not done. */
  function InDegree(es: seq<Edge>, v: Id, done: set<Id>): (r: nat) {
    if es == [] then 0 else
      var e := es[|es| - 1];
      InDegree(es[..|es| - 1], v, done) + (if e.target == v && e.source !in done then 1 else 0)
  }

  lemma {:induction false} InDegreeZero(es: seq<Edge>, v: Id, done: set<Id>)
    ensures InDegree(es, v, done) == 0 <==> (forall u :: Linked(es, u, v) ==> u in done)
  {
    if es != [] {
      var n := |es| - 1;
      InDegreeZero(es[..n], v, done);
      assert es == es[..n] + [es[n]];
      forall u ensures Linked(es, u, v) <==> Linked(es[..n], u, v) || (es[n].source == u && es[n].target == v) {
      }
    }
  }

  /** Finishing c removes exactly the edges from c to v. */
  lemma {:induction false} InDegreeStep(es: seq<Edge>, v: Id, done: set<Id>, c: Id)
    requires c !in done
    ensures InDegree(es, v, done) == InDegree(es, v, done + {c}) + multiset(Succs(es, c))[v]
  {
    if es != [] {
      InDegreeStep(es[..|es| - 1], v, done, c);
    }
  }

  // ---- The loops ----

  /** The keys of a dict or the elements of a set, in whatever order iteration yields them. */
  method Enumerate(s: set<Id>) returns (q: seq<Id>)
    ensures NoDup(q) && Elems(q) == s && |q| == |s|
  {
    q := [];
    var rest := s;
    while rest != {}
      invariant NoDup(q) && Elems(q) + rest == s && Elems(q) !! rest
      invariant |q| + |rest| == |s|
      decreases |rest|
    {
      var x :| x in rest;
      q, rest := q + [x], rest - {x};
    }
  }

  lemma LiveStep(nodes: set<Id>, es: seq<Edge>, i: nat)
    requires i < |es|
    ensures var before, after, e := Live(nodes, es[..i]), Live(nodes, es[..i + 1]), es[i];
            after == before + (if e.source in nodes && e.target in nodes then [e] else [])
  {
    assert es[..i + 1][..i] == es[..i];
  }

  lemma CountStep(es: seq<Edge>, e: Edge, v: Id)
    ensures InDegree(es + [e], v, {}) == InDegree(es, v, {}) + (if e.target == v then 1 else 0)
    ensures Succs(es + [e], v) == Succs(es, v) + (if e.source == v then [e.target] else [])
  {
    assert (es + [e])[..|es|] == es;
  }

  ghost predicate Counted(nodes: set<Id>, live: seq<Edge>, deg: map<Id, int>, adj: map<Id, seq<Id>>) {
    && deg.Keys == nodes && adj.Keys == nodes
    && (forall v :: v in nodes ==> deg[v] == InDegree(live, v, {}))
    && (forall v :: v in nodes ==> adj[v] == Succs(live, v))
  }

  lemma CountEdge(nodes: set<Id>, live: seq<Edge>, e: Edge, deg: map<Id, int>, adj: map<Id, seq<Id>>)
    requires Counted(nodes, live, deg, adj) && e.source in nodes && e.target in nodes
    ensures Counted(nodes, live + [e], deg[e.target := deg[e.target] + 1],
                    adj[e.source := adj[e.source] + [e.target]])
  {
    var deg' := deg[e.target := deg[e.target] + 1];
    var adj' := adj[e.source := adj[e.source] + [e.target]];
    assert deg'.Keys == nodes && adj'.Keys == nodes;
    forall v | v in nodes
      ensures deg'[v] == InDegree(live + [e], v, {})
    {
      CountStep(live, e, v);
    }
    forall v | v in nodes
      ensures adj'[v] == Succs(live + [e], v)
    {
      CountStep(live, e, v);
    }
  }

  /** in_degree and adjacency, filled by one pass over the edge list. */
  method CountDegrees(nodes: set<Id>, es: seq<Edge>)
    returns (deg: map<Id, int>, adj: map<Id, seq<Id>>)
    ensures Counted(nodes, Live(nodes, es), deg, adj)
  {
    deg := map v | v in nodes :: 0;
    adj := map v | v in nodes :: [];
    ghost var live := [];
    for i := 0 to |es|
      invariant live == Live(nodes, es[..i])
      invariant Counted(nodes, live, deg, adj)
    {
      var e := es[i];
      LiveStep(nodes, es, i);
      if e.source in nodes && e.target in nodes {
        CountEdge(nodes, live, e, deg, adj);
        adj := adj[e.source := adj[e.source] + [e.target]];
        deg := deg[e.target := deg[e.target] + 1];
        live := live + [e];
      }
    }
    assert es[..|es|] == es;
  }

  /** One more target: its multiplicity grows by one, and stays within that of the whole list. */
  lemma OneMoreTarget(targets: seq<Id>, k: nat)
    requires k < |targets|
    ensures forall v :: multiset(targets[..k + 1])[v] == multiset(targets[..k])[v] + if v == targets[k] then 1 else 0
    ensures multiset(targets[..k])[targets[k]] < multiset(targets)[targets[k]]
    ensures forall v :: v in targets[..k + 1] <==> v in targets[..k] || v == targets[k]
  {
    assert targets[..k + 1] == targets[..k] + [targets[k]];
    assert targets == targets[..k + 1] + targets[k + 1..];
  }

  /** The inner loop: remove the edges to these targets, queueing each node that reaches zero. */
  method Release(targets: seq<Id>, deg: map<Id, int>, queue: seq<Id>)
    returns (deg': map<Id, int>, queue': seq<Id>)
    requires forall v :: v in targets ==> v in deg && multiset(targets)[v] <= deg[v]
    requires NoDup(queue) && forall v :: v in queue ==> v in deg && deg[v] == 0
    ensures deg'.Keys == deg.Keys
    ensures forall v :: v in deg ==> deg'[v] == deg[v] - multiset(targets)[v]
    ensures queue <= queue' && NoDup(queue')
    ensures forall v :: v in queue' <==> v in queue || (v in targets && deg'[v] == 0)
  {
    deg', queue' := deg, queue;
    for k := 0 to |targets|
      invariant deg'.Keys == deg.Keys
      invariant forall v :: v in deg ==> deg'[v] == deg[v] - multiset(targets[..k])[v]
      invariant queue <= queue' && NoDup(queue')
      invariant forall v :: v in queue' <==> v in queue || (v in targets[..k] && deg'[v] == 0)
    {
      var v := targets[k];
      OneMoreTarget(targets, k);
      assert v in targets && deg'[v] > 0;
      deg' := deg'[v := deg'[v] - 1];
      if deg'[v] == 0 {
        queue' := queue' + [v];
      }
    }
    assert targets[..|targets|] == targets;
  }

  /** The loop invariant of every copy: `done` are the nodes popped so far, in order. */
  ghost predicate KahnState(nodes: set<Id>, live: seq<Edge>, done: seq<Id>, queue: seq<Id>, deg: map<Id, int>) {
    && Within(live, nodes)
    && deg.Keys == nodes
    && NoDup(done) && NoDup(queue)
    && (forall v :: v in done ==> v in nodes && v !in queue)
    && (forall v :: v in queue ==> v in nodes)
    && (forall v :: v in nodes ==> deg[v] == InDegree(live, v, Elems(done)))
    && (forall v :: v in nodes ==> (deg[v] == 0 <==> v in done || v in queue))
    && Ordered(live, done)
  }

  /** Every edge into a listed node comes from a node listed before it. */
  ghost predicate Ordered(es: seq<Edge>, done: seq<Id>) {
    forall i, u :: 0 <= i < |done| && Linked(es, u, done[i]) ==> u in done[..i]
  }

  lemma OrderedStep(live: seq<Edge>, done: seq<Id>, c: Id)
    requires Ordered(live, done) && InDegree(live, c, Elems(done)) == 0
    ensures Ordered(live, done + [c])
  {
    var done' := done + [c];
    forall i, u | 0 <= i < |done'| && Linked(live, u, done'[i])
      ensures u in done'[..i]
    {
      assert done'[..i] == done[..i];
      if i == |done| {
        InDegreeZero(live, c, Elems(done));
        assert done'[..i] == done;
      }
    }
  }

  /** What popping the first node c means for one node. */
  lemma PopNode(live: seq<Edge>, done: seq<Id>, queue: seq<Id>, deg: int, queue': seq<Id>, deg': int, v: Id)
    requires queue != [] && NoDup(queue) && queue[0] !in done && deg == InDegree(live, v, Elems(done))
    requires deg == 0 <==> v in done || v in queue
    requires v in done ==> v !in queue
    requires deg' == deg - multiset(Succs(live, queue[0]))[v]
    requires v in queue' <==> v in queue[1..] || (v in Succs(live, queue[0]) && deg' == 0)
    ensures var done' := done + [queue[0]];
            && deg' == InDegree(live, v, Elems(done'))
            && (deg' == 0 <==> v in done' || v in queue')
            && (v in done' ==> v !in queue')
  {
    var c := queue[0];
    assert Elems(done + [c]) == Elems(done) + {c};
    assert queue == [c] + queue[1..];
    InDegreeStep(live, v, Elems(done), c);
  }

  lemma KahnStep(nodes: set<Id>, live: seq<Edge>, done: seq<Id>, queue: seq<Id>, deg: map<Id, int>,
                 queue': seq<Id>, deg': map<Id, int>)
    requires KahnState(nodes, live, done, queue, deg) && queue != []
    requires deg'.Keys == deg.Keys
    requires forall v :: v in deg ==> deg'[v] == deg[v] - multiset(Succs(live, queue[0]))[v]
    requires queue[1..] <= queue' && NoDup(queue')
    requires forall v :: v in Succs(live, queue[0]) ==> v in nodes
    requires forall v :: v in queue' <==> v in queue[1..] || (v in Succs(live, queue[0]) && deg'[v] == 0)
    ensures KahnState(nodes, live, done + [queue[0]], queue', deg')
  {
    var c := queue[0];
    var done' := done + [c];
    assert c in queue && c !in done;
    forall v | v in nodes
      ensures deg'[v] == InDegree(live, v, Elems(done'))
      ensures deg'[v] == 0 <==> v in done' || v in queue'
      ensures v in done' ==> v !in queue'
    {
      PopNode(live, done, queue, deg[v], queue', deg'[v], v);
    }
    OrderedStep(live, done, c);
  }

  /** The edges from c to v are among those still counted into v. */
  lemma SuccsCounted(live: seq<Edge>, done: set<Id>, c: Id, v: Id)
    requires c !in done
    ensures multiset(Succs(live, c))[v] <= InDegree(live, v, done)
  {
    InDegreeStep(live, v, done, c);
  }

  /** What the loop leaves behind. */
  ghost predicate KahnResult(nodes: set<Id>, live: seq<Edge>, done: seq<Id>, deg: map<Id, int>) {
    KahnState(nodes, live, done, [], deg)
  }

  /** The loop shared by detect_cycles, topological_sort and the planner's own cycle check. */
  method Run(nodes: set<Id>, es: seq<Edge>) returns (done: seq<Id>, deg: map<Id, int>)
    ensures KahnResult(nodes, Live(nodes, es), done, deg)
  {
    var adj;
    deg, adj := CountDegrees(nodes, es);
    var zero := set v | v in nodes && deg[v] == 0;
    var queue := Enumerate(zero);
    done := [];
    ghost var live := Live(nodes, es);
    assert Elems(done) == {};
    assert forall v :: v in queue <==> v in Elems(queue);
    while queue != []
      invariant KahnState(nodes, live, done, queue, deg)
      decreases |nodes| - |done|
    {
      var current := queue[0];
      MoreToDo(nodes, done, queue);
      PopFacts(nodes, live, done, queue, deg);
      var deg', queue' := Release(adj[current], deg, queue[1..]);
      KahnStep(nodes, live, done, queue, deg, queue', deg');
      done, deg, queue := done + [current], deg', queue';
    }
  }

  lemma MoreToDo(nodes: set<Id>, done: seq<Id>, queue: seq<Id>)
    requires NoDup(done) && queue != [] && queue[0] in nodes
    requires forall v :: v in done ==> v in nodes && v !in queue
    ensures |done| < |nodes|
  {
    NoDupCardinality(done + [queue[0]]);
    SubsetCardinality(Elems(done + [queue[0]]), nodes);
  }

  lemma PopFacts(nodes: set<Id>, live: seq<Edge>, done: seq<Id>, queue: seq<Id>, deg: map<Id, int>)
    requires KahnState(nodes, live, done, queue, deg) && queue != []
    ensures queue[0] in nodes && queue[0] !in done
    ensures NoDup(queue[1..]) && forall v :: v in queue[1..] ==> v in nodes && deg[v] == 0
    ensures forall v :: v in nodes ==> multiset(Succs(live, queue[0]))[v] <= deg[v]
    ensures forall v :: v in Succs(live, queue[0]) ==> v in nodes
  {
    forall v | v in nodes ensures multiset(Succs(live, queue[0]))[v] <= deg[v] {
      SuccsCounted(live, Elems(done), queue[0], v);
    }
    forall v | v in Succs(live, queue[0]) ensures v in nodes {
      SuccsAreLinked(live, queue[0], v);
    }
  }

  // ---- What the result means ----

  /** On a path that ends in a listed node, all nodes are listed, in path order. */
  lemma {:induction false} PathIsListed(es: seq<Edge>, done: seq<Id>, p: seq<Id>, k: nat) returns (i: nat)
    requires Ordered(es, done) && k < |done| && IsPathTo(es, p, done[k])
    ensures i + |p| - 1 <= k && done[i] == p[0]
    decreases |p|
  {
    var n := |p| - 1;
    if n == 0 {
      i := k;
    } else {
      assert Linked(es, p[n - 1], p[n]);
      var j :| 0 <= j < k && done[j] == p[n - 1];
      PathSlice(es, p, 0, n - 1);
      assert IsPathTo(es, p[0..n], done[j]) && |p[0..n]| == n;
      i := PathIsListed(es, done, p[0..n], j);
      assert p[0..n][0] == p[0];
    }
  }

  /** The loop visits exactly the nodes that no cycle leads to. */
  lemma VisitedIffNotAfterCycle(nodes: set<Id>, live: seq<Edge>, done: seq<Id>, deg: map<Id, int>, v: Id)
    requires KahnResult(nodes, live, done, deg) && v in nodes
    ensures v in done <==> !AfterCycle(live, v)
    ensures deg[v] > 0 <==> AfterCycle(live, v)
  {
    if v in done {
      if AfterCycle(live, v) {
        var c, p :| IsCycle(live, c) && IsPathFromTo(live, p, c[0], v);
        var k :| 0 <= k < |done| && done[k] == v;
        var i := PathIsListed(live, done, p, k);
        var j := PathIsListed(live, done, c, i);
        assert false;
      }
    } else {
      var rest := set u | u in nodes && u !in done;
      forall u | u in rest ensures HasPredIn(live, rest, u) {
        InDegreeZero(live, u, Elems(done));
        var w :| Linked(live, w, u) && w !in Elems(done);
        assert w in rest;
      }
      StuckIsAfterCycle(live, rest, v);
    }
  }

  lemma CycleStaysInside(nodes: set<Id>, live: seq<Edge>, c: seq<Id>)
    requires Within(live, nodes) && IsCycle(live, c)
    ensures c[0] in nodes && AfterCycle(live, c[0])
  {
    assert Linked(live, c[0], c[1]);
    assert IsPathFromTo(live, c[0..1], c[0], c[0]);
  }

  /** All nodes are visited exactly when there is no cycle. */
  lemma CompleteIffAcyclic(nodes: set<Id>, live: seq<Edge>, done: seq<Id>, deg: map<Id, int>)
    requires KahnResult(nodes, live, done, deg)
    ensures |done| == |nodes| <==> Acyclic(live)
    ensures Acyclic(live) ==> Elems(done) == nodes
  {
    NoDupCardinality(done);
    SubsetCardinality(Elems(done), nodes);
    forall v | v in nodes ensures v in done <==> !AfterCycle(live, v) {
      VisitedIffNotAfterCycle(nodes, live, done, deg, v);
    }
    if Acyclic(live) {
      assert forall v :: v in nodes ==> v in done;
      assert Elems(done) == nodes;
    } else {
      var c :| IsCycle(live, c);
      CycleStaysInside(nodes, live, c);
    }
  }
}
