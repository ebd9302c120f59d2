/** Directed graphs as edge lists: paths, cycles and the counting arguments about them.

    Edges form a list, not a set: an edge may occur twice, and an edge may be a self-loop. */
module Dag {
  type Id = string

  datatype Edge = Edge(source: Id, target: Id, condition: string)

  ghost predicate Linked(es: seq<Edge>, a: Id, b: Id) {
    exists e :: e in es && e.source == a && e.target == b
  }

  /** A non-empty list of nodes, each linked to the next; one node alone is a path of length 0. */
  ghost predicate IsPath(es: seq<Edge>, p: seq<Id>) {
    |p| >= 1 && forall i, j :: 0 <= i && j == i + 1 && j < |p| ==> Linked(es, p[i], p[j])
  }

  ghost predicate IsPathTo(es: seq<Edge>, p: seq<Id>, b: Id) {
    IsPath(es, p) && p[|p| - 1] == b
  }

  ghost predicate IsPathFromTo(es: seq<Edge>, p: seq<Id>, a: Id, b: Id) {
    IsPathTo(es, p, b) && p[0] == a
  }

  ghost predicate Reaches(es: seq<Edge>, a: Id, b: Id) {
    exists p :: IsPathFromTo(es, p, a, b)
  }

  ghost predicate IsCycle(es: seq<Edge>, p: seq<Id>) {
    IsPath(es, p) && |p| >= 2 && p[0] == p[|p| - 1]
  }

  ghost predicate Acyclic(es: seq<Edge>) {
    forall p :: !IsCycle(es, p)
  }

  /** Node v lies on a cycle, or some cycle leads to it. */
  ghost predicate AfterCycle(es: seq<Edge>, v: Id) {
    exists c, p :: IsCycle(es, c) && IsPathFromTo(es, p, c[0], v)
  }

  /** The longest path into v has exactly l edges. */
  ghost predicate LongestInto(es: seq<Edge>, v: Id, l: nat) {
    && (exists p :: IsPathTo(es, p, v) && |p| == l + 1)
    && (forall p :: IsPathTo(es, p, v) ==> |p| <= l + 1)
  }

  ghost predicate NoDup<T>(s: seq<T>) {
    forall i, j :: 0 <= i < j < |s| ==> s[i] != s[j]
  }

  ghost function Elems<T>(s: seq<T>): (r: set<T>) {
    set x | x in s
  }

  lemma NoDupCardinality<T>(s: seq<T>)
    requires NoDup(s)
    ensures |Elems(s)| == |s|
  {
    if s != [] {
      var n := |s| - 1;
      NoDupCardinality(s[..n]);
      assert Elems(s) == Elems(s[..n]) + {s[n]};
    }
  }

  lemma SubsetCardinality<T>(a: set<T>, b: set<T>)
    requires a <= b
    ensures |a| <= |b|
    ensures |a| == |b| ==> a == b
  {
    assert b == a + (b - a);
  }

  lemma Pigeonhole<T>(p: seq<T>, s: set<T>) returns (i: nat, j: nat)
    requires forall x :: x in p ==> x in s
    requires |p| > |s|
    ensures i < j < |p| && p[i] == p[j]
  {
    if forall i, j :: 0 <= i < j < |p| ==> p[i] != p[j] {
      NoDupCardinality(p);
      SubsetCardinality(Elems(p), s);
      assert false;
    }
    i, j :| 0 <= i < j < |p| && p[i] == p[j];
  }

  // ---- Building and cutting paths ----

  lemma PathSlice(es: seq<Edge>, p: seq<Id>, i: nat, j: nat)
    requires IsPath(es, p) && i <= j < |p|
    ensures IsPath(es, p[i..j + 1])
  {
  }

  lemma PathJoin(es: seq<Edge>, p: seq<Id>, q: seq<Id>)
    requires IsPath(es, p) && IsPath(es, q) && p[|p| - 1] == q[0]
    ensures IsPathFromTo(es, p + q[1..], p[0], q[|q| - 1])
  {
    var r := p + q[1..];
    forall i, j | 0 <= i && j == i + 1 && j < |r|
      ensures Linked(es, r[i], r[j])
    {
      if j >= |p| {
        assert r[j] == q[j - |p| + 1];
        assert r[i] == q[i - |p| + 1];
      }
    }
  }

  lemma ReachesTransitive(es: seq<Edge>, a: Id, b: Id, c: Id)
    requires Reaches(es, a, b) && Reaches(es, b, c)
    ensures Reaches(es, a, c)
  {
    var p :| IsPathFromTo(es, p, a, b);
    var q :| IsPathFromTo(es, q, b, c);
    PathJoin(es, p, q);
  }

  lemma LinkReaches(es: seq<Edge>, a: Id, b: Id)
    requires Linked(es, a, b)
    ensures Reaches(es, a, b)
  {
    assert IsPathFromTo(es, [a, b], a, b);
  }

  lemma PathMonotone(es: seq<Edge>, es': seq<Edge>, p: seq<Id>)
    requires forall e :: e in es ==> e in es'
    requires IsPath(es, p)
    ensures IsPath(es', p)
  {
    forall i, j | 0 <= i && j == i + 1 && j < |p|
      ensures Linked(es', p[i], p[j])
    {
      assert Linked(es, p[i], p[j]);
    }
  }

  lemma AcyclicMonotone(es: seq<Edge>, es': seq<Edge>)
    requires forall e :: e in es ==> e in es'
    requires Acyclic(es')
    ensures Acyclic(es)
  {
    forall p ensures !IsCycle(es, p) {
      if IsCycle(es, p) {
        PathMonotone(es, es', p);
        assert IsCycle(es', p);
      }
    }
  }

  // ---- Ranks: an assignment that grows along every edge ----

  ghost predicate Rises(es: seq<Edge>, rank: Id -> int) {
    forall e :: e in es ==> rank(e.source) < rank(e.target)
  }

  lemma RankAlongPath(es: seq<Edge>, rank: Id -> int, p: seq<Id>)
    requires Rises(es, rank) && IsPath(es, p)
    ensures rank(p[|p| - 1]) >= rank(p[0]) + |p| - 1
    decreases |p|
  {
    var n := |p| - 1;
    if n > 0 {
      PathSlice(es, p, 0, n - 1);
      RankAlongPath(es, rank, p[0..n]);
      assert Linked(es, p[n - 1], p[n]);
    }
  }

  lemma RankedIsAcyclic(es: seq<Edge>, rank: Id -> int)
    requires Rises(es, rank)
    ensures Acyclic(es)
  {
    forall p ensures !IsCycle(es, p) {
      if IsCycle(es, p) {
        RankAlongPath(es, rank, p);
      }
    }
  }

  // ---- Finite sets of nodes that have no way out ----

  ghost predicate HasPredIn(es: seq<Edge>, s: set<Id>, v: Id) {
    exists u :: u in s && Linked(es, u, v)
  }

  /** Every node of the set has a predecessor in the set. */
  ghost predicate Stuck(es: seq<Edge>, s: set<Id>) {
    forall v {:trigger HasPredIn(es, s, v)} :: v in s ==> HasPredIn(es, s, v)
  }

  lemma BackwardPath(es: seq<Edge>, s: set<Id>, v: Id, n: nat) returns (p: seq<Id>)
    requires Stuck(es, s) && v in s
    ensures IsPathTo(es, p, v) && |p| == n + 1
    ensures forall x :: x in p ==> x in s
    decreases n
  {
    if n == 0 {
      p := [v];
    } else {
      assert HasPredIn(es, s, v);
      var u :| u in s && Linked(es, u, v);
      var q := BackwardPath(es, s, u, n - 1);
      assert IsPathFromTo(es, [u, v], u, v);
      PathJoin(es, q, [u, v]);
      p := q + [u, v][1..];
    }
  }

  /** Walking back from a stuck node must revisit a node: a cycle leads to every stuck node. */
  lemma StuckIsAfterCycle(es: seq<Edge>, s: set<Id>, v: Id)
    requires Stuck(es, s) && v in s
    ensures AfterCycle(es, v)
  {
    var p := BackwardPath(es, s, v, |s|);
    var i, j := Pigeonhole(p, s);
    PathSlice(es, p, i, j);
    var c := p[i..j + 1];
    assert IsCycle(es, c);
    PathSlice(es, p, i, |p| - 1);
    var q := p[i..|p|];
    assert IsPathFromTo(es, q, c[0], v);
  }

  lemma AcyclicPathIsShort(es: seq<Edge>, s: set<Id>, p: seq<Id>)
    requires Acyclic(es) && IsPath(es, p)
    requires forall x :: x in p ==> x in s
    ensures |p| <= |s|
  {
    if |p| > |s| {
      var i, j := Pigeonhole(p, s);
      PathSlice(es, p, i, j);
      assert IsCycle(es, p[i..j + 1]);
    }
  }

  ghost predicate IsLeaf(es: seq<Edge>, v: Id) {
    forall e :: e in es ==> e.source != v
  }

  ghost predicate Within(es: seq<Edge>, s: set<Id>) {
    forall e :: e in es ==> e.source in s && e.target in s
  }

  /** In a finite acyclic graph every node has a path to a leaf. */
  lemma PathToLeaf(es: seq<Edge>, s: set<Id>, v: Id) returns (leaf: Id)
    requires Acyclic(es) && Within(es, s) && v in s
    ensures leaf in s && IsLeaf(es, leaf) && Reaches(es, v, leaf)
  {
    leaf := PathToLeafFrom(es, s, [v]);
  }

  lemma PathToLeafFrom(es: seq<Edge>, s: set<Id>, p: seq<Id>) returns (leaf: Id)
    requires Acyclic(es) && Within(es, s) && IsPath(es, p)
    requires forall x :: x in p ==> x in s
    ensures leaf in s && IsLeaf(es, leaf) && Reaches(es, p[0], leaf)
    decreases |s| + 1 - |p|
  {
    AcyclicPathIsShort(es, s, p);
    var v := p[|p| - 1];
    if IsLeaf(es, v) {
      leaf := v;
      assert IsPathFromTo(es, p, p[0], v);
    } else {
      var e :| e in es && e.source == v;
      assert Linked(es, v, e.target);
      assert IsPathFromTo(es, [v, e.target], v, e.target);
      PathJoin(es, p, [v, e.target]);
      var q := p + [v, e.target][1..];
      AcyclicPathIsShort(es, s, q);
      leaf := PathToLeafFrom(es, s, q);
    }
  }

  // ---- Adding one edge ----

  /** A new edge closes a cycle exactly when its target already reaches its source. */
  lemma {:induction false} AddEdgeAcyclic(es: seq<Edge>, e: Edge)
    requires Acyclic(es)
    ensures Acyclic(es + [e]) <==> !Reaches(es, e.target, e.source)
  {
    if Reaches(es, e.target, e.source) {
      var p :| IsPathFromTo(es, p, e.target, e.source);
      PathMonotone(es, es + [e], p);
      assert Linked(es + [e], e.source, e.target);
      assert IsPathFromTo(es + [e], [e.source, e.target], e.source, e.target);
      PathJoin(es + [e], [e.source, e.target], p);
      assert IsCycle(es + [e], [e.source, e.target] + p[1..]);
    } else {
      forall p ensures !IsCycle(es + [e], p) {
        if IsCycle(es + [e], p) {
          CycleUsesNewEdge(es, e, p);
        }
      }
    }
  }

  /** Cut a path at the uses of e: what remains goes through es alone. */
  lemma {:induction false} CutAtNewEdge(es: seq<Edge>, e: Edge, p: seq<Id>)
    requires IsPath(es + [e], p)
    ensures IsPath(es, p) || (Reaches(es, p[0], e.source) && Reaches(es, e.target, p[|p| - 1]))
    decreases |p|
  {
    var n := |p| - 1;
    if n == 0 {
      assert IsPath(es, p);
    } else {
      PathSlice(es + [e], p, 0, n - 1);
      CutAtNewEdge(es, e, p[0..n]);
      assert Linked(es + [e], p[n - 1], p[n]);
      var d :| d in es + [e] && d.source == p[n - 1] && d.target == p[n];
      if d in es {
        assert Linked(es, p[n - 1], p[n]);
        if IsPath(es, p[0..n]) {
          assert IsPath(es, p) by { assert forall i :: 0 <= i < n ==> p[0..n][i] == p[i]; }
        } else {
          LinkReaches(es, p[n - 1], p[n]);
          ReachesTransitive(es, e.target, p[n - 1], p[n]);
        }
      } else {
        assert IsPathFromTo(es, [p[n]], e.target, p[n]);
        if IsPath(es, p[0..n]) {
          assert IsPathFromTo(es, p[0..n], p[0], e.source);
        }
      }
    }
  }

  lemma CycleUsesNewEdge(es: seq<Edge>, e: Edge, p: seq<Id>)
    requires Acyclic(es) && IsCycle(es + [e], p)
    ensures Reaches(es, e.target, e.source)
  {
    CutAtNewEdge(es, e, p);
    assert !IsCycle(es, p);
    ReachesTransitive(es, e.target, p[|p| - 1], e.source);
  }
}
