/** The level computation of generate_plan, and what its levels are: longest incoming paths. */
module Levels {
  import opened Dag
  import opened Kahn

  // ---- A tight leveling is the longest-path function ----

  /** Some node of the set is linked to v and sits exactly one level below it. */
  ghost predicate Supported(below: set<Id>, live: seq<Edge>, lv: map<Id, nat>, v: Id)
    requires v in lv && below <= lv.Keys
  {
    exists u :: u in below && Linked(live, u, v) && lv[v] == lv[u] + 1
  }

  ghost predicate Tight(nodes: set<Id>, live: seq<Edge>, lv: map<Id, nat>) {
    && lv.Keys == nodes && Within(live, nodes)
    && (forall e :: e in live ==> lv[e.target] >= lv[e.source] + 1)
    && (forall v {:trigger Supported(nodes, live, lv, v)} :: v in nodes && lv[v] > 0 ==> Supported(nodes, live, lv, v))
  }

  lemma TightPath(nodes: set<Id>, live: seq<Edge>, lv: map<Id, nat>, v: Id) returns (p: seq<Id>)
    requires Tight(nodes, live, lv) && v in nodes
    ensures IsPathTo(live, p, v) && |p| == lv[v] + 1
    ensures forall i :: 0 <= i < |p| ==> p[i] in nodes && lv[p[i]] == i
    decreases lv[v]
  {
    if lv[v] == 0 {
      p := [v];
    } else {
      assert Supported(nodes, live, lv, v);
      var u :| u in nodes && Linked(live, u, v) && lv[v] == lv[u] + 1;
      var q := TightPath(nodes, live, lv, u);
      p := q + [v];
    }
  }

  lemma LongestIsUnique(live: seq<Edge>, v: Id, l: nat, l': nat)
    requires LongestInto(live, v, l) && LongestInto(live, v, l')
    ensures l == l'
  {
  }

  ghost predicate HasLevel(levels: seq<set<Id>>, v: Id) {
    exists l :: 0 <= l < |levels| && v in levels[l]
  }

  /** Levels by local conditions: a partition of the nodes without gaps, every edge climbs, and every node above
      level 0 has a predecessor on the level right below. */
  ghost predicate IsLeveling(nodes: set<Id>, live: seq<Edge>, levels: seq<set<Id>>) {
    && (forall l, v :: 0 <= l < |levels| && v in levels[l] ==> v in nodes)
    && (forall v {:trigger HasLevel(levels, v)} :: v in nodes ==> HasLevel(levels, v))
    && (forall k, l, v :: 0 <= k < |levels| && 0 <= l < |levels| && v in levels[k] && v in levels[l] ==> k == l)
    && (forall e, k, l ::
          (e in live && 0 <= k < |levels| && 0 <= l < |levels| && e.source in levels[k] && e.target in levels[l])
          ==> k < l)
    && (forall k, l, v {:trigger HasPredIn(live, levels[k], v), levels[l]} ::
          0 <= k && l == k + 1 && l < |levels| && v in levels[l] ==> HasPredIn(live, levels[k], v))
    && (forall l :: 0 <= l < |levels| ==> levels[l] != {})
  }

  /** Levels by longest paths: `levels[l]` holds exactly the nodes whose longest incoming path has l edges. */
  ghost predicate AreLongestPaths(nodes: set<Id>, live: seq<Edge>, levels: seq<set<Id>>) {
    && (forall l, v :: 0 <= l < |levels| ==> (v in levels[l] <==> v in nodes && LongestInto(live, v, l)))
    && (forall v {:trigger HasLevel(levels, v)} :: v in nodes ==> HasLevel(levels, v))
    && (forall l :: 0 <= l < |levels| ==> levels[l] != {})
  }

  lemma LevelFor(nodes: set<Id>, live: seq<Edge>, levels: seq<set<Id>>, v: Id) returns (l: nat)
    requires IsLeveling(nodes, live, levels) && v in nodes
    ensures l < |levels| && v in levels[l]
  {
    assert HasLevel(levels, v);
    l :| 0 <= l < |levels| && v in levels[l];
  }

  lemma PredBelow(nodes: set<Id>, live: seq<Edge>, levels: seq<set<Id>>, l: nat, v: Id, u: Id) returns (k: nat)
    requires IsLeveling(nodes, live, levels) && Within(live, nodes)
    requires l < |levels| && v in levels[l] && Linked(live, u, v)
    ensures k < l && u in levels[k]
  {
    k := LevelFor(nodes, live, levels, u);
  }

  lemma PredRightBelow(nodes: set<Id>, live: seq<Edge>, levels: seq<set<Id>>, l: nat, v: Id) returns (u: Id)
    requires IsLeveling(nodes, live, levels) && 0 < l < |levels| && v in levels[l]
    ensures u in levels[l - 1] && Linked(live, u, v)
  {
    assert levels[l] != {} && HasPredIn(live, levels[l - 1], v);
    u :| u in levels[l - 1] && Linked(live, u, v);
  }

  lemma LevelBoundsPath(nodes: set<Id>, live: seq<Edge>, levels: seq<set<Id>>, l: nat, p: seq<Id>)
    requires IsLeveling(nodes, live, levels) && Within(live, nodes)
    requires IsPath(live, p) && l < |levels| && p[|p| - 1] in levels[l]
    ensures |p| <= l + 1
    decreases |p|
  {
    var n := |p| - 1;
    if n > 0 {
      assert Linked(live, p[n - 1], p[n]);
      var k := PredBelow(nodes, live, levels, l, p[n], p[n - 1]);
      PathSlice(live, p, 0, n - 1);
      LevelBoundsPath(nodes, live, levels, k, p[0..n]);
    }
  }

  lemma LevelHasPath(nodes: set<Id>, live: seq<Edge>, levels: seq<set<Id>>, l: nat, v: Id) returns (p: seq<Id>)
    requires IsLeveling(nodes, live, levels) && l < |levels| && v in levels[l]
    ensures IsPathTo(live, p, v) && |p| == l + 1
    ensures forall i :: 0 <= i < |p| ==> p[i] in levels[i]
    decreases l
  {
    if l == 0 {
      p := [v];
    } else {
      var u := PredRightBelow(nodes, live, levels, l, v);
      var q := LevelHasPath(nodes, live, levels, l - 1, u);
      p := q + [v];
    }
  }

  /** The local conditions characterise the longest incoming paths. */
  lemma LevelsAreLongestPaths(nodes: set<Id>, live: seq<Edge>, levels: seq<set<Id>>)
    requires IsLeveling(nodes, live, levels) && Within(live, nodes)
    ensures AreLongestPaths(nodes, live, levels)
  {
    forall l, v | 0 <= l < |levels|
      ensures v in levels[l] <==> v in nodes && LongestInto(live, v, l)
    {
      if v in nodes {
        var k := LevelFor(nodes, live, levels, v);
        LevelIsLongest(nodes, live, levels, k, v);
        if LongestInto(live, v, l) {
          LongestIsUnique(live, v, k, l);
        }
      }
    }
  }

  lemma LevelIsLongest(nodes: set<Id>, live: seq<Edge>, levels: seq<set<Id>>, l: nat, v: Id)
    requires IsLeveling(nodes, live, levels) && Within(live, nodes) && l < |levels| && v in levels[l]
    ensures LongestInto(live, v, l)
  {
    var p := LevelHasPath(nodes, live, levels, l, v);
    forall q | IsPathTo(live, q, v) ensures |q| <= l + 1 {
      LevelBoundsPath(nodes, live, levels, l, q);
    }
  }

  /** Any two level lists of one graph are equal. */
  lemma LevelingIsUnique(nodes: set<Id>, live: seq<Edge>, levels: seq<set<Id>>, levels': seq<set<Id>>)
    requires IsLeveling(nodes, live, levels) && IsLeveling(nodes, live, levels') && Within(live, nodes)
    ensures levels == levels'
  {
    NotLonger(nodes, live, levels, levels');
    NotLonger(nodes, live, levels', levels);
    forall l | 0 <= l < |levels| ensures levels[l] == levels'[l] {
      forall v ensures v in levels[l] <==> v in levels'[l] {
        if v in levels[l] { var k := SameLevel(nodes, live, levels, levels', l, v); }
        if v in levels'[l] { var k := SameLevel(nodes, live, levels', levels, l, v); }
      }
    }
  }

  lemma SameLevel(nodes: set<Id>, live: seq<Edge>, levels: seq<set<Id>>, levels': seq<set<Id>>, l: nat, v: Id)
    returns (k: nat)
    requires IsLeveling(nodes, live, levels) && IsLeveling(nodes, live, levels') && Within(live, nodes)
    requires l < |levels| && v in levels[l]
    ensures k == l && l < |levels'| && v in levels'[l]
  {
    k := LevelFor(nodes, live, levels', v);
    LevelIsLongest(nodes, live, levels, l, v);
    LevelIsLongest(nodes, live, levels', k, v);
    LongestIsUnique(live, v, l, k);
  }

  lemma NotLonger(nodes: set<Id>, live: seq<Edge>, levels: seq<set<Id>>, levels': seq<set<Id>>)
    requires IsLeveling(nodes, live, levels) && IsLeveling(nodes, live, levels') && Within(live, nodes)
    ensures |levels| <= |levels'|
  {
    if levels != [] {
      var l := |levels| - 1;
      var v :| v in levels[l];
      var k := SameLevel(nodes, live, levels, levels', l, v);
    }
  }

  // ---- The loop ----

  /** level_of while the loop runs: every edge out of a popped node is respected, nothing is too high. */
  ghost predicate LevelState(live: seq<Edge>, done: seq<Id>, queue: seq<Id>, lv: map<Id, nat>) {
    && (forall v :: v in done || v in queue ==> v in lv)
    && (forall u, v :: u in done && Linked(live, u, v) ==> v in lv && lv[v] >= lv[u] + 1)
    && Elems(done) <= lv.Keys
    && (forall v {:trigger Supported(Elems(done), live, lv, v)} ::
          v in lv && lv[v] > 0 ==> Supported(Elems(done), live, lv, v))
  }

  function RaisedTo(lv: map<Id, nat>, v: Id, floor: nat): (r: nat) {
    if v in lv && lv[v] >= floor then lv[v] else floor
  }

  /** The level half of the inner loop: lift every target to at least `floor`. */
  method Raise(targets: seq<Id>, lv: map<Id, nat>, floor: nat) returns (lv': map<Id, nat>)
    ensures lv'.Keys == lv.Keys + Elems(targets)
    ensures forall v :: v in lv' ==> lv'[v] == if v in targets then RaisedTo(lv, v, floor) else lv[v]
  {
    lv' := lv;
    for k := 0 to |targets|
      invariant lv'.Keys == lv.Keys + Elems(targets[..k])
      invariant forall v :: v in lv' ==> lv'[v] == if v in targets[..k] then RaisedTo(lv, v, floor) else lv[v]
    {
      var v := targets[k];
      assert targets[..k + 1] == targets[..k] + [v];
      lv' := lv'[v := RaisedTo(lv', v, floor)];
    }
    assert targets[..|targets|] == targets;
  }

  /** A popped node has no edge to a node popped before it or still waiting. */
  lemma NoEdgeBack(nodes: set<Id>, live: seq<Edge>, done: seq<Id>, queue: seq<Id>, deg: map<Id, int>, v: Id)
    requires KahnState(nodes, live, done, queue, deg) && queue != []
    requires v in done || v in queue
    ensures v !in Succs(live, queue[0])
  {
    InDegreeZero(live, v, Elems(done));
    SuccsAreLinked(live, queue[0], v);
    assert queue[0] in queue;
  }

  lemma LevelStep(nodes: set<Id>, live: seq<Edge>, done: seq<Id>, queue: seq<Id>, deg: map<Id, int>,
                  lv: map<Id, nat>, queue': seq<Id>, lv': map<Id, nat>)
    requires KahnState(nodes, live, done, queue, deg) && queue != []
    requires LevelState(live, done, queue, lv)
    requires lv'.Keys == lv.Keys + Elems(Succs(live, queue[0]))
    requires forall v :: v in lv' ==>
      lv'[v] == if v in Succs(live, queue[0]) then RaisedTo(lv, v, lv[queue[0]] + 1) else lv[v]
    requires forall v :: v in queue' ==> v in queue || v in Succs(live, queue[0])
    ensures LevelState(live, done + [queue[0]], queue', lv')
  {
    var c := queue[0];
    var done' := done + [c];
    assert c in queue && queue == [c] + queue[1..];
    forall v | v in done || v in queue ensures v in lv' && lv'[v] == lv[v] {
      NoEdgeBack(nodes, live, done, queue, deg, v);
    }
    forall u, v | u in done' && Linked(live, u, v)
      ensures v in lv' && lv'[v] >= lv'[u] + 1
    {
      if u == c {
        SuccsAreLinked(live, c, v);
      } else {
        assert u in done && v in lv;
      }
    }
    assert Elems(done') == Elems(done) + {c};
    forall v | v in lv' && lv'[v] > 0
      ensures Supported(Elems(done'), live, lv', v)
    {
      if v in lv && lv'[v] == lv[v] {
        assert Supported(Elems(done), live, lv, v);
        var u :| u in Elems(done) && Linked(live, u, v) && lv[v] == lv[u] + 1;
        assert u in Elems(done') && lv'[u] == lv[u];
      } else {
        SuccsAreLinked(live, c, v);
        assert c in Elems(done') && lv'[v] == lv'[c] + 1;
      }
    }
  }

  lemma FinishedIsTight(nodes: set<Id>, live: seq<Edge>, done: seq<Id>, lv: map<Id, nat>)
    requires LevelState(live, done, [], lv) && Elems(done) == nodes && Within(live, nodes)
    requires lv.Keys <= nodes
    ensures Tight(nodes, live, lv)
  {
    forall v | v in nodes ensures v in lv {
      assert v in Elems(done);
    }
    forall e | e in live ensures lv[e.target] >= lv[e.source] + 1 {
      assert e.source in Elems(done) && Linked(live, e.source, e.target);
    }
    forall v | v in nodes && lv[v] > 0 ensures Supported(nodes, live, lv, v) {
      assert Supported(Elems(done), live, lv, v);
    }
  }

  lemma StartState(nodes: set<Id>, live: seq<Edge>, queue: seq<Id>, deg: map<Id, int>, lv: map<Id, nat>)
    requires Within(live, nodes) && deg.Keys == nodes && NoDup(queue)
    requires forall v :: v in nodes ==> deg[v] == InDegree(live, v, {})
    requires Elems(queue) == (set v | v in nodes && deg[v] == 0)
    requires lv.Keys == Elems(queue) && forall v :: v in lv ==> lv[v] == 0
    ensures KahnState(nodes, live, [], queue, deg) && LevelState(live, [], queue, lv)
  {
    assert Elems<Id>([]) == {};
    assert forall v :: v in queue <==> v in Elems(queue);
  }

  lemma BothSteps(nodes: set<Id>, live: seq<Edge>, done: seq<Id>, queue: seq<Id>, deg: map<Id, int>,
                  lv: map<Id, nat>, queue': seq<Id>, deg': map<Id, int>, lv': map<Id, nat>)
    requires KahnState(nodes, live, done, queue, deg) && queue != []
    requires LevelState(live, done, queue, lv) && lv.Keys <= nodes
    requires deg'.Keys == deg.Keys
    requires forall v :: v in deg ==> deg'[v] == deg[v] - multiset(Succs(live, queue[0]))[v]
    requires queue[1..] <= queue' && NoDup(queue')
    requires forall v :: v in Succs(live, queue[0]) ==> v in nodes
    requires forall v :: v in queue' <==> v in queue[1..] || (v in Succs(live, queue[0]) && deg'[v] == 0)
    requires lv'.Keys == lv.Keys + Elems(Succs(live, queue[0]))
    requires forall v :: v in lv' ==>
      lv'[v] == if v in Succs(live, queue[0]) then RaisedTo(lv, v, lv[queue[0]] + 1) else lv[v]
    ensures KahnState(nodes, live, done + [queue[0]], queue', deg')
    ensures LevelState(live, done + [queue[0]], queue', lv') && lv'.Keys <= nodes
  {
    KahnStep(nodes, live, done, queue, deg, queue', deg');
    LevelStep(nodes, live, done, queue, deg, lv, queue', lv');
  }

  /** One turn of generate_plan's second Kahn loop: pop a node, release and lift its targets. */
  method PopAndLift(ghost nodes: set<Id>, ghost live: seq<Edge>, ghost done: seq<Id>,
                    adj: map<Id, seq<Id>>, queue: seq<Id>, deg: map<Id, int>, lv: map<Id, nat>)
    returns (queue': seq<Id>, deg': map<Id, int>, lv': map<Id, nat>)
    requires KahnState(nodes, live, done, queue, deg) && queue != []
    requires LevelState(live, done, queue, lv) && lv.Keys <= nodes
    requires queue[0] in adj && adj[queue[0]] == Succs(live, queue[0])
    ensures KahnState(nodes, live, done + [queue[0]], queue', deg')
    ensures LevelState(live, done + [queue[0]], queue', lv') && lv'.Keys <= nodes
  {
    var current := queue[0];
    PopFacts(nodes, live, done, queue, deg);
    deg', queue' := Release(adj[current], deg, queue[1..]);
    lv' := Raise(adj[current], lv, lv[current] + 1);
    BothSteps(nodes, live, done, queue, deg, lv, queue', deg', lv');
  }

  /** level_of, as generate_plan fills it. */
  method LevelOf(nodes: set<Id>, es: seq<Edge>) returns (lv: map<Id, nat>)
    requires Acyclic(Live(nodes, es))
    ensures Tight(nodes, Live(nodes, es), lv)
  {
    var deg, adj := CountDegrees(nodes, es);
    var zero := set v | v in nodes && deg[v] == 0;
    var queue := Enumerate(zero);
    ghost var done := [];
    ghost var live := Live(nodes, es);
    lv := map v | v in zero :: 0;
    StartState(nodes, live, queue, deg, lv);
    while queue != []
      invariant KahnState(nodes, live, done, queue, deg)
      invariant LevelState(live, done, queue, lv) && lv.Keys <= nodes
      decreases |nodes| - |done|
    {
      MoreToDo(nodes, done, queue);
      ghost var done' := done + [queue[0]];
      queue, deg, lv := PopAndLift(nodes, live, done, adj, queue, deg, lv);
      done := done';
    }
    CompleteIffAcyclic(nodes, live, done, deg);
    FinishedIsTight(nodes, live, done, lv);
  }

  /** The nodes of level_of with value l, for l = 0, 1, ..., max; empty levels are dropped. */
  method Buckets(nodes: set<Id>, ghost live: seq<Edge>, lv: map<Id, nat>) returns (levels: seq<set<Id>>)
    requires Tight(nodes, live, lv)
    ensures IsLeveling(nodes, live, levels)
  {
    var maxLevel, rest := 0, nodes;
    ghost var top: Id :| true;
    if v0 :| v0 in nodes { top := v0; }
    while rest != {}
      invariant rest <= nodes
      invariant forall v :: v in nodes - rest ==> lv[v] <= maxLevel
      invariant maxLevel == 0 || (top in nodes && lv[top] == maxLevel)
      decreases |rest|
    {
      var v :| v in rest;
      rest := rest - {v};
      if lv[v] > maxLevel {
        maxLevel := lv[v];
        top := v;
      }
    }
    levels := [];
    if nodes == {} {
      assert Tight({}, live, lv);
    }
    for l := 0 to maxLevel + 1
      invariant nodes != {} ==> |levels| == l
      invariant nodes == {} ==> levels == []
      invariant forall k, v :: 0 <= k < |levels| ==> (v in levels[k] <==> v in nodes && lv[v] == k)
      invariant forall k :: 0 <= k < |levels| ==> levels[k] != {}
    {
      var atLevel := set v | v in nodes && lv[v] == l;
      if nodes != {} {
        var v := LevelIsInhabited(nodes, live, lv, maxLevel, l);
        assert v in atLevel;
      }
      if atLevel != {} {
        levels := levels + [atLevel];
      }
    }
    BucketsAreLevels(nodes, live, lv, levels);
  }

  lemma BucketsAreLevels(nodes: set<Id>, live: seq<Edge>, lv: map<Id, nat>, levels: seq<set<Id>>)
    requires Tight(nodes, live, lv)
    requires forall k, v :: 0 <= k < |levels| ==> (v in levels[k] <==> v in nodes && lv[v] == k)
    requires forall k :: 0 <= k < |levels| ==> levels[k] != {}
    requires forall v :: v in nodes ==> lv[v] < |levels|
    ensures IsLeveling(nodes, live, levels)
  {
    forall v | v in nodes ensures HasLevel(levels, v) {
      assert v in levels[lv[v]];
    }
    forall k, l, v | 0 <= k < |levels| && 0 <= l < |levels| && v in levels[k] && v in levels[l] ensures k == l {
      assert lv[v] == k && lv[v] == l;
    }
    forall k, l, v | 0 <= k && l == k + 1 && l < |levels| && v in levels[l]
      ensures HasPredIn(live, levels[k], v)
    {
      assert Supported(nodes, live, lv, v);
      var u :| u in nodes && Linked(live, u, v) && lv[v] == lv[u] + 1;
      assert u in levels[k];
    }
  }

  lemma LevelIsInhabited(nodes: set<Id>, live: seq<Edge>, lv: map<Id, nat>, top: nat, l: nat)
    returns (w: Id)
    requires Tight(nodes, live, lv) && nodes != {} && l <= top
    requires top == 0 || exists v :: v in nodes && lv[v] == top
    requires forall v :: v in nodes ==> lv[v] <= top
    ensures w in nodes && lv[w] == l
  {
    var v :| v in nodes && (top > 0 ==> lv[v] == top);
    var p := TightPath(nodes, live, lv, v);
    w := p[l];
  }

  // ---- Optimality ----

  /** No assignment of rounds that makes every edge increase places a node before its level. */
  lemma LevelIsEarliest(live: seq<Edge>, round: Id -> nat, v: Id, l: nat)
    requires forall e :: e in live ==> round(e.source) < round(e.target)
    requires LongestInto(live, v, l)
    ensures l <= round(v)
  {
    var p :| IsPathTo(live, p, v) && |p| == l + 1;
    RankAlongPath(live, u => round(u) as int, p);
  }

  lemma RisesInjective(live: seq<Edge>, round: Id -> nat, p: seq<Id>)
    requires forall e :: e in live ==> round(e.source) < round(e.target)
    requires IsPath(live, p)
    ensures NoDup(seq(|p|, i requires 0 <= i < |p| => round(p[i])))
  {
    forall i, j | 0 <= i < j < |p| ensures round(p[i]) < round(p[j]) {
      PathSlice(live, p, i, j);
      RankAlongPath(live, u => round(u) as int, p[i..j + 1]);
    }
  }

  /** No such assignment uses fewer rounds than there are levels. */
  lemma LevelsAreFewest(nodes: set<Id>, live: seq<Edge>, levels: seq<set<Id>>, round: Id -> nat)
    requires IsLeveling(nodes, live, levels)
    requires forall e :: e in live ==> round(e.source) < round(e.target)
    ensures |levels| <= |set v | v in nodes :: round(v)|
  {
    if levels != [] {
      var l := |levels| - 1;
      var v :| v in levels[l];
      var p := LevelHasPath(nodes, live, levels, l, v);
      RisesInjective(live, round, p);
      var rounds := seq(|p|, i requires 0 <= i < |p| => round(p[i]));
      NoDupCardinality(rounds);
      var used := set u | u in nodes :: round(u);
      forall r | r in Elems(rounds) ensures r in used {
        var i :| 0 <= i < |p| && rounds[i] == r;
        assert p[i] in nodes;
      }
      SubsetCardinality(Elems(rounds), used);
    }
  }
}
