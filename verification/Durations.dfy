/** The duration estimate: the heaviest task of each level, summed; between the heaviest chain and the total. */
module Durations {
  import opened Dag
  import opened Levels
  import opened TaskLists

  function Max(a: real, b: real): (r: real) {
    if a >= b then a else b
  }

  function Total(tasks: seq<PlannedTask>): (r: real) {
    if tasks == [] then 0.0 else Total(tasks[..|tasks| - 1]) + tasks[|tasks| - 1].complexity
  }

  /** The weight of the tasks whose id is in s. */
  function SumIn(tasks: seq<PlannedTask>, s: set<Id>): (r: real) {
    if tasks == [] then 0.0 else
      var t := tasks[|tasks| - 1];
      SumIn(tasks[..|tasks| - 1], s) + (if t.id in s then t.complexity else 0.0)
  }

  /** The largest complexity among the tasks whose id is in s, at least 0. */
  function Heaviest(tasks: seq<PlannedTask>, s: set<Id>): (r: real) {
    if tasks == [] then 0.0 else
      var t := tasks[|tasks| - 1];
      Max(Heaviest(tasks[..|tasks| - 1], s), if t.id in s then t.complexity else 0.0)
  }

  function LevelSum(tasks: seq<PlannedTask>, levels: seq<set<Id>>): (r: real) {
    if levels == [] then 0.0 else
      LevelSum(tasks, levels[..|levels| - 1]) + Heaviest(tasks, levels[|levels| - 1])
  }

  ghost function WeightOf(tasks: seq<PlannedTask>, v: Id): (r: real) {
    if i :| 0 <= i < |tasks| && tasks[i].id == v then tasks[i].complexity else 0.0
  }

  /** The total complexity of a dependency chain. */
  ghost function PathWeight(tasks: seq<PlannedTask>, p: seq<Id>): (r: real) {
    if p == [] then 0.0 else PathWeight(tasks, p[..|p| - 1]) + WeightOf(tasks, p[|p| - 1])
  }

  ghost predicate NonNegative(tasks: seq<PlannedTask>) {
    forall t :: t in tasks ==> t.complexity >= 0.0
  }

  // ---- Heaviest is a maximum ----

  lemma {:induction false} HeaviestBounds(tasks: seq<PlannedTask>, s: set<Id>)
    ensures Heaviest(tasks, s) >= 0.0
    ensures forall t :: t in tasks && t.id in s ==> t.complexity <= Heaviest(tasks, s)
    ensures Heaviest(tasks, s) == 0.0 || exists t :: t in tasks && t.id in s && t.complexity == Heaviest(tasks, s)
  {
    if tasks != [] {
      var n := |tasks| - 1;
      HeaviestBounds(tasks[..n], s);
      assert tasks == tasks[..n] + [tasks[n]];
    }
  }

  lemma WeightIsBounded(tasks: seq<PlannedTask>, s: set<Id>, v: Id)
    requires v in s
    ensures WeightOf(tasks, v) <= Heaviest(tasks, s)
  {
    HeaviestBounds(tasks, s);
    if i :| 0 <= i < |tasks| && tasks[i].id == v {
      assert tasks[i] in tasks;
    }
  }

  lemma {:induction false} LevelSumMonotone(tasks: seq<PlannedTask>, levels: seq<set<Id>>, i: nat, j: nat)
    requires i <= j <= |levels|
    ensures 0.0 <= LevelSum(tasks, levels[..i]) <= LevelSum(tasks, levels[..j])
    decreases j
  {
    if j > 0 {
      assert levels[..j][..j - 1] == levels[..j - 1];
      HeaviestBounds(tasks, levels[j - 1]);
      if i < j {
        LevelSumMonotone(tasks, levels, i, j - 1);
      } else {
        LevelSumMonotone(tasks, levels, i - 1, j - 1);
      }
    }
  }

  // ---- Every chain fits ----

  lemma LevelSumNext(tasks: seq<PlannedTask>, levels: seq<set<Id>>, l: nat)
    requires l < |levels|
    ensures LevelSum(tasks, levels[..l + 1]) == LevelSum(tasks, levels[..l]) + Heaviest(tasks, levels[l])
  {
    assert levels[..l + 1][..l] == levels[..l];
  }

  lemma {:induction false} ChainUpTo(
    tasks: seq<PlannedTask>, live: seq<Edge>, levels: seq<set<Id>>, p: seq<Id>, l: nat)
    requires IsLeveling(Ids(tasks), live, levels) && Within(live, Ids(tasks))
    requires IsPath(live, p) && l < |levels| && p[|p| - 1] in levels[l]
    ensures PathWeight(tasks, p) <= LevelSum(tasks, levels[..l + 1])
    decreases |p|
  {
    var n := |p| - 1;
    LevelSumNext(tasks, levels, l);
    WeightIsBounded(tasks, levels[l], p[n]);
    if n == 0 {
      LevelSumMonotone(tasks, levels, 0, l);
      assert PathWeight(tasks, p[..0]) == 0.0;
    } else {
      assert Linked(live, p[n - 1], p[n]);
      var k := PredBelow(Ids(tasks), live, levels, l, p[n], p[n - 1]);
      PathSlice(live, p, 0, n - 1);
      assert p[..n] == p[0..n];
      ChainUpTo(tasks, live, levels, p[..n], k);
      LevelSumMonotone(tasks, levels, k + 1, l);
    }
  }

  /** The estimate is at least the total complexity of every dependency chain. */
  lemma ChainFits(tasks: seq<PlannedTask>, live: seq<Edge>, levels: seq<set<Id>>, p: seq<Id>)
    requires IsLeveling(Ids(tasks), live, levels) && Within(live, Ids(tasks))
    requires IsPath(live, p) && p[|p| - 1] in Ids(tasks)
    ensures PathWeight(tasks, p) <= LevelSum(tasks, levels)
  {
    var l := LevelFor(Ids(tasks), live, levels, p[|p| - 1]);
    ChainUpTo(tasks, live, levels, p, l);
    LevelSumMonotone(tasks, levels, l + 1, |levels|);
    assert levels[..|levels|] == levels;
  }

  // ---- The total is never exceeded ----

  lemma {:induction false} SumInBounds(tasks: seq<PlannedTask>, s: set<Id>)
    requires NonNegative(tasks)
    ensures 0.0 <= Heaviest(tasks, s) <= SumIn(tasks, s) <= Total(tasks)
  {
    if tasks != [] {
      var n := |tasks| - 1;
      assert tasks[n] in tasks;
      SumInBounds(tasks[..n], s);
    }
  }

  lemma {:induction false} SumInSplits(tasks: seq<PlannedTask>, s: set<Id>, t: set<Id>)
    requires s !! t
    ensures SumIn(tasks, s + t) == SumIn(tasks, s) + SumIn(tasks, t)
  {
    if tasks != [] {
      SumInSplits(tasks[..|tasks| - 1], s, t);
    }
  }

  ghost function Union(levels: seq<set<Id>>): (r: set<Id>) {
    set l, v | 0 <= l < |levels| && v in levels[l] :: v
  }

  ghost predicate Disjoint(levels: seq<set<Id>>) {
    forall i, j :: 0 <= i < j < |levels| ==> levels[i] !! levels[j]
  }

  lemma {:induction false} LevelsWithinTotal(tasks: seq<PlannedTask>, levels: seq<set<Id>>)
    requires NonNegative(tasks) && Disjoint(levels)
    ensures LevelSum(tasks, levels) <= SumIn(tasks, Union(levels)) <= Total(tasks)
  {
    SumInBounds(tasks, Union(levels));
    if levels != [] {
      var n := |levels| - 1;
      LevelsWithinTotal(tasks, levels[..n]);
      assert Union(levels) == Union(levels[..n]) + levels[n];
      SumInSplits(tasks, Union(levels[..n]), levels[n]);
      SumInBounds(tasks, levels[n]);
    }
  }

  /** The estimate never exceeds the sum of all complexities. */
  lemma AtMostTotal(tasks: seq<PlannedTask>, live: seq<Edge>, levels: seq<set<Id>>)
    requires NonNegative(tasks) && IsLeveling(Ids(tasks), live, levels)
    ensures LevelSum(tasks, levels) <= Total(tasks)
  {
    LevelsWithinTotal(tasks, levels);
  }

  // ---- Chains reach the total ----

  lemma {:induction false} ChainWeight(tasks: seq<PlannedTask>, all: seq<PlannedTask>, p: seq<Id>)
    requires UniqueIds(all) && tasks <= all && |p| == |tasks|
    requires forall k :: 0 <= k < |p| ==> p[k] == tasks[k].id
    ensures PathWeight(all, p) == Total(tasks)
  {
    if p != [] {
      var n := |p| - 1;
      ChainWeight(tasks[..n], all, p[..n]);
      assert all[n].id == p[n];
    }
  }

  /** Under SEQUENTIAL and CONSERVATIVE the estimate is exactly the sum of all complexities. */
  lemma ChainedIsTotal(strategy: Strategy, tasks: seq<PlannedTask>, live: seq<Edge>, levels: seq<set<Id>>)
    requires strategy == Sequential || strategy == Conservative
    requires UniqueIds(tasks) && NonNegative(Rewritten(strategy, tasks))
    requires Declares(Rewritten(strategy, tasks), live) && Within(live, Ids(tasks))
    requires IsLeveling(Ids(tasks), live, levels)
    ensures LevelSum(Rewritten(strategy, tasks), levels) == Total(Rewritten(strategy, tasks))
  {
    var r := Rewritten(strategy, tasks);
    RewrittenKeepsIds(strategy, tasks);
    AtMostTotal(r, live, levels);
    if tasks == [] {
      LevelSumMonotone(r, levels, 0, |levels|);
      assert levels[..|levels|] == levels;
    } else {
      forall k | 0 <= k < |tasks| - 1 ensures Linked(live, tasks[k].id, tasks[k + 1].id) {
        ConsecutiveLinked(strategy, tasks, live, k);
      }
      var p := ChainReaches(tasks, live, 0, |tasks| - 1);
      ChainWeight(r, r, p);
      assert tasks[|tasks| - 1] in tasks;
      ChainFits(r, live, levels, p);
    }
  }

  lemma {:induction false} SameTotal(tasks: seq<PlannedTask>, tasks': seq<PlannedTask>)
    requires |tasks| == |tasks'| && forall i :: 0 <= i < |tasks| ==> tasks[i].complexity == tasks'[i].complexity
    ensures Total(tasks) == Total(tasks')
  {
    if tasks != [] {
      SameTotal(tasks[..|tasks| - 1], tasks'[..|tasks| - 1]);
    }
  }

  /** Running independent tasks side by side is never estimated to take longer than the chain. */
  lemma BalancedIsNoLonger(chained: Strategy, tasks: seq<PlannedTask>,
                           es: seq<Edge>, levels: seq<set<Id>>, es': seq<Edge>, levels': seq<set<Id>>)
    requires chained == Sequential || chained == Conservative
    requires UniqueIds(tasks) && NonNegative(tasks)
    requires IsLeveling(Ids(tasks), es, levels)
    requires Declares(Rewritten(chained, tasks), es') && Within(es', Ids(tasks))
    requires IsLeveling(Ids(tasks), es', levels')
    ensures LevelSum(tasks, levels) <= LevelSum(Rewritten(chained, tasks), levels')
  {
    var r := Rewritten(chained, tasks);
    RewrittenKeepsIds(chained, tasks);
    forall t | t in r ensures t.complexity >= 0.0 {
      var i :| 0 <= i < |r| && r[i] == t;
      assert tasks[i] in tasks;
    }
    AtMostTotal(tasks, es, levels);
    ChainedIsTotal(chained, tasks, es', levels');
    SameTotal(tasks, r);
  }
}
