/** Task lists and their dependencies: the checks, rewrites and sums of backend/agent/task_planner.py
    as functions, with the facts about them. */
module TaskLists {
  import opened Results
  import opened Dag

  datatype Strategy = Sequential | Balanced | Parallel | Conservative

  datatype PlannedTask = PlannedTask(
    id: Id, title: string, complexity: real, capability: string, dependencies: set<Id>, parallelizable: bool)

  datatype TaskError =
    | DuplicateTask(id: Id)
    | ComplexityOutOfRange(id: Id)
    | UnknownDependency(id: Id, dependency: Id)
    | TaskCycle(ids: seq<Id>)
    | UnknownCapability(id: Id, capability: string)

  function Ids(tasks: seq<PlannedTask>): (r: set<Id>) {
    set t | t in tasks :: t.id
  }

  // ---- Validity ----

  ghost predicate UniqueIds(tasks: seq<PlannedTask>) {
    forall i, j :: 0 <= i < j < |tasks| ==> tasks[i].id != tasks[j].id
  }

  /** Every dependency names a task that stands strictly earlier in the list. */
  ghost predicate Backward(tasks: seq<PlannedTask>) {
    forall i, d :: 0 <= i < |tasks| && d in tasks[i].dependencies ==> exists j :: 0 <= j < i && tasks[j].id == d
  }

  ghost predicate WellOrdered(tasks: seq<PlannedTask>) {
    UniqueIds(tasks) && Backward(tasks)
  }

  predicate InRange(t: PlannedTask) {
    0.0 <= t.complexity <= 10.0
  }

  predicate Capable(t: PlannedTask, available: Option<set<string>>) {
    available.Some? ==> t.capability in available.value
  }

  /** The task lists that validate_plan lets through. */
  ghost predicate Clean(tasks: seq<PlannedTask>, available: Option<set<string>>) {
    && WellOrdered(tasks)
    && (forall t :: t in tasks ==> InRange(t) && Capable(t, available))
  }

  /** What validate_tasks reports when it reaches position i; a task may name itself here. */
  ghost predicate FaultAt(tasks: seq<PlannedTask>, i: nat, err: TaskError)
    requires i < |tasks|
  {
    var t := tasks[i];
    match err
    case DuplicateTask(v) => v == t.id && exists j :: 0 <= j < i && tasks[j].id == t.id
    case ComplexityOutOfRange(v) => v == t.id && !InRange(t)
    case UnknownDependency(v, d) =>
      v == t.id && d in t.dependencies && forall j :: 0 <= j <= i ==> tasks[j].id != d
    case _ => false
  }

  ghost predicate Fault(tasks: seq<PlannedTask>, err: TaskError) {
    exists i :: 0 <= i < |tasks| && FaultAt(tasks, i, err)
  }

  // ---- The dependency relation as edges ----

  ghost predicate DependsOn(tasks: seq<PlannedTask>, a: Id, b: Id) {
    exists t :: t in tasks && t.id == b && a in t.dependencies
  }

  /** The edge list says exactly what the tasks declare. */
  ghost predicate Declares(tasks: seq<PlannedTask>, es: seq<Edge>) {
    forall a, b :: Linked(es, a, b) <==> DependsOn(tasks, a, b)
  }

  /** As the planner's cycle check builds it: dependencies on unknown tasks are skipped. */
  ghost predicate DeclaresKnown(tasks: seq<PlannedTask>, es: seq<Edge>) {
    forall a, b :: Linked(es, a, b) <==> DependsOn(tasks, a, b) && a in Ids(tasks)
  }

  ghost function IndexOf(tasks: seq<PlannedTask>, v: Id): (r: int) {
    if i :| 0 <= i < |tasks| && tasks[i].id == v then i else -1
  }

  lemma IndexOfAt(tasks: seq<PlannedTask>, i: nat)
    requires UniqueIds(tasks) && i < |tasks|
    ensures IndexOf(tasks, tasks[i].id) == i
  {
    var v := tasks[i].id;
    var k := IndexOf(tasks, v);
    assert 0 <= k < |tasks| && tasks[k].id == v;
  }

  lemma BackwardRises(tasks: seq<PlannedTask>, es: seq<Edge>)
    requires WellOrdered(tasks)
    requires forall e :: e in es ==> DependsOn(tasks, e.source, e.target)
    ensures Rises(es, v => IndexOf(tasks, v)) && Acyclic(es)
  {
    forall e | e in es ensures IndexOf(tasks, e.source) < IndexOf(tasks, e.target) {
      var t :| t in tasks && t.id == e.target && e.source in t.dependencies;
      var i :| 0 <= i < |tasks| && tasks[i] == t;
      var j :| 0 <= j < i && tasks[j].id == e.source;
      IndexOfAt(tasks, i);
      IndexOfAt(tasks, j);
    }
    RankedIsAcyclic(es, v => IndexOf(tasks, v));
  }

  /** No fault and no cycle is the same as: unique ids, dependencies strictly earlier, complexities in range. */
  lemma ValidIffWellOrdered(tasks: seq<PlannedTask>, es: seq<Edge>)
    requires DeclaresKnown(tasks, es)
    ensures (forall err :: !Fault(tasks, err)) && Acyclic(es) <==>
            WellOrdered(tasks) && forall t :: t in tasks ==> InRange(t)
  {
    if (forall err :: !Fault(tasks, err)) && Acyclic(es) {
      forall t | t in tasks ensures InRange(t) {
        var i :| 0 <= i < |tasks| && tasks[i] == t;
        assert !FaultAt(tasks, i, ComplexityOutOfRange(t.id)) by { assert !Fault(tasks, ComplexityOutOfRange(t.id)); }
      }
      forall i, j | 0 <= i < j < |tasks| ensures tasks[i].id != tasks[j].id {
        assert !FaultAt(tasks, j, DuplicateTask(tasks[j].id)) by { assert !Fault(tasks, DuplicateTask(tasks[j].id)); }
      }
      forall i, d | 0 <= i < |tasks| && d in tasks[i].dependencies
        ensures exists j :: 0 <= j < i && tasks[j].id == d
      {
        EarlierOrSelf(tasks, es, i, d);
      }
    }
    if WellOrdered(tasks) && forall t :: t in tasks ==> InRange(t) {
      forall e | e in es ensures DependsOn(tasks, e.source, e.target) {
        assert Linked(es, e.source, e.target);
      }
      BackwardRises(tasks, es);
      forall err, i | 0 <= i < |tasks| ensures !FaultAt(tasks, i, err) {
        assert tasks[i] in tasks;
      }
    }
  }

  lemma EarlierOrSelf(tasks: seq<PlannedTask>, es: seq<Edge>, i: nat, d: Id)
    requires DeclaresKnown(tasks, es) && Acyclic(es) && i < |tasks| && d in tasks[i].dependencies
    requires forall err :: !Fault(tasks, err)
    ensures exists j :: 0 <= j < i && tasks[j].id == d
  {
    var t := tasks[i];
    assert !FaultAt(tasks, i, UnknownDependency(t.id, d)) by { assert !Fault(tasks, UnknownDependency(t.id, d)); }
    var j :| 0 <= j <= i && tasks[j].id == d;
    if j == i {
      assert t in tasks && DependsOn(tasks, d, d) && d in Ids(tasks);
      assert Linked(es, d, d);
      assert IsCycle(es, [d, d]);
    }
  }

  // ---- Strategies ----

  function Chain(tasks: seq<PlannedTask>): (r: seq<PlannedTask>)
    ensures |r| == |tasks|
    ensures forall i {:trigger r[i]} :: 0 <= i < |r| ==>
      r[i] == tasks[i].(dependencies := if i > 0 then {tasks[i - 1].id} else {})
  {
    seq(|tasks|, i requires 0 <= i < |tasks| =>
      tasks[i].(dependencies := if i > 0 then {tasks[i - 1].id} else {}))
  }

  function AfterAllPrevious(tasks: seq<PlannedTask>): (r: seq<PlannedTask>)
    ensures |r| == |tasks|
    ensures forall i {:trigger r[i]} :: 0 <= i < |r| ==>
      r[i] == tasks[i].(dependencies := tasks[i].dependencies + Ids(tasks[..i]) - {tasks[i].id})
  {
    seq(|tasks|, i requires 0 <= i < |tasks| =>
      tasks[i].(dependencies := tasks[i].dependencies + Ids(tasks[..i]) - {tasks[i].id}))
  }

  function Rewritten(strategy: Strategy, tasks: seq<PlannedTask>): (r: seq<PlannedTask>) {
    match strategy
    case Sequential => Chain(tasks)
    case Conservative => AfterAllPrevious(tasks)
    case _ => tasks
  }

  lemma IdsAt(tasks: seq<PlannedTask>, v: Id) returns (j: nat)
    requires v in Ids(tasks)
    ensures j < |tasks| && tasks[j].id == v
  {
    var t :| t in tasks && t.id == v;
    j :| 0 <= j < |tasks| && tasks[j] == t;
  }

  lemma RewrittenKeepsIds(strategy: Strategy, tasks: seq<PlannedTask>)
    ensures var r := Rewritten(strategy, tasks);
            |r| == |tasks| && forall i :: 0 <= i < |r| ==>
              r[i].id == tasks[i].id && r[i].complexity == tasks[i].complexity && r[i].capability == tasks[i].capability
    ensures Ids(Rewritten(strategy, tasks)) == Ids(tasks)
  {
    var r := Rewritten(strategy, tasks);
    forall v ensures v in Ids(r) <==> v in Ids(tasks) {
      if v in Ids(r) {
        var j := IdsAt(r, v);
        assert tasks[j] in tasks;
      }
      if v in Ids(tasks) {
        var j := IdsAt(tasks, v);
        assert r[j] in r;
      }
    }
  }

  /** Every strategy keeps a clean list clean. */
  lemma RewrittenIsClean(strategy: Strategy, tasks: seq<PlannedTask>, available: Option<set<string>>)
    requires Clean(tasks, available)
    ensures Clean(Rewritten(strategy, tasks), available)
  {
    var r := Rewritten(strategy, tasks);
    RewrittenKeepsIds(strategy, tasks);
    forall i, d | 0 <= i < |r| && d in r[i].dependencies
      ensures exists j :: 0 <= j < i && r[j].id == d
    {
      if strategy == Conservative && d in Ids(tasks[..i]) {
        var j := IdsAt(tasks[..i], d);
        assert r[j].id == d;
      } else if strategy == Sequential {
        assert r[i - 1].id == d;
      } else {
        var j :| 0 <= j < i && tasks[j].id == d;
        assert r[j].id == d;
      }
    }
    forall t | t in r ensures InRange(t) && Capable(t, available) {
      var i :| 0 <= i < |r| && r[i] == t;
      assert tasks[i] in tasks;
    }
  }

  lemma ChainReaches(tasks: seq<PlannedTask>, es: seq<Edge>, j: nat, i: nat) returns (p: seq<Id>)
    requires j <= i < |tasks|
    requires forall k :: 0 <= k < |tasks| - 1 ==> Linked(es, tasks[k].id, tasks[k + 1].id)
    ensures IsPathFromTo(es, p, tasks[j].id, tasks[i].id) && |p| == i - j + 1
    ensures forall k :: 0 <= k < |p| ==> p[k] == tasks[j + k].id
  {
    p := seq(i - j + 1, k requires 0 <= k < i - j + 1 => tasks[j + k].id);
    forall a, b | 0 <= a && b == a + 1 && b < |p| ensures Linked(es, p[a], p[b]) {
      assert Linked(es, tasks[j + a].id, tasks[j + a + 1].id);
    }
  }

  /** SEQUENTIAL and CONSERVATIVE make every task depend on the one before it. */
  lemma ConsecutiveDepends(strategy: Strategy, tasks: seq<PlannedTask>, k: nat)
    requires strategy == Sequential || strategy == Conservative
    requires UniqueIds(tasks) && k + 1 < |tasks|
    ensures DependsOn(Rewritten(strategy, tasks), tasks[k].id, tasks[k + 1].id)
  {
    var r := Rewritten(strategy, tasks);
    assert tasks[k] in tasks[..k + 1];
    assert tasks[k].id in Ids(tasks[..k + 1]);
    assert r[k + 1] in r && tasks[k].id in r[k + 1].dependencies;
  }

  lemma ConsecutiveLinked(strategy: Strategy, tasks: seq<PlannedTask>, es: seq<Edge>, k: nat)
    requires strategy == Sequential || strategy == Conservative
    requires UniqueIds(tasks) && Declares(Rewritten(strategy, tasks), es) && k + 1 < |tasks|
    ensures Linked(es, tasks[k].id, tasks[k + 1].id)
  {
    ConsecutiveDepends(strategy, tasks, k);
  }

  /** Whatever the strategy, a declared dependency still runs before its task: a path leads from one to the other. */
  lemma DeclaredOrderKept(strategy: Strategy, tasks: seq<PlannedTask>, es: seq<Edge>, i: nat, d: Id)
    requires WellOrdered(tasks) && Declares(Rewritten(strategy, tasks), es)
    requires i < |tasks| && d in tasks[i].dependencies
    ensures Reaches(es, d, tasks[i].id)
  {
    var j :| 0 <= j < i && tasks[j].id == d;
    if strategy == Sequential || strategy == Conservative {
      forall k | 0 <= k < |tasks| - 1 ensures Linked(es, tasks[k].id, tasks[k + 1].id) {
        ConsecutiveLinked(strategy, tasks, es, k);
      }
      var p := ChainReaches(tasks, es, j, i);
    } else {
      assert tasks[i] in tasks && DependsOn(tasks, d, tasks[i].id);
      LinkReaches(es, d, tasks[i].id);
    }
  }

  // ---- Isolated tasks ----

  ghost predicate Isolated(tasks: seq<PlannedTask>, v: Id) {
    forall u :: !DependsOn(tasks, u, v) && !DependsOn(tasks, v, u)
  }

  /** Some dependency exists and some task neither has one nor is one. */
  ghost predicate HasIsolated(tasks: seq<PlannedTask>) {
    && (exists t :: t in tasks && t.dependencies != {})
    && (exists v {:trigger Isolated(tasks, v)} :: v in Ids(tasks) && Isolated(tasks, v))
  }

  /** An isolated task has no dependency and is none. */
  lemma IsolatedMeans(tasks: seq<PlannedTask>)
    requires UniqueIds(tasks)
    ensures HasIsolated(tasks) <==>
      && (exists t :: t in tasks && t.dependencies != {})
      && (exists u :: u in tasks && u.dependencies == {} && forall t :: t in tasks ==> u.id !in t.dependencies)
  {
    if HasIsolated(tasks) {
      var v :| v in Ids(tasks) && Isolated(tasks, v);
      var u :| u in tasks && u.id == v;
      forall d | d in u.dependencies ensures false {
        assert DependsOn(tasks, d, v);
      }
      forall t | t in tasks ensures v !in t.dependencies {
        assert v in t.dependencies ==> DependsOn(tasks, v, t.id);
      }
    }
    if u :| u in tasks && u.dependencies == {} && forall t :: t in tasks ==> u.id !in t.dependencies {
      forall w ensures !DependsOn(tasks, w, u.id) && !DependsOn(tasks, u.id, w) {
        if t :| t in tasks && t.id == u.id && w in t.dependencies {
          OneOfEach(tasks, t, u);
        }
      }
      assert u.id in Ids(tasks) && Isolated(tasks, u.id);
    }
  }

  lemma OneOfEach(tasks: seq<PlannedTask>, t: PlannedTask, u: PlannedTask)
    requires UniqueIds(tasks) && t in tasks && u in tasks && t.id == u.id
    ensures t == u
  {
    var i :| 0 <= i < |tasks| && tasks[i] == t;
    var j :| 0 <= j < |tasks| && tasks[j] == u;
  }

  /** In a rewritten list of at least two tasks every task has a neighbour. */
  lemma ChainNeighbour(strategy: Strategy, tasks: seq<PlannedTask>, i: nat) returns (u: Id)
    requires strategy == Sequential || strategy == Conservative
    requires UniqueIds(tasks) && i < |tasks| && |tasks| > 1
    ensures var r := Rewritten(strategy, tasks); DependsOn(r, u, tasks[i].id) || DependsOn(r, tasks[i].id, u)
  {
    if i > 0 {
      ConsecutiveDepends(strategy, tasks, i - 1);
      u := tasks[i - 1].id;
    } else {
      ConsecutiveDepends(strategy, tasks, 0);
      u := tasks[1].id;
    }
  }

  lemma LoneTaskIsNotIsolated(r: seq<PlannedTask>)
    requires |r| <= 1
    ensures !HasIsolated(r)
  {
    if t :| t in r && t.dependencies != {} {
      var d :| d in t.dependencies;
      forall v | v in Ids(r) ensures !Isolated(r, v) {
        var j := IdsAt(r, v);
        assert DependsOn(r, d, v);
      }
    }
  }

  lemma ChainsHaveNoIsolated(strategy: Strategy, tasks: seq<PlannedTask>)
    requires strategy == Sequential || strategy == Conservative
    requires UniqueIds(tasks)
    ensures !HasIsolated(Rewritten(strategy, tasks))
  {
    var r := Rewritten(strategy, tasks);
    RewrittenKeepsIds(strategy, tasks);
    if |r| <= 1 {
      LoneTaskIsNotIsolated(r);
    } else {
      forall v | v in Ids(r) ensures !Isolated(r, v) {
        var i := IdsAt(tasks, v);
        var u := ChainNeighbour(strategy, tasks, i);
      }
    }
  }
}
