/** How many ticks a mission takes when every started agent completes before the next tick:
    tick k starts exactly level k-1, and the mission completes at tick L+1, not earlier. */
module MissionRounds {
  import opened Results
  import opened Dag
  import opened TaskLists
  import opened Levels
  import opened Missions
  import opened MissionRuns
  import opened MissionTheorems
  import G = ExecutionGraphs
  import L = Lifecycle

  /** After k rounds: levels below k-1 are completed, level k-1 is running, all later ones are pending. */
  function StatusAfter(k: nat, level: nat): (r: G.NodeStatus) {
    if level + 1 < k then G.Completed else if level + 1 == k then G.Running else G.Pending
  }

  ghost predicate AfterRounds(g: G.GraphValue, levels: seq<set<Id>>, k: nat) {
    forall l, v :: 0 <= l < |levels| && v in levels[l] ==> v in g.nodes && g.nodes[v].status == StatusAfter(k, l)
  }

  /** Every agent of the mission is known and has completed. */
  ghost predicate AllReported(s: System, mid: Id)
    requires mid in s.missions
  {
    forall a :: a in s.missions[mid].agents ==> a in s.agents && s.agents[a].state == L.Completed
  }

  // ---- Levels and statuses ----

  /** Levels below k are completed, all others pending. */
  ghost predicate SplitAt(g: G.GraphValue, levels: seq<set<Id>>, k: nat) {
    forall l, v :: 0 <= l < |levels| && v in levels[l] ==>
      v in g.nodes && g.nodes[v].status == if l < k then G.Completed else G.Pending
  }

  /** When all agents have completed, phase 1 completes every node that has been started. */
  lemma SyncOne(mid: Id, g: G.GraphValue, mine: set<L.AgentId>, agents: L.Agents, n: nat, v: Id)
    requires Owned(mid, g, mine, n) && Agrees(g, mine, agents) && v in g.nodes && v != ""
    requires forall a :: a in mine ==> a in agents && agents[a].state == L.Completed
    ensures SyncedStatus(mine, agents, v, g.nodes[v].status) ==
            if g.nodes[v].status == G.Pending then G.Pending else G.Completed
  {
    if g.nodes[v].status != G.Pending {
      assert HasAgent(mine, v);
      var a :| a in mine && a.Supervised? && a.task == v;
      assert Reported(mine, agents, v, L.Completed);
    }
  }

  lemma SyncAdvances(mid: Id, g: G.GraphValue, mine: set<L.AgentId>, agents: L.Agents, n: nat,
                     levels: seq<set<Id>>, k: nat)
    requires Owned(mid, g, mine, n) && Agrees(g, mine, agents) && "" !in g.nodes
    requires AfterRounds(g, levels, k)
    requires forall a :: a in mine ==> a in agents && agents[a].state == L.Completed
    ensures SplitAt(Synced(mine, agents, g), levels, k)
  {
    forall l, v | 0 <= l < |levels| && v in levels[l]
      ensures v in g.nodes &&
              Synced(mine, agents, g).nodes[v].status == if l < k then G.Completed else G.Pending
    {
      SyncOne(mid, g, mine, agents, n, v);
    }
  }

  /** On such a graph exactly level k is ready. */
  lemma ReadyIsNextLevel(g: G.GraphValue, levels: seq<set<Id>>, k: nat, l: nat, v: Id)
    requires IsLeveling(g.nodes.Keys, g.edges, levels) && Within(g.edges, g.nodes.Keys)
    requires SplitAt(g, levels, k) && l < |levels| && v in levels[l]
    ensures IsReady(g, v) <==> l == k
  {
    if l == k {
      forall e | e in g.edges && e.target == v ensures e.source in g.nodes && g.nodes[e.source].status == G.Completed {
        assert Linked(g.edges, e.source, v);
        var j := PredBelow(g.nodes.Keys, g.edges, levels, l, v, e.source);
      }
    } else if l > k {
      var u := PredRightBelow(g.nodes.Keys, g.edges, levels, l, v);
      var e :| e in g.edges && e.source == u && e.target == v;
      assert g.nodes[u].status == G.Pending;
    }
  }

  /** While some level is left, some leaf is not completed. */
  lemma NotDoneYet(g: G.GraphValue, levels: seq<set<Id>>, k: nat)
    requires IsLeveling(g.nodes.Keys, g.edges, levels) && Within(g.edges, g.nodes.Keys)
    requires SplitAt(g, levels, k) && k < |levels|
    ensures !LeavesDone(g) && g.nodes != map[]
  {
    var l := |levels| - 1;
    var v :| v in levels[l];
    assert v in g.nodes;
    TopIsLeaf(g.nodes.Keys, g.edges, levels, v);
  }

  lemma TopIsLeaf(nodes: set<Id>, es: seq<Edge>, levels: seq<set<Id>>, v: Id)
    requires IsLeveling(nodes, es, levels) && Within(es, nodes) && levels != [] && v in levels[|levels| - 1]
    ensures IsLeaf(es, v)
  {
    forall e | e in es && e.source == v ensures false {
      assert Linked(es, v, e.target);
      var j := LevelFor(nodes, es, levels, e.target);
      var k := PredBelow(nodes, es, levels, j, e.target, v);
    }
  }

  /** The ready nodes are level k, and starting them makes it the running level. */
  lemma LevelIsStarted(g: G.GraphValue, levels: seq<set<Id>>, k: nat)
    requires IsLeveling(g.nodes.Keys, g.edges, levels) && Within(g.edges, g.nodes.Keys)
    requires SplitAt(g, levels, k) && k < |levels|
    ensures forall v :: v in g.nodes && IsReady(g, v) <==> v in levels[k]
    ensures AfterRounds(Started(g), levels, k + 1)
  {
    forall v ensures v in g.nodes && IsReady(g, v) <==> v in levels[k] {
      if v in g.nodes {
        var l := LevelFor(g.nodes.Keys, g.edges, levels, v);
        ReadyIsNextLevel(g, levels, k, l, v);
      }
      if v in levels[k] {
        ReadyIsNextLevel(g, levels, k, k, v);
      }
    }
    forall l: nat, v | l < |levels| && v in levels[l]
      ensures v in g.nodes && Started(g).nodes[v].status == StatusAfter(k + 1, l)
    {
      ReadyIsNextLevel(g, levels, k, l, v);
    }
  }

  lemma SplitAtTopIsDone(g: G.GraphValue, levels: seq<set<Id>>)
    requires IsLeveling(g.nodes.Keys, g.edges, levels) && SplitAt(g, levels, |levels|)
    ensures LeavesDone(g)
  {
    forall v | v in g.nodes ensures g.nodes[v].status == G.Completed {
      var l := LevelFor(g.nodes.Keys, g.edges, levels, v);
    }
  }

  lemma SplitTick(m: Mission, agents: L.Agents, launched: map<Id, L.AgentId>, levels: seq<set<Id>>, k: nat)
    requires m.plan.Some? && PlanShape(m.plan.value) && m.plan.value.graph.nodes != map[] && m.state == Running
    requires launched.Keys == ReadySet(m, agents)
    requires IsLeveling(m.plan.value.graph.nodes.Keys, m.plan.value.graph.edges, levels)
    requires SplitAt(Seen(m, agents), levels, k) && k <= |levels|
    ensures k < |levels| ==>
      var m' := Ticked(m, agents, launched);
      m'.state == Running && m'.plan.Some? && launched.Keys == levels[k] &&
      AfterRounds(m'.plan.value.graph, levels, k + 1)
    ensures k == |levels| ==> Ticked(m, agents, launched).state == Completed
  {
    var g := Seen(m, agents);
    assert g.nodes.Keys == m.plan.value.graph.nodes.Keys;
    assert g.nodes != map[] by { assert g.nodes.Keys != {}; }
    if k < |levels| {
      NotDoneYet(g, levels, k);
      LevelIsStarted(g, levels, k);
    } else {
      SplitAtTopIsDone(g, levels);
    }
  }

  /** One tick after k complete rounds starts level k while there is one, and otherwise completes the mission. */
  lemma RoundStep(mid: Id, m: Mission, agents: L.Agents, n: nat, launched: map<Id, L.AgentId>,
                  levels: seq<set<Id>>, k: nat)
    requires MissionInv(mid, m, agents, n) && m.state == Running
    requires m.plan.Some? && m.plan.value.tasks != [] && launched.Keys == ReadySet(m, agents)
    requires var g := m.plan.value.graph;
             "" !in g.nodes && IsLeveling(g.nodes.Keys, g.edges, levels) && AfterRounds(g, levels, k)
    requires forall a :: a in m.agents ==> a in agents && agents[a].state == L.Completed
    requires k <= |levels|
    ensures k < |levels| ==>
      var m' := Ticked(m, agents, launched);
      m'.state == Running && m'.plan.Some? && launched.Keys == levels[k] &&
      AfterRounds(m'.plan.value.graph, levels, k + 1)
    ensures k == |levels| ==> Ticked(m, agents, launched).state == Completed
  {
    SyncAdvances(mid, m.plan.value.graph, m.agents, agents, n, levels, k);
    assert m.plan.value.tasks[0].id in m.plan.value.graph.nodes.Keys;
    SplitTick(m, agents, launched, levels, k);
  }

  // ---- The schedule ----

  /** A tick of the mission in a reachable state. */
  ghost predicate TicksAt(s: System, tick: Action, s': System, mid: Id) {
    && tick.TickMission? && tick.id == mid && Reachable(s) && mid in s.missions && mid in s'.missions
    && exists now :: Next(s, tick, now, s')
  }

  /** From right after a tick to right before the next one: the mission record stays as the tick left it and every
      agent of the mission has completed. */
  ghost predicate Waits(s': System, next: System, mid: Id) {
    && mid in s'.missions && mid in next.missions
    && next.missions[mid] == s'.missions[mid] && AllReported(next, mid)
  }

  /** The states right before and right after tick 1, tick 2, ... of the punctual schedule. */
  ghost predicate IsPunctual(before: seq<System>, after: seq<System>, ticks: seq<Action>, mid: Id) {
    && |before| == |after| == |ticks|
    && (forall i {:trigger TicksAt(before[i], ticks[i], after[i], mid)} ::
          0 <= i < |ticks| ==> TicksAt(before[i], ticks[i], after[i], mid))
    && (forall i, j {:trigger Waits(after[i], before[j], mid)} ::
          0 <= i && j == i + 1 && j < |ticks| ==> Waits(after[i], before[j], mid))
  }

  lemma PunctualTick(before: seq<System>, after: seq<System>, ticks: seq<Action>, mid: Id, i: nat) returns (now: real)
    requires IsPunctual(before, after, ticks, mid) && i < |ticks|
    ensures ticks[i].TickMission? && ticks[i].id == mid
    ensures Inv(before[i])
    ensures mid in before[i].missions && mid in after[i].missions && Next(before[i], ticks[i], now, after[i])
    ensures i + 1 < |ticks| ==> Waits(after[i], before[i + 1], mid)
  {
    assert TicksAt(before[i], ticks[i], after[i], mid);
    ReachableInv(before[i]);
    now :| Next(before[i], ticks[i], now, after[i]);
    if i + 1 < |ticks| {
      assert Waits(after[i], before[i + 1], mid);
    }
  }

  /** A mission that has just been started: nothing dispatched yet. */
  ghost predicate JustStarted(m: Mission, levels: seq<set<Id>>) {
    && m.state == Running && m.agents == {} && m.plan.Some?
    && IsLeveling(m.plan.value.graph.nodes.Keys, m.plan.value.graph.edges, levels)
    && forall v :: v in m.plan.value.graph.nodes ==> m.plan.value.graph.nodes[v].status == G.Pending
  }

  lemma SameShape(mid: Id, s: System, tick: Action, now: real, s': System)
    requires tick.TickMission? && tick.id == mid && Next(s, tick, now, s') && s.missions[mid].plan.Some?
    ensures s'.missions[mid].plan.Some? && s'.missions[mid].plan.value.tasks == s.missions[mid].plan.value.tasks
    ensures s'.missions[mid].plan.value.graph.edges == s.missions[mid].plan.value.graph.edges
    ensures s'.missions[mid].plan.value.graph.nodes.Keys == s.missions[mid].plan.value.graph.nodes.Keys
  {
  }

  /** The mission of state s has gone through k complete rounds and all its agents have reported. */
  ghost predicate OnTrack(s: System, mid: Id, levels: seq<set<Id>>, k: nat) {
    && mid in s.missions && s.missions[mid].plan.Some? && s.missions[mid].plan.value.tasks != []
    && var g := s.missions[mid].plan.value.graph;
    && "" !in g.nodes && IsLeveling(g.nodes.Keys, g.edges, levels) && AfterRounds(g, levels, k)
    && AllReported(s, mid)
  }

  lemma StepAt(s: System, mid: Id, tick: Action, now: real, s': System, levels: seq<set<Id>>, k: nat)
    requires Inv(s) && tick.TickMission? && tick.id == mid && Next(s, tick, now, s')
    requires OnTrack(s, mid, levels, k) && k <= |levels|
    ensures k < |levels| ==>
      s'.missions[mid].state == Running && s'.missions[mid].plan.Some? && tick.launched.Keys == levels[k] &&
      AfterRounds(s'.missions[mid].plan.value.graph, levels, k + 1)
    ensures k == |levels| ==> s'.missions[mid].state == Completed
  {
    RoundStep(mid, s.missions[mid], s.agents, s.nextSerial, tick.launched, levels, k);
  }

  lemma TrackStep(s: System, mid: Id, tick: Action, now: real, s': System, next: System, levels: seq<set<Id>>, k: nat)
    requires Inv(s) && tick.TickMission? && tick.id == mid && Next(s, tick, now, s')
    requires OnTrack(s, mid, levels, k) && k < |levels|
    requires mid in next.missions && next.missions[mid] == s'.missions[mid] && AllReported(next, mid)
    ensures OnTrack(next, mid, levels, k + 1)
  {
    StepAt(s, mid, tick, now, s', levels, k);
    SameShape(mid, s, tick, now, s');
  }

  lemma TrackOnce(before: seq<System>, after: seq<System>, ticks: seq<Action>, mid: Id, levels: seq<set<Id>>, k: nat)
    requires IsPunctual(before, after, ticks, mid) && k + 1 < |ticks| && k < |levels|
    requires OnTrack(before[k], mid, levels, k)
    ensures OnTrack(before[k + 1], mid, levels, k + 1)
  {
    assert TicksAt(before[k], ticks[k], after[k], mid);
    assert Waits(after[k], before[k + 1], mid);
    ReachableInv(before[k]);
    var now :| Next(before[k], ticks[k], now, after[k]);
    TrackStep(before[k], mid, ticks[k], now, after[k], before[k + 1], levels, k);
  }

  lemma {:induction false} RoundInvariant(before: seq<System>, after: seq<System>, ticks: seq<Action>, mid: Id,
                                          levels: seq<set<Id>>, k: nat)
    requires IsPunctual(before, after, ticks, mid) && k < |ticks| && k <= |levels|
    requires mid in before[0].missions && JustStarted(before[0].missions[mid], levels)
    requires before[0].missions[mid].plan.value.tasks != []
    requires "" !in before[0].missions[mid].plan.value.graph.nodes
    ensures OnTrack(before[k], mid, levels, k)
  {
    if k > 0 {
      RoundInvariant(before, after, ticks, mid, levels, k - 1);
      TrackOnce(before, after, ticks, mid, levels, k - 1);
    }
  }

  /** Exact round bound: with L levels and no empty task id, tick number k+1 launches exactly level k for k < L and
      leaves the mission running; tick number L+1 completes it. */
  lemma RoundBound(before: seq<System>, after: seq<System>, ticks: seq<Action>, mid: Id,
                   levels: seq<set<Id>>, k: nat)
    requires IsPunctual(before, after, ticks, mid) && k < |ticks| && k <= |levels|
    requires mid in before[0].missions && JustStarted(before[0].missions[mid], levels)
    requires before[0].missions[mid].plan.value.tasks != []
    requires "" !in before[0].missions[mid].plan.value.graph.nodes
    ensures ticks[k].TickMission? && mid in after[k].missions
    ensures k < |levels| ==> ticks[k].launched.Keys == levels[k] && after[k].missions[mid].state == Running
    ensures k == |levels| ==> after[k].missions[mid].state == Completed
  {
    RoundInvariant(before, after, ticks, mid, levels, k);
    var now := PunctualTick(before, after, ticks, mid, k);
    StepAt(before[k], mid, ticks[k], now, after[k], levels, k);
  }

  /** The condition of the bound is exact: under the same schedule the mission completes at tick L+1
      if and only if it has a task and no task has the empty id. */
  lemma RoundBoundIff(before: seq<System>, after: seq<System>, ticks: seq<Action>, mid: Id, levels: seq<set<Id>>)
    requires IsPunctual(before, after, ticks, mid) && |ticks| == |levels| + 1
    requires mid in before[0].missions && JustStarted(before[0].missions[mid], levels)
    ensures mid in after[|levels|].missions
    ensures after[|levels|].missions[mid].state == Completed <==>
            && before[0].missions[mid].plan.value.tasks != []
            && "" !in before[0].missions[mid].plan.value.graph.nodes
  {
    var n := |levels|;
    var m := before[0].missions[mid];
    if m.plan.value.tasks != [] && "" !in m.plan.value.graph.nodes {
      RoundBound(before, after, ticks, mid, levels, n);
    } else {
      KeepsShape(before, after, ticks, mid, n);
      var now := PunctualTick(before, after, ticks, mid, n);
      SameShape(mid, before[n], ticks[n], now, after[n]);
      assert TicksAt(before[n], ticks[n], after[n], mid);
      NextIsReachable(before[n], ticks[n], now, after[n]);
      if m.plan.value.tasks == [] {
        NoTasksNeverCompletes(after[n], mid);
      } else {
        EmptyTaskIdNeverCompletes(after[n], mid);
      }
    }
  }

  /** The schedule never changes what the plan consists of. */
  lemma {:induction false} KeepsShape(before: seq<System>, after: seq<System>, ticks: seq<Action>, mid: Id, k: nat)
    requires IsPunctual(before, after, ticks, mid) && k < |ticks|
    requires mid in before[0].missions && before[0].missions[mid].plan.Some?
    ensures mid in before[k].missions && before[k].missions[mid].plan.Some?
    ensures before[k].missions[mid].plan.value.tasks == before[0].missions[mid].plan.value.tasks
    ensures before[k].missions[mid].plan.value.graph.nodes.Keys ==
            before[0].missions[mid].plan.value.graph.nodes.Keys
  {
    if k > 0 {
      KeepsShape(before, after, ticks, mid, k - 1);
      var now := PunctualTick(before, after, ticks, mid, k - 1);
      SameShape(mid, before[k - 1], ticks[k - 1], now, after[k - 1]);
    }
  }
}
