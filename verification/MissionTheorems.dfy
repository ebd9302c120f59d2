/** The promises of the supervisor, over every run: dispatch safety, the leaf check, failure containment,
    progress, and the exact number of rounds. */
module MissionTheorems {
  import opened Results
  import opened Dag
  import opened TaskLists
  import opened Levels
  import opened Missions
  import opened MissionRuns
  import G = ExecutionGraphs
  import L = Lifecycle
  import P = Planner

  // ---- Single states ----

  /** A mission that counts as completed has every node completed, although only leaves are ever inspected. */
  lemma CompletedMeansAllDone(s: System, mid: Id)
    requires Reachable(s) && mid in s.missions && s.missions[mid].state == Completed
    ensures s.missions[mid].plan.Some? && AllDone(s.missions[mid].plan.value.graph)
  {
    ReachableInv(s);
    assert MissionInv(mid, s.missions[mid], s.agents, s.nextSerial);
  }

  predicate IsFor(a: L.AgentId, v: Id) {
    a.Supervised? && a.task == v
  }

  /** Whatever has left PENDING has all its ancestors completed, and exactly one agent was created for it. */
  lemma DispatchIsSafe(s: System, mid: Id, v: Id)
    requires Reachable(s) && mid in s.missions && s.missions[mid].plan.Some?
    requires v in s.missions[mid].plan.value.graph.nodes
    requires s.missions[mid].plan.value.graph.nodes[v].status != G.Pending
    ensures var g := s.missions[mid].plan.value.graph;
            forall u :: u != v && Reaches(g.edges, u, v) ==> u in g.nodes && g.nodes[u].status == G.Completed
    ensures exists a :: a in s.missions[mid].agents && IsFor(a, v)
    ensures var mine := s.missions[mid].agents;
            forall a, b :: a in mine && b in mine && IsFor(a, v) && IsFor(b, v) ==> a == b
  {
    ReachableInv(s);
    assert MissionInv(mid, s.missions[mid], s.agents, s.nextSerial);
    var g := s.missions[mid].plan.value.graph;
    forall u | u != v && Reaches(g.edges, u, v) ensures u in g.nodes && g.nodes[u].status == G.Completed {
      AncestorsDone(g, u, v);
    }
    assert HasAgent(s.missions[mid].agents, v);
  }

  /** A pending node has never had an agent. */
  lemma PendingHasNoAgent(s: System, mid: Id, v: Id)
    requires Reachable(s) && mid in s.missions && s.missions[mid].plan.Some?
    requires v in s.missions[mid].plan.value.graph.nodes
    requires s.missions[mid].plan.value.graph.nodes[v].status == G.Pending
    ensures !HasAgent(s.missions[mid].agents, v)
  {
    ReachableInv(s);
    assert MissionInv(mid, s.missions[mid], s.agents, s.nextSerial);
  }

  /** A task whose id is the empty string is started but its agent's verdict is never taken over,
      so a plan that contains one never completes, whatever the agents do. */
  lemma EmptyTaskIdNeverCompletes(s: System, mid: Id)
    requires Reachable(s) && mid in s.missions && s.missions[mid].plan.Some?
    requires "" in s.missions[mid].plan.value.graph.nodes
    ensures s.missions[mid].state != Completed
  {
    ReachableInv(s);
    assert MissionInv(mid, s.missions[mid], s.agents, s.nextSerial);
  }

  /** Every strategy accepts the list of one task with the empty id, and the list without tasks. */
  lemma DoomedListsAreAccepted(strategy: Strategy)
    ensures P.Plannable(strategy, [PlannedTask("", "", 0.5, "", {}, false)], None)
    ensures P.Plannable(strategy, [], None)
  {
    var tasks := [PlannedTask("", "", 0.5, "", {}, false)];
    assert forall t :: t in tasks ==> t == tasks[0];
  }

  lemma EmptyGraphIsNotCompleted(m: Mission, agents: L.Agents, launched: map<Id, L.AgentId>)
    requires m.state == Running && m.plan.Some? && m.plan.value.graph.nodes == map[]
    ensures Ticked(m, agents, launched).state == Running
  {
    assert Synced(m.agents, agents, m.plan.value.graph).nodes == map[];
  }

  /** The step of a mission without tasks. */
  lemma NoTasksStep(s: System, action: Action, now: real, s': System, mid: Id)
    requires Inv(s) && Next(s, action, now, s') && mid in s'.missions
    requires s'.missions[mid].plan.Some? && s'.missions[mid].plan.value.tasks == []
    ensures mid in s.missions ==> s.missions[mid].plan.Some? && s.missions[mid].plan.value.tasks == []
    ensures (mid in s.missions ==> s.missions[mid].state != Completed) ==> s'.missions[mid].state != Completed
  {
    if mid in s.missions {
      assert MissionInv(mid, s.missions[mid], s.agents, s.nextSerial);
      if action.TickMission? && action.id == mid {
        assert s.missions[mid].plan.value.graph.nodes.Keys == {};
        EmptyGraphIsNotCompleted(s.missions[mid], s.agents, action.launched);
      }
    }
  }

  lemma {:induction false} NoTasksInRun(states: seq<System>, what: seq<Occurrence>, j: nat, mid: Id)
    requires IsRun(states, what) && states[0] == Start && j < |states|
    requires mid in states[j].missions && states[j].missions[mid].plan.Some?
    requires states[j].missions[mid].plan.value.tasks == []
    ensures states[j].missions[mid].state != Completed
  {
    if j > 0 {
      RunKeepsInv(states, what);
      assert Next(states[j - 1], what[j - 1].action, what[j - 1].now, states[j]);
      NoTasksStep(states[j - 1], what[j - 1].action, what[j - 1].now, states[j], mid);
      if mid in states[j - 1].missions {
        NoTasksInRun(states, what, j - 1, mid);
      }
    }
  }

  /** A mission without tasks is started like any other, and never completes. */
  lemma NoTasksNeverCompletes(s: System, mid: Id)
    requires Reachable(s) && mid in s.missions && s.missions[mid].plan.Some? && s.missions[mid].plan.value.tasks == []
    ensures s.missions[mid].state != Completed
  {
    var states, what :| IsRun(states, what) && states[0] == Start && states[|states| - 1] == s;
    NoTasksInRun(states, what, |states| - 1, mid);
  }

  // ---- Between two states of a run ----

  predicate Final(m: MissionState) {
    m in {Completed, Failed, Cancelled}
  }

  /** How a mission may change: the plan's shape is fixed, statuses only move forward, agents are only added. */
  ghost predicate Advances(m: Mission, m': Mission) {
    && (Final(m.state) ==> m'.state == m.state)
    && m.agents <= m'.agents
    && (m.plan.None? ==> m'.plan.None?)
    && (m.plan.Some? ==>
          && m'.plan.Some? && m'.plan.value.tasks == m.plan.value.tasks
          && m'.plan.value.graph.edges == m.plan.value.graph.edges
          && m'.plan.value.graph.nodes.Keys == m.plan.value.graph.nodes.Keys
          && forall v :: v in m.plan.value.graph.nodes ==>
               Moves(m.plan.value.graph.nodes[v].status, m'.plan.value.graph.nodes[v].status, {G.Completed, G.Failed}))
  }

  lemma SyncAdvancesStatus(mine: set<L.AgentId>, agents: L.Agents, g: G.GraphValue, v: Id)
    requires Agrees(g, mine, agents) && v in g.nodes
    requires forall a :: a in mine ==> a.Supervised? && a.task in g.nodes && g.nodes[a.task].status != G.Pending
    ensures g.nodes[v].status == G.Pending ==> SyncedStatus(mine, agents, v, g.nodes[v].status) == G.Pending
    ensures g.nodes[v].status in {G.Completed, G.Failed} ==>
      SyncedStatus(mine, agents, v, g.nodes[v].status) == g.nodes[v].status
  {
  }

  lemma TickAdvances(mid: Id, m: Mission, agents: L.Agents, n: nat, launched: map<Id, L.AgentId>)
    requires m.state == Running
    requires m.plan.Some? ==>
      var g := m.plan.value.graph; Causal(g) && Owned(mid, g, m.agents, n) && Agrees(g, m.agents, agents)
    ensures Advances(m, Ticked(m, agents, launched))
  {
    if m.plan.Some? {
      var g0 := m.plan.value.graph;
      var g := Synced(m.agents, agents, g0);
      forall v | v in g0.nodes ensures Moves(g0.nodes[v].status, g.nodes[v].status, {G.Completed, G.Failed}) {
        SyncAdvancesStatus(m.agents, agents, g0, v);
      }
      forall v | v in g0.nodes && IsReady(g, v) ensures g0.nodes[v].status == G.Pending {
        SyncAdvancesStatus(m.agents, agents, g0, v);
      }
    }
  }

  lemma NextAdvances(s: System, action: Action, now: real, s': System, mid: Id)
    requires Inv(s) && Next(s, action, now, s') && mid in s.missions
    ensures mid in s'.missions && Advances(s.missions[mid], s'.missions[mid])
  {
    assert MissionInv(mid, s.missions[mid], s.agents, s.nextSerial);
    if action.TickMission? && action.id == mid {
      TickAdvances(mid, s.missions[mid], s.agents, s.nextSerial, action.launched);
    }
  }

  /** Between any two moments of a run: COMPLETED and FAILED nodes stay as they are, a node leaves PENDING at most
      once, no agent is dropped and a finished mission stays finished. */
  lemma {:induction false} RunAdvances(states: seq<System>, what: seq<Occurrence>, i: nat, j: nat, mid: Id)
    requires IsRun(states, what) && states[0] == Start
    requires i <= j < |states| && mid in states[i].missions
    ensures mid in states[j].missions && Advances(states[i].missions[mid], states[j].missions[mid])
    decreases j
  {
    if i < j {
      RunAdvances(states, what, i, j - 1, mid);
      RunKeepsInv(states, what);
      assert Next(states[j - 1], what[j - 1].action, what[j - 1].now, states[j]);
      NextAdvances(states[j - 1], what[j - 1].action, what[j - 1].now, states[j], mid);
    }
  }

  lemma PrefixIsReachable(states: seq<System>, what: seq<Occurrence>, i: nat)
    requires IsRun(states, what) && states[0] == Start && i < |states|
    ensures Reachable(states[i])
  {
    assert IsRun(states[..i + 1], what[..i]) && states[..i + 1][0] == Start && states[..i + 1][i] == states[i];
  }

  /** Once a node has failed, nothing that depends on it is ever started, and its mission never completes. */
  lemma FailureIsContained(states: seq<System>, what: seq<Occurrence>, i: nat, j: nat, mid: Id, v: Id, w: Id)
    requires IsRun(states, what) && states[0] == Start && i <= j < |states|
    requires mid in states[i].missions && states[i].missions[mid].plan.Some?
    requires v in states[i].missions[mid].plan.value.graph.nodes
    requires states[i].missions[mid].plan.value.graph.nodes[v].status == G.Failed
    requires w != v && Reaches(states[i].missions[mid].plan.value.graph.edges, v, w)
    ensures mid in states[j].missions && states[j].missions[mid].plan.Some?
    ensures states[j].missions[mid].state != Completed
    ensures var g := states[j].missions[mid].plan.value.graph;
            w in g.nodes && g.nodes[w].status == G.Pending && !HasAgent(states[j].missions[mid].agents, w)
  {
    RunAdvances(states, what, i, j, mid);
    PrefixIsReachable(states, what, j);
    ReachableInv(states[j]);
    var m := states[j].missions[mid];
    assert MissionInv(mid, m, states[j].agents, states[j].nextSerial);
    var g := m.plan.value.graph;
    assert g.nodes[v].status == G.Failed;
    EndIsInside(g.edges, g.nodes.Keys, v, w);
    if g.nodes[w].status != G.Pending {
      AncestorsDone(g, v, w);
    }
    PendingHasNoAgent(states[j], mid, w);
  }

  /** A failed node, leaf or not, keeps its mission from completing for ever. */
  lemma FailureNeverCompletes(states: seq<System>, what: seq<Occurrence>, i: nat, j: nat, mid: Id, v: Id)
    requires IsRun(states, what) && states[0] == Start && i <= j < |states|
    requires mid in states[i].missions && states[i].missions[mid].plan.Some?
    requires v in states[i].missions[mid].plan.value.graph.nodes
    requires states[i].missions[mid].plan.value.graph.nodes[v].status == G.Failed
    ensures mid in states[j].missions && states[j].missions[mid].state != Completed
  {
    RunAdvances(states, what, i, j, mid);
    PrefixIsReachable(states, what, j);
    if states[j].missions[mid].state == Completed {
      CompletedMeansAllDone(states[j], mid);
    }
  }

  lemma EndIsInside(es: seq<Edge>, nodes: set<Id>, v: Id, w: Id)
    requires Within(es, nodes) && v in nodes && Reaches(es, v, w)
    ensures w in nodes
  {
    var p :| IsPathFromTo(es, p, v, w);
    if |p| > 1 {
      assert Linked(es, p[|p| - 2], p[|p| - 1]);
    }
  }

  // ---- Progress ----

  ghost predicate SomeIn(g: G.GraphValue, states: set<G.NodeStatus>) {
    exists v :: v in g.nodes && g.nodes[v].status in states
  }

  ghost function PendingIn(g: G.GraphValue): (r: set<Id>) {
    set v | v in g.nodes && g.nodes[v].status == G.Pending
  }

  /** A pending node that is not ready waits for another pending node. */
  lemma WaitsForPending(g: G.GraphValue, v: Id)
    requires Within(g.edges, g.nodes.Keys) && v in g.nodes && g.nodes[v].status == G.Pending && !IsReady(g, v)
    requires forall u :: u in g.nodes ==> g.nodes[u].status in {G.Pending, G.Completed}
    ensures HasPredIn(g.edges, PendingIn(g), v)
  {
    var e :| e in g.edges && e.target == v && !(e.source in g.nodes && g.nodes[e.source].status == G.Completed);
    assert e.source in PendingIn(g) && Linked(g.edges, e.source, v);
  }

  /** If nothing is running or failed and not all is done, some pending node has all its dependencies completed. */
  lemma SomethingIsReady(g: G.GraphValue)
    requires Causal(g) && Within(g.edges, g.nodes.Keys) && Acyclic(g.edges)
    requires !SomeIn(g, {G.Running, G.Failed}) && !AllDone(g)
    ensures exists v :: v in g.nodes && IsReady(g, v)
  {
    if forall v :: v in g.nodes ==> !IsReady(g, v) {
      forall v | v in PendingIn(g) ensures HasPredIn(g.edges, PendingIn(g), v) {
        WaitsForPending(g, v);
      }
      var v :| v in g.nodes && g.nodes[v].status != G.Completed;
      StuckIsAfterCycle(g.edges, PendingIn(g), v);
      assert false;
    }
  }

  /** After any tick of a running, non-empty mission: it is completed, or some node is running or has failed. */
  lemma TickMakesProgress(s: System, mid: Id, launched: map<Id, L.AgentId>,
                          selector: string -> Option<string>, now: real, s': System)
    requires Reachable(s) && Next(s, TickMission(mid, launched, selector), now, s')
    requires s.missions[mid].plan.Some? && s.missions[mid].plan.value.tasks != []
    ensures var m' := s'.missions[mid];
            m'.state == Completed || (m'.plan.Some? && SomeIn(m'.plan.value.graph, {G.Running, G.Failed}))
  {
    ReachableInv(s);
    var m := s.missions[mid];
    assert MissionInv(mid, m, s.agents, s.nextSerial);
    var g0 := m.plan.value.graph;
    assert m.plan.value.tasks[0].id in Ids(m.plan.value.tasks);
    SyncedIsCausal(m.agents, s.agents, g0);
    TickOfCausal(m, s.agents, launched);
  }

  lemma StartedKeepsBusy(g: G.GraphValue)
    requires Causal(g) && Within(g.edges, g.nodes.Keys) && Acyclic(g.edges) && !LeavesDone(g)
    ensures SomeIn(Started(g), {G.Running, G.Failed})
  {
    var g' := Started(g);
    if SomeIn(g, {G.Running, G.Failed}) {
      var v :| v in g.nodes && g.nodes[v].status in {G.Running, G.Failed};
      assert g'.nodes[v].status in {G.Running, G.Failed};
    } else {
      SomethingIsReady(g);
      var v :| v in g.nodes && IsReady(g, v);
      assert g'.nodes[v].status == G.Running;
    }
  }

  lemma TickOfCausal(m: Mission, agents: L.Agents, launched: map<Id, L.AgentId>)
    requires m.plan.Some? && PlanShape(m.plan.value) && m.plan.value.graph.nodes != map[]
    requires Causal(Synced(m.agents, agents, m.plan.value.graph))
    ensures var m' := Ticked(m, agents, launched);
            m'.state == Completed || (m'.plan.Some? && SomeIn(m'.plan.value.graph, {G.Running, G.Failed}))
  {
    var g := Synced(m.agents, agents, m.plan.value.graph);
    assert g.nodes.Keys == m.plan.value.graph.nodes.Keys;
    assert g.nodes != map[] by { assert g.nodes.Keys != {}; }
    if !LeavesDone(g) {
      StartedKeepsBusy(g);
    }
  }
}
