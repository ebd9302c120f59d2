/** What every run of the supervisor keeps. */
module MissionRuns {
  import opened Results
  import opened Dag
  import opened TaskLists
  import opened Levels
  import opened Missions
  import G = ExecutionGraphs
  import L = Lifecycle
  import P = Planner

  // ---- The invariant is kept ----

  /** How an agent may change between two moments: same context, terminal states final, no way back before RUNNING. */
  ghost predicate Evolves(a: L.AgentInstance, a': L.AgentInstance) {
    && a'.context == a.context
    && (L.Terminal(a.state) ==> a'.state == a.state)
    && (a.state !in {L.Created, L.Ready, L.Scheduled, L.Waiting} ==>
          a'.state !in {L.Created, L.Ready, L.Scheduled, L.Waiting})
  }

  /** No agent of the mission appears out of nothing, and those that stay evolve. */
  ghost predicate MineEvolve(mine: set<L.AgentId>, agents: L.Agents, agents': L.Agents) {
    forall a :: a in mine && a in agents' ==> a in agents && Evolves(agents[a], agents'[a])
  }

  lemma MissionInvCarries(mid: Id, m: Mission, agents: L.Agents, n: nat, agents': L.Agents, n': nat)
    requires MissionInv(mid, m, agents, n) && n <= n' && MineEvolve(m.agents, agents, agents')
    ensures MissionInv(mid, m, agents', n')
  {
  }

  lemma RequestEvolves(agents: L.Agents, op: L.Op, timeout: real, now: real, mine: set<L.AgentId>)
    requires L.Offered(op) && (op.Create? ==> !op.ctx.id.Supervised?)
    requires forall a :: a in mine ==> a.Supervised?
    ensures MineEvolve(mine, agents, L.Step(agents, op, timeout, now))
  {
  }

  lemma InitialNodesArePending(tasks: seq<PlannedTask>, g: G.GraphValue)
    requires P.NodesOf(tasks, g.nodes)
    ensures forall v :: v in g.nodes ==> g.nodes[v].status == G.Pending && g.nodes[v].id == v
  {
    forall v | v in g.nodes ensures g.nodes[v].status == G.Pending && g.nodes[v].id == v {
      var t :| t in tasks && t.id == v;
      assert g.nodes[t.id] == P.NodeOf(t);
    }
  }

  lemma NewMissionInv(strategy: Strategy, tasks: seq<PlannedTask>, available: Option<set<string>>,
                      mid: Id, m: Mission, agents: L.Agents, n: nat)
    requires NewMission(strategy, tasks, available, m)
    ensures MissionInv(mid, m, agents, n)
  {
    if P.Plannable(strategy, tasks, available) {
      var p := m.plan.value;
      RewrittenIsClean(strategy, tasks, available);
      P.PlannableIffSchedulable(strategy, tasks, p.graph.edges);
      InitialNodesArePending(p.tasks, p.graph);
    }
  }

  lemma CreateKeepsInv(s: System, id: Id, tasks: seq<PlannedTask>, strategy: Strategy,
                       available: Option<set<string>>, now: real, s': System)
    requires Inv(s) && Next(s, CreateMission(id, tasks, strategy, available), now, s')
    ensures Inv(s')
  {
    NewMissionInv(strategy, tasks, available, id, s'.missions[id], s'.agents, s'.nextSerial);
    forall mid | mid in s.missions ensures MissionInv(mid, s'.missions[mid], s'.agents, s'.nextSerial) {
      assert MissionInv(mid, s.missions[mid], s.agents, s.nextSerial);
    }
  }

  /** The record of one mission changes state, and its agents evolve; no plan changes. */
  lemma ControlKeepsInv(s: System, id: Id, target: MissionState, agents': L.Agents)
    requires Inv(s) && id in s.missions && CanMove(s.missions[id].state, target)
    requires target in {Running, Paused, Cancelled}
    requires agents'.Keys == s.agents.Keys
    requires forall a :: a in s.agents ==> Evolves(s.agents[a], agents'[a])
    ensures Inv(MoveMission(s, id, target).(agents := agents'))
  {
    forall mid | mid in s.missions
      ensures MissionInv(mid, s.missions[mid], agents', s.nextSerial)
    {
      MissionInvCarries(mid, s.missions[mid], s.agents, s.nextSerial, agents', s.nextSerial);
    }
  }

  /** The mission's graph as a tick sees it after phase 1. */
  ghost function Seen(m: Mission, agents: L.Agents): (r: G.GraphValue)
    requires m.plan.Some?
  {
    Synced(m.agents, agents, m.plan.value.graph)
  }

  lemma SyncedKeepsOwned(mid: Id, g0: G.GraphValue, mine: set<L.AgentId>, agents: L.Agents, n: nat)
    requires Causal(g0) && Owned(mid, g0, mine, n) && Agrees(g0, mine, agents)
    ensures Owned(mid, Synced(mine, agents, g0), mine, n)
  {
    SyncedIsCausal(mine, agents, g0);
    var g := Synced(mine, agents, g0);
    forall v | v in g.nodes && g.nodes[v].status != G.Pending ensures HasAgent(mine, v) {
      assert g0.nodes[v].status != G.Pending;
      assert HasAgent(mine, v);
    }
  }

  /** No agent known so far carries a serial that is still to come. */
  ghost predicate SerialsBelow(mine: set<L.AgentId>, agents: L.Agents, n: nat) {
    && (forall a :: a in agents && a.Supervised? ==> a.serial < n)
    && (forall a :: a in mine ==> a.Supervised? && a.serial < n)
  }

  /** What a tick's new agents look like: one per ready node, named after it, fresh, running. */
  lemma LaunchedForFacts(a: L.AgentInstance, id: L.AgentId, mid: Id, tasks: seq<PlannedTask>, v: Id,
                         selector: string -> Option<string>, now: real)
    requires LaunchedFor(a, id, mid, tasks, v, selector, now)
    ensures a.context.taskId == v && a.state == L.Running
  {
  }

  lemma LaunchedFacts(s: System, mid: Id, launched: map<Id, L.AgentId>,
                      selector: string -> Option<string>, now: real, s': System)
    requires mid in s.missions && Launches(s, mid, launched, selector, now, s')
    requires SerialsBelow(s.missions[mid].agents, s.agents, s.nextSerial)
    ensures forall a :: a in launched.Values ==>
      && a.Supervised? && a.mission == mid && s.nextSerial <= a.serial < s'.nextSerial
      && a !in s.missions[mid].agents && a !in s.agents && a in s'.agents
      && a.task in launched && launched[a.task] == a
      && s'.agents[a].context.taskId == a.task && s'.agents[a].state == L.Running
  {
    forall a | a in launched.Values
      ensures a.Supervised? && a.mission == mid && s.nextSerial <= a.serial < s'.nextSerial
      ensures a !in s.missions[mid].agents && a !in s.agents && a in s'.agents
      ensures a.task in launched && launched[a.task] == a
      ensures s'.agents[a].context.taskId == a.task && s'.agents[a].state == L.Running
    {
      var v :| v in launched && launched[v] == a;
      LaunchedForFacts(s'.agents[a], a, mid, s.missions[mid].plan.value.tasks, v, selector, now);
    }
  }

  lemma LaunchKeepsOwned(mid: Id, g: G.GraphValue, mine: set<L.AgentId>, n: nat, launched: map<Id, L.AgentId>, n': nat)
    requires Owned(mid, g, mine, n) && n <= n'
    requires forall v :: v in launched <==> v in g.nodes && IsReady(g, v)
    requires forall v :: v in launched ==>
      launched[v].Supervised? && launched[v].mission == mid && launched[v].task == v && n <= launched[v].serial < n'
    ensures Owned(mid, Started(g), mine + launched.Values, n')
  {
    var g', mine' := Started(g), mine + launched.Values;
    forall v | v in g'.nodes && g'.nodes[v].status != G.Pending ensures HasAgent(mine', v) {
      if IsReady(g, v) {
        assert launched[v] in mine';
      } else {
        assert HasAgent(mine, v);
        var a :| a in mine && a.Supervised? && a.task == v;
        assert a in mine';
      }
    }
  }

  lemma LaunchKeepsAgrees(g: G.GraphValue, mine: set<L.AgentId>, agents: L.Agents,
                          launched: map<Id, L.AgentId>, agents': L.Agents)
    requires Agrees(g, mine, agents)
    requires forall a :: a in mine && a in agents ==> g.nodes[a.task].status != G.Pending
    requires forall a :: a in mine && a in agents' && a !in launched.Values ==> a in agents && agents'[a] == agents[a]
    requires forall a :: a in launched.Values ==>
      a.Supervised? && a in agents' && agents'[a].context.taskId == a.task && agents'[a].state == L.Running &&
      IsReady(g, a.task)
    ensures Agrees(Started(g), mine + launched.Values, agents')
  {
  }

  lemma SyncedKeepsShape(p: PlanValue, mine: set<L.AgentId>, agents: L.Agents)
    requires PlanShape(p)
    ensures PlanShape(p.(graph := Synced(mine, agents, p.graph)))
  {
    var g := Synced(mine, agents, p.graph);
    assert g.nodes.Keys == p.graph.nodes.Keys && g.edges == p.graph.edges;
  }

  lemma StartedKeepsShape(p: PlanValue)
    requires PlanShape(p)
    ensures PlanShape(p.(graph := Started(p.graph)))
  {
    var g := Started(p.graph);
    assert g.nodes.Keys == p.graph.nodes.Keys && g.edges == p.graph.edges;
  }

  /** A tick that reaches phase 3. */
  lemma DispatchKeepsMission(s: System, mid: Id, launched: map<Id, L.AgentId>,
                             selector: string -> Option<string>, now: real, s': System)
    requires mid in s.missions && Launches(s, mid, launched, selector, now, s')
    requires SerialsBelow(s.missions[mid].agents, s.agents, s.nextSerial)
    requires MissionInv(mid, s.missions[mid], s.agents, s.nextSerial) && s.missions[mid].state == Running
    requires s.missions[mid].plan.Some? && Dispatches(Seen(s.missions[mid], s.agents))
    ensures MissionInv(mid, Ticked(s.missions[mid], s.agents, launched), s'.agents, s'.nextSerial)
  {
    var m := s.missions[mid];
    var p := m.plan.value;
    var seen := p.(graph := Synced(m.agents, s.agents, p.graph));
    SyncedKeepsShape(p, m.agents, s.agents);
    SyncedIsCausal(m.agents, s.agents, p.graph);
    SyncedKeepsOwned(mid, p.graph, m.agents, s.agents, s.nextSerial);
    LaunchedFacts(s, mid, launched, selector, now, s');
    assert launched.Keys == ReadySet(m, s.agents);
    StartKeepsMission(mid, seen, m.agents, s.agents, s.nextSerial, launched, s'.agents, s'.nextSerial);
  }

  /** Starting the ready nodes of a plan whose graph has been synchronised. */
  lemma StartKeepsMission(mid: Id, p: PlanValue, mine: set<L.AgentId>, agents: L.Agents, n: nat,
                          launched: map<Id, L.AgentId>, agents': L.Agents, n': nat)
    requires PlanShape(p) && Causal(p.graph) && Owned(mid, p.graph, mine, n) && Agrees(p.graph, mine, agents) && n <= n'
    requires launched.Keys == set v | v in p.graph.nodes && IsReady(p.graph, v) && v in Ids(p.tasks)
    requires forall v :: v in launched ==>
      launched[v].Supervised? && launched[v].mission == mid && launched[v].task == v && n <= launched[v].serial < n'
    requires forall a :: a in mine && a in agents' && a !in launched.Values ==> a in agents && agents'[a] == agents[a]
    requires forall a :: a in launched.Values ==>
      a.Supervised? && a in agents' && agents'[a].context.taskId == a.task && agents'[a].state == L.Running &&
      a.task in launched
    ensures MissionInv(mid, Mission(Running, Some(p.(graph := Started(p.graph))), mine + launched.Values), agents', n')
  {
    StartedKeepsShape(p);
    StartedIsCausal(p.graph);
    LaunchKeepsOwned(mid, p.graph, mine, n, launched, n');
    LaunchKeepsAgrees(p.graph, mine, agents, launched, agents');
  }

  /** A tick that stops after phase 2. */
  lemma SettleKeepsMission(mid: Id, m: Mission, agents: L.Agents, n: nat)
    requires MissionInv(mid, m, agents, n) && m.state == Running
    requires m.plan.Some? && !Dispatches(Seen(m, agents))
    ensures MissionInv(mid, Ticked(m, agents, map[]), agents, n)
  {
    var g0 := m.plan.value.graph;
    var g := Synced(m.agents, agents, g0);
    SyncedIsCausal(m.agents, agents, g0);
    SyncedKeepsOwned(mid, g0, m.agents, agents, n);
    if G.Schedulable(g.nodes.Keys, g.edges) && g.nodes != map[] {
      LeavesDoneMeansAllDone(g);
    }
  }

  lemma NoLaunchNoChange(s: System, mid: Id, launched: map<Id, L.AgentId>,
                         selector: string -> Option<string>, now: real, s': System)
    requires mid in s.missions && Launches(s, mid, launched, selector, now, s')
    requires ReadySet(s.missions[mid], s.agents) == {}
    ensures launched == map[] && s'.agents == s.agents
  {
    assert launched == map[];
    assert launched.Values == {};
  }

  lemma TickKeepsMission(s: System, mid: Id, launched: map<Id, L.AgentId>,
                         selector: string -> Option<string>, now: real, s': System)
    requires mid in s.missions && Launches(s, mid, launched, selector, now, s')
    requires SerialsBelow(s.missions[mid].agents, s.agents, s.nextSerial)
    requires MissionInv(mid, s.missions[mid], s.agents, s.nextSerial) && s.missions[mid].state == Running
    ensures MissionInv(mid, Ticked(s.missions[mid], s.agents, launched), s'.agents, s'.nextSerial)
  {
    var m := s.missions[mid];
    if m.plan.Some? {
      if Dispatches(Seen(m, s.agents)) {
        DispatchKeepsMission(s, mid, launched, selector, now, s');
      } else {
        NoLaunchNoChange(s, mid, launched, selector, now, s');
        SettleKeepsMission(mid, m, s.agents, s.nextSerial);
        MissionInvCarries(mid, Ticked(m, s.agents, map[]), s.agents, s.nextSerial, s.agents, s'.nextSerial);
      }
    }
  }

  lemma InvSerials(s: System, mid: Id)
    requires Inv(s) && mid in s.missions
    ensures SerialsBelow(s.missions[mid].agents, s.agents, s.nextSerial)
  {
    assert MissionInv(mid, s.missions[mid], s.agents, s.nextSerial);
  }

  lemma TickKeepsInv(s: System, mid: Id, launched: map<Id, L.AgentId>,
                     selector: string -> Option<string>, now: real, s': System)
    requires Inv(s) && Next(s, TickMission(mid, launched, selector), now, s')
    ensures Inv(s')
  {
    InvSerials(s, mid);
    LaunchedFacts(s, mid, launched, selector, now, s');
    forall other | other in s.missions && other != mid
      ensures MissionInv(other, s'.missions[other], s'.agents, s'.nextSerial)
    {
      InvSerials(s, other);
      MissionInvCarries(other, s.missions[other], s.agents, s.nextSerial, s'.agents, s'.nextSerial);
    }
    TickKeepsMission(s, mid, launched, selector, now, s');
  }

  lemma NextKeepsInv(s: System, action: Action, now: real, s': System)
    requires Inv(s) && Next(s, action, now, s')
    ensures Inv(s')
  {
    match action
    case CreateMission(id, tasks, strategy, available) =>
      CreateKeepsInv(s, id, tasks, strategy, available, now, s');
    case StartMission(id) =>
      ControlKeepsInv(s, id, Running, s.agents);
    case PauseMission(id) =>
      ControlKeepsInv(s, id, Paused, OnAgents(Pause, s.agents, s.missions[id].agents, now));
    case ResumeMission(id) =>
      ControlKeepsInv(s, id, Running, OnAgents(Resume, s.agents, s.missions[id].agents, now));
    case CancelMission(id) =>
      ControlKeepsInv(s, id, Cancelled, OnAgents(Cancel, s.agents, s.missions[id].agents, now));
    case TickMission(id, launched, selector) =>
      TickKeepsInv(s, id, launched, selector, now, s');
    case AgentRequest(op, timeout) =>
      forall mid | mid in s.missions
        ensures MissionInv(mid, s.missions[mid], s'.agents, s'.nextSerial)
      {
        RequestKeepsMission(s, op, timeout, now, mid);
      }
  }

  lemma RequestKeepsMission(s: System, op: L.Op, timeout: real, now: real, mid: Id)
    requires Inv(s) && mid in s.missions && L.Offered(op) && (op.Create? ==> !op.ctx.id.Supervised?)
    ensures MissionInv(mid, s.missions[mid], L.Step(s.agents, op, timeout, now), s.nextSerial)
  {
    var m := s.missions[mid];
    assert MissionInv(mid, m, s.agents, s.nextSerial);
    RequestEvolves(s.agents, op, timeout, now, m.agents);
    MissionInvCarries(mid, m, s.agents, s.nextSerial, L.Step(s.agents, op, timeout, now), s.nextSerial);
  }

  /** Between two states the agents of a mission evolve or go, whatever is done. */
  lemma NextEvolves(s: System, action: Action, now: real, s': System, mid: Id)
    requires Inv(s) && Next(s, action, now, s') && mid in s.missions
    ensures MineEvolve(s.missions[mid].agents, s.agents, s'.agents)
  {
    InvSerials(s, mid);
    if action.TickMission? {
      InvSerials(s, action.id);
      LaunchedFacts(s, action.id, action.launched, action.selector, now, s');
    } else if action.AgentRequest? {
      RequestEvolves(s.agents, action.op, action.timeout, now, s.missions[mid].agents);
    }
  }

  lemma {:induction false} RunKeepsInv(states: seq<System>, what: seq<Occurrence>)
    requires IsRun(states, what) && Inv(states[0])
    ensures forall i :: 0 <= i < |states| ==> Inv(states[i])
  {
    if what != [] {
      var n := |what| - 1;
      RunKeepsInv(states[..n + 1], what[..n]);
      assert states[..n + 1][n] == states[n];
      assert Next(states[n], what[n].action, what[n].now, states[n + 1]);
      NextKeepsInv(states[n], what[n].action, what[n].now, states[n + 1]);
      forall i | 0 <= i < |states| ensures Inv(states[i]) {
        if i <= n {
          assert states[i] == states[..n + 1][i];
        }
      }
    }
  }

  lemma ReachableInv(s: System)
    requires Reachable(s)
    ensures Inv(s)
  {
    var states, what :| IsRun(states, what) && states[0] == Start && states[|states| - 1] == s;
    RunKeepsInv(states, what);
  }

  lemma StartIsReachable()
    ensures Reachable(Start)
  {
    var what: seq<Occurrence> := [];
    assert IsRun([Start], what);
  }

  /** Every operation leads from a reachable state to a reachable state. */
  lemma NextIsReachable(s: System, action: Action, now: real, s': System)
    requires Reachable(s) && Next(s, action, now, s')
    ensures Reachable(s')
  {
    var states, what :| IsRun(states, what) && states[0] == Start && states[|states| - 1] == s;
    var states', what' := states + [s'], what + [Occurrence(action, now)];
    forall i, j | 0 <= i && j == i + 1 && j < |states'|
      ensures Next(states'[i], what'[i].action, what'[i].now, states'[j])
    {
      if j < |states| {
        assert Next(states[i], what[i].action, what[i].now, states[j]);
      }
    }
    assert IsRun(states', what') && states'[0] == Start && states'[|states'| - 1] == s';
  }
}
