/** The supervisor of backend/agent/supervisor.py as a state machine over values: what each operation does
    to missions, their graphs and the agents, and what every run keeps. */
module Missions {
  import opened Results
  import opened Dag
  import opened TaskLists
  import opened Levels
  import G = ExecutionGraphs
  import L = Lifecycle
  import P = Planner

  datatype MissionState = Created | Planning | Ready | Running | Paused | Completed | Failed | Cancelled

  predicate CanMove(from: MissionState, target: MissionState) {
    match from
    case Created => target in {Planning, Cancelled}
    case Planning => target in {Ready, Failed, Cancelled}
    case Ready => target in {Running, Cancelled}
    case Running => target in {Paused, Completed, Failed, Cancelled}
    case Paused => target in {Running, Cancelled, Failed}
    case _ => false
  }

  datatype PlanValue = PlanValue(tasks: seq<PlannedTask>, graph: G.GraphValue)
  datatype Mission = Mission(state: MissionState, plan: Option<PlanValue>, agents: set<L.AgentId>)

  /** `nextSerial` is the source of fresh uuids. */
  datatype System = System(missions: map<Id, Mission>, agents: L.Agents, nextSerial: nat)

  const Start := System(map[], map[], 0)

  // ---- One tick of one mission ----

  /** Some agent of the mission for node v is in the given state; the empty task id is skipped. */
  ghost predicate Reported(mine: set<L.AgentId>, agents: L.Agents, v: Id, state: L.AgentState) {
    v != "" && exists a :: a in mine && a in agents && agents[a].context.taskId == v && agents[a].state == state
  }

  ghost function SyncedStatus(
    mine: set<L.AgentId>, agents: L.Agents, v: Id, status: G.NodeStatus): (r: G.NodeStatus)
  {
    if Reported(mine, agents, v, L.Completed) then G.Completed
    else if Reported(mine, agents, v, L.Failed) then G.Failed
    else status
  }

  /** Phase 1: nodes take over the verdict of their agents. */
  ghost function Synced(mine: set<L.AgentId>, agents: L.Agents, g: G.GraphValue): (r: G.GraphValue) {
    g.(nodes := map v | v in g.nodes :: g.nodes[v].(status := SyncedStatus(mine, agents, v, g.nodes[v].status)))
  }

  /** Phase 2: the graph is considered done when every leaf is. */
  ghost predicate LeavesDone(g: G.GraphValue) {
    forall v :: v in g.nodes && IsLeaf(g.edges, v) ==> g.nodes[v].status == G.Completed
  }

  ghost predicate AllDone(g: G.GraphValue) {
    forall v :: v in g.nodes ==> g.nodes[v].status == G.Completed
  }

  ghost predicate PredsDone(g: G.GraphValue, v: Id) {
    forall e :: e in g.edges && e.target == v ==> e.source in g.nodes && g.nodes[e.source].status == G.Completed
  }

  /** Phase 3: a pending node whose dependencies are all completed. */
  ghost predicate IsReady(g: G.GraphValue, v: Id) {
    v in g.nodes && g.nodes[v].status == G.Pending && PredsDone(g, v)
  }

  ghost function Started(g: G.GraphValue): (r: G.GraphValue) {
    g.(nodes := map v | v in g.nodes :: if IsReady(g, v) then g.nodes[v].(status := G.Running) else g.nodes[v])
  }

  /** The tick goes on to phase 3. */
  ghost predicate Dispatches(g: G.GraphValue) {
    G.Schedulable(g.nodes.Keys, g.edges) && g.nodes != map[] && !LeavesDone(g)
  }

  ghost function ReadySet(m: Mission, agents: L.Agents): (r: set<Id>) {
    if m.plan.None? then {} else
      var g := Synced(m.agents, agents, m.plan.value.graph);
      if !Dispatches(g) then {} else set v | v in g.nodes && IsReady(g, v) && v in Ids(m.plan.value.tasks)
  }

  /** The mission after a tick that launched the given agents, one per ready node. */
  ghost function Ticked(m: Mission, agents: L.Agents, launched: map<Id, L.AgentId>): (r: Mission) {
    if m.plan.None? then m else
      var g := Synced(m.agents, agents, m.plan.value.graph);
      if Dispatches(g) then
        m.(plan := Some(m.plan.value.(graph := Started(g))), agents := m.agents + launched.Values)
      else if G.Schedulable(g.nodes.Keys, g.edges) && g.nodes != map[] then
        m.(state := Completed, plan := Some(m.plan.value.(graph := g)))
      else
        m.(plan := Some(m.plan.value.(graph := g)))
  }

  ghost predicate LaunchedFor(
    a: L.AgentInstance, id: L.AgentId, mid: Id, tasks: seq<PlannedTask>, v: Id,
    selector: string -> Option<string>, now: real)
  {
    exists t :: t in tasks && t.id == v &&
      a == L.Moved(L.Fresh(L.AgentContext(id, mid, v, t.capability, selector(t.capability)), now), L.Running, now)
  }

  /** Exactly one fresh running agent per ready node, and no other change to the agents. */
  ghost predicate Launches(
    s: System, mid: Id, launched: map<Id, L.AgentId>, selector: string -> Option<string>, now: real, s': System)
    requires mid in s.missions
  {
    && launched.Keys == ReadySet(s.missions[mid], s.agents)
    && s.nextSerial <= s'.nextSerial
    && (forall v :: v in launched ==>
          launched[v].Supervised? && launched[v].mission == mid && launched[v].task == v &&
          s.nextSerial <= launched[v].serial < s'.nextSerial)
    && s'.agents.Keys == s.agents.Keys + launched.Values
    && (forall a :: a in s.agents && a !in launched.Values ==> s'.agents[a] == s.agents[a])
    && (forall v :: v in launched ==>
          LaunchedFor(s'.agents[launched[v]], launched[v], mid, s.missions[mid].plan.value.tasks, v, selector, now))
  }

  // ---- All operations ----

  datatype Action =
    | CreateMission(id: Id, tasks: seq<PlannedTask>, strategy: Strategy, available: Option<set<string>>)
    | StartMission(id: Id)
    | PauseMission(id: Id)
    | ResumeMission(id: Id)
    | CancelMission(id: Id)
    | TickMission(id: Id, launched: map<Id, L.AgentId>, selector: string -> Option<string>)
    | AgentRequest(op: L.Op, timeout: real)

  /** What create_mission stores: a planning failure is recorded, a validation failure leaves PLANNING behind. */
  ghost predicate NewMission(
    strategy: Strategy, tasks: seq<PlannedTask>, available: Option<set<string>>, m: Mission)
  {
    && m.agents == {}
    && (if P.Plannable(strategy, tasks, available) then
          && m.state == Ready && m.plan.Some?
          && m.plan.value.tasks == Rewritten(strategy, tasks)
          && P.NodesOf(m.plan.value.tasks, m.plan.value.graph.nodes)
          && P.EdgesOf(m.plan.value.tasks, m.plan.value.graph.edges)
        else
          m.plan.None? && m.state == if Clean(tasks, available) then Planning else Failed)
  }

  ghost function MoveMission(s: System, id: Id, target: MissionState): (r: System)
    requires id in s.missions
  {
    s.(missions := s.missions[id := s.missions[id].(state := target)])
  }

  /** What pausing, resuming and cancelling a mission does to each of its agents. */
  datatype Control = Pause | Resume | Cancel

  function Controlled(c: Control, a: L.AgentInstance, now: real): (r: L.AgentInstance) {
    match c
    case Pause => if a.state == L.Running then L.Moved(a, L.Paused, now) else a
    case Resume =>
      if a.state == L.Paused then
        a.(state := L.Running, startedAt := L.OrNow(a.startedAt, now), finishedAt := None)
      else a
    case Cancel => if L.Terminal(a.state) then a else L.Moved(a, L.Cancelled, now)
  }

  function OnAgents(c: Control, agents: L.Agents, mine: set<L.AgentId>, now: real): (r: L.Agents) {
    map a | a in agents :: if a in mine then Controlled(c, agents[a], now) else agents[a]
  }

  /** The relation of each operation when it succeeds. A refused operation leaves the system as it is. */
  ghost predicate Next(s: System, action: Action, now: real, s': System) {
    match action
    case CreateMission(id, tasks, strategy, available) =>
      && id !in s.missions && id in s'.missions
      && NewMission(strategy, tasks, available, s'.missions[id])
      && s' == s.(missions := s.missions[id := s'.missions[id]])
    case StartMission(id) =>
      id in s.missions && CanMove(s.missions[id].state, Running) && s' == MoveMission(s, id, Running)
    case PauseMission(id) =>
      && id in s.missions && CanMove(s.missions[id].state, Paused)
      && s' == MoveMission(s, id, Paused).(agents := OnAgents(Pause, s.agents, s.missions[id].agents, now))
    case ResumeMission(id) =>
      && id in s.missions && CanMove(s.missions[id].state, Running)
      && s' == MoveMission(s, id, Running).(agents := OnAgents(Resume, s.agents, s.missions[id].agents, now))
    case CancelMission(id) =>
      && id in s.missions && CanMove(s.missions[id].state, Cancelled)
      && s' == MoveMission(s, id, Cancelled).(agents := OnAgents(Cancel, s.agents, s.missions[id].agents, now))
    case TickMission(id, launched, selector) =>
      && id in s.missions && s.missions[id].state == Running
      && Launches(s, id, launched, selector, now, s')
      && s'.missions == s.missions[id := Ticked(s.missions[id], s.agents, launched)]
    case AgentRequest(op, timeout) =>
      && L.Offered(op) && (op.Create? ==> !op.ctx.id.Supervised?)
      && s' == s.(agents := L.Step(s.agents, op, timeout, now))
  }

  // ---- Runs ----

  datatype Occurrence = Occurrence(action: Action, now: real)

  /** A run: consecutive states are related by the recorded operations. */
  ghost predicate IsRun(states: seq<System>, what: seq<Occurrence>) {
    && |states| == |what| + 1
    && forall i, j {:trigger Next(states[i], what[i].action, what[i].now, states[j])} ::
         0 <= i && j == i + 1 && j < |states| ==> Next(states[i], what[i].action, what[i].now, states[j])
  }

  ghost predicate Reachable(s: System) {
    exists states, what :: IsRun(states, what) && states[0] == Start && states[|states| - 1] == s
  }

  // ---- The invariant ----

  ghost predicate PlanShape(p: PlanValue) {
    && UniqueIds(p.tasks) && p.graph.nodes.Keys == Ids(p.tasks)
    && (forall v :: v in p.graph.nodes ==> p.graph.nodes[v].id == v)
    && G.Schedulable(p.graph.nodes.Keys, p.graph.edges)
  }

  /** Whatever has started has its dependencies done. */
  ghost predicate Grounded(g: G.GraphValue) {
    forall v :: v in g.nodes && g.nodes[v].status != G.Pending ==> PredsDone(g, v)
  }

  /** A status stays, leaves PENDING, or goes from RUNNING to one of its ends. */
  predicate Moves(before: G.NodeStatus, after: G.NodeStatus, ends: set<G.NodeStatus>) {
    before == after || before == G.Pending || (before == G.Running && after in ends)
  }

  /** Statuses never leave the four that the supervisor uses. */
  ghost predicate Causal(g: G.GraphValue) {
    && Grounded(g)
    && forall v :: v in g.nodes ==>
         && g.nodes[v].status in {G.Pending, G.Running, G.Completed, G.Failed}
         && (v == "" ==> g.nodes[v].status in {G.Pending, G.Running})
  }

  /** The agents of a mission are exactly one per started node, and they agree with settled nodes. */
  ghost predicate Owned(mid: Id, g: G.GraphValue, mine: set<L.AgentId>, nextSerial: nat) {
    && (forall a :: a in mine ==> a.Supervised? && a.mission == mid && a.serial < nextSerial)
    && (forall a, b :: a in mine && b in mine && a.task == b.task ==> a == b)
    && (forall a :: a in mine ==> a.task in g.nodes && g.nodes[a.task].status != G.Pending)
    && (forall v {:trigger HasAgent(mine, v)} :: v in g.nodes && g.nodes[v].status != G.Pending ==> HasAgent(mine, v))
  }

  ghost predicate HasAgent(mine: set<L.AgentId>, v: Id) {
    exists a :: a in mine && a.Supervised? && a.task == v
  }

  ghost predicate Agrees(g: G.GraphValue, mine: set<L.AgentId>, agents: L.Agents) {
    forall a :: a in mine && a in agents ==>
      && a.Supervised? && agents[a].context.taskId == a.task && a.task in g.nodes
      && agents[a].state !in {L.Created, L.Ready, L.Scheduled, L.Waiting}
      && (g.nodes[a.task].status == G.Completed ==> agents[a].state == L.Completed)
      && (g.nodes[a.task].status == G.Failed ==> agents[a].state == L.Failed)
  }

  ghost predicate MissionInv(mid: Id, m: Mission, agents: L.Agents, nextSerial: nat) {
    if m.plan.None? then
      m.agents == {} && m.state in {Planning, Failed, Cancelled}
    else
      var g := m.plan.value.graph;
      && m.state !in {Created, Planning} && PlanShape(m.plan.value)
      && Causal(g)
      && Owned(mid, g, m.agents, nextSerial)
      && Agrees(g, m.agents, agents)
      && (m.state == Completed ==> AllDone(g))
  }

  ghost predicate Inv(s: System) {
    && (forall a :: a in s.agents && a.Supervised? ==> a.serial < s.nextSerial)
    && forall mid {:trigger MissionInv(mid, s.missions[mid], s.agents, s.nextSerial)} ::
         mid in s.missions ==> MissionInv(mid, s.missions[mid], s.agents, s.nextSerial)
  }

  // ---- Facts about single phases ----

  /** Whatever has started has all its ancestors completed. */
  lemma AncestorsDone(g: G.GraphValue, u: Id, v: Id)
    requires Grounded(g) && Within(g.edges, g.nodes.Keys) && v in g.nodes && g.nodes[v].status != G.Pending
    requires u != v && Reaches(g.edges, u, v)
    ensures u in g.nodes && g.nodes[u].status == G.Completed
  {
    var p :| IsPathFromTo(g.edges, p, u, v);
    PathDone(g, p);
  }

  lemma {:induction false} PathDone(g: G.GraphValue, p: seq<Id>)
    requires Grounded(g) && Within(g.edges, g.nodes.Keys) && IsPath(g.edges, p) && |p| > 1
    requires p[|p| - 1] in g.nodes && g.nodes[p[|p| - 1]].status != G.Pending
    ensures p[0] in g.nodes && g.nodes[p[0]].status == G.Completed
    decreases |p|
  {
    var n := |p| - 1;
    assert Linked(g.edges, p[n - 1], p[n]);
    assert g.nodes[p[n - 1]].status == G.Completed;
    if n > 1 {
      PathSlice(g.edges, p, 0, n - 1);
      PathDone(g, p[0..n]);
    }
  }

  /** Looking at the leaves alone is enough. */
  lemma LeavesDoneMeansAllDone(g: G.GraphValue)
    requires Causal(g) && Within(g.edges, g.nodes.Keys) && Acyclic(g.edges) && LeavesDone(g)
    ensures AllDone(g)
  {
    forall v | v in g.nodes ensures g.nodes[v].status == G.Completed {
      var leaf := PathToLeaf(g.edges, g.nodes.Keys, v);
      if leaf != v {
        AncestorsDone(g, v, leaf);
      }
    }
  }

  lemma SyncedIsCausal(mine: set<L.AgentId>, agents: L.Agents, g: G.GraphValue)
    requires Causal(g) && Agrees(g, mine, agents)
    requires forall a :: a in mine ==> a.Supervised? && a.task in g.nodes && g.nodes[a.task].status != G.Pending
    requires forall a, b :: a in mine && b in mine && a.task == b.task ==> a == b
    ensures Causal(Synced(mine, agents, g))
    ensures forall v :: v in g.nodes ==>
      (g.nodes[v].status == G.Pending <==> Synced(mine, agents, g).nodes[v].status == G.Pending) &&
      (g.nodes[v].status in {G.Completed, G.Failed} ==> Synced(mine, agents, g).nodes[v] == g.nodes[v])
    ensures Agrees(Synced(mine, agents, g), mine, agents)
  {
    var g' := Synced(mine, agents, g);
    forall v, state | v in g.nodes && Reported(mine, agents, v, state)
      ensures g.nodes[v].status != G.Pending
      ensures g.nodes[v].status == G.Completed ==> state == L.Completed
      ensures g.nodes[v].status == G.Failed ==> state == L.Failed
    {
      var a :| a in mine && a in agents && agents[a].context.taskId == v && agents[a].state == state;
    }
    forall v | v in g.nodes && g.nodes[v].status in {G.Completed, G.Failed}
      ensures g'.nodes[v] == g.nodes[v]
    {
    }
    forall v | v in g.nodes && g'.nodes[v].status != G.Pending
      ensures PredsDone(g', v)
    {
      assert PredsDone(g, v);
    }
    forall a | a in mine && a in agents
      ensures g'.nodes[a.task].status == G.Completed ==> agents[a].state == L.Completed
      ensures g'.nodes[a.task].status == G.Failed ==> agents[a].state == L.Failed
    {
      if Reported(mine, agents, a.task, L.Completed) {
        var b :| b in mine && b in agents && agents[b].context.taskId == a.task && agents[b].state == L.Completed;
        assert b == a;
      }
      if Reported(mine, agents, a.task, L.Failed) {
        var b :| b in mine && b in agents && agents[b].context.taskId == a.task && agents[b].state == L.Failed;
        assert b == a;
      }
    }
  }

  lemma StartedIsCausal(g: G.GraphValue)
    requires Causal(g)
    ensures Causal(Started(g))
  {
    forall v | v in g.nodes && Started(g).nodes[v].status != G.Pending ensures PredsDone(Started(g), v) {
      assert PredsDone(g, v);
    }
  }
}
