/** Which missions can still complete: a lost agent keeps its node RUNNING for ever, and the exact condition under
    which some run completes a mission. */
module MissionHopes {
  import opened Results
  import opened Dag
  import opened TaskLists
  import opened Missions
  import opened MissionRuns
  import opened MissionTheorems
  import G = ExecutionGraphs
  import L = Lifecycle
  import P = Planner

  // ---- Lost agents ----

  /** The agent will never report again: it was timed out, cancelled on its own, or cleaned up. */
  predicate IsSilent(agents: L.Agents, a: L.AgentId) {
    a !in agents || agents[a].state in {L.Timeout, L.Cancelled}
  }

  /** Node v runs, and its agent is silent. */
  ghost predicate IsLost(m: Mission, agents: L.Agents, v: Id) {
    && m.plan.Some? && v in m.plan.value.graph.nodes && m.plan.value.graph.nodes[v].status == G.Running
    && exists a :: a in m.agents && IsFor(a, v) && IsSilent(agents, a)
  }

  /** What phase 1 makes of a node whose only agent has not completed. */
  lemma SyncedByOne(mid: Id, g: G.GraphValue, mine: set<L.AgentId>, agents: L.Agents, n: nat, a: L.AgentId)
    requires Owned(mid, g, mine, n) && Agrees(g, mine, agents) && a in mine
    requires a in agents ==> agents[a].state != L.Completed
    ensures a.Supervised? && a.task in g.nodes
    ensures Synced(mine, agents, g).nodes[a.task].status ==
            if a.task != "" && a in agents && agents[a].state == L.Failed then G.Failed else g.nodes[a.task].status
  {
    forall state | Reported(mine, agents, a.task, state) ensures a in agents && agents[a].state == state {
      var b :| b in mine && b in agents && agents[b].context.taskId == a.task && agents[b].state == state;
      assert b == a;
    }
    if a.task != "" && a in agents && agents[a].state == L.Failed {
      assert Reported(mine, agents, a.task, L.Failed);
    }
  }

  /** A tick leaves alone what has left PENDING, once phase 1 is over. */
  lemma TickedStatus(m: Mission, agents: L.Agents, launched: map<Id, L.AgentId>, v: Id)
    requires m.plan.Some? && v in m.plan.value.graph.nodes
    requires Synced(m.agents, agents, m.plan.value.graph).nodes[v].status != G.Pending
    ensures Ticked(m, agents, launched).plan.Some? && v in Ticked(m, agents, launched).plan.value.graph.nodes
    ensures Ticked(m, agents, launched).plan.value.graph.nodes[v].status ==
            Synced(m.agents, agents, m.plan.value.graph).nodes[v].status
  {
  }

  /** How a step changes the node of an agent that has not completed: a tick takes over a failure, nothing else. */
  lemma NodeStep(s: System, action: Action, now: real, s': System, mid: Id, a: L.AgentId)
    requires Inv(s) && Next(s, action, now, s') && mid in s.missions && s.missions[mid].plan.Some?
    requires a in s.missions[mid].agents && (a in s.agents ==> s.agents[a].state != L.Completed)
    ensures a.Supervised? && a.task in s.missions[mid].plan.value.graph.nodes
    ensures mid in s'.missions && s'.missions[mid].plan.Some? && a.task in s'.missions[mid].plan.value.graph.nodes
    ensures s'.missions[mid].plan.value.graph.nodes[a.task].status ==
            if action.TickMission? && action.id == mid && a.task != "" && a in s.agents &&
               s.agents[a].state == L.Failed
            then G.Failed
            else s.missions[mid].plan.value.graph.nodes[a.task].status
  {
    var m := s.missions[mid];
    assert MissionInv(mid, m, s.agents, s.nextSerial);
    if action.TickMission? && action.id == mid {
      SyncedByOne(mid, m.plan.value.graph, m.agents, s.agents, s.nextSerial, a);
      TickedStatus(m, s.agents, action.launched, a.task);
    }
  }

  lemma LostStep(s: System, action: Action, now: real, s': System, mid: Id, v: Id)
    requires Inv(s) && Next(s, action, now, s') && mid in s.missions && IsLost(s.missions[mid], s.agents, v)
    ensures mid in s'.missions && IsLost(s'.missions[mid], s'.agents, v)
  {
    var a :| a in s.missions[mid].agents && IsFor(a, v) && IsSilent(s.agents, a);
    NextEvolves(s, action, now, s', mid);
    NextAdvances(s, action, now, s', mid);
    NodeStep(s, action, now, s', mid, a);
    assert a in s'.missions[mid].agents && IsFor(a, v) && IsSilent(s'.agents, a);
  }

  /** A node whose agent was timed out, cancelled on its own or cleaned up runs for ever, and its mission never
      completes. */
  lemma {:induction false} LostForEver(states: seq<System>, what: seq<Occurrence>, i: nat, j: nat, mid: Id, v: Id)
    requires IsRun(states, what) && states[0] == Start && i <= j < |states|
    requires mid in states[i].missions && IsLost(states[i].missions[mid], states[i].agents, v)
    ensures mid in states[j].missions && IsLost(states[j].missions[mid], states[j].agents, v)
    ensures states[j].missions[mid].state != Completed
    decreases j
  {
    RunKeepsInv(states, what);
    if i < j {
      LostForEver(states, what, i, j - 1, mid, v);
      assert Next(states[j - 1], what[j - 1].action, what[j - 1].now, states[j]);
      LostStep(states[j - 1], what[j - 1].action, what[j - 1].now, states[j], mid, v);
    }
    assert MissionInv(mid, states[j].missions[mid], states[j].agents, states[j].nextSerial);
  }

  /** No tick ever makes a mission FAILED: it is so from its creation or never. */
  lemma {:induction false} OnlyCreationFails(states: seq<System>, what: seq<Occurrence>, i: nat, j: nat, mid: Id)
    requires IsRun(states, what) && states[0] == Start && i <= j < |states| && mid in states[i].missions
    ensures mid in states[j].missions
    ensures states[j].missions[mid].state == Failed <==> states[i].missions[mid].state == Failed
    decreases j
  {
    if i < j {
      OnlyCreationFails(states, what, i, j - 1, mid);
      RunKeepsInv(states, what);
      assert Next(states[j - 1], what[j - 1].action, what[j - 1].now, states[j]);
      NextAdvances(states[j - 1], what[j - 1].action, what[j - 1].now, states[j], mid);
    }
  }

  // ---- Doomed missions ----

  /** The agent runs, can run again, or has completed. */
  predicate IsHopeful(agents: L.Agents, a: L.AgentId) {
    a in agents && agents[a].state in {L.Running, L.Paused, L.Completed}
  }

  /** The agent of a running node that can no longer complete. */
  ghost predicate IsWasted(m: Mission, agents: L.Agents, a: L.AgentId)
    requires m.plan.Some?
  {
    && a in m.agents && a.Supervised? && a.task in m.plan.value.graph.nodes
    && m.plan.value.graph.nodes[a.task].status == G.Running && !IsHopeful(agents, a)
  }

  /** The plan has no task or one with the empty id, some node has failed, or a running node's agent cannot complete. */
  ghost predicate Doomed(m: Mission, agents: L.Agents)
    requires m.plan.Some?
  {
    || m.plan.value.tasks == []
    || "" in m.plan.value.graph.nodes
    || SomeIn(m.plan.value.graph, {G.Failed})
    || exists a :: IsWasted(m, agents, a)
  }

  lemma WastedStep(s: System, action: Action, now: real, s': System, mid: Id, a: L.AgentId)
    requires Inv(s) && Next(s, action, now, s') && mid in s.missions && s.missions[mid].plan.Some?
    requires IsWasted(s.missions[mid], s.agents, a) && a.task != ""
    ensures mid in s'.missions && s'.missions[mid].plan.Some? && Doomed(s'.missions[mid], s'.agents)
  {
    var m' := s'.missions[mid];
    assert MissionInv(mid, s.missions[mid], s.agents, s.nextSerial);
    NextEvolves(s, action, now, s', mid);
    NextAdvances(s, action, now, s', mid);
    NodeStep(s, action, now, s', mid, a);
    if m'.plan.value.graph.nodes[a.task].status == G.Running {
      assert IsWasted(m', s'.agents, a);
    }
  }

  lemma DoomedStep(s: System, action: Action, now: real, s': System, mid: Id)
    requires Inv(s) && Next(s, action, now, s') && mid in s.missions && s.missions[mid].plan.Some?
    requires Doomed(s.missions[mid], s.agents)
    ensures mid in s'.missions && s'.missions[mid].plan.Some? && Doomed(s'.missions[mid], s'.agents)
  {
    var m, m' := s.missions[mid], s'.missions[mid];
    NextAdvances(s, action, now, s', mid);
    if m.plan.value.tasks == [] || "" in m.plan.value.graph.nodes {
    } else if SomeIn(m.plan.value.graph, {G.Failed}) {
      var v :| v in m.plan.value.graph.nodes && m.plan.value.graph.nodes[v].status == G.Failed;
      assert m'.plan.value.graph.nodes[v].status == G.Failed;
    } else {
      var a :| IsWasted(m, s.agents, a);
      WastedStep(s, action, now, s', mid, a);
    }
  }

  /** The mission is not completed and cannot be. */
  ghost predicate IsOver(s: System, mid: Id) {
    && mid in s.missions && s.missions[mid].state != Completed
    && (s.missions[mid].plan.None? || s.missions[mid].state in {Failed, Cancelled} ||
        Doomed(s.missions[mid], s.agents))
  }

  lemma DoomedIsNotDone(s: System, mid: Id)
    requires Inv(s) && mid in s.missions && s.missions[mid].plan.Some? && Doomed(s.missions[mid], s.agents)
    requires s.missions[mid].plan.value.tasks != []
    ensures s.missions[mid].state != Completed
  {
    assert MissionInv(mid, s.missions[mid], s.agents, s.nextSerial);
  }

  lemma OverStep(s: System, action: Action, now: real, s': System, mid: Id)
    requires Inv(s) && Next(s, action, now, s') && IsOver(s, mid)
    ensures IsOver(s', mid)
  {
    var m := s.missions[mid];
    NextAdvances(s, action, now, s', mid);
    NextKeepsInv(s, action, now, s');
    assert MissionInv(mid, s'.missions[mid], s'.agents, s'.nextSerial);
    if m.plan.Some? && m.state !in {Failed, Cancelled} {
      DoomedStep(s, action, now, s', mid);
      if m.plan.value.tasks == [] {
        NoTasksStep(s, action, now, s', mid);
      } else {
        DoomedIsNotDone(s', mid);
      }
    }
  }

  lemma {:induction false} OverForEver(states: seq<System>, what: seq<Occurrence>, j: nat, mid: Id)
    requires IsRun(states, what) && Inv(states[0]) && IsOver(states[0], mid) && j < |states|
    ensures IsOver(states[j], mid)
  {
    if j > 0 {
      OverForEver(states, what, j - 1, mid);
      RunKeepsInv(states, what);
      assert Next(states[j - 1], what[j - 1].action, what[j - 1].now, states[j]);
      OverStep(states[j - 1], what[j - 1].action, what[j - 1].now, states[j], mid);
    }
  }

  // ---- Ways to go on ----

  /** Some run leads from s to s'. */
  ghost predicate Leads(s: System, s': System) {
    exists states, what :: IsRun(states, what) && states[0] == s && states[|states| - 1] == s'
  }

  lemma LeadsToItself(s: System)
    ensures Leads(s, s)
  {
    var what: seq<Occurrence> := [];
    assert IsRun([s], what) && [s][|[s]| - 1] == s;
  }

  lemma LeadsOn(s0: System, s: System, action: Action, now: real, s': System)
    requires Leads(s0, s) && Next(s, action, now, s')
    ensures Leads(s0, s')
  {
    var states: seq<System>, what: seq<Occurrence> :|
      IsRun(states, what) && states[0] == s0 && states[|states| - 1] == s;
    var states', what' := states + [s'], what + [Occurrence(action, now)];
    forall i, j | 0 <= i && j == i + 1 && j < |states'|
      ensures Next(states'[i], what'[i].action, what'[i].now, states'[j])
    {
      if j < |states| {
        assert Next(states[i], what[i].action, what[i].now, states[j]);
      }
    }
    assert IsRun(states', what') && states'[0] == s0 && states'[|states'| - 1] == s';
  }

  /** The mission runs and is not doomed. */
  ghost predicate IsAlive(s: System, mid: Id) {
    && Inv(s) && mid in s.missions && s.missions[mid].state == Running && s.missions[mid].plan.Some?
    && !Doomed(s.missions[mid], s.agents)
  }

  /** The agents of the mission that have yet to complete. */
  ghost function Unsettled(s: System, mid: Id): (r: set<L.AgentId>)
    requires mid in s.missions
  {
    set a | a in s.missions[mid].agents && a in s.agents && s.agents[a].state in {L.Running, L.Paused}
  }

  /** One agent after another completes. */
  lemma OneCompletes(s0: System, s: System, mid: Id, a: L.AgentId) returns (s': System)
    requires Leads(s0, s) && IsAlive(s, mid) && a in Unsettled(s, mid)
    ensures Leads(s0, s') && Inv(s') && s'.missions == s.missions
    ensures a in s'.agents && s'.agents == s.agents[a := s'.agents[a]] && s'.agents[a].state == L.Completed
  {
    var resume, complete := AgentRequest(L.Resume(a), 1.0), AgentRequest(L.Move(a, L.Completed), 1.0);
    var s1 := s.(agents := L.Step(s.agents, L.Resume(a), 1.0, 1.0));
    assert Next(s, resume, 1.0, s1);
    LeadsOn(s0, s, resume, 1.0, s1);
    NextKeepsInv(s, resume, 1.0, s1);
    s' := s1.(agents := L.Step(s1.agents, L.Move(a, L.Completed), 1.0, 1.0));
    assert Next(s1, complete, 1.0, s');
    LeadsOn(s0, s1, complete, 1.0, s');
    NextKeepsInv(s1, complete, 1.0, s');
  }

  lemma CompletionKeepsAlive(s: System, mid: Id, a: L.AgentId, s': System)
    requires IsAlive(s, mid) && a in Unsettled(s, mid) && Inv(s') && s'.missions == s.missions && a in s'.agents
    requires s'.agents == s.agents[a := s'.agents[a]] && s'.agents[a].state == L.Completed
    ensures IsAlive(s', mid) && Unsettled(s', mid) == Unsettled(s, mid) - {a}
  {
    var m := s.missions[mid];
    forall b ensures !IsWasted(m, s'.agents, b) {
      assert !IsWasted(m, s.agents, b);
    }
  }

  lemma {:induction false} AllComplete(s0: System, s: System, mid: Id) returns (s': System)
    requires Leads(s0, s) && IsAlive(s, mid)
    ensures Leads(s0, s') && IsAlive(s', mid) && s'.missions == s.missions && Unsettled(s', mid) == {}
    decreases |Unsettled(s, mid)|
  {
    s' := s;
    if Unsettled(s, mid) != {} {
      var a :| a in Unsettled(s, mid);
      var s1 := OneCompletes(s0, s, mid, a);
      CompletionKeepsAlive(s, mid, a, s1);
      s' := AllComplete(s0, s1, mid);
    }
  }

  ghost function TaskFor(tasks: seq<PlannedTask>, v: Id): (t: PlannedTask)
    requires v in Ids(tasks)
    ensures t in tasks && t.id == v
  {
    var t :| t in tasks && t.id == v; t
  }

  /** No runtime is ever assigned. */
  function NoRuntime(capability: string): (r: Option<string>) {
    None
  }

  ghost function AgentFor(mid: Id, tasks: seq<PlannedTask>, v: Id, n: nat): (a: L.AgentInstance)
    requires v in Ids(tasks)
  {
    var capability := TaskFor(tasks, v).capability;
    var ctx := L.AgentContext(L.Supervised(mid, v, n), mid, v, capability, NoRuntime(capability));
    L.Moved(L.Fresh(ctx, 1.0), L.Running, 1.0)
  }

  lemma AgentForIsLaunched(mid: Id, tasks: seq<PlannedTask>, v: Id, n: nat)
    requires v in Ids(tasks)
    ensures LaunchedFor(AgentFor(mid, tasks, v, n), L.Supervised(mid, v, n), mid, tasks, v, NoRuntime, 1.0)
  {
    assert TaskFor(tasks, v) in tasks;
  }

  /** A running mission can always be ticked. */
  lemma TickExists(s: System, mid: Id) returns (launched: map<Id, L.AgentId>, s': System)
    requires mid in s.missions && s.missions[mid].state == Running && s.missions[mid].plan.Some?
    ensures Next(s, TickMission(mid, launched, NoRuntime), 1.0, s')
  {
    var m := s.missions[mid];
    var ready, n := ReadySet(m, s.agents), s.nextSerial;
    launched := map v | v in ready :: L.Supervised(mid, v, n);
    assert launched.Keys == ready;
    var agents := Hire(s, mid, launched);
    s' := System(s.missions[mid := Ticked(m, s.agents, launched)], agents, n + 1);
    assert Launches(s, mid, launched, NoRuntime, 1.0, s');
  }

  lemma Hire(s: System, mid: Id, launched: map<Id, L.AgentId>) returns (agents: L.Agents)
    requires mid in s.missions && s.missions[mid].plan.Some?
    requires forall v :: v in launched ==>
      v in Ids(s.missions[mid].plan.value.tasks) && launched[v] == L.Supervised(mid, v, s.nextSerial)
    ensures agents.Keys == s.agents.Keys + launched.Values
    ensures forall a :: a in s.agents && a !in launched.Values ==> agents[a] == s.agents[a]
    ensures forall v :: v in launched ==>
      LaunchedFor(agents[launched[v]], launched[v], mid, s.missions[mid].plan.value.tasks, v, NoRuntime, 1.0)
  {
    var tasks, n := s.missions[mid].plan.value.tasks, s.nextSerial;
    var hired := map v | v in launched :: L.Supervised(mid, v, n) := AgentFor(mid, tasks, v, n);
    assert hired.Keys == launched.Values;
    agents := s.agents + hired;
    forall v | v in launched ensures LaunchedFor(agents[launched[v]], launched[v], mid, tasks, v, NoRuntime, 1.0) {
      AgentForIsLaunched(mid, tasks, v, n);
      assert hired[L.Supervised(mid, v, n)] == AgentFor(mid, tasks, v, n);
    }
  }

  /** What phase 1 sees once every agent has completed. */
  lemma SettledIsSplit(s: System, mid: Id)
    requires IsAlive(s, mid) && Unsettled(s, mid) == {}
    ensures var g := Seen(s.missions[mid], s.agents);
            && Causal(g) && !SomeIn(g, {G.Running, G.Failed})
            && PendingIn(g) == PendingIn(s.missions[mid].plan.value.graph)
  {
    var m := s.missions[mid];
    assert MissionInv(mid, m, s.agents, s.nextSerial);
    var g0 := m.plan.value.graph;
    var g := Seen(m, s.agents);
    SyncedIsCausal(m.agents, s.agents, g0);
    forall v | v in g.nodes ensures g.nodes[v].status !in {G.Running, G.Failed} {
      if g0.nodes[v].status == G.Running {
        assert HasAgent(m.agents, v);
        var a :| a in m.agents && a.Supervised? && a.task == v;
        assert !IsWasted(m, s.agents, a);
        assert a !in Unsettled(s, mid);
        assert Reported(m.agents, s.agents, v, L.Completed);
      }
    }
  }

  /** Starting what is ready leaves less pending. */
  lemma StartedLeavesLess(g: G.GraphValue)
    requires Causal(g) && Within(g.edges, g.nodes.Keys) && Acyclic(g.edges)
    requires !SomeIn(g, {G.Running, G.Failed}) && !AllDone(g)
    ensures PendingIn(Started(g)) < PendingIn(g) && !SomeIn(Started(g), {G.Failed})
  {
    SomethingIsReady(g);
    var v :| v in g.nodes && IsReady(g, v);
    assert v in PendingIn(g) && v !in PendingIn(Started(g));
  }

  /** After the tick only agents that it launched have a running node. */
  lemma LaunchedAreHopeful(s: System, mid: Id, launched: map<Id, L.AgentId>, s': System, a: L.AgentId)
    requires IsAlive(s, mid) && Unsettled(s, mid) == {}
    requires Next(s, TickMission(mid, launched, NoRuntime), 1.0, s')
    requires s'.missions[mid].plan.Some?
    ensures !IsWasted(s'.missions[mid], s'.agents, a)
  {
    var m, m' := s.missions[mid], s'.missions[mid];
    assert MissionInv(mid, m, s.agents, s.nextSerial);
    InvSerials(s, mid);
    LaunchedFacts(s, mid, launched, NoRuntime, 1.0, s');
    SettledIsSplit(s, mid);
    if a in m.agents {
      var g := Seen(m, s.agents);
      assert m.plan.value.graph.nodes[a.task].status != G.Pending;
      assert a.task !in PendingIn(g);
      TickedStatus(m, s.agents, launched, a.task);
    }
  }

  /** A tick after all agents have completed completes the mission, or starts something and leaves it alive. */
  lemma SettledTick(s: System, mid: Id, launched: map<Id, L.AgentId>, s': System)
    requires IsAlive(s, mid) && Unsettled(s, mid) == {}
    requires Next(s, TickMission(mid, launched, NoRuntime), 1.0, s')
    ensures s'.missions[mid].state == Completed ||
            (IsAlive(s', mid) &&
             PendingIn(s'.missions[mid].plan.value.graph) < PendingIn(s.missions[mid].plan.value.graph))
  {
    var m, m' := s.missions[mid], s'.missions[mid];
    assert MissionInv(mid, m, s.agents, s.nextSerial);
    var g := Seen(m, s.agents);
    NextKeepsInv(s, TickMission(mid, launched, NoRuntime), 1.0, s');
    SettledIsSplit(s, mid);
    assert g.nodes.Keys == m.plan.value.graph.nodes.Keys;
    assert m.plan.value.tasks[0].id in Ids(m.plan.value.tasks);
    if !LeavesDone(g) {
      assert Dispatches(g);
      StartedLeavesLess(g);
      forall a ensures !IsWasted(m', s'.agents, a) {
        LaunchedAreHopeful(s, mid, launched, s', a);
      }
    }
  }

  lemma {:induction false} AliveCompletes(s0: System, s: System, mid: Id) returns (s': System)
    requires Leads(s0, s) && IsAlive(s, mid)
    ensures Leads(s0, s') && mid in s'.missions && s'.missions[mid].state == Completed
    decreases |PendingIn(s.missions[mid].plan.value.graph)|
  {
    var s1 := AllComplete(s0, s, mid);
    var launched, s2 := TickExists(s1, mid);
    LeadsOn(s0, s1, TickMission(mid, launched, NoRuntime), 1.0, s2);
    SettledTick(s1, mid, launched, s2);
    s' := s2;
    if s2.missions[mid].state != Completed {
      SubsetCardinality(PendingIn(s2.missions[mid].plan.value.graph), PendingIn(s.missions[mid].plan.value.graph));
      s' := AliveCompletes(s0, s2, mid);
    }
  }

  /** A mission that is READY or PAUSED can be made to run. */
  lemma RunsAgain(s: System, mid: Id) returns (s': System)
    requires Inv(s) && mid in s.missions && s.missions[mid].state in {Ready, Running, Paused}
    requires s.missions[mid].plan.Some? && !Doomed(s.missions[mid], s.agents)
    ensures Leads(s, s') && IsAlive(s', mid)
  {
    var m := s.missions[mid];
    s' := s;
    LeadsToItself(s);
    if m.state == Ready {
      s' := MoveMission(s, mid, Running);
      LeadsOn(s, s, StartMission(mid), 1.0, s');
      NextKeepsInv(s, StartMission(mid), 1.0, s');
      SameDoom(m, s.agents, s'.missions[mid], s'.agents);
    } else if m.state == Paused {
      s' := MoveMission(s, mid, Running).(agents := OnAgents(Resume, s.agents, m.agents, 1.0));
      LeadsOn(s, s, ResumeMission(mid), 1.0, s');
      NextKeepsInv(s, ResumeMission(mid), 1.0, s');
      SameDoom(m, s.agents, s'.missions[mid], s'.agents);
    }
  }

  lemma SameDoom(m: Mission, agents: L.Agents, m': Mission, agents': L.Agents)
    requires m.plan.Some? && m'.plan == m.plan && m'.agents == m.agents
    requires forall a :: IsHopeful(agents, a) ==> IsHopeful(agents', a)
    requires !Doomed(m, agents)
    ensures !Doomed(m', agents')
  {
    forall a ensures !IsWasted(m', agents', a) {
      assert !IsWasted(m, agents, a);
    }
  }

  // ---- The theorem ----

  ghost predicate CanComplete(s: System, mid: Id) {
    exists s' :: Leads(s, s') && mid in s'.missions && s'.missions[mid].state == Completed
  }

  /** Exactly the missions that can still complete: those that have, and those that are READY, RUNNING or PAUSED with
      at least one task, no empty id, no FAILED node, and a completed, running or paused agent for every RUNNING
      node. */
  lemma CanCompleteIff(s: System, mid: Id)
    requires Reachable(s) && mid in s.missions
    ensures CanComplete(s, mid) <==>
      var m := s.missions[mid];
      m.state == Completed ||
      (m.plan.Some? && m.state in {Ready, Running, Paused} && !Doomed(m, s.agents))
  {
    ReachableInv(s);
    var m := s.missions[mid];
    assert MissionInv(mid, m, s.agents, s.nextSerial);
    if m.state == Completed {
      LeadsToItself(s);
    } else if m.plan.Some? && m.state in {Ready, Running, Paused} && !Doomed(m, s.agents) {
      var s1 := RunsAgain(s, mid);
      var s2 := AliveCompletes(s, s1, mid);
    } else {
      assert IsOver(s, mid);
      forall s' | Leads(s, s') ensures IsOver(s', mid) {
        var states: seq<System>, what: seq<Occurrence> :|
          IsRun(states, what) && states[0] == s && states[|states| - 1] == s';
        OverForEver(states, what, |states| - 1, mid);
      }
    }
  }

  // ---- Losing an agent ----

  /** Cancelling one agent on its own is enough to lose the node it works on. */
  lemma CancelLoses(s0: System, s: System, mid: Id, a: L.AgentId) returns (s': System)
    requires Leads(s0, s) && Inv(s) && mid in s.missions && s.missions[mid].plan.Some?
    requires a in Unsettled(s, mid) && a.Supervised? && a.task in s.missions[mid].plan.value.graph.nodes
    requires s.missions[mid].plan.value.graph.nodes[a.task].status == G.Running
    ensures Leads(s0, s') && s'.missions == s.missions && IsLost(s'.missions[mid], s'.agents, a.task)
  {
    var cancel := L.Move(a, L.Cancelled);
    s' := s.(agents := L.Step(s.agents, cancel, 1.0, 1.0));
    LeadsOn(s0, s, AgentRequest(cancel, 1.0), 1.0, s');
    assert IsFor(a, a.task) && IsSilent(s'.agents, a);
  }

  const ONE_TASK := [PlannedTask("a", "", 1.0, "", {}, false)]

  function OneTaskMission(state: MissionState, status: G.NodeStatus, mine: set<L.AgentId>): (m: Mission) {
    var node := P.NodeOf(ONE_TASK[0]).(status := status);
    Mission(state, Some(PlanValue(ONE_TASK, G.GraphValue(map["a" := node], []))), mine)
  }

  lemma OneTaskIsCreated()
    ensures var m := OneTaskMission(Ready, G.Pending, {});
            Next(Start, CreateMission("m", ONE_TASK, Balanced, None), 1.0, Start.(missions := map["m" := m]))
  {
    var m := OneTaskMission(Ready, G.Pending, {});
    var tasks := ONE_TASK;
    assert forall t :: t in tasks ==> t == tasks[0];
    assert m.plan.value.graph.nodes.Keys == {"a"} == Ids(tasks);
    assert P.NodesOf(tasks, m.plan.value.graph.nodes);
    assert P.EdgesOf(tasks, m.plan.value.graph.edges);
    assert NewMission(Balanced, tasks, None, m);
  }

  lemma OneTaskRuns() returns (s: System)
    ensures Leads(Start, s) && Inv(s)
    ensures s == System(map["m" := OneTaskMission(Running, G.Pending, {})], map[], 0)
  {
    var s1 := Start.(missions := map["m" := OneTaskMission(Ready, G.Pending, {})]);
    s := MoveMission(s1, "m", Running);
    OneTaskIsCreated();
    LeadsToItself(Start);
    LeadsOn(Start, Start, CreateMission("m", ONE_TASK, Balanced, None), 1.0, s1);
    LeadsOn(Start, s1, StartMission("m"), 1.0, s);
    NextKeepsInv(Start, CreateMission("m", ONE_TASK, Balanced, None), 1.0, s1);
    NextKeepsInv(s1, StartMission("m"), 1.0, s);
    assert s.missions == map["m" := OneTaskMission(Running, G.Pending, {})];
  }

  lemma OneTaskGraph(g: G.GraphValue, g': G.GraphValue)
    requires g == OneTaskMission(Running, G.Pending, {}).plan.value.graph
    requires g' == OneTaskMission(Running, G.Running, {}).plan.value.graph
    ensures Synced({}, map[], g) == g && Started(g) == g' && !LeavesDone(g)
    ensures forall v :: v in g.nodes && IsReady(g, v) <==> v == "a"
  {
    assert IsLeaf(g.edges, "a") && PredsDone(g, "a");
    assert Synced({}, map[], g).nodes == g.nodes;
    assert Started(g).nodes == g'.nodes;
  }

  /** Its first tick starts the task. */
  lemma OneTaskIsStarted(s: System, launched: map<Id, L.AgentId>, s': System)
    requires s == System(map["m" := OneTaskMission(Running, G.Pending, {})], map[], 0) && Inv(s)
    requires Next(s, TickMission("m", launched, NoRuntime), 1.0, s')
    ensures "m" in s'.missions && s'.missions["m"] == OneTaskMission(Running, G.Running, launched.Values)
    ensures "a" in launched
  {
    var m, started := s.missions["m"], OneTaskMission(Running, G.Running, {}).plan.value;
    assert MissionInv("m", m, s.agents, s.nextSerial);
    OneTaskGraph(m.plan.value.graph, started.graph);
    assert "a" in Ids(ONE_TASK) by { assert ONE_TASK[0] in ONE_TASK; }
    assert "a" in ReadySet(m, s.agents);
    assert {} + launched.Values == launched.Values;
    assert Ticked(m, s.agents, launched) == Mission(Running, Some(started), launched.Values);
  }

  /** A run from the empty supervisor that loses the agent of its only task, and with it the mission. */
  lemma LostRun() returns (s: System)
    ensures Leads(Start, s) && "m" in s.missions && s.missions["m"].state == Running
    ensures IsLost(s.missions["m"], s.agents, "a")
  {
    var s1 := OneTaskRuns();
    var launched, s2 := TickExists(s1, "m");
    LeadsOn(Start, s1, TickMission("m", launched, NoRuntime), 1.0, s2);
    NextKeepsInv(s1, TickMission("m", launched, NoRuntime), 1.0, s2);
    OneTaskIsStarted(s1, launched, s2);
    InvSerials(s1, "m");
    LaunchedFacts(s1, "m", launched, NoRuntime, 1.0, s2);
    var a := launched["a"];
    assert a in launched.Values;
    s := CancelLoses(Start, s2, "m", a);
  }
}
