/** What starting, pausing, resuming and cancelling a mission do to it and to its agents, and what a cancelled mission
    keeps in every run. */
module MissionControls {
  import opened Results
  import opened Dag
  import opened TaskLists
  import opened Missions
  import opened MissionRuns
  import opened MissionTheorems
  import L = Lifecycle

  // ---- One operation ----

  /** The mission table read backwards: a mission can be started or resumed from READY and PAUSED alone, paused and
      completed from RUNNING alone, and cancelled from everywhere but its three ends. */
  lemma WaysInto(state: MissionState)
    ensures CanMove(state, Planning) <==> state == Created
    ensures CanMove(state, Ready) <==> state == Planning
    ensures CanMove(state, Completed) <==> state == Running
    ensures CanMove(state, Failed) <==> state == Planning || state == Running || state == Paused
    ensures !CanMove(state, Created)
    ensures CanMove(state, Running) <==> state == Ready || state == Paused
    ensures CanMove(state, Paused) <==> state == Running
    ensures CanMove(state, Cancelled) <==> state != Completed && state != Failed && state != Cancelled
  {
  }

  /** A start changes nothing but the state: a PAUSED mission that is started, and not resumed, keeps its agents
      paused. */
  lemma StartLeavesAgents(s: System, id: Id, now: real, s': System)
    requires Next(s, StartMission(id), now, s')
    ensures s.missions[id].state in {Ready, Paused} && s'.agents == s.agents
    ensures s'.missions == s.missions[id := s.missions[id].(state := Running)]
  {
  }

  /** A pause stops every running agent of the mission and touches no other. */
  lemma PauseStopsAgents(s: System, id: Id, now: real, s': System)
    requires Next(s, PauseMission(id), now, s')
    ensures s'.agents.Keys == s.agents.Keys
    ensures forall a :: a in s.agents ==>
      s'.agents[a] == if a in s.missions[id].agents && s.agents[a].state == L.Running
                      then s.agents[a].(state := L.Paused) else s.agents[a]
    ensures s'.missions == s.missions[id := s.missions[id].(state := Paused)]
  {
  }

  /** A resumption sets every paused agent of the mission going again, with its first start time, and touches no
      other. */
  lemma ResumeStartsAgents(s: System, id: Id, now: real, s': System)
    requires Next(s, ResumeMission(id), now, s')
    ensures s'.agents.Keys == s.agents.Keys
    ensures forall a :: a in s.agents ==>
      if a in s.missions[id].agents && s.agents[a].state == L.Paused then
        && s'.agents[a].state == L.Running && s'.agents[a].context == s.agents[a].context
        && (s.agents[a].startedAt.Some? && s.agents[a].startedAt.value != 0.0 ==>
              s'.agents[a].startedAt == s.agents[a].startedAt)
      else
        s'.agents[a] == s.agents[a]
    ensures s'.missions == s.missions[id := s.missions[id].(state := Running)]
  {
  }

  /** A cancel ends every agent of the mission that has not ended, and touches no other. */
  lemma CancelEndsAgents(s: System, id: Id, now: real, s': System)
    requires Next(s, CancelMission(id), now, s')
    ensures s'.agents.Keys == s.agents.Keys
    ensures forall a :: a in s.agents ==>
      if a in s.missions[id].agents && s.agents[a].state !in {L.Completed, L.Failed, L.Cancelled, L.Timeout} then
        && s'.agents[a].state == L.Cancelled && s'.agents[a].context == s.agents[a].context
        && s'.agents[a].finishedAt == Some(now)
      else
        s'.agents[a] == s.agents[a]
    ensures s'.missions == s.missions[id := s.missions[id].(state := Cancelled)]
  {
  }

  // ---- Every run ----

  /** A cancelled mission has only agents that have ended. */
  ghost predicate AllEnded(s: System, mid: Id) {
    mid in s.missions && s.missions[mid].state == Cancelled ==>
      forall a :: a in s.missions[mid].agents && a in s.agents ==>
        s.agents[a].state in {L.Completed, L.Failed, L.Cancelled, L.Timeout}
  }

  lemma AllEndedStep(s: System, action: Action, now: real, s': System, mid: Id)
    requires Inv(s) && Next(s, action, now, s') && AllEnded(s, mid)
    ensures AllEnded(s', mid)
  {
    if mid in s.missions && s'.missions[mid].state == Cancelled {
      if action.CancelMission? && action.id == mid {
        CancelEndsAgents(s, mid, now, s');
      } else {
        NextEvolves(s, action, now, s', mid);
        assert s'.missions[mid] == s.missions[mid];
      }
    }
  }

  lemma {:induction false} AllEndedInRun(states: seq<System>, what: seq<Occurrence>, j: nat, mid: Id)
    requires IsRun(states, what) && states[0] == Start && j < |states|
    ensures AllEnded(states[j], mid)
  {
    if j > 0 {
      AllEndedInRun(states, what, j - 1, mid);
      RunKeepsInv(states, what);
      assert Next(states[j - 1], what[j - 1].action, what[j - 1].now, states[j]);
      AllEndedStep(states[j - 1], what[j - 1].action, what[j - 1].now, states[j], mid);
    }
  }

  /** In every reachable state no agent of a cancelled mission is left at work. */
  lemma CancelledIsQuiet(s: System, mid: Id, a: L.AgentId)
    requires Reachable(s) && mid in s.missions && s.missions[mid].state == Cancelled
    requires a in s.missions[mid].agents && a in s.agents
    ensures s.agents[a].state in {L.Completed, L.Failed, L.Cancelled, L.Timeout}
  {
    var states, what :| IsRun(states, what) && states[0] == Start && states[|states| - 1] == s;
    AllEndedInRun(states, what, |states| - 1, mid);
  }

  // ---- New agents ----

  /** A tick's new agents: each works for its mission on its node, runs since now, and has the capability of its task
      and the runtime that the selector gives for it. */
  lemma LaunchedAgent(s: System, mid: Id, launched: map<Id, L.AgentId>, selector: string -> Option<string>, now: real,
                      s': System, v: Id)
    requires Next(s, TickMission(mid, launched, selector), now, s') && v in launched
    ensures launched[v] in s'.agents
    ensures var a := s'.agents[launched[v]];
            && a.id == a.context.id == launched[v] && a.context.missionId == mid && a.context.taskId == v
            && a.state == L.Running && a.createdAt == now && a.startedAt == Some(now) && a.finishedAt == None
            && a.statistics.executionCount == 0 && a.statistics.failures == 0
            && exists t :: t in s.missions[mid].plan.value.tasks && t.id == v &&
                 a.context.capability == t.capability && a.context.assignedRuntime == selector(t.capability)
  {
    assert LaunchedFor(s'.agents[launched[v]], launched[v], mid, s.missions[mid].plan.value.tasks, v, selector, now);
    assert launched[v] in launched.Values;
  }
}
