/** How many ticks an engine takes when the agents of all running nodes have completed by the next tick: tick k starts
    exactly level k-1, and tick L+1, not an earlier one, ends COMPLETED. */
module EngineRounds {
  import opened Results
  import opened Dag
  import opened Levels
  import opened EngineRuns
  import M = Missions
  import R = MissionRounds
  import G = ExecutionGraphs
  import L = Lifecycle

  /** Every running node has an agent with its task id, and all agents with that id have completed. */
  ghost predicate AllAnswered(g: G.GraphValue, agents: L.Agents) {
    forall v :: v in g.nodes && g.nodes[v].status == G.Running ==>
      && (exists a :: a in agents && agents[a].context.taskId == v)
      && (forall a :: a in agents && agents[a].context.taskId == v ==> agents[a].state == L.Completed)
  }

  /** Ticks only, each with what the agents report then. */
  ghost predicate TickAt(states: seq<Engine>, reports: seq<L.Agents>, i: nat)
    requires i < |reports| && |states| == |reports| + 1
  {
    Tick(states[i], reports[i], states[i + 1]) && AllAnswered(states[i].graph, reports[i])
  }

  ghost predicate IsPunctual(states: seq<Engine>, reports: seq<L.Agents>) {
    && |states| == |reports| + 1 && IsFresh(states[0])
    && forall i {:trigger TickAt(states, reports, i)} :: 0 <= i < |reports| ==> TickAt(states, reports, i)
  }

  /** After k ticks of the schedule. */
  ghost predicate OnTrack(e: Engine, levels: seq<set<Id>>, k: nat) {
    && e.state == Running && e.success == None && Within(e.graph.edges, e.graph.nodes.Keys)
    && IsLeveling(e.graph.nodes.Keys, e.graph.edges, levels) && R.AfterRounds(e.graph, levels, k)
  }

  /** The sync completes the running level. */
  lemma SyncCompletes(g: G.GraphValue, agents: L.Agents, g': G.GraphValue, levels: seq<set<Id>>, k: nat)
    requires SyncsTo(g, agents, g') && AllAnswered(g, agents) && R.AfterRounds(g, levels, k)
    ensures R.SplitAt(g', levels, k)
  {
    forall l, v | 0 <= l < |levels| && v in levels[l]
      ensures v in g'.nodes && g'.nodes[v].status == if l < k then G.Completed else G.Pending
    {
      assert v in g.nodes && g.nodes[v].status == R.StatusAfter(k, l);
      assert Follows(g.nodes[v], agents, v, g'.nodes[v]);
    }
  }

  /** While a level is left, the tick starts it and reaches no verdict. */
  lemma LevelGoesOn(g: G.GraphValue, levels: seq<set<Id>>, k: nat)
    requires IsLeveling(g.nodes.Keys, g.edges, levels) && Within(g.edges, g.nodes.Keys)
    requires R.SplitAt(g, levels, k) && k < |levels|
    ensures R.AfterRounds(M.Started(g), levels, k + 1)
    ensures forall v :: v in g.nodes && M.IsReady(g, v) <==> v in levels[k]
    ensures !Finished(M.Started(g)) && !HasFailed(M.Started(g))
  {
    R.LevelIsStarted(g, levels, k);
    var v :| v in levels[k];
    forall u | u in g.nodes ensures M.Started(g).nodes[u].status !in {G.Failed, G.Skipped} {
      var l := LevelFor(g.nodes.Keys, g.edges, levels, u);
      assert M.Started(g).nodes[u].status == R.StatusAfter(k + 1, l);
    }
    RunningGoesOn(M.Started(g), v);
  }

  /** With no level left, every node is completed and there is nothing to start. */
  lemma LastLevelIsDone(g: G.GraphValue, levels: seq<set<Id>>)
    requires IsLeveling(g.nodes.Keys, g.edges, levels) && R.SplitAt(g, levels, |levels|) && g.nodes != map[]
    ensures M.AllDone(g) && M.Started(g) == g && Finished(g)
  {
    forall v | v in g.nodes ensures g.nodes[v].status == G.Completed {
      var l := LevelFor(g.nodes.Keys, g.edges, levels, v);
    }
    NothingToStart(g);
  }

  lemma TrackOnce(e: Engine, agents: L.Agents, e': Engine, levels: seq<set<Id>>, k: nat)
    requires OnTrack(e, levels, k) && Tick(e, agents, e') && AllAnswered(e.graph, agents) && k < |levels|
    ensures OnTrack(e', levels, k + 1)
    ensures e'.graph.nodes.Keys == e.graph.nodes.Keys && e'.graph.edges == e.graph.edges
  {
    var g :| SyncsTo(e.graph, agents, g) && e' == Judged(e, M.Started(g));
    SyncCompletes(e.graph, agents, g, levels, k);
    LevelGoesOn(g, levels, k);
  }

  lemma TrackEnds(e: Engine, agents: L.Agents, e': Engine, levels: seq<set<Id>>)
    requires OnTrack(e, levels, |levels|) && Tick(e, agents, e') && AllAnswered(e.graph, agents)
    ensures e'.state == Completed <==> e.graph.nodes != map[]
    ensures e'.state == Completed ==> e'.success == Some(true) && M.AllDone(e'.graph)
  {
    var g :| SyncsTo(e.graph, agents, g) && e' == Judged(e, M.Started(g));
    assert g.nodes.Keys == e.graph.nodes.Keys;
    assert g.nodes == map[] <==> g.nodes.Keys == {};
    if e.graph.nodes != map[] {
      SyncCompletes(e.graph, agents, g, levels, |levels|);
      LastLevelIsDone(g, levels);
      FinishedIsNotFailed(g);
    }
  }

  /** Exact round bound of the engine: after tick k, for k up to the number L of levels, exactly the levels below k have
      been started and the engine still runs; tick L+1 ends COMPLETED, with success and every node completed, if and
      only if there is a task. */
  lemma {:induction false} RoundBound(states: seq<Engine>, reports: seq<L.Agents>, levels: seq<set<Id>>, k: nat)
    requires IsPunctual(states, reports) && k < |states| && k <= |levels| + 1
    requires IsLeveling(states[0].graph.nodes.Keys, states[0].graph.edges, levels)
    ensures k <= |levels| ==> OnTrack(states[k], levels, k) && states[k].graph.nodes.Keys == states[0].graph.nodes.Keys
    ensures k == |levels| + 1 ==>
      && (states[k].state == Completed <==> states[0].graph.nodes != map[])
      && (states[k].state == Completed ==> states[k].success == Some(true) && M.AllDone(states[k].graph))
  {
    if k > 0 {
      RoundBound(states, reports, levels, k - 1);
      assert TickAt(states, reports, k - 1);
      if k <= |levels| {
        TrackOnce(states[k - 1], reports[k - 1], states[k], levels, k - 1);
      } else {
        assert states[k - 1].graph.nodes.Keys == states[0].graph.nodes.Keys;
        assert forall i :: i in {0, k - 1} ==> (states[i].graph.nodes == map[] <==> states[i].graph.nodes.Keys == {});
        TrackEnds(states[k - 1], reports[k - 1], states[k], levels);
      }
    }
  }
}
