/** backend/agent/execution_engine.py as a state machine over values: one tick of the engine's own graph against
    whatever the agents report, and what every run keeps. */
module EngineRuns {
  import opened Results
  import opened Dag
  import M = Missions
  import G = ExecutionGraphs
  import L = Lifecycle

  datatype EngineState =
    | Idle | Initializing | Running | Waiting | Paused | Recovering | Completed | Failed | Cancelled

  /** `success` is the flag of the latest result, if there is one. */
  datatype Engine = Engine(state: EngineState, graph: G.GraphValue, success: Option<bool>)

  // ---- One tick ----

  /** How an agent's state settles the running node it works on. */
  function Settled(status: G.NodeStatus, state: L.AgentState): (r: G.NodeStatus) {
    match state
    case Completed => G.Completed
    case Failed => G.Failed
    case Timeout => G.Failed
    case Cancelled => G.Skipped
    case _ => status
  }

  /** Node v of g becomes n: a running node follows one agent that carries its task id, any other node stays. */
  ghost predicate Follows(node: G.AgentNode, agents: L.Agents, v: Id, n: G.AgentNode) {
    if node.status == G.Running && exists a :: a in agents && agents[a].context.taskId == v then
      exists a :: a in agents && agents[a].context.taskId == v &&
        n == node.(status := Settled(node.status, agents[a].state))
    else
      n == node
  }

  /** _sync_agent_states. */
  ghost predicate SyncsTo(g: G.GraphValue, agents: L.Agents, g': G.GraphValue) {
    && g'.edges == g.edges && g'.nodes.Keys == g.nodes.Keys
    && forall v {:trigger Follows(g.nodes[v], agents, v, g'.nodes[v])} ::
         v in g.nodes ==> Follows(g.nodes[v], agents, v, g'.nodes[v])
  }

  /** _is_graph_finished: every node has ended, well or badly. */
  ghost predicate Finished(g: G.GraphValue) {
    g.nodes != map[] && forall v :: v in g.nodes ==> g.nodes[v].status in {G.Completed, G.Failed, G.Skipped}
  }

  ghost predicate AllPredsFailed(g: G.GraphValue, v: Id) {
    && (exists e :: e in g.edges && e.target == v)
    && (forall e :: e in g.edges && e.target == v ==> e.source in g.nodes && g.nodes[e.source].status == G.Failed)
  }

  /** _has_graph_failed: some node has failed or was skipped, and all dependencies of some pending node have failed. */
  ghost predicate HasFailed(g: G.GraphValue) {
    && (exists v :: v in g.nodes && g.nodes[v].status in {G.Failed, G.Skipped})
    && (exists v :: v in g.nodes && g.nodes[v].status == G.Pending && AllPredsFailed(g, v))
  }

  /** Completion is checked first, failure second; the second verdict overwrites the first. */
  ghost function Judged(e: Engine, g: G.GraphValue): (r: Engine) {
    if HasFailed(g) then Engine(Failed, g, Some(false))
    else if Finished(g) then Engine(Completed, g, Some(true))
    else Engine(e.state, g, e.success)
  }

  ghost predicate Tick(e: Engine, agents: L.Agents, e': Engine) {
    if e.state != Running then e' == e else
      exists g :: SyncsTo(e.graph, agents, g) && e' == Judged(e, M.Started(g))
  }

  /** A cancel builds its result only after the supervisor has cancelled its mission; refused, it builds none. */
  datatype Action = TickWith(agents: L.Agents) | Pause | Resume | Cancel(built: bool) | Recover(resumed: bool)

  ghost predicate Next(e: Engine, action: Action, e': Engine) {
    match action
    case TickWith(agents) => Tick(e, agents, e')
    case Pause => e.state == Running && e' == e.(state := Paused)
    case Resume => e.state == Paused && e' == e.(state := Running)
    case Cancel(built) =>
      && e.state !in {Completed, Failed, Cancelled}
      && e' == e.(state := Cancelled, success := if built then Some(false) else e.success)
    case Recover(resumed) => e.state == Failed && e' == e.(state := if resumed then Running else Failed)
  }

  /** The controls change the state, a cancel with a result also the flag, and nothing else. */
  lemma ControlSteps(e: Engine, e': Engine)
    ensures Next(e, Pause, e') <==> e.state == Running && e' == Engine(Paused, e.graph, e.success)
    ensures Next(e, Resume, e') <==> e.state == Paused && e' == Engine(Running, e.graph, e.success)
    ensures forall built :: Next(e, Cancel(built), e') <==>
      e.state !in {Completed, Failed, Cancelled} &&
      e' == Engine(Cancelled, e.graph, if built then Some(false) else e.success)
    ensures forall resumed :: Next(e, Recover(resumed), e') <==>
      e.state == Failed && e' == Engine(if resumed then Running else Failed, e.graph, e.success)
  {
  }

  ghost predicate IsRun(states: seq<Engine>, what: seq<Action>) {
    && |states| == |what| + 1
    && forall i, j {:trigger Next(states[i], what[i], states[j])} ::
         0 <= i && j == i + 1 && j < |states| ==> Next(states[i], what[i], states[j])
  }

  /** An acyclic graph of which nothing has been dispatched. */
  ghost predicate Untouched(g: G.GraphValue) {
    && Within(g.edges, g.nodes.Keys) && Acyclic(g.edges)
    && forall v :: v in g.nodes ==> g.nodes[v].status == G.Pending
  }

  /** A freshly started engine. */
  ghost predicate IsFresh(e: Engine) {
    e.state == Running && e.success == None && Untouched(e.graph)
  }

  // ---- What one tick decides ----

  /** What a sync makes of a node: it leaves alone what does not run and what no ended agent works on; a failed or a
      timed-out agent makes its node FAILED, a cancelled one SKIPPED and a completed one COMPLETED. */
  lemma SyncDecides(g: G.GraphValue, agents: L.Agents, g': G.GraphValue, v: Id)
    requires SyncsTo(g, agents, g') && v in g.nodes
    ensures v in g'.nodes && g'.nodes[v] == g.nodes[v].(status := g'.nodes[v].status)
    ensures g.nodes[v].status != G.Running ==> g'.nodes[v].status == g.nodes[v].status
    ensures g.nodes[v].status == G.Running ==>
      && (g'.nodes[v].status == G.Failed ==>
            exists a :: a in agents && agents[a].context.taskId == v && agents[a].state in {L.Failed, L.Timeout})
      && (g'.nodes[v].status == G.Skipped ==>
            exists a :: a in agents && agents[a].context.taskId == v && agents[a].state == L.Cancelled)
      && (g'.nodes[v].status == G.Completed ==>
            exists a :: a in agents && agents[a].context.taskId == v && agents[a].state == L.Completed)
      && (g'.nodes[v].status == G.Running ==>
            forall a :: a in agents && agents[a].context.taskId == v ==>
              exists b :: b in agents && agents[b].context.taskId == v &&
                agents[b].state !in {L.Completed, L.Failed, L.Timeout, L.Cancelled})
      && g'.nodes[v].status in {G.Running, G.Completed, G.Failed, G.Skipped}
  {
    assert Follows(g.nodes[v], agents, v, g'.nodes[v]);
  }

  /** When all agents that work on a running node agree, so does the node. */
  lemma SyncAgrees(g: G.GraphValue, agents: L.Agents, g': G.GraphValue, v: Id)
    requires SyncsTo(g, agents, g') && v in g.nodes && g.nodes[v].status == G.Running
    ensures v in g'.nodes
    ensures (exists a :: a in agents && agents[a].context.taskId == v) ==>
      && ((forall a :: a in agents && agents[a].context.taskId == v ==> agents[a].state in {L.Failed, L.Timeout})
            ==> g'.nodes[v].status == G.Failed)
      && ((forall a :: a in agents && agents[a].context.taskId == v ==> agents[a].state == L.Cancelled)
            ==> g'.nodes[v].status == G.Skipped)
      && ((forall a :: a in agents && agents[a].context.taskId == v ==> agents[a].state == L.Completed)
            ==> g'.nodes[v].status == G.Completed)
    ensures (forall a :: a in agents && agents[a].context.taskId == v ==>
               agents[a].state !in {L.Completed, L.Failed, L.Timeout, L.Cancelled})
            ==> g'.nodes[v].status == G.Running
  {
    assert Follows(g.nodes[v], agents, v, g'.nodes[v]);
  }

  lemma BlockedStartFails(g: G.GraphValue, w: Id, d: Edge)
    requires w in g.nodes && g.nodes[w].status == G.Pending && d in g.edges && d.target == w
    requires forall d :: d in g.edges && d.target == w ==> d.source in g.nodes && g.nodes[d.source].status == G.Failed
    ensures HasFailed(M.Started(g))
  {
    assert !M.PredsDone(g, w);
    assert AllPredsFailed(M.Started(g), w);
    assert M.Started(g).nodes[d.source].status == G.Failed;
  }

  /** A failure or a timeout that leaves a pending node with none but FAILED dependencies fails the engine at once. */
  lemma BlockedTickFails(e: Engine, agents: L.Agents, e': Engine, w: Id)
    requires e.state == Running && Tick(e, agents, e')
    requires w in e.graph.nodes && e.graph.nodes[w].status == G.Pending
    requires exists d :: d in e.graph.edges && d.target == w
    requires forall d :: d in e.graph.edges && d.target == w ==>
      && d.source in e.graph.nodes
      && (e.graph.nodes[d.source].status == G.Failed ||
          (&& e.graph.nodes[d.source].status == G.Running
           && (exists a :: a in agents && agents[a].context.taskId == d.source)
           && (forall a :: a in agents && agents[a].context.taskId == d.source ==>
                 agents[a].state in {L.Failed, L.Timeout})))
    ensures e'.state == Failed && e'.success == Some(false)
  {
    var g :| SyncsTo(e.graph, agents, g) && e' == Judged(e, M.Started(g));
    SyncDecides(e.graph, agents, g, w);
    forall d | d in g.edges && d.target == w ensures d.source in g.nodes && g.nodes[d.source].status == G.Failed {
      SyncDecides(e.graph, agents, g, d.source);
    }
    var d :| d in e.graph.edges && d.target == w;
    BlockedStartFails(g, w, d);
  }

  lemma FailedMeans(g: G.GraphValue)
    ensures HasFailed(g) <==>
      && (exists v :: v in g.nodes && g.nodes[v].status in {G.Failed, G.Skipped})
      && exists w :: w in g.nodes && g.nodes[w].status == G.Pending &&
           (exists d :: d in g.edges && d.target == w) &&
           (forall d :: d in g.edges && d.target == w ==> d.source in g.nodes && g.nodes[d.source].status == G.Failed)
  {
    forall w ensures AllPredsFailed(g, w) <==>
      && (exists d :: d in g.edges && d.target == w)
      && (forall d :: d in g.edges && d.target == w ==> d.source in g.nodes && g.nodes[d.source].status == G.Failed)
    {
    }
  }

  lemma TickJudges(e: Engine, agents: L.Agents, e': Engine)
    requires e.state == Running && Tick(e, agents, e')
    ensures e'.state == Failed <==> HasFailed(e'.graph)
    ensures e'.state == Completed <==> Finished(e'.graph)
    ensures e'.state in {Running, Completed, Failed}
    ensures e'.success == if e'.state == Running then e.success else Some(e'.state == Completed)
  {
    var g :| SyncsTo(e.graph, agents, g) && e' == Judged(e, M.Started(g));
    if Finished(e'.graph) {
      FinishedIsNotFailed(e'.graph);
    }
  }

  /** The verdict of a tick, read off the graph that it leaves. It is FAILED exactly when something has ended badly and
      some pending node has dependencies, all of them FAILED. */
  lemma TickFailsIff(e: Engine, agents: L.Agents, e': Engine)
    requires e.state == Running && Tick(e, agents, e')
    ensures var nodes, edges := e'.graph.nodes, e'.graph.edges;
            e'.state == Failed <==>
              && (exists v :: v in nodes && nodes[v].status in {G.Failed, G.Skipped})
              && exists w :: w in nodes && nodes[w].status == G.Pending &&
                   (exists d :: d in edges && d.target == w) &&
                   (forall d :: d in edges && d.target == w ==>
                      d.source in nodes && nodes[d.source].status == G.Failed)
    ensures e'.state == Failed ==> e'.success == Some(false)
  {
    TickJudges(e, agents, e');
    FailedMeans(e'.graph);
  }

  /** It is COMPLETED exactly when there are nodes and all have ended, well or badly. */
  lemma TickCompletesIff(e: Engine, agents: L.Agents, e': Engine)
    requires e.state == Running && Tick(e, agents, e')
    ensures e'.state == Completed <==>
            e'.graph.nodes != map[] &&
            forall v :: v in e'.graph.nodes ==> e'.graph.nodes[v].status in {G.Completed, G.Failed, G.Skipped}
    ensures e'.state == Completed ==> e'.success == Some(true)
    ensures e'.state !in {Completed, Failed} ==> e'.state == Running && e'.success == e.success
  {
    TickJudges(e, agents, e');
  }

  // ---- The invariant ----

  ghost predicate Caused(g: G.GraphValue) {
    && M.Grounded(g)
    && forall v :: v in g.nodes ==> g.nodes[v].status in {G.Pending, G.Running, G.Completed, G.Failed, G.Skipped}
  }

  ghost predicate Inv(e: Engine) {
    && Within(e.graph.edges, e.graph.nodes.Keys) && Acyclic(e.graph.edges)
    && Caused(e.graph)
    && (e.state == Completed ==> Finished(e.graph))
    && (e.state == Failed ==> HasFailed(e.graph))
  }

  predicate Later(before: G.NodeStatus, after: G.NodeStatus) {
    M.Moves(before, after, {G.Completed, G.Failed, G.Skipped})
  }

  /** Same shape, and every status equal or later. */
  ghost predicate Advances(g: G.GraphValue, g': G.GraphValue) {
    && g'.edges == g.edges && g'.nodes.Keys == g.nodes.Keys
    && forall v :: v in g.nodes ==> Later(g.nodes[v].status, g'.nodes[v].status)
  }

  lemma SyncKeepsCaused(g: G.GraphValue, agents: L.Agents, g': G.GraphValue)
    requires Caused(g) && SyncsTo(g, agents, g')
    ensures Caused(g') && Advances(g, g')
  {
    forall v | v in g.nodes
      ensures Later(g.nodes[v].status, g'.nodes[v].status)
      ensures g.nodes[v].status == G.Pending <==> g'.nodes[v].status == G.Pending
      ensures g.nodes[v].status == G.Completed ==> g'.nodes[v].status == G.Completed
      ensures g'.nodes[v].status in {G.Pending, G.Running, G.Completed, G.Failed, G.Skipped}
    {
      assert Follows(g.nodes[v], agents, v, g'.nodes[v]);
    }
    forall v | v in g'.nodes && g'.nodes[v].status != G.Pending ensures M.PredsDone(g', v) {
      assert M.PredsDone(g, v);
    }
  }

  lemma StartKeepsCaused(g: G.GraphValue)
    requires Caused(g)
    ensures Caused(M.Started(g)) && Advances(g, M.Started(g))
  {
    var g' := M.Started(g);
    forall v | v in g.nodes && g'.nodes[v].status != G.Pending ensures M.PredsDone(g', v) {
      assert M.PredsDone(g, v);
    }
  }

  lemma AdvancesTransitive(g: G.GraphValue, g': G.GraphValue, g'': G.GraphValue)
    requires Advances(g, g') && Advances(g', g'')
    ensures Advances(g, g'')
  {
  }

  /** The graph after one tick: later statuses, same invariant. */
  lemma TickedGraph(e: Engine, agents: L.Agents, e': Engine) returns (g: G.GraphValue)
    requires Caused(e.graph) && e.state == Running && Tick(e, agents, e')
    ensures SyncsTo(e.graph, agents, g) && e' == Judged(e, M.Started(g)) && e'.graph == M.Started(g)
    ensures Caused(e'.graph) && Advances(e.graph, e'.graph)
  {
    g :| SyncsTo(e.graph, agents, g) && e' == Judged(e, M.Started(g));
    SyncKeepsCaused(e.graph, agents, g);
    StartKeepsCaused(g);
    AdvancesTransitive(e.graph, g, M.Started(g));
  }

  lemma NextKeepsInv(e: Engine, action: Action, e': Engine)
    requires Inv(e) && Next(e, action, e')
    ensures Inv(e') && Advances(e.graph, e'.graph)
  {
    if action.TickWith? && e.state == Running {
      var g := TickedGraph(e, action.agents, e');
    }
  }

  lemma {:induction false} RunKeepsInv(states: seq<Engine>, what: seq<Action>, j: nat)
    requires IsRun(states, what) && IsFresh(states[0]) && j < |states|
    ensures Inv(states[j])
  {
    if j > 0 {
      RunKeepsInv(states, what, j - 1);
      assert Next(states[j - 1], what[j - 1], states[j]);
      NextKeepsInv(states[j - 1], what[j - 1], states[j]);
    }
  }

  // ---- What every run keeps ----

  /** Dispatch safety: whatever has left PENDING has all its ancestors completed, whatever the agents report. */
  lemma DispatchIsSafe(states: seq<Engine>, what: seq<Action>, j: nat, u: Id, v: Id)
    requires IsRun(states, what) && IsFresh(states[0]) && j < |states|
    requires v in states[j].graph.nodes && states[j].graph.nodes[v].status != G.Pending
    requires u != v && Reaches(states[j].graph.edges, u, v)
    ensures u in states[j].graph.nodes && states[j].graph.nodes[u].status == G.Completed
  {
    RunKeepsInv(states, what, j);
    M.AncestorsDone(states[j].graph, u, v);
  }

  /** Ended nodes stay as they are and every node leaves PENDING at most once. */
  lemma {:induction false} RunAdvances(states: seq<Engine>, what: seq<Action>, i: nat, j: nat)
    requires IsRun(states, what) && IsFresh(states[0]) && i <= j < |states|
    ensures Advances(states[i].graph, states[j].graph)
    decreases j
  {
    if i < j {
      RunAdvances(states, what, i, j - 1);
      RunKeepsInv(states, what, j - 1);
      assert Next(states[j - 1], what[j - 1], states[j]);
      NextKeepsInv(states[j - 1], what[j - 1], states[j]);
    }
  }

  /** Once a node has failed or was skipped, nothing that depends on it is ever dispatched. */
  lemma FailureIsContained(states: seq<Engine>, what: seq<Action>, i: nat, j: nat, v: Id, w: Id)
    requires IsRun(states, what) && IsFresh(states[0]) && i <= j < |states|
    requires v in states[i].graph.nodes && states[i].graph.nodes[v].status in {G.Failed, G.Skipped}
    requires w in states[i].graph.nodes && w != v && Reaches(states[i].graph.edges, v, w)
    ensures w in states[j].graph.nodes && states[j].graph.nodes[w].status == G.Pending
  {
    RunAdvances(states, what, i, j);
    if states[j].graph.nodes[w].status != G.Pending {
      DispatchIsSafe(states, what, j, v, w);
    }
  }

  // ---- Verdicts ----

  /** A completed engine has only leaves that ended badly: every node that something depends on is completed. */
  lemma CompletedFailsOnlyAtLeaves(states: seq<Engine>, what: seq<Action>, j: nat, v: Id)
    requires IsRun(states, what) && IsFresh(states[0]) && j < |states|
    requires states[j].state == Completed && v in states[j].graph.nodes && !IsLeaf(states[j].graph.edges, v)
    ensures states[j].graph.nodes[v].status == G.Completed
  {
    RunKeepsInv(states, what, j);
    var g := states[j].graph;
    var e :| e in g.edges && e.source == v;
    assert g.nodes[e.target].status != G.Pending;
  }

  /** A completed engine always reports success; the report means "every node completed"
      exactly when every leaf completed. */
  lemma SuccessMeansAllDoneIff(states: seq<Engine>, what: seq<Action>, j: nat)
    requires IsRun(states, what) && IsFresh(states[0]) && j < |states| && states[j].state == Completed
    ensures M.AllDone(states[j].graph) <==> M.LeavesDone(states[j].graph)
  {
    var g := states[j].graph;
    if M.LeavesDone(g) {
      forall v | v in g.nodes ensures g.nodes[v].status == G.Completed {
        if !IsLeaf(g.edges, v) {
          CompletedFailsOnlyAtLeaves(states, what, j, v);
        }
      }
    }
  }

  lemma {:induction false} CompletedReportsSuccess(states: seq<Engine>, what: seq<Action>, j: nat)
    requires IsRun(states, what) && IsFresh(states[0]) && j < |states|
    ensures states[j].state == Completed ==> states[j].success == Some(true)
  {
    if j > 0 {
      CompletedReportsSuccess(states, what, j - 1);
      assert Next(states[j - 1], what[j - 1], states[j]);
    }
  }

  /** The two verdicts never meet: a finished graph has no pending node left to be blocked. */
  lemma FinishedIsNotFailed(g: G.GraphValue)
    requires Finished(g)
    ensures !HasFailed(g)
  {
  }

  ghost predicate AnyRunning(g: G.GraphValue) {
    exists v :: v in g.nodes && g.nodes[v].status == G.Running
  }

  /** With nothing running, a further tick changes nothing, whatever the agents report. */
  lemma IdleTickChangesNothing(e: Engine, agents: L.Agents, e': Engine)
    requires e.state == Running && !AnyRunning(e.graph)
    requires forall v :: v in e.graph.nodes ==> !M.IsReady(e.graph, v)
    requires !Finished(e.graph) && !HasFailed(e.graph)
    requires Tick(e, agents, e')
    ensures e' == e
  {
    var g :| SyncsTo(e.graph, agents, g) && e' == Judged(e, M.Started(g));
    forall v | v in e.graph.nodes ensures g.nodes[v] == e.graph.nodes[v] {
      assert Follows(e.graph.nodes[v], agents, v, g.nodes[v]);
    }
    assert g.nodes == e.graph.nodes;
    assert M.Started(g).nodes == g.nodes;
  }

  /** After a tick nothing is ready any more. */
  lemma NothingLeftReady(g: G.GraphValue, v: Id)
    requires v in g.nodes
    ensures !M.IsReady(M.Started(g), v)
  {
    if g.nodes[v].status == G.Pending && !M.PredsDone(g, v) {
      var e :| e in g.edges && e.target == v && !(e.source in g.nodes && g.nodes[e.source].status == G.Completed);
      assert !M.PredsDone(M.Started(g), v);
    }
  }

  /** A pending node whose dependencies have all failed makes the graph a failed one. */
  lemma BlockedMeansFailed(g: G.GraphValue, v: Id)
    requires Within(g.edges, g.nodes.Keys) && v in g.nodes && g.nodes[v].status == G.Pending && AllPredsFailed(g, v)
    ensures HasFailed(g)
  {
    var d :| d in g.edges && d.target == v;
    assert g.nodes[d.source].status == G.Failed;
  }

  ghost predicate NoneBlocked(g: G.GraphValue) {
    forall v :: v in g.nodes && g.nodes[v].status == G.Pending ==> !AllPredsFailed(g, v)
  }

  ghost predicate AnyPending(g: G.GraphValue) {
    exists v :: v in g.nodes && g.nodes[v].status == G.Pending
  }

  lemma VerdictOf(e: Engine, g: G.GraphValue)
    requires Within(g.edges, g.nodes.Keys) && Caused(g) && !AnyRunning(g) && e.state == Running
    ensures Judged(e, g).state == Running <==> g.nodes == map[] || (AnyPending(g) && NoneBlocked(g))
  {
    if v :| v in g.nodes && g.nodes[v].status == G.Pending && AllPredsFailed(g, v) {
      BlockedMeansFailed(g, v);
    }
  }

  /** RUNNING for ever: no tick changes anything, whatever the agents report. */
  ghost predicate Stuck(e: Engine) {
    e.state == Running && forall later, e' :: Tick(e, later, e') ==> e' == e
  }

  lemma IdleIsStuck(e: Engine)
    requires e.state == Running && !AnyRunning(e.graph) && !Finished(e.graph) && !HasFailed(e.graph)
    requires forall v :: v in e.graph.nodes ==> !M.IsReady(e.graph, v)
    ensures Stuck(e)
  {
    forall later, e' | Tick(e, later, e') ensures e' == e {
      IdleTickChangesNothing(e, later, e');
    }
  }

  /** Exactly when the engine gets stuck: after a tick that leaves nothing running, it has reached a verdict unless
      it has no tasks at all, or some node is pending and no pending node has all its dependencies FAILED; then it
      stays RUNNING for ever. */
  lemma StuckExactly(e: Engine, agents: L.Agents, e': Engine)
    requires Inv(e) && e.state == Running && Tick(e, agents, e') && !AnyRunning(e'.graph)
    ensures e'.state == Running <==> e'.graph.nodes == map[] || (AnyPending(e'.graph) && NoneBlocked(e'.graph))
    ensures e'.state == Running ==> Stuck(e')
  {
    var g := TickedGraph(e, agents, e');
    VerdictOf(e, e'.graph);
    if e'.state == Running {
      forall v | v in g.nodes ensures !M.IsReady(e'.graph, v) {
        NothingLeftReady(g, v);
      }
      IdleIsStuck(e');
    }
  }

  function ExampleNode(v: Id, status: G.NodeStatus): (n: G.AgentNode) {
    G.AgentNode(v, v, G.NodeType.Task, status, "chat")
  }

  /** An agent that works on v. */
  function ExampleAgent(v: Id, state: L.AgentState): (a: L.AgentInstance) {
    var id := L.Named(v);
    L.AgentInstance(id, state, L.AgentContext(id, "m", v, "chat", None), 1.0, Some(1.0), None,
                    L.AgentStatistics(0, 0, 0.0, None))
  }

  /** c depends on a and b. */
  function Fork(a: G.NodeStatus, b: G.NodeStatus): (g: G.GraphValue) {
    G.GraphValue(map["a" := ExampleNode("a", a), "b" := ExampleNode("b", b), "c" := ExampleNode("c", G.Pending)],
                 [Edge("a", "c", ""), Edge("b", "c", "")])
  }

  /** c depends on a, which has completed, and on b, which has failed. */
  function HalfFailed(): (g: G.GraphValue) {
    Fork(G.Completed, G.Failed)
  }

  lemma ForkIsAcyclic(a: G.NodeStatus, b: G.NodeStatus)
    ensures var g := Fork(a, b);
            && Within(g.edges, g.nodes.Keys) && Acyclic(g.edges)
            && (forall e :: e in g.edges <==> e == Edge("a", "c", "") || e == Edge("b", "c", ""))
            && (M.PredsDone(g, "c") <==> a == G.Completed && b == G.Completed)
            && (AllPredsFailed(g, "c") <==> a == G.Failed && b == G.Failed)
  {
    var g := Fork(a, b);
    assert g.edges[0] == Edge("a", "c", "") && g.edges[1] == Edge("b", "c", "");
    RankedIsAcyclic(g.edges, v => if v == "c" then 1 else 0);
  }

  lemma HalfFailedHasNoVerdict(g: G.GraphValue)
    requires g == HalfFailed()
    ensures !AnyRunning(g) && !Finished(g) && !HasFailed(g)
    ensures forall v :: v in g.nodes ==> !M.IsReady(g, v)
  {
    ForkIsAcyclic(G.Completed, G.Failed);
    assert "c" in g.nodes && g.nodes["c"].status == G.Pending;
    forall v | v in g.nodes && g.nodes[v].status == G.Pending ensures v == "c" {
      assert v == "a" || v == "b" || v == "c";
    }
  }

  /** The first tick of the fork starts a and b. */
  lemma ForkStarts()
    ensures M.Started(Fork(G.Pending, G.Pending)) == Fork(G.Running, G.Running)
  {
    var g, g' := Fork(G.Pending, G.Pending), Fork(G.Running, G.Running);
    ForkIsAcyclic(G.Pending, G.Pending);
    assert M.PredsDone(g, "a") && M.PredsDone(g, "b") && !M.PredsDone(g, "c");
    forall v | v in g.nodes ensures M.Started(g).nodes[v] == g'.nodes[v] {
      assert v == "a" || v == "b" || v == "c";
    }
    assert M.Started(g).nodes == g'.nodes;
  }

  lemma NothingToStart(g: G.GraphValue)
    requires forall v :: v in g.nodes ==> !M.IsReady(g, v)
    ensures M.Started(g) == g
  {
    assert M.Started(g).nodes == g.nodes;
  }

  /** A tick whose verdict is to go on. */
  lemma TickGoesOn(e: Engine, agents: L.Agents, g: G.GraphValue)
    requires e.state == Running && SyncsTo(e.graph, agents, g) && !Finished(M.Started(g)) && !HasFailed(M.Started(g))
    ensures Tick(e, agents, e.(graph := M.Started(g)))
  {
    assert e.(graph := M.Started(g)) == Judged(e, M.Started(g));
  }

  /** While something runs and nothing has ended badly, there is no verdict. */
  lemma RunningGoesOn(g: G.GraphValue, v: Id)
    requires v in g.nodes && g.nodes[v].status == G.Running
    requires forall u :: u in g.nodes ==> g.nodes[u].status !in {G.Failed, G.Skipped}
    ensures !Finished(g) && !HasFailed(g)
  {
  }

  lemma TwoTicks(e0: Engine, a0: L.Agents, e1: Engine, a1: L.Agents, e2: Engine)
    requires Tick(e0, a0, e1) && Tick(e1, a1, e2)
    ensures IsRun([e0, e1, e2], [TickWith(a0), TickWith(a1)])
  {
    var states, what := [e0, e1, e2], [TickWith(a0), TickWith(a1)];
    forall i, j | 0 <= i && j == i + 1 && j < |states| ensures Next(states[i], what[i], states[j]) {
      assert i == 0 || i == 1;
    }
  }

  lemma NothingToSync(g: G.GraphValue, agents: L.Agents)
    requires !AnyRunning(g)
    ensures SyncsTo(g, agents, g)
  {
  }

  /** What a's completion and b's failure make of the running fork. */
  lemma ForkSyncs(agents: L.Agents)
    requires agents == map[L.Named("a") := ExampleAgent("a", L.Completed), L.Named("b") := ExampleAgent("b", L.Failed)]
    ensures SyncsTo(Fork(G.Running, G.Running), agents, HalfFailed())
  {
    var g, g' := Fork(G.Running, G.Running), HalfFailed();
    assert agents[L.Named("a")].context.taskId == "a" && agents[L.Named("b")].context.taskId == "b";
    forall v | v in g.nodes ensures Follows(g.nodes[v], agents, v, g'.nodes[v]) {
      assert v == "a" || v == "b" || v == "c";
    }
  }

  lemma ForkFirstTick(none: L.Agents)
    ensures Tick(Engine(Running, Fork(G.Pending, G.Pending), None), none,
                 Engine(Running, Fork(G.Running, G.Running), None))
  {
    var g := Fork(G.Running, G.Running);
    ForkStarts();
    NothingToSync(Fork(G.Pending, G.Pending), none);
    forall v | v in g.nodes ensures g.nodes[v].status !in {G.Failed, G.Skipped} {
      assert v == "a" || v == "b" || v == "c";
    }
    RunningGoesOn(g, "a");
    TickGoesOn(Engine(Running, Fork(G.Pending, G.Pending), None), none, Fork(G.Pending, G.Pending));
  }

  lemma ForkSecondTick(agents: L.Agents)
    requires agents == map[L.Named("a") := ExampleAgent("a", L.Completed), L.Named("b") := ExampleAgent("b", L.Failed)]
    ensures Tick(Engine(Running, Fork(G.Running, G.Running), None), agents, Engine(Running, HalfFailed(), None))
  {
    ForkSyncs(agents);
    HalfFailedHasNoVerdict(HalfFailed());
    NothingToStart(HalfFailed());
    TickGoesOn(Engine(Running, Fork(G.Running, G.Running), None), agents, HalfFailed());
  }

  lemma ForkIsFresh(e: Engine)
    requires e == Engine(Running, Fork(G.Pending, G.Pending), None)
    ensures IsFresh(e)
  {
    ForkIsAcyclic(G.Pending, G.Pending);
    assert forall v :: v in e.graph.nodes ==> v == "a" || v == "b" || v == "c";
  }

  /** An engine gets there: it starts with everything pending, starts a and b, hears that a completed and b failed, and
      from then on no tick changes anything, whatever the agents report. */
  lemma StuckRun() returns (states: seq<Engine>, what: seq<Action>)
    ensures IsRun(states, what) && IsFresh(states[0]) && |states| == 3
    ensures states[2].state == Running && states[2].graph == HalfFailed()
    ensures Stuck(states[2])
  {
    var agents := map[L.Named("a") := ExampleAgent("a", L.Completed), L.Named("b") := ExampleAgent("b", L.Failed)];
    var e0 := Engine(Running, Fork(G.Pending, G.Pending), None);
    var e1 := Engine(Running, Fork(G.Running, G.Running), None);
    var e2 := Engine(Running, HalfFailed(), None);
    states, what := [e0, e1, e2], [TickWith(map[]), TickWith(agents)];
    ForkIsFresh(e0);
    ForkFirstTick(map[]);
    ForkSecondTick(agents);
    TwoTicks(e0, map[], e1, agents, e2);
    HalfFailedHasNoVerdict(e2.graph);
    IdleIsStuck(e2);
  }

  // ---- Which engines can get stuck ----

  /** Some run from e leaves it stuck. */
  ghost predicate CanGetStuck(e: Engine) {
    exists states, what :: IsRun(states, what) && states[0] == e && Stuck(states[|states| - 1])
  }

  /** All running agents are cancelled. */
  ghost function Cancellations(g: G.GraphValue): (agents: L.Agents) {
    map v | v in g.nodes && g.nodes[v].status == G.Running :: L.Named(v) := ExampleAgent(v, L.Cancelled)
  }

  /** Running nodes are skipped. */
  ghost function AllSkipped(g: G.GraphValue): (r: G.GraphValue) {
    g.(nodes := map v | v in g.nodes ::
         if g.nodes[v].status == G.Running then g.nodes[v].(status := G.Skipped) else g.nodes[v])
  }

  lemma CancellationsSkip(g: G.GraphValue)
    ensures SyncsTo(g, Cancellations(g), AllSkipped(g))
  {
    var agents, g' := Cancellations(g), AllSkipped(g);
    assert g'.nodes.Keys == g.nodes.Keys;
    forall v | v in g.nodes ensures Follows(g.nodes[v], agents, v, g'.nodes[v]) {
      if g.nodes[v].status == G.Running {
        assert agents[L.Named(v)].context.taskId == v;
      }
    }
  }

  /** The first tick starts the roots, and the target of an edge stays pending. */
  lemma FreshTick(e: Engine, d: Edge)
    requires IsFresh(e) && d in e.graph.edges
    ensures Tick(e, map[], e.(graph := M.Started(e.graph)))
    ensures !M.IsReady(e.graph, d.target)
  {
    var g := M.Started(e.graph);
    NothingToSync(e.graph, map[]);
    assert e.graph.nodes[d.source].status == G.Pending && !M.PredsDone(e.graph, d.target);
    assert g.nodes[d.target].status == G.Pending;
    TickGoesOn(e, map[], e.graph);
  }

  /** When all roots are cancelled, nothing becomes ready. */
  lemma NothingFollowsSkipped(g0: G.GraphValue, v: Id)
    requires Untouched(g0) && v in g0.nodes
    ensures !M.IsReady(AllSkipped(M.Started(g0)), v)
  {
    var g := AllSkipped(M.Started(g0));
    if g.nodes[v].status == G.Pending {
      assert !M.PredsDone(g0, v);
      var e :| e in g0.edges && e.target == v && !(e.source in g0.nodes && g0.nodes[e.source].status == G.Completed);
      assert g.nodes[e.source].status != G.Completed;
    }
  }

  /** Nothing runs then, nothing has failed, and the target of an edge is left. */
  lemma SkippedRoots(g0: G.GraphValue, g: G.GraphValue, v: Id)
    requires Untouched(g0) && g == AllSkipped(M.Started(g0)) && v in g0.nodes && !M.IsReady(g0, v)
    ensures !AnyRunning(g) && !Finished(g) && !HasFailed(g)
  {
    assert g.nodes[v].status == G.Pending;
  }

  lemma CancelledTick(e0: Engine, e1: Engine, e2: Engine, v: Id)
    requires IsFresh(e0) && v in e0.graph.nodes && !M.IsReady(e0.graph, v)
    requires e1 == e0.(graph := M.Started(e0.graph)) && e2 == e0.(graph := AllSkipped(e1.graph))
    ensures Tick(e1, Cancellations(e1.graph), e2) && Stuck(e2)
  {
    CancellationsSkip(e1.graph);
    SkippedRoots(e0.graph, e2.graph, v);
    forall u | u in e2.graph.nodes ensures !M.IsReady(e2.graph, u) {
      NothingFollowsSkipped(e0.graph, u);
    }
    NothingToStart(e2.graph);
    TickGoesOn(e1, Cancellations(e1.graph), e2.graph);
    IdleIsStuck(e2);
  }

  lemma StuckInTwo(e0: Engine, a0: L.Agents, e1: Engine, a1: L.Agents, e2: Engine)
    requires Tick(e0, a0, e1) && Tick(e1, a1, e2) && Stuck(e2)
    ensures CanGetStuck(e0)
  {
    TwoTicks(e0, a0, e1, a1, e2);
    var states := [e0, e1, e2];
    assert states[|states| - 1] == e2;
  }

  /** Cancelling all the roots gets any engine with a dependency stuck, in two ticks. */
  lemma DependencyCanGetStuck(e: Engine)
    requires IsFresh(e) && e.graph.edges != []
    ensures CanGetStuck(e)
  {
    var d := e.graph.edges[0];
    var e1 := e.(graph := M.Started(e.graph));
    var e2 := e.(graph := AllSkipped(e1.graph));
    FreshTick(e, d);
    CancelledTick(e, e1, e2, d.target);
    StuckInTwo(e, map[], e1, Cancellations(e1.graph), e2);
  }

  lemma NoTasksIsStuck(e: Engine)
    requires IsFresh(e) && e.graph.nodes == map[]
    ensures CanGetStuck(e)
  {
    IdleIsStuck(e);
    var what: seq<Action> := [];
    assert IsRun([e], what) && [e][|[e]| - 1] == e;
  }

  /** Without dependencies every RUNNING engine with tasks can be moved by some report. */
  lemma NoDependencyNoStuck(e: Engine)
    requires Inv(e) && e.graph.nodes != map[] && e.graph.edges == []
    ensures !Stuck(e)
  {
    var g := e.graph;
    if e.state == Running {
      if AnyRunning(g) {
        var v :| v in g.nodes && g.nodes[v].status == G.Running;
        CompletionMoves(e, v);
      } else {
        NothingToSync(g, map[]);
        assert Tick(e, map[], Judged(e, M.Started(g)));
        if AnyPending(g) {
          var v :| v in g.nodes && g.nodes[v].status == G.Pending;
          assert M.Started(g).nodes[v].status == G.Running;
        } else {
          NothingToStart(g);
          assert Judged(e, M.Started(g)).state == Completed;
        }
      }
    }
  }

  /** The completion of one running node changes the graph. */
  lemma CompletionMoves(e: Engine, v: Id)
    requires e.state == Running && v in e.graph.nodes && e.graph.nodes[v].status == G.Running
    ensures !Stuck(e)
  {
    var agents: L.Agents := map[L.Named(v) := ExampleAgent(v, L.Completed)];
    var g := e.graph.(nodes := e.graph.nodes[v := e.graph.nodes[v].(status := G.Completed)]);
    assert agents[L.Named(v)].context.taskId == v;
    assert Follows(e.graph.nodes[v], agents, v, g.nodes[v]);
    assert SyncsTo(e.graph, agents, g);
    assert Tick(e, agents, Judged(e, M.Started(g)));
    assert M.Started(g).nodes[v].status == G.Completed;
  }

  /** A fresh engine can be brought to stay RUNNING for ever exactly when it has no task or some dependency. */
  lemma CanGetStuckIff(e: Engine)
    requires IsFresh(e)
    ensures CanGetStuck(e) <==> e.graph.nodes == map[] || e.graph.edges != []
  {
    if e.graph.nodes == map[] {
      NoTasksIsStuck(e);
    } else if e.graph.edges != [] {
      DependencyCanGetStuck(e);
    } else if CanGetStuck(e) {
      var states: seq<Engine>, what: seq<Action> :|
        IsRun(states, what) && states[0] == e && Stuck(states[|states| - 1]);
      RunKeepsInv(states, what, |states| - 1);
      RunAdvances(states, what, 0, |states| - 1);
      assert states[|states| - 1].graph.nodes.Keys == e.graph.nodes.Keys != {};
      NoDependencyNoStuck(states[|states| - 1]);
      assert false;
    }
  }

  function Single(status: G.NodeStatus): (g: G.GraphValue) {
    G.GraphValue(map["a" := ExampleNode("a", status)], [])
  }

  lemma SingleFirstTick(none: L.Agents)
    ensures Tick(Engine(Running, Single(G.Pending), None), none, Engine(Running, Single(G.Running), None))
  {
    var g := Single(G.Pending);
    NothingToSync(g, none);
    assert M.PredsDone(g, "a");
    assert M.Started(g).nodes == Single(G.Running).nodes;
    assert Single(G.Running).nodes["a"].status == G.Running;
    TickGoesOn(Engine(Running, g, None), none, g);
  }

  lemma SingleSecondTick(agents: L.Agents)
    requires agents == map[L.Named("a") := ExampleAgent("a", L.Failed)]
    ensures Tick(Engine(Running, Single(G.Running), None), agents, Engine(Completed, Single(G.Failed), Some(true)))
  {
    var g, g' := Single(G.Running), Single(G.Failed);
    assert agents[L.Named("a")].context.taskId == "a";
    assert Follows(g.nodes["a"], agents, "a", g'.nodes["a"]);
    assert SyncsTo(g, agents, g');
    NothingToStart(g');
    assert Finished(g') && !HasFailed(g');
    assert Engine(Completed, g', Some(true)) == Judged(Engine(Running, g, None), M.Started(g'));
  }

  lemma SingleIsFresh(e: Engine)
    requires e == Engine(Running, Single(G.Pending), None)
    ensures IsFresh(e)
  {
    RankedIsAcyclic(e.graph.edges, v => 0);
  }

  /** A run whose only task fails, and which ends COMPLETED with a report of success. */
  lemma SuccessWithFailedLeaf() returns (states: seq<Engine>, what: seq<Action>)
    ensures IsRun(states, what) && IsFresh(states[0]) && |states| == 3
    ensures states[2].state == Completed && states[2].success == Some(true)
    ensures "a" in states[2].graph.nodes && states[2].graph.nodes["a"].status == G.Failed
  {
    var agents := map[L.Named("a") := ExampleAgent("a", L.Failed)];
    var e0 := Engine(Running, Single(G.Pending), None);
    var e1 := Engine(Running, Single(G.Running), None);
    var e2 := Engine(Completed, Single(G.Failed), Some(true));
    states, what := [e0, e1, e2], [TickWith(map[]), TickWith(agents)];
    SingleIsFresh(e0);
    SingleFirstTick(map[]);
    SingleSecondTick(agents);
    TwoTicks(e0, map[], e1, agents, e2);
  }

  /** A blocked node stays blocked. */
  lemma FailurePersists(g: G.GraphValue, g': G.GraphValue)
    requires Within(g.edges, g.nodes.Keys) && HasFailed(g) && Advances(g, g') && Caused(g')
    ensures HasFailed(g')
  {
    var v :| v in g.nodes && g.nodes[v].status == G.Pending && AllPredsFailed(g, v);
    var d :| d in g.edges && d.target == v;
    forall e | e in g.edges && e.target == v ensures g'.nodes[e.source].status == G.Failed {
      assert g.nodes[e.source].status == G.Failed;
    }
    assert !M.PredsDone(g', v);
    BlockedMeansFailed(g', v);
  }

  lemma TickFailsAgain(e: Engine, agents: L.Agents, e': Engine)
    requires Inv(e) && HasFailed(e.graph) && e.state == Running && Tick(e, agents, e')
    ensures e'.state == Failed && e'.success == Some(false)
  {
    var g := TickedGraph(e, agents, e');
    FailurePersists(e.graph, e'.graph);
  }

  /** Recovery does not help an engine that has failed in a tick: it never completes, and every later tick that finds
      it RUNNING makes it FAILED again. */
  lemma RecoveryFailsAgain(states: seq<Engine>, what: seq<Action>, i: nat, j: nat)
    requires IsRun(states, what) && IsFresh(states[0]) && i <= j < |states| && states[i].state == Failed
    ensures states[j].state != Completed
    ensures j < |what| && what[j].TickWith? && states[j].state == Running ==>
      states[j + 1].state == Failed && states[j + 1].success == Some(false)
  {
    RunKeepsInv(states, what, i);
    RunKeepsInv(states, what, j);
    RunAdvances(states, what, i, j);
    FailurePersists(states[i].graph, states[j].graph);
    if Finished(states[j].graph) {
      FinishedIsNotFailed(states[j].graph);
      assert false;
    }
    if j < |what| && what[j].TickWith? && states[j].state == Running {
      assert Next(states[j], what[j], states[j + 1]);
      TickFailsAgain(states[j], what[j].agents, states[j + 1]);
    }
  }

  /** What a start leaves behind that failed before the engine had a graph of its own. */
  const Unstarted := Engine(Failed, G.EmptyGraph, None)

  /** Such an engine never completes either, but after a recovery it does not fail again: it stays RUNNING for ever. */
  lemma {:induction false} RecoveryOfUnstarted(states: seq<Engine>, what: seq<Action>, j: nat)
    requires IsRun(states, what) && states[0] == Unstarted && j < |states|
    ensures states[j].state != Completed && states[j].graph == G.EmptyGraph
    ensures states[j].state == Running ==> Stuck(states[j])
    ensures j < |what| && what[j] == Recover(true) ==> states[j + 1].state == Running
  {
    if j > 0 {
      RecoveryOfUnstarted(states, what, j - 1);
      assert Next(states[j - 1], what[j - 1], states[j]);
    }
    if states[j].state == Running {
      IdleIsStuck(states[j]);
    }
    if j < |what| {
      assert Next(states[j], what[j], states[j + 1]);
    }
  }

  lemma UnstartedRecovers() returns (states: seq<Engine>, what: seq<Action>)
    ensures IsRun(states, what) && states[0] == Unstarted && |states| == 2
    ensures what == [Recover(true)] && Stuck(states[1])
  {
    states, what := [Unstarted, Unstarted.(state := Running)], [Recover(true)];
    IdleIsStuck(states[1]);
  }
}
