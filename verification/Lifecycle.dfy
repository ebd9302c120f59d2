/** backend/agent/lifecycle.py: the agent state machine and its manager. */
module Lifecycle {
  import opened Results
  import opened Dag
  import opened Kahn

  datatype AgentState =
    | Created | Ready | Scheduled | Running | Paused | Waiting
    | Completed | Failed | Cancelled | Timeout

  /** Ids carry a family and a serial that stands for the uuid, so that no two families clash. */
  datatype AgentId =
    | Supervised(mission: Id, task: Id, serial: nat)
    | Executed(task: Id, serial: nat)
    | Named(name: string)

  datatype AgentContext = AgentContext(
    id: AgentId, missionId: Id, taskId: Id, capability: string, assignedRuntime: Option<string>)

  datatype AgentStatistics = AgentStatistics(
    executionCount: nat, failures: nat, totalDuration: real, lastExecution: Option<real>)

  datatype AgentInstance = AgentInstance(
    id: AgentId, state: AgentState, context: AgentContext, createdAt: real,
    startedAt: Option<real>, finishedAt: Option<real>, statistics: AgentStatistics)

  datatype LifecycleError = AlreadyExists | NotFound | InvalidTransition | NotPaused

  type Agents = map<AgentId, AgentInstance>

  predicate Terminal(s: AgentState) {
    s in {Completed, Failed, Cancelled, Timeout}
  }

  /** The transition table; CANCELLED is open to every state that is not terminal. */
  predicate CanMove(from: AgentState, target: AgentState) {
    if target == Cancelled then !Terminal(from) else
      match from
      case Created => target == Ready
      case Ready => target in {Scheduled, Running}
      case Scheduled => target == Running
      case Running => target in {Paused, Completed, Failed, Timeout}
      case Paused => target in {Running, Timeout}
      case Waiting => target in {Running, Failed}
      case _ => false
  }

  /** `started or now`: a start time of zero counts as missing. */
  function OrNow(t: Option<real>, now: real): (r: Option<real>) {
    if t.Some? && t.value != 0.0 then t else Some(now)
  }

  function Moved(a: AgentInstance, target: AgentState, now: real): (r: AgentInstance) {
    if target == Running then
      a.(state := target, startedAt := OrNow(a.startedAt, now))
    else if Terminal(target) then
      var duration := if a.startedAt.Some? then now - a.startedAt.value else 0.0;
      a.(state := target, finishedAt := Some(now),
         statistics := AgentStatistics(
           a.statistics.executionCount + 1,
           a.statistics.failures + (if target == Failed then 1 else 0),
           a.statistics.totalDuration + duration,
           OrNow(a.startedAt, now)))
    else
      a.(state := target)
  }

  function Fresh(ctx: AgentContext, now: real): (r: AgentInstance) {
    AgentInstance(ctx.id, Ready, ctx, now, None, None, AgentStatistics(0, 0, 0.0, None))
  }

  /** The table read backwards: the ways into each state. */
  lemma WaysInto(from: AgentState)
    ensures CanMove(from, Ready) <==> from == Created
    ensures CanMove(from, Scheduled) <==> from == Ready
    ensures CanMove(from, Running) <==> from in {Ready, Scheduled, Paused, Waiting}
    ensures CanMove(from, Paused) <==> from == Running
    ensures CanMove(from, Completed) <==> from == Running
    ensures CanMove(from, Failed) <==> from in {Running, Waiting}
    ensures CanMove(from, Timeout) <==> from in {Running, Paused}
    ensures CanMove(from, Cancelled) <==> from !in {Completed, Failed, Cancelled, Timeout}
    ensures !CanMove(from, Created) && !CanMove(from, Waiting)
  {
  }

  /** What a transition writes down: a start that there was before stays; an end is counted once, with its time, its
      duration since the start, and as a failure only if it is one; anything else changes the state alone. */
  lemma MovedRecords(a: AgentInstance, target: AgentState, now: real)
    ensures var b := Moved(a, target, now);
            && b.state == target && b.id == a.id && b.context == a.context && b.createdAt == a.createdAt
            && (target == Running ==>
                  && (a.startedAt.None? ==> b.startedAt == Some(now))
                  && (a.startedAt.Some? && a.startedAt.value != 0.0 ==> b.startedAt == a.startedAt)
                  && b.finishedAt == a.finishedAt && b.statistics == a.statistics)
            && (target in {Completed, Failed, Cancelled, Timeout} ==>
                  && b.startedAt == a.startedAt && b.finishedAt == Some(now)
                  && b.statistics.executionCount == a.statistics.executionCount + 1
                  && b.statistics.failures == a.statistics.failures + (if target == Failed then 1 else 0)
                  && b.statistics.totalDuration ==
                       a.statistics.totalDuration + (if a.startedAt.Some? then now - a.startedAt.value else 0.0))
            && (target in {Created, Ready, Scheduled, Paused, Waiting} ==> b == a.(state := target))
  {
  }

  predicate Overdue(a: AgentInstance, timeout: real, now: real) {
    a.state == Running && a.startedAt.Some? && now - a.startedAt.value > timeout
  }

  function AfterTimeout(a: AgentInstance, timeout: real, now: real): (r: AgentInstance) {
    if Overdue(a, timeout, now) then Moved(a, Timeout, now) else a
  }

  predicate Expired(a: AgentInstance, maxAge: real, now: real) {
    Terminal(a.state) && a.finishedAt.Some? && now - a.finishedAt.value > maxAge
  }

  datatype Op =
    | Create(ctx: AgentContext)
    | Move(id: AgentId, target: AgentState)
    | Resume(id: AgentId)
    | CheckTimeouts
    | Cleanup(maxAge: real)

  /** The requests that exist: create, start, pause, resume, cancel, complete, fail, check timeouts, clean up. */
  predicate Offered(op: Op) {
    op.Move? ==> op.target in {Running, Paused, Cancelled, Completed, Failed}
  }

  predicate Allowed(agents: Agents, op: Op) {
    match op
    case Create(ctx) => ctx.id !in agents
    case Move(id, target) => id in agents && CanMove(agents[id].state, target)
    case Resume(id) => id in agents && agents[id].state == Paused
    case _ => true
  }

  /** A refused request changes nothing. */
  function Step(agents: Agents, op: Op, timeout: real, now: real): (r: Agents) {
    if !Allowed(agents, op) then agents else
      match op
      case Create(ctx) => agents[ctx.id := Fresh(ctx, now)]
      case Move(id, target) => agents[id := Moved(agents[id], target, now)]
      case Resume(id) =>
        agents[id := agents[id].(state := Running, startedAt := OrNow(agents[id].startedAt, now), finishedAt := None)]
      case CheckTimeouts =>
        map id | id in agents :: AfterTimeout(agents[id], timeout, now)
      case Cleanup(maxAge) =>
        map id | id in agents && !Expired(agents[id], maxAge, now) :: agents[id]
  }

  // ---- Whole runs ----

  datatype Event = Event(op: Op, now: real)

  function Run(agents: Agents, events: seq<Event>, timeout: real): (r: Agents) {
    if events == [] then agents else
      var n := |events| - 1;
      Step(Run(agents, events[..n], timeout), events[n].op, timeout, events[n].now)
  }

  /** The clock is positive and never runs backward, and only existing requests are made. */
  ghost predicate Timely(events: seq<Event>) {
    && (forall i :: 0 <= i < |events| ==> events[i].now > 0.0 && Offered(events[i].op))
    && (forall i, j :: 0 <= i < j < |events| ==> events[i].now <= events[j].now)
  }

  /** What every agent looks like at time `now`. */
  ghost predicate Coherent(a: AgentInstance, now: real) {
    && a.state !in {Created, Scheduled, Waiting}
    && 0.0 < a.createdAt <= now
    && (a.startedAt.Some? ==> a.createdAt <= a.startedAt.value <= now)
    && (a.state == Ready ==> a.startedAt.None?)
    && (a.state in {Running, Paused, Completed, Failed, Timeout} ==> a.startedAt.Some?)
    && (a.finishedAt.Some? <==> Terminal(a.state))
    && a.statistics.executionCount == (if Terminal(a.state) then 1 else 0)
    && a.statistics.failures == (if a.state == Failed then 1 else 0)
    && (!Terminal(a.state) ==> a.statistics.totalDuration == 0.0 && a.statistics.lastExecution.None?)
    && (Terminal(a.state) ==>
          var begun := if a.startedAt.Some? then a.startedAt.value else a.finishedAt.value;
          && begun <= a.finishedAt.value <= now
          && a.statistics.totalDuration == a.finishedAt.value - begun
          && a.statistics.lastExecution == Some(begun))
  }

  ghost predicate AllCoherent(agents: Agents, now: real) {
    forall id :: id in agents ==> agents[id].id == id && agents[id].context.id == id && Coherent(agents[id], now)
  }

  lemma MovedIsCoherent(a: AgentInstance, target: AgentState, now: real)
    requires Coherent(a, now) && CanMove(a.state, target)
    requires target in {Running, Paused, Cancelled, Completed, Failed, Timeout}
    ensures Coherent(Moved(a, target, now), now)
  {
  }

  lemma StepIsCoherent(agents: Agents, op: Op, timeout: real, now: real)
    requires AllCoherent(agents, now) && Offered(op) && now > 0.0
    ensures AllCoherent(Step(agents, op, timeout, now), now)
  {
    forall id, target | id in agents && CanMove(agents[id].state, target) &&
                        target in {Running, Paused, Cancelled, Completed, Failed, Timeout}
      ensures Coherent(Moved(agents[id], target, now), now)
    {
      MovedIsCoherent(agents[id], target, now);
    }
  }

  lemma LaterIsCoherent(agents: Agents, now: real, later: real)
    requires AllCoherent(agents, now) && now <= later
    ensures AllCoherent(agents, later)
  {
  }

  /** Over every run from an empty manager: bookkeeping agrees with the state, WAITING and SCHEDULED never occur. */
  lemma {:induction false} RunIsCoherent(events: seq<Event>, timeout: real)
    requires Timely(events)
    ensures AllCoherent(Run(map[], events, timeout), if events == [] then 0.0 else events[|events| - 1].now)
  {
    if events != [] {
      var n := |events| - 1;
      RunIsCoherent(events[..n], timeout);
      var before := Run(map[], events[..n], timeout);
      LaterIsCoherent(before, if n == 0 then 0.0 else events[n - 1].now, events[n].now);
      StepIsCoherent(before, events[n].op, timeout, events[n].now);
    }
  }

  /** One request never alters a terminal agent, and never moves a start time. */
  lemma StepIsStable(agents: Agents, op: Op, timeout: real, now: real, t: real, id: AgentId)
    requires AllCoherent(agents, t) && Offered(op) && id in agents
    requires id in Step(agents, op, timeout, now)
    ensures var a' := Step(agents, op, timeout, now)[id];
            && (Terminal(agents[id].state) ==> a' == agents[id])
            && (agents[id].startedAt.Some? ==> a'.startedAt == agents[id].startedAt)
            && a'.context == agents[id].context && a'.createdAt == agents[id].createdAt
  {
  }

  /** Between any two moments of a run: unless its id is created anew, a terminal agent is unchanged or cleaned up,
      and a started agent keeps its first start time through every pause and resume. */
  lemma {:induction false} RunIsStable(first: seq<Event>, more: seq<Event>, timeout: real, id: AgentId)
    requires Timely(first + more)
    requires id in Run(map[], first, timeout)
    requires forall e :: e in more && e.op.Create? ==> e.op.ctx.id != id
    ensures var a, end := Run(map[], first, timeout)[id], Run(map[], first + more, timeout);
            && (id in end && Terminal(a.state) ==> end[id] == a)
            && (id in end && a.startedAt.Some? ==> end[id].startedAt == a.startedAt)
  {
    if more == [] {
      assert first + more == first;
    } else {
      var n := |more| - 1;
      var before := first + more[..n];
      assert (first + more)[..|before|] == before && (first + more)[|before|] == more[n];
      RunIsStable(first, more[..n], timeout, id);
      RunIsCoherent(before, timeout);
      var mid := Run(map[], before, timeout);
      if id in Step(mid, more[n].op, timeout, more[n].now) {
        assert more[n] in more && id in mid;
        StepIsStable(mid, more[n].op, timeout, more[n].now,
                     if before == [] then 0.0 else before[|before| - 1].now, id);
      }
    }
  }

  // ---- The manager ----

  class AgentLifecycleManager {
    const timeout: real
    var agents: Agents

    constructor (timeout: real)
      ensures this.timeout == timeout && agents == map[]
    {
      this.timeout := timeout;
      agents := map[];
    }

    method CreateAgent(ctx: AgentContext, now: real) returns (r: Result<AgentInstance, LifecycleError>)
      modifies this`agents
      ensures agents == Step(old(agents), Create(ctx), timeout, now)
      ensures r == if ctx.id in old(agents) then Err(AlreadyExists) else Ok(Fresh(ctx, now))
      ensures r.Ok? ==>
        && agents == old(agents)[ctx.id := r.value] && r.value.id == ctx.id && r.value.context == ctx
        && r.value.state == Ready && r.value.createdAt == now
        && r.value.startedAt == None && r.value.finishedAt == None
        && r.value.statistics == AgentStatistics(0, 0, 0.0, None)
    {
      if ctx.id in agents {
        return Err(AlreadyExists);
      }
      var instance := AgentInstance(ctx.id, Created, ctx, now, None, None, AgentStatistics(0, 0, 0.0, None));
      agents := agents[ctx.id := instance];
      r := Transition(ctx.id, Ready, now);
    }

    /** The one place where a state changes under the table's control. */
    method Transition(id: AgentId, target: AgentState, now: real) returns (r: Result<AgentInstance, LifecycleError>)
      modifies this`agents
      ensures agents == Step(old(agents), Move(id, target), timeout, now)
      ensures r.Ok? <==> Allowed(old(agents), Move(id, target))
      ensures r.Ok? ==> id in agents && r.value == agents[id]
      ensures r.Err? ==> r.error == if id in old(agents) then InvalidTransition else NotFound
    {
      if id !in agents {
        return Err(NotFound);
      }
      var instance := agents[id];
      if target == Cancelled {
        if Terminal(instance.state) {
          return Err(InvalidTransition);
        }
      } else if !CanMove(instance.state, target) {
        return Err(InvalidTransition);
      }
      var started, finished, stats := instance.startedAt, instance.finishedAt, instance.statistics;
      if target == Running {
        started := OrNow(started, now);
      } else if Terminal(target) {
        finished := Some(now);
        var duration := 0.0;
        if started.Some? {
          duration := now - started.value;
        }
        stats := AgentStatistics(stats.executionCount + 1, stats.failures + (if target == Failed then 1 else 0),
                                 stats.totalDuration + duration, OrNow(started, now));
      }
      var updated := AgentInstance(
        instance.id, target, instance.context, instance.createdAt, started, finished, stats);
      agents := agents[id := updated];
      return Ok(updated);
    }

    method StartAgent(id: AgentId, now: real) returns (r: Result<AgentInstance, LifecycleError>)
      modifies this`agents
      ensures agents == Step(old(agents), Move(id, Running), timeout, now)
      ensures r.Ok? <==> id in old(agents) && old(agents)[id].state in {Ready, Scheduled, Paused, Waiting}
    {
      r := Transition(id, Running, now);
    }

    method PauseAgent(id: AgentId, now: real) returns (r: Result<AgentInstance, LifecycleError>)
      modifies this`agents
      ensures agents == Step(old(agents), Move(id, Paused), timeout, now)
      ensures r.Ok? <==> id in old(agents) && old(agents)[id].state == Running
    {
      r := Transition(id, Paused, now);
    }

    /** Resuming writes the record directly, past the table. */
    method ResumeAgent(id: AgentId, now: real) returns (r: Result<AgentInstance, LifecycleError>)
      modifies this`agents
      ensures agents == Step(old(agents), Resume(id), timeout, now)
      ensures r.Ok? <==> id in old(agents) && old(agents)[id].state == Paused
      ensures r.Ok? ==> agents == old(agents)[id := r.value] && r.value.state == Running
      ensures r.Ok? ==> r.value.context == old(agents)[id].context && r.value.statistics == old(agents)[id].statistics
    {
      if id !in agents {
        return Err(NotFound);
      }
      var instance := agents[id];
      if instance.state != Paused {
        return Err(NotPaused);
      }
      var updated := AgentInstance(
        instance.id, Running, instance.context, instance.createdAt,
        OrNow(instance.startedAt, now), None, instance.statistics);
      agents := agents[id := updated];
      return Ok(updated);
    }

    method CancelAgent(id: AgentId, now: real) returns (r: Result<AgentInstance, LifecycleError>)
      modifies this`agents
      ensures agents == Step(old(agents), Move(id, Cancelled), timeout, now)
      ensures r.Ok? <==> id in old(agents) && old(agents)[id].state !in {Completed, Failed, Cancelled, Timeout}
    {
      r := Transition(id, Cancelled, now);
    }

    method CompleteAgent(id: AgentId, now: real) returns (r: Result<AgentInstance, LifecycleError>)
      modifies this`agents
      ensures agents == Step(old(agents), Move(id, Completed), timeout, now)
      ensures r.Ok? <==> id in old(agents) && old(agents)[id].state == Running
    {
      r := Transition(id, Completed, now);
    }

    method FailAgent(id: AgentId, now: real) returns (r: Result<AgentInstance, LifecycleError>)
      modifies this`agents
      ensures agents == Step(old(agents), Move(id, Failed), timeout, now)
      ensures r.Ok? <==> id in old(agents) && old(agents)[id].state in {Running, Waiting}
    {
      r := Transition(id, Failed, now);
    }

    method TimeOut(id: AgentId, now: real)
      requires id in agents && agents[id].state == Running
      modifies this`agents
      ensures agents == old(agents)[id := Moved(old(agents)[id], Timeout, now)]
    {
      var _ := Transition(id, Timeout, now);
    }

    /** The loop over the table. */
    method TimeOutOverdue(now: real) returns (timedOut: set<AgentId>)
      modifies this`agents
      ensures timedOut == set id | id in old(agents) && Overdue(old(agents)[id], timeout, now)
      ensures agents.Keys == old(agents).Keys
      ensures forall id :: id in agents ==> agents[id] == AfterTimeout(old(agents)[id], timeout, now)
    {
      timedOut := {};
      var rest := agents.Keys;
      while rest != {}
        invariant rest <= agents.Keys == old(agents).Keys
        invariant forall id :: id in rest ==> agents[id] == old(agents)[id]
        invariant forall id :: id in agents && id !in rest ==> agents[id] == AfterTimeout(old(agents)[id], timeout, now)
        invariant forall id :: id in timedOut <==> id in agents && id !in rest && Overdue(old(agents)[id], timeout, now)
        decreases |rest|
      {
        var id :| id in rest;
        if Overdue(agents[id], timeout, now) {
          TimeOut(id, now);
          timedOut := timedOut + {id};
        }
        rest := rest - {id};
      }
    }

    method CheckTimeouts(now: real) returns (timedOut: set<AgentId>)
      modifies this`agents
      ensures agents == Step(old(agents), Op.CheckTimeouts, timeout, now)
      ensures forall id :: id in timedOut <==>
        && id in old(agents) && old(agents)[id].state == Running && old(agents)[id].startedAt.Some?
        && now - old(agents)[id].startedAt.value > timeout
      ensures agents.Keys == old(agents).Keys
      ensures forall id :: id in agents ==>
        if id in timedOut then agents[id].state == Timeout && agents[id].finishedAt == Some(now)
        else agents[id] == old(agents)[id]
    {
      timedOut := TimeOutOverdue(now);
    }

    method Cleanup(maxAge: real, now: real) returns (removed: nat)
      modifies this`agents
      ensures agents == Step(old(agents), Op.Cleanup(maxAge), timeout, now)
      ensures removed == |old(agents).Keys| - |agents.Keys|
      ensures forall id :: id in agents <==>
        id in old(agents) &&
        !(&& old(agents)[id].state in {Completed, Failed, Cancelled, Timeout} && old(agents)[id].finishedAt.Some?
          && now - old(agents)[id].finishedAt.value > maxAge)
      ensures forall id :: id in agents ==> agents[id] == old(agents)[id]
    {
      var toRemove := set id | id in agents && Expired(agents[id], maxAge, now);
      agents := agents - toRemove;
      assert old(agents).Keys == agents.Keys + toRemove;
      removed := |toRemove|;
    }

    function GetAgent(id: AgentId): (r: Result<AgentInstance, LifecycleError>)
      reads this
      ensures r.Ok? <==> id in agents
      ensures r.Ok? ==> r.value == agents[id]
      ensures r.Err? ==> r.error == NotFound
    {
      if id in agents then Ok(agents[id]) else Err(NotFound)
    }
  }
}
