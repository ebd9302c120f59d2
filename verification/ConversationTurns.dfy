/** What each operation adds to the conversation that is kept: who said what, in which order, and the status that it
    leaves. */
module ConversationTurns {
  import opened Results
  import opened ConversationStore
  import opened Conversations
  import opened Texts

  /** Nothing is kept of any other conversation but what was. */
  ghost predicate OthersKept(m: map<Id, SessionValue>, m': map<Id, SessionValue>, id: Id) {
    forall other :: other != id ==> (other in m' <==> other in m) && (other in m ==> m'[other] == m[other])
  }

  /** The conversation that an action works on: the one it names, or a new one. */
  ghost function Base(s: State, action: Action): (x: SessionValue)
    requires !action.Create? && !action.Delete? && (action.id in Kept(s) || Opens(action))
  {
    if action.id in Kept(s) then Kept(s)[action.id]
    else NewSession(action.newId, "anonymous", action.seen, action.now)
  }

  /** That conversation is replaced by its update, and no other changes. */
  lemma KeptAfter(s: State, action: Action, s': State)
    requires Coherent(s) && Next(s, action, s') && !action.Create? && !action.Delete?
    ensures action.id in Kept(s) || Opens(action) ==>
      var target := if action.id in Kept(s) then action.id else action.newId;
      && target in Kept(s') && Kept(s')[target] == Canon(Updated(action, Base(s, action)))
      && OthersKept(Kept(s), Kept(s'), target)
    ensures action.id !in Kept(s) && !Opens(action) ==> Kept(s') == Kept(s)
  {
    NextRefines(s, action, s');
    KeptIsCanonical(s);
    if action.id in Kept(s) || Opens(action) {
      var target := if action.id in Kept(s) then action.id else action.newId;
      CanonAllSet(Kept(s), target, Updated(action, Base(s, action)));
    }
  }

  lemma ContextOfKept(x: SessionValue)
    requires Canon(x) == x
    ensures Restored(x.context) == x.context
  {
  }

  lemma QuestionOf(x: SessionValue, content: string, seen: Seen, now: Time)
    ensures var y := Canon(Asked(x, content, seen, now));
            && y.messages == x.messages + [Message(User, content, now, map[], "", "")]
            && y.status == Processing && y.updatedAt == now && y.context == Restored(Built(x.context, seen, now))
  {
  }

  lemma AnswerOf(x: SessionValue, content: string, metadata: Attributes, now: Time)
    requires Canon(x) == x
    ensures var y := Canon(Answered(x, content, metadata, now));
            && ((exists c :: c in content && !IsSpace(c)) ==>
                  y.messages == x.messages + [Message(Hermes, content, now, metadata, "", "")])
            && ((forall c :: c in content ==> IsSpace(c)) ==> y.messages == x.messages)
            && y.status == Active && y.updatedAt == now && y.context == x.context
  {
    ContextOfKept(x);
  }

  lemma ReplyOf(x: SessionValue, reply: Message, status: Status, now: Time)
    ensures var y := Canon(Replied(x, reply, status, now));
            && y.messages == x.messages + [reply] && y.status == status && y.updatedAt == now
            && y.context == Restored(x.context)
  {
  }

  lemma ExchangeOf(x: SessionValue, content: string, reply: Message, status: Status, seen: Seen, now: Time)
    ensures var y := Canon(Replied(Asked(x, content, seen, now), reply, status, now));
            && y.messages == x.messages + [Message(User, content, now, map[], "", ""), reply]
            && y.status == status && y.updatedAt == now
  {
    var question := Message(User, content, now, map[], "", "");
    ReplyOf(Asked(x, content, seen, now), reply, status, now);
    assert x.messages + [question] + [reply] == x.messages + [question, reply];
  }

  lemma ProjectOf(x: SessionValue, project: Json, now: Time)
    ensures var y := Canon(x.(context := x.context["active_project_id" := project], updatedAt := now));
            && Attribute(y.context, "active_project_id") == project
            && (forall name :: name in DefaultContext() && name != "active_project_id" ==>
                  Attribute(y.context, name) == Attribute(x.context, name))
            && y.messages == x.messages && y.status == x.status && y.updatedAt == now
  {
  }

  lemma IdsAreKept(s: State, id: Id)
    requires Coherent(s) && id in Kept(s)
    ensures Kept(s)[id].id == id && Canon(Kept(s)[id]) == Kept(s)[id]
  {
    FoundIffKept(s, id);
    KeptIsCanonical(s);
    assert CanonAll(Kept(s))[id] == Kept(s)[id];
  }

  /** begin_stream: the question is the only new message, it is the user's, and the conversation is PROCESSING. */
  lemma QuestionIsKept(s: State, id: Id, newId: Id, content: string, seen: Seen, now: Time, s': State)
    requires Coherent(s) && Next(s, BeginStream(id, newId, content, seen, now), s')
    ensures var target := if id in Kept(s) then id else newId;
            && target in Kept(s')
            && Kept(s')[target].messages ==
                 (if id in Kept(s) then Kept(s)[id].messages else []) + [Message(User, content, now, map[], "", "")]
            && Kept(s')[target].status == Processing && Kept(s')[target].updatedAt == now
            && OthersKept(Kept(s), Kept(s'), target)
  {
    var action := BeginStream(id, newId, content, seen, now);
    KeptAfter(s, action, s');
    QuestionOf(Base(s, action), content, seen, now);
  }

  /** finish_stream: an answer of more than white space is the only new message and it is Hermes's; a blank one leaves
      no message; either way the conversation is ACTIVE. */
  lemma AnswerIsKept(s: State, id: Id, content: string, metadata: Attributes, now: Time, s': State)
    requires Coherent(s) && Next(s, FinishStream(id, content, metadata, now), s')
    ensures id in Kept(s) ==>
      && id in Kept(s')
      && ((exists c :: c in content && !IsSpace(c)) ==>
            Kept(s')[id].messages == Kept(s)[id].messages + [Message(Hermes, content, now, metadata, "", "")])
      && ((forall c :: c in content ==> IsSpace(c)) ==> Kept(s')[id].messages == Kept(s)[id].messages)
      && Kept(s')[id].status == Active && Kept(s')[id].updatedAt == now
      && Kept(s')[id].context == Kept(s)[id].context
      && OthersKept(Kept(s), Kept(s'), id)
    ensures id !in Kept(s) ==> Kept(s') == Kept(s)
  {
    KeptAfter(s, FinishStream(id, content, metadata, now), s');
    if id in Kept(s) {
      IdsAreKept(s, id);
      AnswerOf(Kept(s)[id], content, metadata, now);
    }
  }

  /** handle_message: the user's question, then the reply, and the status asked for. */
  lemma ExchangeIsKept(s: State, id: Id, newId: Id, content: string, reply: Message, approval: bool, seen: Seen,
                       now: Time, s': State)
    requires Coherent(s) && Next(s, HandleMessage(id, newId, content, reply, approval, seen, now), s')
    ensures var target := if id in Kept(s) then id else newId;
            && target in Kept(s')
            && Kept(s')[target].messages ==
                 (if id in Kept(s) then Kept(s)[id].messages else []) +
                 [Message(User, content, now, map[], "", ""), reply]
            && Kept(s')[target].status == (if approval then AwaitingApproval else Active)
            && Kept(s')[target].updatedAt == now
            && OthersKept(Kept(s), Kept(s'), target)
  {
    var action := HandleMessage(id, newId, content, reply, approval, seen, now);
    var status := if approval then AwaitingApproval else Active;
    ExchangeBecomes(s, action, s', status);
    ExchangeOf(Base(s, action), content, reply, status, seen, now);
    BaseMessages(s, action);
  }

  lemma ExchangeBecomes(s: State, action: Action, s': State, status: Status)
    requires Coherent(s) && Next(s, action, s') && action.HandleMessage?
    requires status == if action.approval then AwaitingApproval else Active
    ensures var target := if action.id in Kept(s) then action.id else action.newId;
            && target in Kept(s') && OthersKept(Kept(s), Kept(s'), target)
            && Kept(s')[target] ==
                 Canon(Replied(Asked(Base(s, action), action.content, action.seen, action.now), action.reply, status,
                               action.now))
  {
    KeptAfter(s, action, s');
  }

  lemma BaseMessages(s: State, action: Action)
    requires Opens(action)
    ensures Base(s, action).messages == if action.id in Kept(s) then Kept(s)[action.id].messages else []
  {
  }

  /** What the context says of the system is new: the agents at hand, the workspace, the security level. */
  ghost predicate RenewedIn(seen: Seen, context': Attributes) {
    && Attribute(context', "active_agents") == Items(seen.agents)
    && Attribute(context', "workspace_status") == Text("ready")
    && Attribute(context', "security_level") == Text("normal")
  }

  /** The goal, the mission, the project, the model and the summary stay. */
  ghost predicate BoundAlike(context: Attributes, context': Attributes) {
    forall name :: name in {"active_goal_id", "active_mission_id", "active_project_id", "current_runtime",
                            "current_model", "history_summary", "history_summary_upto"} ==>
      Attribute(context', name) == Attribute(context, name)
  }

  /** The last five events stay, and a hit of the memory is noted. */
  ghost predicate RemembersIn(context: Attributes, seen: Seen, context': Attributes) {
    && (Attribute(context, "recent_events").Items? ==>
          && Attribute(context', "recent_events").Items?
          && var was, is_ := Attribute(context, "recent_events").items, Attribute(context', "recent_events").items;
             |is_| == (if |was| <= 5 then |was| else 5) && is_ == was[|was| - |is_|..])
    && (Attribute(context, "environment_vars").Pairs? ==>
          Attribute(context', "environment_vars") ==
          Pairs(if seen.memoryHit then Attribute(context, "environment_vars").pairs["memory_hit" := "true"]
                else Attribute(context, "environment_vars").pairs))
  }

  lemma BuiltRenews(context: Attributes, seen: Seen, now: Time)
    ensures RenewedIn(seen, Restored(Built(context, seen, now)))
  {
  }

  lemma BuiltBinds(context: Attributes, seen: Seen, now: Time)
    ensures BoundAlike(context, Restored(Built(context, seen, now)))
  {
  }

  lemma BuiltRemembers(context: Attributes, seen: Seen, now: Time)
    ensures RemembersIn(context, seen, Restored(Built(context, seen, now)))
  {
    var context' := Restored(Built(context, seen, now));
    assert Attribute(context', "recent_events") == LastOf(Attribute(context, "recent_events"), 5);
    assert Attribute(context', "environment_vars") == WithHit(Attribute(context, "environment_vars"), seen.memoryHit);
  }

  lemma QuestionBuilds(s: State, id: Id, newId: Id, content: string, seen: Seen, now: Time, s': State)
    requires Coherent(s) && Next(s, BeginStream(id, newId, content, seen, now), s') && id in Kept(s)
    ensures id in Kept(s') && Kept(s')[id].context == Restored(Built(Kept(s)[id].context, seen, now))
  {
    KeptAfter(s, BeginStream(id, newId, content, seen, now), s');
    QuestionOf(Kept(s)[id], content, seen, now);
  }

  /** A question renews what the context says of the system and keeps the rest. */
  lemma QuestionRenewsContext(s: State, id: Id, newId: Id, content: string, seen: Seen, now: Time, s': State)
    requires Coherent(s) && Next(s, BeginStream(id, newId, content, seen, now), s') && id in Kept(s)
    ensures id in Kept(s')
    ensures RenewedIn(seen, Kept(s')[id].context)
    ensures BoundAlike(Kept(s)[id].context, Kept(s')[id].context)
    ensures RemembersIn(Kept(s)[id].context, seen, Kept(s')[id].context)
  {
    var context := Kept(s)[id].context;
    QuestionBuilds(s, id, newId, content, seen, now, s');
    BuiltRenews(context, seen, now);
    BuiltBinds(context, seen, now);
    BuiltRemembers(context, seen, now);
  }

  /** approve_action: the reply is the only new message, and the conversation is ACTIVE. */
  lemma ApprovalIsKept(s: State, id: Id, reply: Message, now: Time, s': State)
    requires Coherent(s) && id in Kept(s) && Next(s, Approve(id, reply, now), s')
    ensures id in Kept(s') && Kept(s')[id].messages == Kept(s)[id].messages + [reply]
    ensures Kept(s')[id].status == Active && Kept(s')[id].updatedAt == now
    ensures Kept(s')[id].context == Kept(s)[id].context && OthersKept(Kept(s), Kept(s'), id)
  {
    IdsAreKept(s, id);
    ContextOfKept(Kept(s)[id]);
    KeptAfter(s, Approve(id, reply, now), s');
    ReplyOf(Kept(s)[id], reply, Active, now);
  }

  /** cancel_action: the same, and the conversation is CANCELLED. */
  lemma CancellationIsKept(s: State, id: Id, reply: Message, now: Time, s': State)
    requires Coherent(s) && id in Kept(s) && Next(s, CancelAction(id, reply, now), s')
    ensures id in Kept(s') && Kept(s')[id].messages == Kept(s)[id].messages + [reply]
    ensures Kept(s')[id].status == Status.Cancelled && Kept(s')[id].updatedAt == now
    ensures Kept(s')[id].context == Kept(s)[id].context && OthersKept(Kept(s), Kept(s'), id)
  {
    IdsAreKept(s, id);
    ContextOfKept(Kept(s)[id]);
    KeptAfter(s, CancelAction(id, reply, now), s');
    ReplyOf(Kept(s)[id], reply, Status.Cancelled, now);
  }

  /** set_project: the project, or the empty text without one, and nothing else of the context or the messages. */
  lemma ProjectIsKept(s: State, id: Id, project: Option<string>, now: Time, s': State)
    requires Coherent(s) && Next(s, SetProject(id, project, now), s')
    ensures id in Kept(s) ==>
      && id in Kept(s')
      && Attribute(Kept(s')[id].context, "active_project_id") == Text(if project.Some? then project.value else "")
      && (forall name :: name in DefaultContext() && name != "active_project_id" ==>
            Attribute(Kept(s')[id].context, name) == Attribute(Kept(s)[id].context, name))
      && Kept(s')[id].messages == Kept(s)[id].messages && Kept(s')[id].status == Kept(s)[id].status
      && Kept(s')[id].updatedAt == now && OthersKept(Kept(s), Kept(s'), id)
    ensures id !in Kept(s) ==> Kept(s') == Kept(s)
  {
    KeptAfter(s, SetProject(id, project, now), s');
    if id in Kept(s) {
      ProjectOf(Kept(s)[id], Text(if project.Some? then project.value else ""), now);
    }
  }

  /** A summary changes two attributes of the context, and not even the time of the last update. */
  lemma SummaryIsKept(s: State, id: Id, summary: string, upto: nat, s': State)
    requires Coherent(s) && Next(s, Summarise(id, summary, upto), s')
    ensures id in Kept(s) ==>
      && id in Kept(s') && SummedAs(Kept(s)[id], summary, upto, Kept(s')[id]) && OthersKept(Kept(s), Kept(s'), id)
    ensures id !in Kept(s) ==> Kept(s') == Kept(s)
  {
    KeptAfter(s, Summarise(id, summary, upto), s');
    if id in Kept(s) {
      IdsAreKept(s, id);
      SummaryChanges(Kept(s)[id], summary, upto);
    }
  }

  ghost predicate SummedAs(x: SessionValue, summary: string, upto: nat, y: SessionValue) {
    && Attribute(y.context, "history_summary") == Text(summary)
    && Attribute(y.context, "history_summary_upto") == Number(upto)
    && (forall name :: name in DefaultContext() && name !in {"history_summary", "history_summary_upto"} ==>
          Attribute(y.context, name) == Attribute(x.context, name))
    && y.(context := map[]) == x.(context := map[])
  }

  lemma SummaryChanges(x: SessionValue, summary: string, upto: nat)
    requires Canon(x) == x
    ensures SummedAs(x, summary, upto, Canon(Summed(x, summary, upto)))
  {
  }

  /** A new conversation is ACTIVE and empty. */
  lemma NewConversationIsKept(s: State, newId: Id, userId: string, seen: Seen, now: Time, s': State)
    requires Coherent(s) && Next(s, Create(newId, userId, seen, now), s')
    ensures newId !in Kept(s) && newId in Kept(s') && OthersKept(Kept(s), Kept(s'), newId)
    ensures var x := Kept(s')[newId];
            && x.id == newId && x.userId == (if userId == "" then "anonymous" else userId)
            && x.status == Active && x.messages == [] && x.createdAt == now && x.updatedAt == now && x.metadata == map[]
            && RenewedIn(seen, x.context) && BoundAlike(DefaultContext(), x.context)
            && Attribute(x.context, "recent_events") == Items([])
            && Attribute(x.context, "environment_vars") == Pairs(map[])
  {
    NextRefines(s, Create(newId, userId, seen, now), s');
    KeptIsCanonical(s);
    CanonAllSet(Kept(s), newId, NewSession(newId, userId, seen, now));
    NewSessionIs(newId, userId, seen, now);
  }

  lemma NewSessionIs(newId: Id, userId: string, seen: Seen, now: Time)
    ensures var x := Canon(NewSession(newId, userId, seen, now));
            && x.id == newId && x.userId == (if userId == "" then "anonymous" else userId)
            && x.status == Active && x.messages == [] && x.createdAt == now && x.updatedAt == now && x.metadata == map[]
            && RenewedIn(seen, x.context) && BoundAlike(DefaultContext(), x.context)
            && Attribute(x.context, "recent_events") == Items([])
            && Attribute(x.context, "environment_vars") == Pairs(map[])
  {
  }

  /** A deletion forgets one conversation. */
  lemma OthersStay(s: State, id: Id, s': State)
    requires Coherent(s) && Next(s, Delete(id), s')
    ensures id !in Kept(s') && OthersKept(Kept(s), Kept(s'), id)
  {
    KeptIsCanonical(s);
    NextRefines(s, Delete(id), s');
    assert CanonAll(Kept(s) - {id}) == CanonAll(Kept(s)) - {id};
  }

  /** A lookup changes none. */
  lemma LookChangesNothing(s: State, id: Id, s': State)
    requires Coherent(s) && Next(s, Look(id), s')
    ensures Kept(s') == Kept(s)
  {
    NextRefines(s, Look(id), s');
    KeptIsCanonical(s);
    assert PlainStep(Kept(s), Look(id)) == Kept(s);
  }
}
