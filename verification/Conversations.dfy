/** backend/conversation/conversation_manager.py as a state machine: an evicting cache in front of the store, against a
    plain map that never evicts. */
module Conversations {
  import opened Results
  import opened Collections
  import opened ConversationStore
  import opened Texts

  /** What build_context reads from the rest of the system. */
  datatype Seen = Seen(agents: seq<string>, memoryHit: bool)

  datatype Action =
    | Create(newId: Id, userId: string, seen: Seen, now: Time)
    | Look(id: Id)
    | SetProject(id: Id, project: Option<string>, now: Time)
    | BeginStream(id: Id, newId: Id, content: string, seen: Seen, now: Time)
    | FinishStream(id: Id, content: string, metadata: Attributes, now: Time)
    | HandleMessage(id: Id, newId: Id, content: string, reply: Message, approval: bool, seen: Seen, now: Time)
    | Approve(id: Id, reply: Message, now: Time)
    | CancelAction(id: Id, reply: Message, now: Time)
    | Summarise(id: Id, summary: string, upto: nat)
    | Delete(id: Id)

  // ---- One session ----

  const MAX_HISTORY_MESSAGES := 20
  const MINIMUM_TO_SUMMARISE := 4

  function LastOf(events: Json, n: nat): (r: Json) {
    match events
    case Items(items) => Items(if |items| <= n then items else items[|items| - n..])
    case _ => events
  }

  function WithHit(environment: Json, hit: bool): (r: Json) {
    match environment
    case Pairs(pairs) => if hit then Pairs(pairs["memory_hit" := "true"]) else environment
    case _ => environment
  }

  function InitialContext(seen: Seen): (r: Attributes) {
    DefaultContext()["active_agents" := Items(seen.agents)]["workspace_status" := Text("ready")]
                    ["security_level" := Text("normal")]
  }

  /** build_context also leaves an attribute behind that ConversationContext does not declare. */
  function Built(context: Attributes, seen: Seen, now: Time): (r: Attributes) {
    context["active_agents" := Items(seen.agents)]["workspace_status" := Text("ready")]
           ["security_level" := Text("normal")]
           ["environment_vars" := WithHit(Attribute(context, "environment_vars"), seen.memoryHit)]
           ["recent_events" := LastOf(Attribute(context, "recent_events"), 5)]
           ["updated_at" := Number(now)]
  }

  function NewSession(newId: Id, userId: string, seen: Seen, now: Time): (r: SessionValue) {
    SessionValue(newId, userId, Active, [], InitialContext(seen), now, now, map[])
  }

  function Said(role: Role, content: string, metadata: Attributes, now: Time): (r: Message) {
    Message(role, content, now, metadata, "", "")
  }

  function Asked(s: SessionValue, content: string, seen: Seen, now: Time): (r: SessionValue) {
    s.(messages := s.messages + [Said(User, content, map[], now)], status := Processing, updatedAt := now,
       context := Built(s.context, seen, now))
  }

  function Replied(s: SessionValue, reply: Message, status: Status, now: Time): (r: SessionValue) {
    s.(messages := s.messages + [reply], status := status, updatedAt := now)
  }

  /** A blank answer leaves no message. */
  function Answered(s: SessionValue, content: string, metadata: Attributes, now: Time): (r: SessionValue) {
    s.(messages := if IsBlank(content) then s.messages else s.messages + [Said(Hermes, content, metadata, now)],
       status := Active, updatedAt := now)
  }

  /** How many of the oldest messages a summary would cover; 0 while all of them fit. */
  function OldMessages(s: SessionValue): (r: nat) {
    if |s.messages| <= MAX_HISTORY_MESSAGES + MINIMUM_TO_SUMMARISE then 0 else |s.messages| - MAX_HISTORY_MESSAGES
  }

  predicate NeedsSummary(s: SessionValue) {
    && OldMessages(s) > 0
    && match Attribute(s.context, "history_summary_upto")
       case Number(upto) => upto < OldMessages(s)
       case _ => true
  }

  /** A summary of the first `upto` messages, as many as were old when the model was asked. */
  function Summed(s: SessionValue, summary: string, upto: nat): (r: SessionValue)
    ensures r.id == s.id && r.messages == s.messages
  {
    s.(context := s.context["history_summary" := Text(summary)]["history_summary_upto" := Number(upto)])
  }

  /** What an action makes of the session it works on. */
  function Updated(action: Action, s: SessionValue): (r: SessionValue) {
    match action
    case SetProject(_, project, now) =>
      s.(context := s.context["active_project_id" := Text(if project.Some? then project.value else "")],
         updatedAt := now)
    case BeginStream(_, _, content, seen, now) => Asked(s, content, seen, now)
    case FinishStream(_, content, metadata, now) => Answered(s, content, metadata, now)
    case HandleMessage(_, _, content, reply, approval, seen, now) =>
      Replied(Asked(s, content, seen, now), reply, if approval then AwaitingApproval else Active, now)
    case Approve(_, reply, now) => Replied(s, reply, Active, now)
    case CancelAction(_, reply, now) => Replied(s, reply, ConversationStore.Cancelled, now)
    case Summarise(_, summary, upto) => Summed(s, summary, upto)
    case _ => s
  }

  /** These two open a new session when the one they name does not exist. */
  predicate Opens(action: Action) {
    action.BeginStream? || action.HandleMessage?
  }

  // ---- The reference: one map, never evicting ----

  function PlainStep(m: map<Id, SessionValue>, action: Action): (r: map<Id, SessionValue>) {
    match action
    case Create(newId, userId, seen, now) => m[newId := NewSession(newId, userId, seen, now)]
    case Delete(id) => m - {id}
    case _ =>
      if action.id in m then m[action.id := Updated(action, m[action.id])]
      else if Opens(action) then
        m[action.newId := Updated(action, NewSession(action.newId, "anonymous", action.seen, action.now))]
      else m
  }

  // ---- The manager: cache and tables ----

  datatype State = State(cache: map<Id, SessionValue>, tables: Tables)

  const EMPTY := State(map[], Tables(map[], map[]))

  /** _cached_or_loaded, as the session found and as the state afterwards. */
  function Found(s: State, id: Id): (r: Option<SessionValue>) {
    if id in s.cache then Some(s.cache[id])
    else if id == "" then None
    else Loaded(s.tables, id)
  }

  function Rehydrated(s: State, id: Id): (r: State) {
    var found := Found(s, id);
    if found.Some? then s.(cache := s.cache[id := found.value]) else s
  }

  /** The session changed in the cache and persisted. */
  function Put(s: State, x: SessionValue): (r: State) {
    State(s.cache[x.id := x], Synced(s.tables, x))
  }

  function Evicted(s: State, kept: set<Id>): (r: State) {
    s.(cache := map id | id in s.cache && id in kept :: s.cache[id])
  }

  function Step(s: State, action: Action): (r: State) {
    match action
    case Create(newId, userId, seen, now) => Put(s, NewSession(newId, userId, seen, now))
    case Delete(id) => State(s.cache - {id}, Deleted(s.tables, id))
    case Look(id) => Rehydrated(s, id)
    case _ =>
      var found := Found(s, action.id);
      if found.Some? then Put(Rehydrated(s, action.id), Updated(action, found.value))
      else if Opens(action) then
        var x := NewSession(action.newId, "anonymous", action.seen, action.now);
        Put(Put(s, x), Updated(action, x))
      else s
  }

  /** The identifiers that the action may use for a new session are new. */
  predicate Legal(s: State, action: Action) {
    action.Create? || Opens(action) ==>
      action.newId != "" && action.newId !in s.cache && action.newId !in s.tables.rows
  }

  /** Any set of sessions may be evicted before any action. */
  ghost predicate Next(s: State, action: Action, s': State) {
    Legal(s, action) && exists kept :: s' == Step(Evicted(s, kept), action)
  }

  // ---- The invariant ----

  /** A cached session is stored as it is, what is stored is well numbered, and nothing is stored of other sessions. */
  ghost predicate CoherentAt(s: State, id: Id) {
    && (id in s.cache ==> s.cache[id].id == id && Loaded(s.tables, id) == Some(Canon(s.cache[id])))
    && (id in s.tables.rows ==> id != "" && Contiguous(Lines(s.tables, id), 0))
    && (id !in s.tables.rows ==> Lines(s.tables, id) == [])
  }

  ghost predicate Coherent(s: State) {
    forall id {:trigger CoherentAt(s, id)} :: CoherentAt(s, id)
  }

  /** The conversations as storage has them, whatever the cache holds. */
  function Kept(s: State): (r: map<Id, SessionValue>) {
    map id | id in s.tables.rows :: Loaded(s.tables, id).value
  }

  function CanonAll(m: map<Id, SessionValue>): (r: map<Id, SessionValue>) {
    map id | id in m :: Canon(m[id])
  }

  lemma FoundIffKept(s: State, id: Id)
    requires Coherent(s)
    ensures Found(s, id).Some? <==> id in Kept(s)
    ensures id in Kept(s) ==> Found(s, id).value.id == id && Canon(Found(s, id).value) == Kept(s)[id]
    ensures id in Kept(s) ==> StoredPrefix(s.tables, id, Found(s, id).value.messages)
  {
    assert CoherentAt(s, id);
    if id in s.tables.rows {
      ContiguousIsSorted(Lines(s.tables, id), 0);
      RestoredTwice(s.tables.rows[id].context);
    }
  }

  // ---- Actions commute with what storage keeps ----

  lemma BuiltCommutes(context: Attributes, seen: Seen, now: Time)
    ensures Restored(Built(Restored(context), seen, now)) == Restored(Built(context, seen, now))
  {
  }

  lemma SetCommutes(context: Attributes, name: string, value: Json)
    requires name in DefaultContext()
    ensures Restored(Restored(context)[name := value]) == Restored(context[name := value])
  {
  }

  lemma SummedCommutes(s: SessionValue, summary: string, upto: nat)
    ensures Canon(Summed(Canon(s), summary, upto)) == Canon(Summed(s, summary, upto))
  {
    RestoredTwice(s.context);
    SetCommutes(s.context, "history_summary", Text(summary));
    SetCommutes(s.context["history_summary" := Text(summary)], "history_summary_upto", Number(upto));
    SetCommutes(Restored(s.context)["history_summary" := Text(summary)], "history_summary_upto", Number(upto));
  }

  lemma CanonTwice(s: SessionValue)
    ensures Canon(Canon(s)) == Canon(s)
  {
    RestoredTwice(s.context);
  }

  lemma AskedCommutes(s: SessionValue, content: string, seen: Seen, now: Time)
    ensures Canon(Asked(Canon(s), content, seen, now)) == Canon(Asked(s, content, seen, now))
  {
    BuiltCommutes(s.context, seen, now);
  }

  lemma ProjectCommutes(s: SessionValue, project: Json, now: Time)
    ensures Canon(Canon(s).(context := Canon(s).context["active_project_id" := project], updatedAt := now)) ==
            Canon(s.(context := s.context["active_project_id" := project], updatedAt := now))
  {
    SetCommutes(s.context, "active_project_id", project);
  }

  /** These touch neither user nor context. */
  lemma RepliedCommutes(s: SessionValue, reply: Message, status: Status, now: Time)
    ensures Canon(Replied(Canon(s), reply, status, now)) == Canon(Replied(s, reply, status, now))
  {
    RestoredTwice(s.context);
  }

  lemma AnsweredCommutes(s: SessionValue, content: string, metadata: Attributes, now: Time)
    ensures Canon(Answered(Canon(s), content, metadata, now)) == Canon(Answered(s, content, metadata, now))
  {
    RestoredTwice(s.context);
  }

  lemma HandledCommutes(s: SessionValue, content: string, reply: Message, status: Status, seen: Seen, now: Time)
    ensures Canon(Replied(Asked(Canon(s), content, seen, now), reply, status, now)) ==
            Canon(Replied(Asked(s, content, seen, now), reply, status, now))
  {
    AskedCommutes(s, content, seen, now);
    RepliedCommutes(Asked(Canon(s), content, seen, now), reply, status, now);
    RepliedCommutes(Asked(s, content, seen, now), reply, status, now);
  }

  lemma UpdateCommutes(action: Action, s: SessionValue)
    ensures Canon(Updated(action, Canon(s))) == Canon(Updated(action, s))
  {
    match action
    case SetProject(_, project, now) =>
      ProjectCommutes(s, Text(if project.Some? then project.value else ""), now);
    case BeginStream(_, _, content, seen, now) => AskedCommutes(s, content, seen, now);
    case FinishStream(_, content, metadata, now) => AnsweredCommutes(s, content, metadata, now);
    case HandleMessage(_, _, content, reply, approval, seen, now) =>
      HandledCommutes(s, content, reply, if approval then AwaitingApproval else Active, seen, now);
    case Approve(_, reply, now) => RepliedCommutes(s, reply, Active, now);
    case CancelAction(_, reply, now) => RepliedCommutes(s, reply, ConversationStore.Cancelled, now);
    case Summarise(_, summary, upto) => SummedCommutes(s, summary, upto);
    case _ => CanonTwice(s);
  }

  lemma UpdateAppends(action: Action, s: SessionValue)
    ensures Updated(action, s).id == s.id && s.messages <= Updated(action, s).messages
  {
  }

  lemma CanonAllSet(m: map<Id, SessionValue>, id: Id, x: SessionValue)
    ensures CanonAll(m[id := x]) == CanonAll(m)[id := Canon(x)]
  {
  }

  lemma CanonAllTwice(m: map<Id, SessionValue>)
    ensures CanonAll(CanonAll(m)) == CanonAll(m)
  {
    forall id | id in m ensures Canon(Canon(m[id])) == Canon(m[id]) {
      CanonTwice(m[id]);
    }
  }

  lemma WorkCommutes(m: map<Id, SessionValue>, action: Action)
    requires !action.Create? && !action.Delete?
    ensures CanonAll(PlainStep(CanonAll(m), action)) == CanonAll(PlainStep(m, action))
  {
    CanonAllTwice(m);
    if action.id in m {
      var x := m[action.id];
      UpdateCommutes(action, x);
      CanonAllSet(m, action.id, Updated(action, x));
      CanonAllSet(CanonAll(m), action.id, Updated(action, Canon(x)));
    } else if Opens(action) {
      var x := Updated(action, NewSession(action.newId, "anonymous", action.seen, action.now));
      CanonAllSet(m, action.newId, x);
      CanonAllSet(CanonAll(m), action.newId, x);
    }
  }

  /** The reference cannot tell a conversation from its stored form either. */
  lemma PlainCommutes(m: map<Id, SessionValue>, action: Action)
    ensures CanonAll(PlainStep(CanonAll(m), action)) == CanonAll(PlainStep(m, action))
  {
    match action
    case Create(newId, userId, seen, now) =>
      var x := NewSession(newId, userId, seen, now);
      CanonAllTwice(m);
      CanonAllSet(m, newId, x);
      CanonAllSet(CanonAll(m), newId, x);
    case Delete(id) =>
      CanonAllTwice(m);
      assert CanonAll(m - {id}) == CanonAll(m) - {id};
      assert CanonAll(CanonAll(m) - {id}) == CanonAll(CanonAll(m)) - {id};
    case _ => WorkCommutes(m, action);
  }

  // ---- One action refines the reference ----

  lemma EvictionIsInvisible(s: State, kept: set<Id>)
    requires Coherent(s)
    ensures Coherent(Evicted(s, kept)) && Kept(Evicted(s, kept)) == Kept(s)
  {
    forall id ensures CoherentAt(Evicted(s, kept), id) {
      assert CoherentAt(s, id);
    }
  }

  lemma RehydrationIsInvisible(s: State, id: Id)
    requires Coherent(s)
    ensures Coherent(Rehydrated(s, id)) && Rehydrated(s, id).tables == s.tables
  {
    FoundIffKept(s, id);
    forall other ensures CoherentAt(Rehydrated(s, id), other) {
      assert CoherentAt(s, other);
      if other == id && id in s.tables.rows {
        RestoredTwice(s.tables.rows[id].context);
      }
    }
  }

  lemma PutIsCoherent(s: State, x: SessionValue)
    requires Coherent(s) && x.id != "" && StoredPrefix(s.tables, x.id, x.messages)
    ensures Coherent(Put(s, x))
  {
    SyncThenLoad(s.tables, x);
    forall id ensures CoherentAt(Put(s, x), id) {
      assert CoherentAt(s, id);
      SyncOnlyAppends(s.tables, x, id);
    }
  }

  lemma PutStores(s: State, x: SessionValue)
    requires Coherent(s) && x.id != "" && StoredPrefix(s.tables, x.id, x.messages)
    ensures Coherent(Put(s, x)) && Kept(Put(s, x)) == Kept(s)[x.id := Canon(x)]
    ensures StoredPrefix(Put(s, x).tables, x.id, x.messages)
  {
    PutIsCoherent(s, x);
    SyncThenLoad(s.tables, x);
    forall id | id in s.tables.rows && id != x.id ensures Kept(Put(s, x))[id] == Kept(s)[id] {
      SyncOnlyAppends(s.tables, x, id);
    }
  }

  lemma KeptIsCanonical(s: State)
    requires Coherent(s)
    ensures CanonAll(Kept(s)) == Kept(s)
  {
    forall id | id in s.tables.rows ensures Canon(Kept(s)[id]) == Kept(s)[id] {
      FoundIffKept(s, id);
      CanonTwice(Found(s, id).value);
    }
  }

  lemma CreateRefines(s: State, x: SessionValue)
    requires Coherent(s) && x.id != "" && x.id !in s.tables.rows && x.messages == []
    ensures Coherent(Put(s, x)) && Kept(Put(s, x)) == Kept(s)[x.id := Canon(x)]
    ensures StoredPrefix(Put(s, x).tables, x.id, x.messages)
  {
    assert CoherentAt(s, x.id);
    assert MessagesOf(Lines(s.tables, x.id)) == [];
    PutStores(s, x);
  }

  /** Changing a conversation that was found, on either side. */
  lemma PutRefines(s: State, action: Action, x: SessionValue)
    requires Coherent(s) && !action.Create? && !action.Delete? && Found(s, action.id) == Some(x)
    ensures var s' := Put(Rehydrated(s, action.id), Updated(action, x));
            Coherent(s') && Kept(s') == Kept(s)[action.id := Canon(Updated(action, x))]
  {
    FoundIffKept(s, action.id);
    RehydrationIsInvisible(s, action.id);
    UpdateAppends(action, x);
    assert CoherentAt(s, action.id);
    PutStores(Rehydrated(s, action.id), Updated(action, x));
  }

  lemma PlainUpdate(s: State, action: Action, x: SessionValue)
    requires Coherent(s) && !action.Create? && !action.Delete? && Found(s, action.id) == Some(x)
    ensures CanonAll(PlainStep(Kept(s), action)) == Kept(s)[action.id := Canon(Updated(action, x))]
  {
    FoundIffKept(s, action.id);
    KeptIsCanonical(s);
    UpdateCommutes(action, x);
    CanonAllSet(Kept(s), action.id, Updated(action, Kept(s)[action.id]));
  }

  /** Looking a conversation up changes the cache at most. */
  lemma LookRefines(s: State, action: Action, x: SessionValue)
    requires Coherent(s) && !action.Create? && !action.Delete? && Found(s, action.id) == Some(x)
    requires Updated(action, x) == x
    ensures var s' := Rehydrated(s, action.id); Coherent(s') && Kept(s') == CanonAll(PlainStep(Kept(s), action))
  {
    FoundIffKept(s, action.id);
    PlainUpdate(s, action, x);
    RehydrationIsInvisible(s, action.id);
    assert Kept(s)[action.id := Canon(x)] == Kept(s);
  }

  lemma UpdateRefines(s: State, action: Action)
    requires Coherent(s) && !action.Create? && !action.Delete? && Found(s, action.id).Some?
    ensures Coherent(Step(s, action)) && Kept(Step(s, action)) == CanonAll(PlainStep(Kept(s), action))
  {
    var x := Found(s, action.id).value;
    if action.Look? {
      LookRefines(s, action, x);
    } else {
      PlainUpdate(s, action, x);
      PutRefines(s, action, x);
    }
  }

  /** A session opened and used at once: two syncs. */
  lemma OpenStores(s: State, x: SessionValue, y: SessionValue)
    requires Coherent(s) && x.id != "" && x.id !in s.tables.rows && x.messages == [] && y.id == x.id
    ensures Coherent(Put(Put(s, x), y)) && Kept(Put(Put(s, x), y)) == Kept(s)[x.id := Canon(y)]
  {
    CreateRefines(s, x);
    assert MessagesOf(Lines(Put(s, x).tables, y.id)) <= y.messages;
    PutStores(Put(s, x), y);
    UpdateTwice(Kept(s), x.id, Canon(x), Canon(y));
  }

  lemma OpenRefines(s: State, action: Action)
    requires Coherent(s) && Legal(s, action) && Opens(action) && Found(s, action.id).None?
    ensures Coherent(Step(s, action)) && Kept(Step(s, action)) == CanonAll(PlainStep(Kept(s), action))
  {
    var x := NewSession(action.newId, "anonymous", action.seen, action.now);
    FoundIffKept(s, action.id);
    UpdateAppends(action, x);
    OpenStores(s, x, Updated(action, x));
    KeptIsCanonical(s);
    CanonAllSet(Kept(s), x.id, Updated(action, x));
  }

  lemma DeleteRefines(s: State, id: Id)
    requires Coherent(s)
    ensures var s' := Step(s, Delete(id)); Coherent(s') && Kept(s') == CanonAll(PlainStep(Kept(s), Delete(id)))
  {
    var s' := Step(s, Delete(id));
    forall other ensures CoherentAt(s', other) {
      assert CoherentAt(s, other);
      DeleteForgets(s.tables, id, other);
    }
    KeptIsCanonical(s');
    assert Kept(s') == Kept(s) - {id};
  }

  lemma StepRefines(s: State, action: Action)
    requires Coherent(s) && Legal(s, action)
    ensures Coherent(Step(s, action)) && Kept(Step(s, action)) == CanonAll(PlainStep(Kept(s), action))
  {
    if action.Create? {
      var x := NewSession(action.newId, action.userId, action.seen, action.now);
      CreateRefines(s, x);
      KeptIsCanonical(s);
      CanonAllSet(Kept(s), x.id, x);
    } else if action.Delete? {
      DeleteRefines(s, action.id);
    } else if Found(s, action.id).Some? {
      UpdateRefines(s, action);
    } else if Opens(action) {
      OpenRefines(s, action);
    } else {
      FoundIffKept(s, action.id);
      KeptIsCanonical(s);
    }
  }

  lemma NextRefines(s: State, action: Action, s': State)
    requires Coherent(s) && Next(s, action, s')
    ensures Coherent(s') && Kept(s') == CanonAll(PlainStep(Kept(s), action))
  {
    var kept :| s' == Step(Evicted(s, kept), action);
    EvictionIsInvisible(s, kept);
    StepRefines(Evicted(s, kept), action);
  }

  // ---- Every run ----

  ghost predicate IsRun(states: seq<State>, actions: seq<Action>) {
    && |states| == |actions| + 1 && states[0] == EMPTY
    && forall i, j {:trigger Next(states[i], actions[i], states[j])} ::
         0 <= i && j == i + 1 && j < |states| ==> Next(states[i], actions[i], states[j])
  }

  function PlainRun(actions: seq<Action>): (r: map<Id, SessionValue>) {
    if actions == [] then map[] else PlainStep(PlainRun(actions[..|actions| - 1]), actions[|actions| - 1])
  }

  lemma {:induction false} Refines(states: seq<State>, actions: seq<Action>, j: nat)
    requires IsRun(states, actions) && j < |states|
    ensures Coherent(states[j]) && Kept(states[j]) == CanonAll(PlainRun(actions[..j]))
  {
    if j == 0 {
      assert Kept(EMPTY) == map[];
      forall id ensures CoherentAt(EMPTY, id) {
      }
    } else {
      Refines(states, actions, j - 1);
      assert Next(states[j - 1], actions[j - 1], states[j]);
      NextRefines(states[j - 1], actions[j - 1], states[j]);
      PlainCommutes(PlainRun(actions[..j - 1]), actions[j - 1]);
      assert actions[..j][..j - 1] == actions[..j - 1];
    }
  }

  /** Cache, eviction and rehydration cannot be seen: after any run, whatever was evicted and whenever, a lookup finds a
      conversation exactly when the map that never evicts has it, with the same messages, status and context. */
  lemma SameConversations(states: seq<State>, actions: seq<Action>, j: nat, id: Id)
    requires IsRun(states, actions) && j < |states|
    ensures var plain := PlainRun(actions[..j]);
            && (Found(states[j], id).Some? <==> id in plain)
            && (id in plain ==>
                  var x, y := Found(states[j], id).value, plain[id];
                  && x.messages == y.messages && x.status == y.status && x.metadata == y.metadata
                  && x.createdAt == y.createdAt && x.updatedAt == y.updatedAt
                  && forall name :: name in DefaultContext() ==>
                       Attribute(x.context, name) == Attribute(y.context, name))
  {
    Refines(states, actions, j);
    var plain := PlainRun(actions[..j]);
    FoundIffKept(states[j], id);
    if id in plain {
      var x, y := Found(states[j], id).value, plain[id];
      assert Canon(x) == Canon(y);
      assert Restored(x.context) == Restored(y.context);
      forall name | name in DefaultContext() ensures Attribute(x.context, name) == Attribute(y.context, name) {
        assert Restored(x.context)[name] == Restored(y.context)[name];
      }
    }
  }

  // ---- A summary that arrives late ----

  /** rafraichir_resume keeps its session object while the model works. When that conversation was evicted and loaded
      anew meanwhile, the object it persists is an older snapshot: no message row changes, but the session row goes back
      to the snapshot's status and context. The conversation stays as it was exactly when the two agree on those. */
  lemma LateSummary(s: State, id: Id, older: SessionValue, summary: string, upto: nat)
    requires Coherent(s) && id in s.cache && older.id == id && older.messages <= s.cache[id].messages
    ensures var x, y := s.cache[id], Summed(older, summary, upto);
            var t := Synced(s.tables, y);
            && (forall other :: Lines(t, other) == Lines(s.tables, other))
            && Loaded(t, id) == Some(Canon(y).(messages := x.messages))
            && (Coherent(s.(tables := t)) <==> Canon(y).(messages := []) == Canon(x).(messages := []))
  {
    var x, y := s.cache[id], Summed(older, summary, upto);
    FoundIffKept(s, id);
    SyncOfOlderSnapshot(s.tables, x, y);
    var s' := s.(tables := Synced(s.tables, y));
    if Canon(y).(messages := []) == Canon(x).(messages := []) {
      assert Canon(y).(messages := x.messages) == Canon(x);
      forall other ensures CoherentAt(s', other) {
        assert CoherentAt(s, other);
        SyncOnlyAppends(s.tables, y, other);
      }
    } else {
      assert !CoherentAt(s', id);
    }
  }

  /** The next sync of the live session repairs the row. */
  lemma LaterSyncRepairs(s: State, id: Id, older: SessionValue)
    requires Coherent(s) && id in s.cache && older.id == id && older.messages <= s.cache[id].messages
    ensures Loaded(Synced(Synced(s.tables, older), s.cache[id]), id) == Some(Canon(s.cache[id]))
  {
    FoundIffKept(s, id);
    SyncOfOlderSnapshot(s.tables, s.cache[id], older);
    SyncThenLoad(Synced(s.tables, older), s.cache[id]);
  }

  /** The late write of a session that is not in the cache: cache and store still agree, no message row changes, and it
      acts as the operation itself exactly when the stored session differs from the snapshot in no more than its
      messages and its summary. */
  lemma LateSummaryUncached(s: State, x: SessionValue, older: SessionValue, summary: string, upto: nat)
    requires Coherent(s) && x.id == older.id && x.id !in s.cache && older.messages <= x.messages
    requires Loaded(s.tables, x.id) == Some(Canon(x))
    ensures var y, action := Summed(older, summary, upto), Summarise(x.id, summary, upto);
            var s' := s.(tables := Synced(s.tables, y));
            && Coherent(s') && Kept(s') == Kept(s)[x.id := Canon(y).(messages := x.messages)]
            && (Kept(s') == CanonAll(PlainStep(Kept(s), action)) <==>
                  Canon(y).(messages := []) == Canon(Summed(x, summary, upto)).(messages := []))
  {
    var y, action := Summed(older, summary, upto), Summarise(x.id, summary, upto);
    var s' := s.(tables := Synced(s.tables, y));
    assert CoherentAt(s, x.id);
    UncachedIsStored(s, x);
    SyncOfOlderSnapshot(s.tables, x, y);
    forall other ensures CoherentAt(s', other) {
      assert CoherentAt(s, other);
      SyncOnlyAppends(s.tables, y, other);
    }
    assert Kept(s') == Kept(s)[x.id := Canon(y).(messages := x.messages)] by {
      forall other | other in s.tables.rows && other != x.id ensures Kept(s')[other] == Kept(s)[other] {
        SyncOnlyAppends(s.tables, y, other);
      }
    }
    SummarisesStored(s, x, summary, upto);
    assert Kept(s')[x.id].(messages := []) == Canon(y).(messages := []);
  }

  lemma UncachedIsStored(s: State, x: SessionValue)
    requires CoherentAt(s, x.id) && Loaded(s.tables, x.id) == Some(Canon(x))
    ensures x.id in s.tables.rows && StoredPrefix(s.tables, x.id, x.messages)
  {
    ContiguousIsSorted(Lines(s.tables, x.id), 0);
  }

  /** What the operation makes of a stored session. */
  lemma SummarisesStored(s: State, x: SessionValue, summary: string, upto: nat)
    requires Coherent(s) && Loaded(s.tables, x.id) == Some(Canon(x)) && x.id in s.tables.rows
    ensures CanonAll(PlainStep(Kept(s), Summarise(x.id, summary, upto))) ==
            Kept(s)[x.id := Canon(Summed(x, summary, upto))]
  {
    KeptIsCanonical(s);
    SummedCommutes(x, summary, upto);
    CanonAllSet(Kept(s), x.id, Summed(Canon(x), summary, upto));
  }

  /** Such runs exist for every idle conversation: while the model summarises, it is evicted and a question loads it
      anew. The late write then makes cache and store disagree; and if the session is evicted once more before it, the
      status goes back for good. */
  lemma LateSummaryRollsBack(s: State, id: Id, newId: Id, content: string, seen: Seen, now: Time,
                             summary: string, upto: nat)
    requires Coherent(s) && id in s.cache && s.cache[id].status != Processing
    requires Legal(s, BeginStream(id, newId, content, seen, now))
    ensures var older, asked := s.cache[id], Step(Evicted(s, {}), BeginStream(id, newId, content, seen, now));
            && Next(s, BeginStream(id, newId, content, seen, now), asked)
            && id in Kept(asked) && Kept(asked)[id].status == Processing
            && !Coherent(asked.(tables := Synced(asked.tables, Summed(older, summary, upto))))
            && (var late := Evicted(asked, {}).(tables := Synced(asked.tables, Summed(older, summary, upto)));
                Coherent(late) && id in Kept(late) && Kept(late)[id].status == older.status)
  {
    var older, begin := s.cache[id], BeginStream(id, newId, content, seen, now);
    var asked := Step(Evicted(s, {}), begin);
    assert CoherentAt(s, id);
    EvictionIsInvisible(s, {});
    FoundIffKept(Evicted(s, {}), id);
    NextRefines(s, begin, asked);
    AskedAnew(s, id, begin);
    LateSummary(asked, id, older, summary, upto);
    EvictionIsInvisible(asked, {});
    LateSummaryUncached(Evicted(asked, {}), asked.cache[id], older, summary, upto);
  }

  /** The session as the question leaves it, loaded from the store. */
  lemma AskedAnew(s: State, id: Id, begin: Action)
    requires Coherent(s) && id in s.cache && begin.BeginStream? && begin.id == id && Legal(s, begin)
    ensures var asked := Step(Evicted(s, {}), begin);
            && Coherent(asked) && id in asked.cache && asked.cache[id].id == id
            && asked.cache[id].status == Processing && s.cache[id].messages <= asked.cache[id].messages
            && Loaded(asked.tables, id) == Some(Canon(asked.cache[id]))
  {
    assert CoherentAt(s, id);
    EvictionIsInvisible(s, {});
    StepRefines(Evicted(s, {}), begin);
    assert CoherentAt(Step(Evicted(s, {}), begin), id);
  }
}
