/** backend/conversation/conversation_manager.py as an object. Every operation is shown to be a step of the state
    machine in module Conversations; every persist succeeds. */
module ConversationManagers {
  import opened Results
  import opened Collections
  import opened ConversationStore
  import opened Conversations
  import opened Texts

  const MAX_SESSIONS := 100

  lemma {:induction false} SomeOldest(ages: map<Id, Time>, rest: set<Id>)
    requires rest <= ages.Keys && rest != {}
    ensures exists id :: id in rest && forall other :: other in rest ==> ages[id] <= ages[other]
    decreases |rest|
  {
    var some :| some in rest;
    if rest == {some} {
      assert forall other :: other in rest ==> ages[some] <= ages[other];
    } else {
      assert rest == {some} + (rest - {some});
      SomeOldest(ages, rest - {some});
      var id :| id in rest - {some} && forall other :: other in rest - {some} ==> ages[id] <= ages[other];
      var least := if ages[some] <= ages[id] then some else id;
      assert forall other :: other in rest ==> ages[least] <= ages[other];
    }
  }

  ghost predicate InAgeOrder(ages: map<Id, Time>, order: seq<Id>) {
    && (forall id :: id in order ==> id in ages)
    && (forall i, j :: 0 <= i < j < |order| ==> order[i] != order[j] && ages[order[i]] <= ages[order[j]])
  }

  /** All sessions from the least to the most recently updated; ties in any order. */
  method SortedByAge(ages: map<Id, Time>) returns (order: seq<Id>)
    ensures InAgeOrder(ages, order) && |order| == |ages|
    ensures forall id :: id in ages ==> id in order
  {
    var rest := ages.Keys;
    order := [];
    while rest != {}
      invariant rest <= ages.Keys && |order| + |rest| == |ages.Keys|
      invariant InAgeOrder(ages, order)
      invariant forall id :: id in ages ==> (id in order <==> id !in rest)
      invariant forall a, b :: a in order && b in rest ==> ages[a] <= ages[b]
      decreases |rest|
    {
      SomeOldest(ages, rest);
      var id :| id in rest && forall other :: other in rest ==> ages[id] <= ages[other];
      order := order + [id];
      rest := rest - {id};
    }
  }

  /** The eviction loop: the first n of the list are dropped. */
  method Without<V>(m: map<Id, V>, order: seq<Id>, n: nat) returns (rest: map<Id, V>)
    requires n <= |order| && forall i :: 0 <= i < |order| ==> order[i] in m
    requires forall i, j :: 0 <= i < j < |order| ==> order[i] != order[j]
    ensures |rest| == |m| - n
    ensures forall i :: 0 <= i < |order| ==> (order[i] in rest <==> n <= i)
    ensures forall id :: id in rest ==> id in m && rest[id] == m[id]
  {
    rest := m;
    for i := 0 to n
      invariant |rest| == |m| - i
      invariant forall k :: 0 <= k < |order| ==> (order[k] in rest <==> i <= k)
      invariant forall id :: id in rest ==> id in m && rest[id] == m[id]
    {
      assert order[i] in rest;
      assert (rest - {order[i]}).Keys == rest.Keys - {order[i]};
      rest := rest - {order[i]};
    }
  }

  /** In a list in age order, what is left out by dropping the first n is no newer than what stays. */
  lemma SplitInOrder<V>(ages: map<Id, Time>, order: seq<Id>, n: nat, rest: map<Id, V>, a: Id, b: Id)
    requires InAgeOrder(ages, order) && a in order && b in order && a !in rest && b in rest
    requires forall i :: 0 <= i < |order| ==> (order[i] in rest <==> n <= i)
    ensures ages[a] <= ages[b]
  {
    var i :| 0 <= i < |order| && order[i] == a;
    var j :| 0 <= j < |order| && order[j] == b;
    assert i < n <= j;
  }

  // ---- Turns, on the live session ----

  method Ask(session: ConversationSession, content: string, seen: Seen, now: Time)
    modifies session
    ensures session.Value() == Asked(old(session.Value()), content, seen, now)
  {
    session.messages := session.messages + [Said(User, content, map[], now)];
    session.status := Processing;
    session.updatedAt := now;
    session.context := Built(session.context, seen, now);
  }

  method Answer(session: ConversationSession, content: string, metadata: Attributes, now: Time)
    modifies session
    ensures session.Value() == Answered(old(session.Value()), content, metadata, now)
  {
    if !IsBlank(content) {
      session.messages := session.messages + [Said(Hermes, content, metadata, now)];
    }
    session.status := Active;
    session.updatedAt := now;
  }

  method Reply(session: ConversationSession, reply: Message, status: Status, now: Time)
    modifies session
    ensures session.Value() == Replied(old(session.Value()), reply, status, now)
  {
    session.messages := session.messages + [reply];
    session.status := status;
    session.updatedAt := now;
  }

  class ConversationManager {
    const store: SqliteConversationStore
    var sessions: map<Id, ConversationSession>

    ghost function Value(): (r: State)
      reads this, store, sessions.Values
    {
      State(map id | id in sessions :: sessions[id].Value(), store.Value())
    }

    ghost predicate Keyed()
      reads this
    {
      forall id :: id in sessions ==> sessions[id].id == id
    }

    ghost predicate Valid()
      reads this, store, sessions.Values
    {
      Keyed() && Coherent(Value())
    }

    constructor ()
      ensures Valid() && Value() == EMPTY && fresh(store)
    {
      store := new SqliteConversationStore();
      sessions := map[];
      new;
      assert forall id :: CoherentAt(EMPTY, id);
    }

    /** One session object may have changed; it is written through to the store. */
    method Persist(session: ConversationSession, ghost s: State)
      requires Keyed() && session.id in sessions && sessions[session.id] == session
      requires s.tables == store.Value() && s.cache.Keys == sessions.Keys
      requires forall id :: id in sessions && id != session.id ==> sessions[id].Value() == s.cache[id]
      modifies store
      ensures Value() == Put(s, session.Value())
    {
      var _ := store.Sync(session);
      assert Value().cache == s.cache[session.id := session.Value()];
    }

    method CachedOrLoaded(id: Id) returns (session: ConversationSession?)
      requires Keyed()
      modifies this
      ensures Keyed() && fresh(sessions.Values - old(sessions.Values))
      ensures Value() == Rehydrated(old(Value()), id)
      ensures session == null <==> Found(old(Value()), id).None?
      ensures session == null ==> sessions == old(sessions)
      ensures session != null ==>
        && session.id == id && id in sessions && sessions[id] == session
        && session.Value() == Found(old(Value()), id).value
    {
      ghost var s := Value();
      if id in sessions {
        assert s.cache[id := s.cache[id]] == s.cache;
        return sessions[id];
      }
      if id == "" {
        return null;
      }
      session := store.Load(id);
      if session != null {
        sessions := sessions[id := session];
        DiffersAt(s.cache, Value().cache, id);
      }
    }

    /** Below the limit nothing happens; otherwise the least recently updated sessions go, ten more than the excess. */
    method CleanupOldSessions()
      modifies this
      ensures forall id :: id in sessions ==> id in old(sessions) && sessions[id] == old(sessions)[id]
      ensures |old(sessions)| < 100 ==> sessions == old(sessions)
      ensures |old(sessions)| >= 100 ==> |sessions| == 90
      ensures forall a, b :: a in old(sessions) && a !in sessions && b in sessions ==>
                old(sessions)[a].updatedAt <= sessions[b].updatedAt
    {
      if |sessions| < MAX_SESSIONS {
        return;
      }
      var ages := map id | id in sessions :: sessions[id].updatedAt;
      assert ages.Keys == sessions.Keys;
      var oldest := SortedByAge(ages);
      var toRemove := |sessions| - MAX_SESSIONS + 10;
      sessions := Without(sessions, oldest, toRemove);
      forall a, b | a in old(sessions) && a !in sessions && b in sessions ensures ages[a] <= ages[b] {
        SplitInOrder(ages, oldest, toRemove, sessions, a, b);
      }
    }

    /** What a cleanup leaves is an eviction. */
    twostate lemma Remaining()
      requires store.Value() == old(store.Value())
      requires forall id :: id in sessions ==>
        id in old(sessions) && sessions[id] == old(sessions)[id] && sessions[id].Value() == old(sessions[id].Value())
      ensures Value() == Evicted(old(Value()), sessions.Keys)
    {
      assert Value().cache == Evicted(old(Value()), sessions.Keys).cache;
    }

    /** A new session joins the cache. */
    method Register(x: SessionValue) returns (session: ConversationSession)
      requires Keyed() && x.id !in sessions
      modifies this, store
      ensures Keyed() && fresh(session) && session.id == x.id && session.Value() == x
      ensures sessions == old(sessions)[x.id := session]
      ensures Value() == Put(old(Value()), x)
    {
      ghost var s := Value();
      session := new ConversationSession(x);
      sessions := sessions[x.id := session];
      Persist(session, State(s.cache[x.id := x], s.tables));
      assert s.cache[x.id := x][x.id := x] == s.cache[x.id := x];
    }

    method CleanupFirst()
      requires Keyed()
      modifies this
      ensures Keyed() && Value() == Evicted(old(Value()), sessions.Keys)
      ensures sessions.Keys <= old(sessions.Keys) && |sessions| < 100
    {
      CleanupOldSessions();
      Remaining();
    }

    method AddSession(userId: string, newId: Id, seen: Seen, now: Time) returns (session: ConversationSession)
      requires Keyed() && newId !in sessions
      modifies this, store
      ensures Keyed() && newId in sessions && sessions[newId] == session && session.id == newId && fresh(session)
      ensures session.Value() == NewSession(newId, userId, seen, now)
      ensures exists kept :: Value() == Put(Evicted(old(Value()), kept), session.Value())
      ensures |sessions| <= 100
    {
      CleanupFirst();
      ghost var kept := sessions.Keys;
      session := Register(NewSession(newId, userId, seen, now));
      assert Value() == Put(Evicted(old(Value()), kept), session.Value());
    }

    /** Afterwards the cache holds at most a hundred sessions. */
    method CreateSession(userId: string, newId: Id, seen: Seen, now: Time) returns (session: ConversationSession)
      requires Valid() && Legal(Value(), Create(newId, userId, seen, now))
      modifies this, store
      ensures Valid() && Next(old(Value()), Create(newId, userId, seen, now), Value())
      ensures |sessions| <= 100
      ensures newId in sessions && sessions[newId] == session && session.Value() == NewSession(newId, userId, seen, now)
    {
      ghost var s := Value();
      session := AddSession(userId, newId, seen, now);
      ghost var kept :| Value() == Put(Evicted(s, kept), session.Value());
      assert Value() == Step(Evicted(s, kept), Create(newId, userId, seen, now));
      NextRefines(s, Create(newId, userId, seen, now), Value());
    }

    /** The session the action works on: the one found, or a new one. */
    method OpenSession(id: Id, newId: Id, seen: Seen, now: Time) returns (session: ConversationSession)
      requires Keyed() && newId !in sessions
      modifies this, store
      ensures Keyed() && session.id in sessions && sessions[session.id] == session
      ensures session in old(sessions.Values) || fresh(session)
      ensures Found(old(Value()), id).Some? ==>
        session.id == id && session.Value() == Found(old(Value()), id).value && Value() == Rehydrated(old(Value()), id)
      ensures Found(old(Value()), id).None? ==>
        && session.id == newId && session.Value() == NewSession(newId, "anonymous", seen, now)
        && exists kept :: Value() == Put(Evicted(old(Value()), kept), session.Value())
    {
      var found := CachedOrLoaded(id);
      if found == null {
        session := AddSession("anonymous", newId, seen, now);
      } else {
        session := found;
      }
    }

    /** Writes the changed session through and concludes the step. */
    method Save(session: ConversationSession, ghost s: State, ghost action: Action, ghost s1: State)
      requires Keyed() && session.id in sessions && sessions[session.id] == session
      requires s1.tables == store.Value() && s1.cache.Keys == sessions.Keys
      requires forall id :: id in sessions && id != session.id ==> sessions[id].Value() == s1.cache[id]
      requires Coherent(s) && Legal(s, action) && Reached(s, action, s1, session.id)
      requires session.Value() == Updated(action, s1.cache[session.id])
      modifies store
      ensures Valid() && Next(s, action, Value()) && store.Value() == Synced(old(store.Value()), session.Value())
    {
      Persist(session, s1);
      SaveIsNext(s, action, s1, session.id, Value());
      NextRefines(s, action, Value());
    }

    method BeginStream(id: Id, newId: Id, content: string, seen: Seen, now: Time) returns (sessionId: Id)
      requires Valid() && Legal(Value(), Action.BeginStream(id, newId, content, seen, now))
      modifies this, store, sessions.Values
      ensures Valid() && Next(old(Value()), Action.BeginStream(id, newId, content, seen, now), Value())
      ensures sessionId == if Found(old(Value()), id).Some? then id else newId
    {
      ghost var s, action := Value(), Action.BeginStream(id, newId, content, seen, now);
      var session := OpenSession(id, newId, seen, now);
      ghost var s1 := Value();
      Ask(session, content, seen, now);
      assert session.Value() == Updated(action, s1.cache[session.id]);
      Save(session, s, action, s1);
      sessionId := session.id;
    }

    method FinishStream(id: Id, content: string, metadata: Attributes, now: Time)
      requires Valid()
      modifies this, store, sessions.Values
      ensures Valid() && Next(old(Value()), Action.FinishStream(id, content, metadata, now), Value())
    {
      ghost var s := Value();
      var session := CachedOrLoaded(id);
      if session == null {
        NothingIsNext(s, Action.FinishStream(id, content, metadata, now));
        return;
      }
      ghost var s1 := Value();
      Answer(session, content, metadata, now);
      Save(session, s, Action.FinishStream(id, content, metadata, now), s1);
    }

    method HandleMessage(id: Id, newId: Id, content: string, reply: Message, approval: bool, seen: Seen, now: Time)
      returns (sessionId: Id)
      requires Valid() && Legal(Value(), Action.HandleMessage(id, newId, content, reply, approval, seen, now))
      modifies this, store, sessions.Values
      ensures Valid()
      ensures Next(old(Value()), Action.HandleMessage(id, newId, content, reply, approval, seen, now), Value())
      ensures sessionId == if Found(old(Value()), id).Some? then id else newId
    {
      ghost var s := Value();
      var session := OpenSession(id, newId, seen, now);
      ghost var s1, x := Value(), session.Value();
      Ask(session, content, seen, now);
      Reply(session, reply, if approval then AwaitingApproval else Active, now);
      ghost var action := Action.HandleMessage(id, newId, content, reply, approval, seen, now);
      assert session.Value() == Updated(action, x);
      Save(session, s, action, s1);
      sessionId := session.id;
    }

    /** Binds the session to a project, or unbinds it. */
    method SetProject(id: Id, project: Option<string>, now: Time) returns (session: ConversationSession?)
      requires Valid()
      modifies this, store, sessions.Values
      ensures Valid() && Next(old(Value()), Action.SetProject(id, project, now), Value())
      ensures session == null <==> Found(old(Value()), id).None?
    {
      ghost var s := Value();
      session := CachedOrLoaded(id);
      if session == null {
        NothingIsNext(s, Action.SetProject(id, project, now));
        return;
      }
      ghost var s1 := Value();
      session.context := session.context["active_project_id" := Text(if project.Some? then project.value else "")];
      session.updatedAt := now;
      Save(session, s, Action.SetProject(id, project, now), s1);
    }

    /** The common part of approving and cancelling: one more message and a status. */
    method Respond(id: Id, reply: Message, status: Status, now: Time, ghost action: Action) returns (ok: bool)
      requires Valid()
      requires if status == Active then action == Action.Approve(id, reply, now) else
                 status == ConversationStore.Cancelled && action == Action.CancelAction(id, reply, now)
      modifies this, store, sessions.Values
      ensures Valid() && Next(old(Value()), action, Value())
      ensures ok <==> Found(old(Value()), id).Some?
    {
      ghost var s := Value();
      var session := CachedOrLoaded(id);
      ok := session != null;
      if session == null {
        NothingIsNext(s, action);
      } else {
        ghost var s1 := Value();
        Reply(session, reply, status, now);
        Save(session, s, action, s1);
      }
    }

    /** Approving or cancelling an unknown session is an error; it changes nothing. */
    method ApproveAction(id: Id, reply: Message, now: Time) returns (ok: bool)
      requires Valid()
      modifies this, store, sessions.Values
      ensures Valid() && Next(old(Value()), Action.Approve(id, reply, now), Value())
      ensures ok <==> Found(old(Value()), id).Some?
    {
      ok := Respond(id, reply, Active, now, Action.Approve(id, reply, now));
    }

    method CancelAction(id: Id, reply: Message, now: Time) returns (ok: bool)
      requires Valid()
      modifies this, store, sessions.Values
      ensures Valid() && Next(old(Value()), Action.CancelAction(id, reply, now), Value())
      ensures ok <==> Found(old(Value()), id).Some?
    {
      ok := Respond(id, reply, ConversationStore.Cancelled, now, Action.CancelAction(id, reply, now));
    }

    method GetSession(id: Id) returns (session: ConversationSession?)
      requires Valid()
      modifies this
      ensures Valid() && Next(old(Value()), Look(id), Value())
      ensures session == null <==> Found(old(Value()), id).None?
      ensures session != null ==> session.Value() == Found(old(Value()), id).value && Live(session)
    {
      ghost var s := Value();
      session := CachedOrLoaded(id);
      NothingIsNext(s, Look(id));
    }

    method DeleteSession(id: Id) returns (existed: bool)
      requires Valid()
      modifies this, store
      ensures Valid() && Next(old(Value()), Delete(id), Value())
      ensures existed <==> id in old(Value()).tables.rows
    {
      ghost var s := Value();
      assert CoherentAt(s, id);
      existed := id in sessions;
      sessions := sessions - {id};
      var stored := store.Delete(id);
      existed := existed || stored;
      assert Value().cache == s.cache - {id};
      assert Evicted(s, s.cache.Keys) == s;
      assert Value() == Step(Evicted(s, s.cache.Keys), Delete(id));
      NextRefines(s, Delete(id), Value());
    }

    /** The first half of rafraichir_resume: a lookup, and how many messages a summary would cover if one is needed. */
    method BeginSummary(id: Id) returns (session: ConversationSession?, upto: nat)
      requires Valid()
      modifies this
      ensures Valid() && Next(old(Value()), Look(id), Value())
      ensures session != null <==>
        && Found(old(Value()), id).Some? && NeedsSummary(Found(old(Value()), id).value)
      ensures session != null ==>
        && session.Value() == Found(old(Value()), id).value && upto == OldMessages(session.Value())
        && Live(session) && |session.messages| > 24 && upto == |session.messages| - 20
        && (var covered := Attribute(session.context, "history_summary_upto");
            covered.Number? ==> covered.value < |session.messages| - 20)
    {
      upto := 0;
      session := GetSession(id);
      if session != null {
        if NeedsSummary(session.Value()) {
          upto := OldMessages(session.Value());
        } else {
          session := null;
        }
      }
    }

    /** The session object is the one in the cache. */
    predicate Live(session: ConversationSession)
      reads this
    {
      session.id in sessions && sessions[session.id] == session
    }

    /** The second half, after the model has answered, on the object that the first half found. An empty answer changes
        nothing. When the object is still the cached one this is a step. When its conversation has left the cache, this
        is as good as a step unless it has changed since; when another object stands for it, only the store sees it. */
    method FinishSummary(session: ConversationSession, summary: string, upto: nat) returns (done: bool)
      requires Valid()
      modifies session, store
      ensures done <==> summary != ""
      ensures !done ==> Value() == old(Value()) && session.Value() == old(session.Value())
      ensures done ==> session.Value() == Summed(old(session.Value()), summary, upto)
      ensures done ==> store.Value() == Synced(old(store.Value()), session.Value())
      ensures done && Live(session) ==> Valid() && Next(old(Value()), Summarise(session.id, summary, upto), Value())
      ensures done && !Live(session) ==> Value().cache == old(Value()).cache
      ensures done && session.id !in sessions ==>
        WrittenUncached(old(Value()), old(session.Value()), summary, upto, Value())
      ensures done && session.id !in sessions && StoresNoLess(old(Value()), old(session.Value())) ==> Valid()
    {
      ghost var s := Value();
      if summary == "" {
        return false;
      }
      ghost var action := Summarise(session.id, summary, upto);
      StoreSummary(session, summary, upto);
      if Live(session) {
        assert Rehydrated(s, session.id).cache == s.cache;
        Save(session, s, action, s);
      } else {
        ghost var older := old(session.Value());
        var _ := store.Sync(session);
        assert Value().cache == s.cache;
        if session.id !in sessions {
          assert Value() == s.(tables := Synced(s.tables, Summed(older, summary, upto)));
          UncachedWrite(s, older, summary, upto);
        }
      }
      return true;
    }
  }

  /** The store still has the conversation, with at least these messages. */
  ghost predicate StoresNoLess(s: State, older: SessionValue) {
    Loaded(s.tables, older.id).Some? && older.messages <= Loaded(s.tables, older.id).value.messages
  }

  /** The late write of a conversation that is not in the cache: the operation itself if the store has it as the
      snapshot does, and otherwise the snapshot with the summary and all messages stored since. */
  ghost predicate WrittenUncached(s: State, older: SessionValue, summary: string, upto: nat, s': State) {
    && (Loaded(s.tables, older.id) == Some(Canon(older)) ==>
          Kept(s') == CanonAll(PlainStep(Kept(s), Summarise(older.id, summary, upto))))
    && (StoresNoLess(s, older) ==>
          var messages := Loaded(s.tables, older.id).value.messages;
          Kept(s') == Kept(s)[older.id := Canon(Summed(older, summary, upto)).(messages := messages)])
  }

  lemma UncachedWrite(s: State, older: SessionValue, summary: string, upto: nat)
    requires Coherent(s) && older.id !in s.cache
    ensures var s' := s.(tables := Synced(s.tables, Summed(older, summary, upto)));
            WrittenUncached(s, older, summary, upto, s') && (StoresNoLess(s, older) ==> Coherent(s'))
  {
    if Loaded(s.tables, older.id) == Some(Canon(older)) {
      LateSummaryUncached(s, older, older, summary, upto);
    }
    if StoresNoLess(s, older) {
      var x := Loaded(s.tables, older.id).value;
      KeptIsCanonical(s);
      assert Canon(x) == Kept(s)[older.id];
      LateSummaryUncached(s, x, older, summary, upto);
    }
  }

  method StoreSummary(session: ConversationSession, summary: string, upto: nat)
    modifies session
    ensures session.Value() == Summed(old(session.Value()), summary, upto)
  {
    session.context := session.context["history_summary" := Text(summary)];
    session.context := session.context["history_summary_upto" := Number(upto)];
  }

  /** The state in which the action has its session at hand, before it changes it. */
  ghost predicate Reached(s: State, action: Action, s1: State, id: Id) {
    && !action.Create? && !action.Delete? && !action.Look?
    && if Found(s, action.id).Some? then id == action.id && s1 == Rehydrated(s, id) else
         && Opens(action) && id == action.newId
         && exists kept :: s1 == Put(Evicted(s, kept), NewSession(id, "anonymous", action.seen, action.now))
  }

  lemma SaveIsNext(s: State, action: Action, s1: State, id: Id, s': State)
    requires Coherent(s) && Legal(s, action) && Reached(s, action, s1, id)
    requires id in s1.cache && s' == Put(s1, Updated(action, s1.cache[id]))
    ensures Next(s, action, s')
  {
    if Found(s, action.id).Some? {
      assert Evicted(s, s.cache.Keys) == s;
      assert s' == Step(Evicted(s, s.cache.Keys), action);
    } else {
      var kept :| s1 == Put(Evicted(s, kept), NewSession(id, "anonymous", action.seen, action.now));
      assert Found(Evicted(s, kept), action.id).None?;
      assert s' == Step(Evicted(s, kept), action);
    }
  }

  lemma NothingIsNext(s: State, action: Action)
    requires Coherent(s) && !action.Create? && !action.Delete? && !Opens(action)
    requires Found(s, action.id).None? || action.Look?
    ensures Next(s, action, Rehydrated(s, action.id)) && Coherent(Rehydrated(s, action.id))
  {
    assert Evicted(s, s.cache.Keys) == s;
    assert Rehydrated(s, action.id) == Step(Evicted(s, s.cache.Keys), action);
    RehydrationIsInvisible(s, action.id);
  }
}
