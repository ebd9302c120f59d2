/** backend/conversation/conversation_store.py: conversations in two tables. A session has one row, overwritten by each
    sync, and message rows, which are only ever appended. */
module ConversationStore {
  import opened Results

  type Id = string

  /** ISO timestamps of one UTC clock compare as the instants they name. */
  type Time = int

  datatype Json =
    | Text(text: string) | Number(value: int) | Items(items: seq<string>) | Pairs(pairs: map<string, string>)

  /** What vars() gives of a dataclass: its declared fields, and any attribute set on it later. */
  type Attributes = map<string, Json>

  datatype Role = User | Hermes | System | Agent
  datatype Status = Active | AwaitingApproval | Processing | Completed | Cancelled | Failed
  datatype Message = Message(role: Role, content: string, timestamp: Time, metadata: Attributes, agentId: string,
                             missionId: string)
  datatype SessionValue = SessionValue(id: Id, userId: string, status: Status, messages: seq<Message>,
                                       context: Attributes, createdAt: Time, updatedAt: Time, metadata: Attributes)

  datatype SessionRow = SessionRow(userId: string, status: string, context: Attributes, metadata: Attributes,
                                   createdAt: Time, updatedAt: Time)
  datatype MessageRow = MessageRow(seqNo: int, role: string, content: string, timestamp: Time, agentId: string,
                                   missionId: string, metadata: Attributes)

  /** The message rows of each session in the order of insertion. */
  datatype Tables = Tables(rows: map<Id, SessionRow>, lines: map<Id, seq<MessageRow>>)

  // ---- Encoding ----

  function StatusName(status: Status): (r: string) {
    match status
    case Active => "active"
    case AwaitingApproval => "awaiting_approval"
    case Processing => "processing"
    case Completed => "completed"
    case Cancelled => "cancelled"
    case Failed => "failed"
  }

  /** An unknown status reads as ACTIVE. */
  function StatusOf(name: string): (r: Status) {
    match name
    case "awaiting_approval" => AwaitingApproval
    case "processing" => Processing
    case "completed" => Completed
    case "cancelled" => Cancelled
    case "failed" => Failed
    case _ => Active
  }

  function RoleName(role: Role): (r: string) {
    match role
    case User => "user"
    case Hermes => "hermes"
    case System => "system"
    case Agent => "agent"
  }

  /** An unknown role reads as SYSTEM. */
  function RoleOf(name: string): (r: Role) {
    match name
    case "user" => User
    case "hermes" => Hermes
    case "agent" => Agent
    case _ => System
  }

  lemma NamesRoundTrip(status: Status, role: Role)
    ensures StatusOf(StatusName(status)) == status && RoleOf(RoleName(role)) == role
  {
  }

  /** The fields of ConversationContext with their defaults. */
  function DefaultContext(): (r: Attributes) {
    map["active_goal_id" := Text(""), "active_mission_id" := Text(""), "active_project_id" := Text(""),
        "active_agents" := Items([]), "current_runtime" := Text(""), "current_model" := Text(""),
        "recent_events" := Items([]), "workspace_status" := Text(""), "security_level" := Text("normal"),
        "environment_vars" := Pairs(map[]), "history_summary" := Text(""), "history_summary_upto" := Number(0)]
  }

  function Attribute(context: Attributes, name: string): (r: Json)
    requires name in DefaultContext()
  {
    if name in context then context[name] else DefaultContext()[name]
  }

  /** What load makes of a stored context: the declared fields only. */
  function Restored(context: Attributes): (r: Attributes) {
    map name | name in DefaultContext() :: Attribute(context, name)
  }

  /** What storage keeps of a session: an attribute the class does not declare is dropped, and an empty user becomes
      "anonymous". */
  function Canon(s: SessionValue): (r: SessionValue) {
    s.(userId := if s.userId == "" then "anonymous" else s.userId, context := Restored(s.context))
  }

  function RowOf(k: int, m: Message): (r: MessageRow) {
    MessageRow(k, RoleName(m.role), m.content, m.timestamp, m.agentId, m.missionId, m.metadata)
  }

  function MessageOf(row: MessageRow): (r: Message) {
    Message(RoleOf(row.role), row.content, row.timestamp, row.metadata, row.agentId, row.missionId)
  }

  function MessagesOf(rows: seq<MessageRow>): (r: seq<Message>) {
    seq(|rows|, i requires 0 <= i < |rows| => MessageOf(rows[i]))
  }

  // ---- ORDER BY seq ----

  function InsertBySeq(row: MessageRow, rows: seq<MessageRow>): (r: seq<MessageRow>) {
    if rows == [] || row.seqNo <= rows[0].seqNo then [row] + rows
    else [rows[0]] + InsertBySeq(row, rows[1..])
  }

  function BySeq(rows: seq<MessageRow>): (r: seq<MessageRow>) {
    if rows == [] then [] else InsertBySeq(rows[0], BySeq(rows[1..]))
  }

  /** Numbered k, k + 1, ... without a gap. */
  predicate Contiguous(rows: seq<MessageRow>, k: int) {
    forall i :: 0 <= i < |rows| ==> rows[i].seqNo == k + i
  }

  lemma {:induction false} ContiguousIsSorted(rows: seq<MessageRow>, k: int)
    requires Contiguous(rows, k)
    ensures BySeq(rows) == rows
  {
    if rows != [] {
      var rest := rows[1..];
      forall i | 0 <= i < |rest| ensures rest[i].seqNo == k + 1 + i {
        assert rest[i] == rows[i + 1];
      }
      ContiguousIsSorted(rest, k + 1);
      assert rest != [] ==> rest[0] == rows[1];
      assert [rows[0]] + rest == rows;
    }
  }

  // ---- sync, load and delete on the tables ----

  function Lines(t: Tables, id: Id): (r: seq<MessageRow>) {
    if id in t.lines then t.lines[id] else []
  }

  /** The rows for the messages from position k on; none when there are no more than k messages. */
  function RowsFrom(messages: seq<Message>, k: nat): (rows: seq<MessageRow>)
    ensures |rows| == if k < |messages| then |messages| - k else 0
    ensures forall i :: 0 <= i < |rows| ==> rows[i] == RowOf(k + i, messages[k + i])
    decreases |messages| - k
  {
    if k >= |messages| then [] else [RowOf(k, messages[k])] + RowsFrom(messages, k + 1)
  }

  function SessionRowOf(s: SessionValue): (r: SessionRow) {
    SessionRow(s.userId, StatusName(s.status), s.context, s.metadata, s.createdAt, s.updatedAt)
  }

  function Synced(t: Tables, s: SessionValue): (r: Tables) {
    Tables(t.rows[s.id := SessionRowOf(s)],
           t.lines[s.id := Lines(t, s.id) + RowsFrom(s.messages, |Lines(t, s.id)|)])
  }

  function Loaded(t: Tables, id: Id): (r: Option<SessionValue>) {
    if id !in t.rows then None else
      var row := t.rows[id];
      Some(SessionValue(id, if row.userId == "" then "anonymous" else row.userId, StatusOf(row.status),
                        MessagesOf(BySeq(Lines(t, id))), Restored(row.context), row.createdAt, row.updatedAt,
                        row.metadata))
  }

  function Deleted(t: Tables, id: Id): (r: Tables) {
    Tables(t.rows - {id}, t.lines - {id})
  }

  // ---- Properties ----

  /** What is stored of this conversation is the beginning of it, numbered from 0. */
  predicate StoredPrefix(t: Tables, id: Id, messages: seq<Message>) {
    && Contiguous(Lines(t, id), 0)
    && MessagesOf(Lines(t, id)) <= messages
  }

  lemma RowsRoundTrip(rows: seq<MessageRow>, messages: seq<Message>)
    requires MessagesOf(rows) <= messages
    ensures MessagesOf(rows + RowsFrom(messages, |rows|)) == messages
  {
    var all := rows + RowsFrom(messages, |rows|);
    assert |MessagesOf(rows)| == |rows| <= |messages|;
    forall i | 0 <= i < |messages| ensures MessagesOf(all)[i] == messages[i] {
      if i < |rows| {
        assert MessagesOf(rows)[i] == messages[i];
      } else {
        NamesRoundTrip(Active, messages[i].role);
        assert all[i] == RowOf(i, messages[i]);
      }
    }
  }

  /** Self-healing: however much of the conversation was stored, afterwards all of it is, in order and numbered without
      a gap, and loading gives the session back. */
  lemma SyncThenLoad(t: Tables, s: SessionValue)
    requires StoredPrefix(t, s.id, s.messages)
    ensures Loaded(Synced(t, s), s.id) == Some(Canon(s))
    ensures StoredPrefix(Synced(t, s), s.id, s.messages) && |Lines(Synced(t, s), s.id)| == |s.messages|
  {
    var rows, all := Lines(t, s.id), Lines(Synced(t, s), s.id);
    RowsRoundTrip(rows, s.messages);
    assert |MessagesOf(rows)| == |rows| <= |s.messages|;
    ContiguousIsSorted(all, 0);
    NamesRoundTrip(s.status, User);
  }

  /** Append-only, without any assumption on what is stored: no message row is changed or removed, each new row is the
      message at its own position, and no other session is touched. */
  lemma SyncOnlyAppends(t: Tables, s: SessionValue, id: Id)
    ensures Lines(t, id) <= Lines(Synced(t, s), id)
    ensures id != s.id ==>
      Lines(Synced(t, s), id) == Lines(t, id) && Loaded(Synced(t, s), id) == Loaded(t, id)
    ensures forall i :: |Lines(t, s.id)| <= i < |Lines(Synced(t, s), s.id)| ==>
      i < |s.messages| && Lines(Synced(t, s), s.id)[i] == RowOf(i, s.messages[i])
    ensures |Lines(Synced(t, s), s.id)| ==
      if |Lines(t, s.id)| < |s.messages| then |s.messages| else |Lines(t, s.id)|
  {
  }

  /** A second sync writes nothing. */
  lemma SyncTwice(t: Tables, s: SessionValue)
    ensures Synced(Synced(t, s), s) == Synced(t, s)
  {
    var once := Synced(t, s);
    assert RowsFrom(s.messages, |Lines(once, s.id)|) == [];
    assert Lines(once, s.id) + [] == Lines(once, s.id);
    assert Synced(once, s).lines == once.lines;
    assert Synced(once, s).rows == once.rows;
  }

  /** Syncing an older snapshot of a stored conversation changes no message row; it does roll the session row back to
      the snapshot. */
  lemma SyncOfOlderSnapshot(t: Tables, s: SessionValue, older: SessionValue)
    requires Loaded(t, s.id) == Some(Canon(s)) && StoredPrefix(t, s.id, s.messages)
    requires older.id == s.id && older.messages <= s.messages
    ensures forall id :: Lines(Synced(t, older), id) == Lines(t, id)
    ensures Loaded(Synced(t, older), s.id) == Some(Canon(older).(messages := s.messages))
  {
    ContiguousIsSorted(Lines(t, s.id), 0);
    assert MessagesOf(Lines(t, s.id)) == s.messages;
    assert |Lines(t, s.id)| == |MessagesOf(Lines(t, s.id))|;
    assert RowsFrom(older.messages, |Lines(t, s.id)|) == [];
    assert Lines(Synced(t, older), s.id) == Lines(t, s.id) + [];
    NamesRoundTrip(older.status, User);
  }

  lemma DeleteForgets(t: Tables, id: Id, other: Id)
    ensures Loaded(Deleted(t, id), id) == None && Lines(Deleted(t, id), id) == []
    ensures other != id ==> Loaded(Deleted(t, id), other) == Loaded(t, other)
  {
  }

  lemma RestoredTwice(context: Attributes)
    ensures Restored(Restored(context)) == Restored(context)
  {
  }

  // ---- The live session and the store ----

  /** ConversationSession: the live object, changed in place. */
  class ConversationSession {
    const id: Id
    var userId: string
    var status: Status
    var messages: seq<Message>
    var context: Attributes
    var createdAt: Time
    var updatedAt: Time
    var metadata: Attributes

    constructor (s: SessionValue)
      ensures Value() == s
    {
      id, userId, status, messages := s.id, s.userId, s.status, s.messages;
      context, createdAt, updatedAt, metadata := s.context, s.createdAt, s.updatedAt, s.metadata;
    }

    function Value(): (r: SessionValue)
      reads this
    {
      SessionValue(id, userId, status, messages, context, createdAt, updatedAt, metadata)
    }
  }

  class SqliteConversationStore {
    var rows: map<Id, SessionRow>
    var lines: map<Id, seq<MessageRow>>

    constructor ()
      ensures Value() == Tables(map[], map[])
    {
      rows, lines := map[], map[];
    }

    function Value(): (r: Tables)
      reads this
    {
      Tables(rows, lines)
    }

    /** Counts what is stored and adds what comes after; both tables change at the commit. */
    method Sync(session: ConversationSession) returns (written: nat)
      modifies this
      ensures Value() == Synced(old(Value()), session.Value())
      ensures written == |RowsFrom(session.messages, |Lines(old(Value()), session.id)|)|
    {
      var row := SessionRow(session.userId, StatusName(session.status), session.context, session.metadata,
                            session.createdAt, session.updatedAt);
      var stored := |Lines(Value(), session.id)|;
      var added: seq<MessageRow> := [];
      var messages := session.messages;
      written := 0;
      while stored + written < |messages|
        invariant stored + written <= |messages| || written == 0
        invariant |added| == written
        invariant forall i :: 0 <= i < written ==> added[i] == RowOf(stored + i, messages[stored + i])
      {
        var index := stored + written;
        added := added + [RowOf(index, messages[index])];
        written := written + 1;
      }
      assert added == RowsFrom(messages, stored);
      rows := rows[session.id := row];
      lines := lines[session.id := Lines(Value(), session.id) + added];
    }

    method Delete(id: Id) returns (existed: bool)
      modifies this
      ensures Value() == Deleted(old(Value()), id) && existed == (id in old(rows))
    {
      lines := lines - {id};
      existed := id in rows;
      rows := rows - {id};
    }

    method Load(id: Id) returns (session: ConversationSession?)
      ensures session == null <==> Loaded(Value(), id).None?
      ensures session != null ==> fresh(session) && Loaded(Value(), id) == Some(session.Value())
    {
      if id !in rows {
        return null;
      }
      var row := rows[id];
      var context := RestoreContext(row.context);
      session := new ConversationSession(SessionValue(
        id, if row.userId == "" then "anonymous" else row.userId, StatusOf(row.status),
        MessagesOf(BySeq(Lines(Value(), id))), context, row.createdAt, row.updatedAt, row.metadata));
    }
  }

  /** Starts from the defaults and sets every stored attribute that the class declares. */
  method RestoreContext(stored: Attributes) returns (context: Attributes)
    ensures context == Restored(stored)
    ensures context.Keys == DefaultContext().Keys
    ensures forall name :: name in context ==>
      context[name] == if name in stored then stored[name] else DefaultContext()[name]
  {
    context := DefaultContext();
    var rest := stored.Keys;
    while rest != {}
      invariant rest <= stored.Keys && context.Keys == DefaultContext().Keys
      invariant forall name :: name in context ==>
        context[name] == if name in rest then DefaultContext()[name] else Attribute(stored, name)
      decreases |rest|
    {
      var name :| name in rest;
      if name in context {
        context := context[name := stored[name]];
      }
      rest := rest - {name};
    }
  }
}
