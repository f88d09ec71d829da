/**
  The conversation store of backend/src/database/init.ts: the `sessions` and
  `messages` tables, the AFTER INSERT trigger that keeps each session's
  `message_count` and `updated_at` current, and the five store operations.

  Row identifiers (uuid v4) and the clock are parameters of the writes.
  The foreign key from `messages.session_id` to `sessions.id` is declared but
  SQLite only enforces it when `PRAGMA foreign_keys` is on, which the backend
  never does: a message for an unknown session is stored and the trigger
  updates no session.
 */
module Store {
  import opened Outcomes
  import opened Sorting
  import opened Selection

  type Id = string

  /** A reading of the store's clock; only the order of readings matters. */
  type Time = nat

  const UserSender := "user"
  const AiSender := "ai"

  /** The `CHECK (sender IN ('user', 'ai'))` constraint. */
  predicate AllowedSender(sender: string)
  {
    sender == UserSender || sender == AiSender
  }

  datatype Session = Session(id: Id, createdAt: Time, updatedAt: Time, messageCount: nat, metadata: Option<string>)

  datatype Message = Message(id: Id, sessionId: Id, text: string, sender: string, timestamp: Time, metadata: Option<string>)

  /** What a caller of `saveMessage` supplies: a message without id and timestamp. */
  datatype NewMessage = NewMessage(sessionId: Id, text: string, sender: string, metadata: Option<string>)

  /**
    Both tables. `sessions` is keyed by id; `rowOrder` lists the session ids in
    insertion (rowid) order; `messages` holds the message rows in insertion order.
   */
  datatype Db = Db(sessions: map<Id, Session>, rowOrder: seq<Id>, messages: seq<Message>)

  /** The constraint an insert violated. */
  datatype Violation = SessionIdTaken | MessageIdTaken | SenderNotAllowed

  /** The store after a write, and what the write returned; a failed write leaves the store as it was. */
  datatype Write<T> = Write(db: Db, result: Result<T, Violation>)

  const EmptyDb := Db(map[], [], [])

  /** The defaults of `getMessages` and `getRecentSessions`. */
  const DefaultMessageLimit: nat := 50
  const DefaultMessageOffset: nat := 0
  const DefaultRecentLimit: nat := 10

  /** Whether a row belongs to `sessionId`: the `WHERE session_id = ?` test. */
  function InSession(sessionId: Id): Message -> bool
  {
    (m: Message) => m.sessionId == sessionId
  }

  /** The rows of `messages` whose `session_id` is `sessionId`, in insertion order. */
  function MessagesOf(messages: seq<Message>, sessionId: Id): (r: seq<Message>)
    ensures |r| <= |messages|
    ensures forall i :: 0 <= i < |r| ==> r[i].sessionId == sessionId && r[i] in messages
    ensures forall m :: m in messages && m.sessionId == sessionId ==> m in r
  {
    if |messages| == 0 then
      []
    else
      var init := messages[..|messages| - 1];
      var last := messages[|messages| - 1];
      assert messages == init + [last];
      MessagesOf(init, sessionId) + (if last.sessionId == sessionId then [last] else [])
  }

  /**
    The selection is exact: the rows at the increasing positions of the
    session's rows, so each of them once and in insertion order.
   */
  lemma {:induction false} MessagesOfSelects(messages: seq<Message>, sessionId: Id)
    ensures var r := MessagesOf(messages, sessionId);
      var idx := Positions(messages, InSession(sessionId));
      && |r| == |idx|
      && forall j :: 0 <= j < |r| ==> r[j] == messages[idx[j]]
  {
    if |messages| > 0 {
      var last := |messages| - 1;
      MessagesOfSelects(messages[..last], sessionId);
      SelectsSnoc(messages, InSession(sessionId), MessagesOf(messages[..last], sessionId));
    }
  }

  lemma MessagesOfAppend(messages: seq<Message>, m: Message, sessionId: Id)
    ensures MessagesOf(messages + [m], sessionId)
         == MessagesOf(messages, sessionId) + (if m.sessionId == sessionId then [m] else [])
  {
    assert (messages + [m])[..|messages|] == messages;
  }

  /** The number of stored messages that belong to `sessionId`. */
  function CountFor(db: Db, sessionId: Id): nat
  {
    |MessagesOf(db.messages, sessionId)|
  }

  predicate MessageIdUsed(messages: seq<Message>, id: Id)
  {
    exists i :: 0 <= i < |messages| && messages[i].id == id
  }

  /** The stored `metadata` column: `message.metadata || null`, so an empty string is stored as NULL. */
  function StoredMetadata(metadata: Option<string>): (r: Option<string>)
    ensures r.Some? ==> r == metadata && r.value != ""
    ensures metadata.Some? && metadata.value != "" ==> r == metadata
  {
    if Truthy(metadata) then metadata else None
  }

  /** The row the trigger leaves behind: one more message, touched at `now`. */
  function Touched(s: Session, now: Time): Session
  {
    s.(updatedAt := now, messageCount := s.messageCount + 1)
  }

  /**
    `createSession`: inserts `(id)` and returns `id`; the other columns take
    their defaults (both timestamps `now`, count 0, no metadata). The PRIMARY
    KEY rejects an id that is already taken.
   */
  function CreateSession(db: Db, id: Id, now: Time): (w: Write<Id>)
    ensures w.result.Ok? <==> id !in db.sessions
    ensures w.result.Err? ==> w.result.error == SessionIdTaken && w.db == db
    ensures w.result.Ok? ==>
      && w.result.value == id
      && w.db.sessions.Keys == db.sessions.Keys + {id}
      && w.db.sessions[id] == Session(id, now, now, 0, None)
      && (forall k :: k in db.sessions ==> w.db.sessions[k] == db.sessions[k])
      && w.db.rowOrder == db.rowOrder + [id]
      && w.db.messages == db.messages
  {
    if id in db.sessions then
      Write(db, Err(SessionIdTaken))
    else
      Write(db.(sessions := db.sessions[id := Session(id, now, now, 0, None)], rowOrder := db.rowOrder + [id]), Ok(id))
  }

  /** `getSession`: the stored row, or `null` for an unknown id. */
  function GetSession(db: Db, id: Id): (r: Option<Session>)
    ensures r.None? <==> id !in db.sessions
    ensures r.Some? ==> r.value == db.sessions[id]
  {
    if id in db.sessions then Some(db.sessions[id]) else None
  }

  /**
    `saveMessage`: inserts one row stamped `now` under the fresh `id`, then the
    AFTER INSERT trigger bumps `message_count` and sets `updated_at` on the
    session whose id is the row's `session_id`, if there is one. The returned
    record echoes the caller's fields (including `metadata` as given, even
    when an empty string was stored as NULL).
   */
  function SaveMessage(db: Db, msg: NewMessage, id: Id, now: Time): (w: Write<Message>)
    ensures w.result.Err? <==> !AllowedSender(msg.sender) || MessageIdUsed(db.messages, id)
    ensures w.result.Err? ==> w.db == db
    ensures !AllowedSender(msg.sender) ==> w.result == Err(SenderNotAllowed)
    ensures w.result.Ok? ==>
      && w.result.value == Message(id, msg.sessionId, msg.text, msg.sender, now, msg.metadata)
      && w.db.messages == db.messages + [Message(id, msg.sessionId, msg.text, msg.sender, now, StoredMetadata(msg.metadata))]
      && w.db.rowOrder == db.rowOrder
      && w.db.sessions.Keys == db.sessions.Keys
      && (forall k :: k in db.sessions && k != msg.sessionId ==> w.db.sessions[k] == db.sessions[k])
      && (msg.sessionId in db.sessions ==>
            var before := db.sessions[msg.sessionId];
            var after := w.db.sessions[msg.sessionId];
            && after.messageCount == before.messageCount + 1
            && after.updatedAt == now
            && after.id == before.id && after.createdAt == before.createdAt && after.metadata == before.metadata)
  {
    if !AllowedSender(msg.sender) then
      Write(db, Err(SenderNotAllowed))
    else if MessageIdUsed(db.messages, id) then
      Write(db, Err(MessageIdTaken))
    else
      var row := Message(id, msg.sessionId, msg.text, msg.sender, now, StoredMetadata(msg.metadata));
      var sessions :=
        if msg.sessionId in db.sessions then db.sessions[msg.sessionId := Touched(db.sessions[msg.sessionId], now)]
        else db.sessions;
      Write(db.(sessions := sessions, messages := db.messages + [row]),
            Ok(Message(id, msg.sessionId, msg.text, msg.sender, now, msg.metadata)))
  }

  /** The sort key of `ORDER BY timestamp ASC`. */
  function ByTimestamp(m: Message): int
  {
    m.timestamp
  }

  /** SQL `LIMIT limit OFFSET offset` on an ordered result. */
  function Window<T>(s: seq<T>, limit: nat, offset: nat): (r: seq<T>)
    ensures offset >= |s| ==> r == []
    ensures |r| == if offset >= |s| then 0 else if limit < |s| - offset then limit else |s| - offset
    ensures forall i :: 0 <= i < |r| ==> r[i] == s[offset + i]
  {
    if offset >= |s| then [] else Take(s[offset..], limit)
  }

  /**
    `getMessages(sessionId, limit, offset)`: the session's messages ordered by
    timestamp, ascending, skipping `offset` and keeping at most `limit`. The
    page is the `LIMIT`/`OFFSET` window of an ascending ordering of exactly the
    session's messages; in particular a first page holds the oldest messages.
   */
  function GetMessages(db: Db, sessionId: Id, limit: nat, offset: nat): (r: seq<Message>)
    ensures forall i :: 0 <= i < |r| ==> r[i].sessionId == sessionId && r[i] in db.messages
    ensures SortedBy(r, ByTimestamp)
    ensures |r| <= limit
    ensures offset >= CountFor(db, sessionId) ==> r == []
    ensures offset < CountFor(db, sessionId) ==>
      |r| == if limit < CountFor(db, sessionId) - offset then limit else CountFor(db, sessionId) - offset
    ensures exists sorted: seq<Message> ::
      && SortedBy(sorted, ByTimestamp)
      && multiset(sorted) == multiset(MessagesOf(db.messages, sessionId))
      && r == Window(sorted, limit, offset)
    ensures offset == 0 ==> forall m :: m in MessagesOf(db.messages, sessionId) && m !in r ==>
      forall i :: 0 <= i < |r| ==> r[i].timestamp <= m.timestamp
  {
    var all := MessagesOf(db.messages, sessionId);
    var sorted := SortBy(all, ByTimestamp);
    SortByKeepsElements(all, ByTimestamp);
    FirstPageIsOldest(all, limit);
    var r := Window(sorted, limit, offset);
    assert SortedBy(sorted, ByTimestamp) && multiset(sorted) == multiset(all) && r == Window(sorted, limit, offset);
    r
  }

  /** The first `limit` rows of the ascending ordering are no later than any row left out. */
  lemma FirstPageIsOldest(all: seq<Message>, limit: nat)
    ensures var r := Window(SortBy(all, ByTimestamp), limit, 0);
      forall m :: m in all && m !in r ==> forall i :: 0 <= i < |r| ==> r[i].timestamp <= m.timestamp
  {
    var sorted := SortBy(all, ByTimestamp);
    var r := Window(sorted, limit, 0);
    SortByKeepsElements(all, ByTimestamp);
    assert r == Take(sorted, limit);
    forall m | m in all && m !in r ensures forall i :: 0 <= i < |r| ==> r[i].timestamp <= m.timestamp {
      TakeOfSortedKeepsLeast(sorted, ByTimestamp, limit, m);
    }
  }

  /** The sessions in rowid order. */
  function Rows(sessions: map<Id, Session>, ids: seq<Id>): (r: seq<Session>)
    ensures forall i :: 0 <= i < |r| ==> r[i] in sessions.Values
    ensures forall k :: k in ids && k in sessions ==> sessions[k] in r
    ensures (forall i :: 0 <= i < |ids| ==> ids[i] in sessions) ==>
      |r| == |ids| && forall i :: 0 <= i < |r| ==> r[i] == sessions[ids[i]]
  {
    if |ids| == 0 then
      []
    else
      var init := ids[..|ids| - 1];
      var last := ids[|ids| - 1];
      assert ids == init + [last];
      Rows(sessions, init) + (if last in sessions then [sessions[last]] else [])
  }

  /** The sort key of `ORDER BY updated_at DESC`. */
  function ByRecency(s: Session): int
  {
    -(s.updatedAt as int)
  }

  /**
    `getRecentSessions(limit)`: the `limit` most recently updated stored
    sessions (all of them when there are fewer), most recent first, each once.
   */
  function GetRecentSessions(db: Db, limit: nat): (r: seq<Session>)
    ensures |r| <= limit
    ensures forall i, j :: 0 <= i < j < |r| ==> r[i].updatedAt >= r[j].updatedAt
    ensures forall i :: 0 <= i < |r| ==> r[i] in db.sessions.Values
    ensures WellFormed(db) ==> |r| == if limit < |db.sessions| then limit else |db.sessions|
    ensures WellFormed(db) ==> forall i, j :: 0 <= i < j < |r| ==> r[i].id != r[j].id
  {
    var rows := Rows(db.sessions, db.rowOrder);
    var r := Take(SortBy(rows, ByRecency), limit);
    SortByKeepsElements(rows, ByRecency);
    TakeRecentShape(db, limit);
    assert forall i :: 0 <= i < |r| ==> r[i] in rows;
    r
  }

  /** Under the schema's invariants the listing has `min(limit, n)` entries under distinct ids. */
  lemma TakeRecentShape(db: Db, limit: nat)
    ensures var r := Take(SortBy(Rows(db.sessions, db.rowOrder), ByRecency), limit);
      WellFormed(db) ==>
        && |r| == (if limit < |db.sessions| then limit else |db.sessions|)
        && forall i, j :: 0 <= i < j < |r| ==> r[i].id != r[j].id
  {
    if WellFormed(db) {
      SortedRowsDistinct(db);
    }
  }

  /** The sort key naming a session row. */
  function SessionId(s: Session): Id
  {
    s.id
  }

  /** Under the schema's invariants, sorting the stored sessions lists each of them exactly once. */
  lemma SortedRowsDistinct(db: Db)
    requires WellFormed(db)
    ensures var sorted := SortBy(Rows(db.sessions, db.rowOrder), ByRecency);
      && |sorted| == |db.sessions|
      && forall i, j :: 0 <= i < j < |sorted| ==> sorted[i].id != sorted[j].id
  {
    var rows := Rows(db.sessions, db.rowOrder);
    RowsOfWellFormed(db);
    PermutationKeepsDistinctKeys(rows, SortBy(rows, ByRecency), SessionId);
  }

  /** Under the schema's invariants the rows list every session once, under distinct ids. */
  lemma RowsOfWellFormed(db: Db)
    requires WellFormed(db)
    ensures var rows := Rows(db.sessions, db.rowOrder);
      && |rows| == |db.sessions|
      && forall i, j :: 0 <= i < j < |rows| ==> SessionId(rows[i]) != SessionId(rows[j])
  {
    var rows := Rows(db.sessions, db.rowOrder);
    assert forall i :: 0 <= i < |rows| ==> rows[i].id == db.rowOrder[i];
    assert Distinct(db.rowOrder);
    DistinctEnumeration(db.rowOrder, db.sessions.Keys);
  }

  /** The table-level invariants the schema enforces: keys, unique ids, the sender check. */
  predicate WellFormed(db: Db)
  {
    && (forall k :: k in db.sessions ==> db.sessions[k].id == k)
    && (forall k :: k in db.sessions ==> k in db.rowOrder)
    && (forall i :: 0 <= i < |db.rowOrder| ==> db.rowOrder[i] in db.sessions)
    && (forall i, j :: 0 <= i < j < |db.rowOrder| ==> db.rowOrder[i] != db.rowOrder[j])
    && (forall i, j :: 0 <= i < j < |db.messages| ==> db.messages[i].id != db.messages[j].id)
    && (forall i :: 0 <= i < |db.messages| ==> AllowedSender(db.messages[i].sender))
  }

  /** The headline invariant: every session's `message_count` is the number of its stored messages. */
  predicate CountsMatch(db: Db)
  {
    forall k :: k in db.sessions ==> db.sessions[k].messageCount == CountFor(db, k)
  }

  predicate Consistent(db: Db)
  {
    WellFormed(db) && CountsMatch(db)
  }

  lemma EmptyDbConsistent()
    ensures Consistent(EmptyDb)
  {
  }

  /**
    Creating a session keeps the store consistent, provided no stored message
    already names the new id (a uuid v4 is not expected to repeat).
   */
  lemma CreateSessionPreservesConsistency(db: Db, id: Id, now: Time)
    requires Consistent(db)
    requires CountFor(db, id) == 0
    ensures Consistent(CreateSession(db, id, now).db)
  {
    var w := CreateSession(db, id, now);
    if w.result.Ok? {
      forall k | k in w.db.sessions ensures w.db.sessions[k].messageCount == CountFor(w.db, k) {
        if k != id {
          assert CountFor(w.db, k) == CountFor(db, k);
        }
      }
    }
  }

  /** Saving a message keeps the store consistent: the trigger's bump matches the new row. */
  lemma SaveMessagePreservesConsistency(db: Db, msg: NewMessage, id: Id, now: Time)
    requires Consistent(db)
    ensures Consistent(SaveMessage(db, msg, id, now).db)
  {
    var w := SaveMessage(db, msg, id, now);
    if w.result.Ok? {
      var row := w.db.messages[|db.messages|];
      forall k | k in w.db.sessions ensures w.db.sessions[k].messageCount == CountFor(w.db, k) {
        MessagesOfAppend(db.messages, row, k);
      }
      forall i, j | 0 <= i < j < |w.db.messages| ensures w.db.messages[i].id != w.db.messages[j].id {
        if j == |db.messages| {
          assert w.db.messages[i] == db.messages[i];
        }
      }
    }
  }

  /** Saving a message raises exactly that session's count by one (when the session exists). */
  lemma SaveMessageCounts(db: Db, msg: NewMessage, id: Id, now: Time, k: Id)
    requires SaveMessage(db, msg, id, now).result.Ok?
    ensures CountFor(SaveMessage(db, msg, id, now).db, k)
         == CountFor(db, k) + (if k == msg.sessionId then 1 else 0)
  {
    var w := SaveMessage(db, msg, id, now);
    MessagesOfAppend(db.messages, w.db.messages[|db.messages|], k);
    assert w.db.messages == db.messages + [w.db.messages[|db.messages|]];
  }

  /**
    Without foreign-key enforcement an orphan row can precede its session: a
    session created under an id that a stored message already names starts
    with count 0 while one message belongs to it.
   */
  lemma OrphanRowBreaksCount()
    ensures var db := Db(map[], [], [Message("m1", "s1", "hi", UserSender, 0, None)]);
            var w := CreateSession(db, "s1", 1);
            && SaveMessage(EmptyDb, NewMessage("s1", "hi", UserSender, None), "m1", 0).db == db
            && w.result.Ok?
            && !CountsMatch(w.db)
  {
    var db := Db(map[], [], [Message("m1", "s1", "hi", UserSender, 0, None)]);
    assert MessagesOf(db.messages, "s1") == [db.messages[0]];
  }

  /**
    `after` differs from `before` only by at most `atMost` appended messages and
    by the row of session `sessionId`: no session appears or disappears, no
    other session changes, no stored message changes.
   */
  predicate AppendsOnly(before: Db, after: Db, sessionId: Id, atMost: nat)
  {
    && after.rowOrder == before.rowOrder
    && after.sessions.Keys == before.sessions.Keys
    && (forall k :: k in before.sessions && k != sessionId ==> after.sessions[k] == before.sessions[k])
    && |before.messages| <= |after.messages| <= |before.messages| + atMost
    && after.messages[..|before.messages|] == before.messages
  }

  /** A save, successful or not, only appends to the messages and touches only its own session. */
  lemma SaveMessageAppendsOnly(db: Db, msg: NewMessage, id: Id, now: Time)
    ensures AppendsOnly(db, SaveMessage(db, msg, id, now).db, msg.sessionId, 1)
  {
    var w := SaveMessage(db, msg, id, now);
    if w.result.Ok? {
      assert w.db.messages[..|db.messages|] == db.messages;
    }
  }

  lemma AppendsOnlyCompose(a: Db, b: Db, c: Db, sessionId: Id, m: nat, n: nat)
    requires AppendsOnly(a, b, sessionId, m) && AppendsOnly(b, c, sessionId, n)
    ensures AppendsOnly(a, c, sessionId, m + n)
  {
    assert c.messages[..|a.messages|] == c.messages[..|b.messages|][..|a.messages|];
  }

  /** One store operation, with the id and clock reading it is given. */
  datatype Op = CreateOp(id: Id, now: Time) | SaveOp(msg: NewMessage, id: Id, now: Time)

  function Apply(db: Db, op: Op): Db
  {
    match op
    case CreateOp(id, now) => CreateSession(db, id, now).db
    case SaveOp(msg, id, now) => SaveMessage(db, msg, id, now).db
  }

  function Run(db: Db, ops: seq<Op>): Db
    decreases |ops|
  {
    if |ops| == 0 then db else Run(Apply(db, ops[0]), ops[1..])
  }

  /** Every session id handed to a create is not yet named by a stored message when it is used. */
  predicate FreshSessionIds(db: Db, ops: seq<Op>)
    decreases |ops|
  {
    |ops| == 0 ||
    ((ops[0].CreateOp? ==> CountFor(db, ops[0].id) == 0) && FreshSessionIds(Apply(db, ops[0]), ops[1..]))
  }

  /** Any run of creates and saves from a consistent store ends in a consistent store. */
  lemma {:induction false} RunPreservesConsistency(db: Db, ops: seq<Op>)
    requires Consistent(db) && FreshSessionIds(db, ops)
    ensures Consistent(Run(db, ops))
    decreases |ops|
  {
    if |ops| > 0 {
      match ops[0] {
        case CreateOp(id, now) => CreateSessionPreservesConsistency(db, id, now);
        case SaveOp(msg, id, now) => SaveMessagePreservesConsistency(db, msg, id, now);
      }
      RunPreservesConsistency(Apply(db, ops[0]), ops[1..]);
    }
  }

  predicate Chronological(messages: seq<Message>)
  {
    SortedBy(messages, ByTimestamp)
  }

  /** Every stored message was stamped no later than `now`. */
  predicate NotAfter(db: Db, now: Time)
  {
    forall i :: 0 <= i < |db.messages| ==> db.messages[i].timestamp <= now
  }

  lemma {:induction false} MessagesOfChronological(messages: seq<Message>, sessionId: Id)
    requires Chronological(messages)
    ensures Chronological(MessagesOf(messages, sessionId))
    decreases |messages|
  {
    if |messages| > 0 {
      var init := messages[..|messages| - 1];
      var last := messages[|messages| - 1];
      MessagesOfChronological(init, sessionId);
      var prior := MessagesOf(init, sessionId);
      forall i | 0 <= i < |prior| ensures prior[i].timestamp <= last.timestamp {
        var j :| 0 <= j < |init| && init[j] == prior[i];
      }
    }
  }

  /** A save stamped no earlier than every stored message keeps the table chronological. */
  lemma SaveMessageKeepsChronological(db: Db, msg: NewMessage, id: Id, now: Time)
    requires Chronological(db.messages) && NotAfter(db, now)
    ensures Chronological(SaveMessage(db, msg, id, now).db.messages)
    ensures NotAfter(SaveMessage(db, msg, id, now).db, now)
  {
  }

  /**
    With a monotone clock the messages are stored in timestamp order, so a page
    of `getMessages` is the `offset`..`offset + limit` slice of the session's
    messages in the order they were saved.
   */
  lemma ChronologicalListing(db: Db, sessionId: Id, limit: nat, offset: nat)
    requires Chronological(db.messages)
    ensures GetMessages(db, sessionId, limit, offset) == Window(MessagesOf(db.messages, sessionId), limit, offset)
  {
    MessagesOfChronological(db.messages, sessionId);
    SortBySortedIsIdentity(MessagesOf(db.messages, sessionId), ByTimestamp);
  }

  /**
    Saving into a session that holds fewer than `limit` messages makes the new
    row the last of the session's first `limit` messages.
   */
  lemma SaveEndsShortWindow(db: Db, msg: NewMessage, id: Id, now: Time, limit: nat)
    requires Chronological(db.messages) && NotAfter(db, now)
    requires SaveMessage(db, msg, id, now).result.Ok?
    requires CountFor(db, msg.sessionId) < limit
    ensures var r := GetMessages(SaveMessage(db, msg, id, now).db, msg.sessionId, limit, 0);
      |r| == CountFor(db, msg.sessionId) + 1
      && r[|r| - 1] == Message(id, msg.sessionId, msg.text, msg.sender, now, StoredMetadata(msg.metadata))
  {
    var w := SaveMessage(db, msg, id, now);
    var row := Message(id, msg.sessionId, msg.text, msg.sender, now, StoredMetadata(msg.metadata));
    SaveMessageKeepsChronological(db, msg, id, now);
    ChronologicalListing(w.db, msg.sessionId, limit, 0);
    MessagesOfAppend(db.messages, row, msg.sessionId);
  }

  /**
    Saving into a session that already holds `limit` messages leaves its
    first `limit` messages, oldest first, unchanged.
   */
  lemma SaveKeepsFullWindow(db: Db, msg: NewMessage, id: Id, now: Time, limit: nat)
    requires Chronological(db.messages) && NotAfter(db, now)
    requires SaveMessage(db, msg, id, now).result.Ok?
    requires CountFor(db, msg.sessionId) >= limit
    ensures GetMessages(SaveMessage(db, msg, id, now).db, msg.sessionId, limit, 0) == GetMessages(db, msg.sessionId, limit, 0)
  {
    var w := SaveMessage(db, msg, id, now);
    var row := Message(id, msg.sessionId, msg.text, msg.sender, now, StoredMetadata(msg.metadata));
    SaveMessageKeepsChronological(db, msg, id, now);
    ChronologicalListing(w.db, msg.sessionId, limit, 0);
    ChronologicalListing(db, msg.sessionId, limit, 0);
    MessagesOfAppend(db.messages, row, msg.sessionId);
    var before := MessagesOf(db.messages, msg.sessionId);
    var after := MessagesOf(w.db.messages, msg.sessionId);
    var wa := Window(after, limit, 0);
    var wb := Window(before, limit, 0);
    assert |wa| == |wb| == limit;
    forall i | 0 <= i < limit ensures wa[i] == wb[i] {
      assert wa[i] == after[i] && wb[i] == before[i];
    }
  }

  /**
    `ORDER BY updated_at DESC LIMIT n` keeps the most recent sessions: every
    stored session left out was updated no later than every session listed.
   */
  lemma RecentSessionsAreTheMostRecent(db: Db, limit: nat, s: Session)
    requires WellFormed(db)
    requires s in db.sessions.Values && s !in GetRecentSessions(db, limit)
    ensures forall i :: 0 <= i < |GetRecentSessions(db, limit)| ==> GetRecentSessions(db, limit)[i].updatedAt >= s.updatedAt
  {
    var rows := Rows(db.sessions, db.rowOrder);
    var sorted := SortBy(rows, ByRecency);
    var k :| k in db.sessions && db.sessions[k] == s;
    assert s in rows;
    SortByKeepsElements(rows, ByRecency);
    TakeOfSortedKeepsLeast(sorted, ByRecency, limit, s);
  }

  /** A limit at least the number of sessions lists every stored session. */
  lemma RecentSessionsCoverAll(db: Db, limit: nat, s: Session)
    requires WellFormed(db)
    requires limit >= |db.rowOrder| && s in db.sessions.Values
    ensures s in GetRecentSessions(db, limit)
  {
    var rows := Rows(db.sessions, db.rowOrder);
    var k :| k in db.sessions && db.sessions[k] == s;
    assert s in rows;
    SortByKeepsElements(rows, ByRecency);
    RowsLength(db.sessions, db.rowOrder);
  }

  lemma {:induction false} RowsLength(sessions: map<Id, Session>, ids: seq<Id>)
    ensures |Rows(sessions, ids)| <= |ids|
  {
    if |ids| > 0 {
      RowsLength(sessions, ids[..|ids| - 1]);
    }
  }
}
