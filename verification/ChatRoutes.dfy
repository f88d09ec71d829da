/**
  backend/src/routes/chat.ts: the five chat endpoints, each the validation
  middleware followed by its handler, over the store of
  backend/src/database/init.ts and the AI service.

  A route is a function of the store and the request. Everything the handler
  obtains from outside is a parameter: the ids `uuidv4` would produce, the
  clock reading, the greeting picked at random, the environment and the
  vendor's reply. A route that writes returns the new store with its reply.
 */
module ChatRoutes {
  import opened Outcomes
  import opened Text
  import opened Store
  import opened Validation
  import opened AiService

  /** What an endpoint answers: a success body, or the status and message `createError` carries. */
  datatype Reply =
    | SessionCreated(sessionId: Id, greeting: string)
    | SessionFound(session: Session)
    | MessagePage(messages: seq<Message>, page: int, limit: int, total: nat)
    | Exchange(userMessage: Message, aiMessage: Message)
    | SessionList(sessions: seq<Session>)
    | Failure(status: nat, message: string)

  /** The HTTP status of a reply: 201 for a created session, 200 for the other successes. */
  function Status(r: Reply): nat
  {
    match r
    case SessionCreated(_, _) => 201
    case Failure(status, _) => status
    case _ => 200
  }

  datatype Served = Served(db: Db, reply: Reply)

  const CreateFailed := "Failed to create chat session"
  const SessionNotFound := "Session not found"
  const ProcessFailed := "Failed to process message"
  const AiUnavailable := "AI service temporarily unavailable"

  const DefaultPage := 1
  const DefaultPageLimit := 20
  const DefaultSessionLimit := 10

  /** A string field of a request part, if present as a string. */
  function StrField(part: Part, name: string): (r: Option<string>)
    ensures r.Some? <==> name in part && part[name].Str?
    ensures r.Some? ==> r.value == part[name].s
  {
    if name in part && part[name].Str? then Some(part[name].s) else None
  }

  /** `Number(x)` for a query field, with the destructuring default when it is absent. */
  function QueryNumber(query: Part, name: string, default: int): int
  {
    if name in query && query[name].Int? then query[name].i else default
  }

  /** `(page - 1) * limit`, the number of messages before page `page`. */
  function PageOffset(page: int, limit: int): nat
    requires page >= 1 && limit >= 0
  {
    (page - 1) * limit
  }

  /** A part with a schema is accepted by that schema when the whole request passes. */
  lemma PassedPart(schemas: Schemas, req: Request, isUuid: string -> bool, p: PartName)
    requires ValidateRequest(schemas, req, isUuid).Pass?
    requires SchemaFor(schemas, p).Some?
    ensures SchemaDetails(SchemaFor(schemas, p).value, PartOf(req, p), isUuid) == []
  {
    assert !Rejects(schemas, req, p, isUuid);
  }

  /** A validated session id parameter is present, a string, and a UUID. */
  lemma SessionParam(schemas: Schemas, req: Request, isUuid: string -> bool)
    requires ValidateRequest(schemas, req, isUuid).Pass?
    requires schemas.params == Some(SessionSchema())
    ensures "sessionId" in req.params && req.params["sessionId"].Str? && isUuid(req.params["sessionId"].s)
  {
    PassedPart(schemas, req, isUuid, ParamsPart);
    SessionSchemaAcceptsExactly(req.params, isUuid);
  }

  // POST /sessions

  const CreateSchemas := Schemas(Some(SessionCreateSchema()), None, None)

  /**
    Create a session under `sessionId`, then save the greeting picked by
    `pick` as its first, `'ai'`, message under `greetingId`. The two writes
    are not a transaction: when the second fails the session stays.
   */
  function CreateSessionRoute(db: Db, req: Request, isUuid: string -> bool,
                              sessionId: Id, greetingId: Id, now: Time, pick: GreetingIndex): (s: Served)
    ensures var v := ValidateRequest(CreateSchemas, req, isUuid);
      v.Fail? ==> s == Served(db, Failure(400, v.message))
    ensures s.reply.SessionCreated? <==>
      ValidateRequest(CreateSchemas, req, isUuid).Pass? && sessionId !in db.sessions && !MessageIdUsed(db.messages, greetingId)
    ensures s.reply.SessionCreated? ==>
      && s.reply.sessionId == sessionId
      && s.reply.greeting == InitialGreeting(StrField(req.body, "userName"), pick)
      && s.db.sessions.Keys == db.sessions.Keys + {sessionId}
      && s.db.sessions[sessionId].messageCount == 1
      && s.db.messages == db.messages + [Message(greetingId, sessionId, s.reply.greeting, AiSender, now, None)]
    ensures s.reply.Failure? ==> s.reply.status == 400 || s.reply == Failure(500, CreateFailed)
    ensures ValidateRequest(CreateSchemas, req, isUuid).Pass? && !s.reply.SessionCreated? ==>
      s.reply == Failure(500, CreateFailed)
    ensures sessionId in db.sessions ==> s.db == db
  {
    match ValidateRequest(CreateSchemas, req, isUuid)
    case Fail(status, message) => Served(db, Failure(status, message))
    case Pass(_) =>
      var userName := StrField(req.body, "userName");
      var created := CreateSession(db, sessionId, now);
      if created.result.Err? then
        Served(db, Failure(500, CreateFailed))
      else
        var greeting := InitialGreeting(userName, pick);
        var saved := SaveMessage(created.db, NewMessage(sessionId, greeting, AiSender, None), greetingId, now);
        if saved.result.Err? then
          Served(created.db, Failure(500, CreateFailed))
        else
          Served(saved.db, SessionCreated(sessionId, greeting))
  }

  /** A created session holds exactly its greeting. */
  lemma CreatedSessionHoldsGreeting(db: Db, req: Request, isUuid: string -> bool,
                                    sessionId: Id, greetingId: Id, now: Time, pick: GreetingIndex)
    requires CountFor(db, sessionId) == 0
    requires CreateSessionRoute(db, req, isUuid, sessionId, greetingId, now, pick).reply.SessionCreated?
    ensures var s := CreateSessionRoute(db, req, isUuid, sessionId, greetingId, now, pick);
      MessagesOf(s.db.messages, sessionId) == [Message(greetingId, sessionId, s.reply.greeting, AiSender, now, None)]
  {
    var s := CreateSessionRoute(db, req, isUuid, sessionId, greetingId, now, pick);
    var m := Message(greetingId, sessionId, s.reply.greeting, AiSender, now, None);
    MessagesOfAppend(db.messages, m, sessionId);
  }

  /** When the greeting cannot be stored the reply is 500, yet the new session exists, empty. */
  lemma GreetingFailureLeavesSession(db: Db, req: Request, isUuid: string -> bool,
                                     sessionId: Id, greetingId: Id, now: Time, pick: GreetingIndex)
    requires ValidateRequest(CreateSchemas, req, isUuid).Pass?
    requires sessionId !in db.sessions && MessageIdUsed(db.messages, greetingId)
    ensures var s := CreateSessionRoute(db, req, isUuid, sessionId, greetingId, now, pick);
      s.reply == Failure(500, CreateFailed) && sessionId in s.db.sessions && s.db.sessions[sessionId].messageCount == 0
  {
  }

  /** With a fresh session id the route keeps every session's count equal to its number of messages. */
  lemma CreateSessionRouteKeepsConsistency(db: Db, req: Request, isUuid: string -> bool,
                                           sessionId: Id, greetingId: Id, now: Time, pick: GreetingIndex)
    requires Consistent(db) && CountFor(db, sessionId) == 0
    ensures Consistent(CreateSessionRoute(db, req, isUuid, sessionId, greetingId, now, pick).db)
  {
    if ValidateRequest(CreateSchemas, req, isUuid).Pass? && sessionId !in db.sessions {
      CreateSessionPreservesConsistency(db, sessionId, now);
      var created := CreateSession(db, sessionId, now);
      var greeting := InitialGreeting(StrField(req.body, "userName"), pick);
      SaveMessagePreservesConsistency(created.db, NewMessage(sessionId, greeting, AiSender, None), greetingId, now);
    }
  }

  // GET /sessions/:sessionId

  const SessionSchemas := Schemas(None, None, Some(SessionSchema()))

  function GetSessionRoute(db: Db, req: Request, isUuid: string -> bool): (r: Reply)
    ensures var v := ValidateRequest(SessionSchemas, req, isUuid);
      v.Fail? ==> r == Failure(400, v.message)
    ensures ValidateRequest(SessionSchemas, req, isUuid).Pass? ==>
      && "sessionId" in req.params && req.params["sessionId"].Str?
      && var id := req.params["sessionId"].s;
      && isUuid(id)
      && (id in db.sessions ==> r == SessionFound(db.sessions[id]))
      && (id !in db.sessions ==> r == Failure(404, SessionNotFound))
  {
    match ValidateRequest(SessionSchemas, req, isUuid)
    case Fail(status, message) => Failure(status, message)
    case Pass(_) =>
      SessionParam(SessionSchemas, req, isUuid);
      match GetSession(db, req.params["sessionId"].s)
      case None => Failure(404, SessionNotFound)
      case Some(session) => SessionFound(session)
  }

  // GET /sessions/:sessionId/messages

  const ListSchemas := Schemas(None, Some(PaginationSchema()), Some(SessionSchema()))

  /**
    One page of a session's messages: `limit` (default 20) messages from
    offset `(page - 1) * limit` (page default 1). `total` is the length of
    this page, not the number of messages in the session; an unknown session
    gives an empty page, not 404.
   */
  function ListMessagesRoute(db: Db, req: Request, isUuid: string -> bool): (r: Reply)
    ensures var v := ValidateRequest(ListSchemas, req, isUuid);
      v.Fail? ==> r == Failure(400, v.message)
    ensures ValidateRequest(ListSchemas, req, isUuid).Pass? ==>
      && "sessionId" in req.params && req.params["sessionId"].Str?
      && var id := req.params["sessionId"].s;
      && var page := QueryNumber(req.query, "page", DefaultPage);
      && var limit := QueryNumber(req.query, "limit", DefaultPageLimit);
      && page >= 1 && 1 <= limit <= 100
      && r.MessagePage? && r.page == page && r.limit == limit
      && r.messages == GetMessages(db, id, limit, PageOffset(page, limit))
      && r.total == |r.messages| <= limit
  {
    match ValidateRequest(ListSchemas, req, isUuid)
    case Fail(status, message) => Failure(status, message)
    case Pass(_) =>
      SessionParam(ListSchemas, req, isUuid);
      PassedPart(ListSchemas, req, isUuid, QueryPart);
      PaginationSchemaAcceptsExactly(req.query, isUuid);
      var page := QueryNumber(req.query, "page", DefaultPage);
      var limit := QueryNumber(req.query, "limit", DefaultPageLimit);
      var messages := GetMessages(db, req.params["sessionId"].s, limit, PageOffset(page, limit));
      MessagePage(messages, page, limit, |messages|)
  }

  /** In a chronological store, page `p` is the `p`-th run of `limit` messages of the session, oldest first. */
  lemma PageIsWindow(db: Db, req: Request, isUuid: string -> bool)
    requires Chronological(db.messages)
    requires ValidateRequest(ListSchemas, req, isUuid).Pass?
    ensures var r := ListMessagesRoute(db, req, isUuid);
      r.MessagePage? && r.page >= 1 && r.limit >= 1
      && r.messages == Window(MessagesOf(db.messages, req.params["sessionId"].s), r.limit, PageOffset(r.page, r.limit))
  {
    var r := ListMessagesRoute(db, req, isUuid);
    ChronologicalListing(db, req.params["sessionId"].s, r.limit, PageOffset(r.page, r.limit));
  }

  /** A session id that no message names lists as an empty page, whether or not the session exists. */
  lemma UnknownSessionListsNothing(db: Db, req: Request, isUuid: string -> bool)
    requires ValidateRequest(ListSchemas, req, isUuid).Pass?
    requires forall i :: 0 <= i < |db.messages| ==> db.messages[i].sessionId != req.params["sessionId"].s
    ensures var r := ListMessagesRoute(db, req, isUuid);
      Status(r) == 200 && r.MessagePage? && r.messages == [] && r.total == 0
  {
  }

  // POST /sessions/:sessionId/messages

  const PostSchemas := Schemas(Some(MessageSchema()), None, Some(SessionSchema()))

  /** The catch block: an error mentioning `AI service` is 503, any other 500. */
  function ErrorReply(error: string): (r: Reply)
    ensures r == Failure(503, AiUnavailable) <==> Contains(error, AiServiceWords)
    ensures !Contains(error, AiServiceWords) ==> r == Failure(500, ProcessFailed)
    ensures error == ConfigurationError || error == HighDemandError ==> r == Failure(503, AiUnavailable)
  {
    ServiceErrorsMentionAiService();
    if Contains(error, AiServiceWords) then Failure(503, AiUnavailable) else Failure(500, ProcessFailed)
  }

  /** The store after saving the user's message, as the handler does before generating. */
  function UserSaved(db: Db, id: Id, text: string, userId: Id, now: Time): Write<Message>
  {
    SaveMessage(db, NewMessage(id, text, UserSender, None), userId, now)
  }

  /** The response generated after the user's message was saved. */
  function ReplyTo(db: Db, id: Id, text: string, userName: Option<string>,
                   userId: Id, now: Time, env: Env, vendor: VendorReply): Generation
  {
    GenerateResponse(env, UserSaved(db, id, text, userId, now).db, ChatContext(id, text, userName), vendor)
  }

  /**
    The handler of a validated message once `generateResponse` has settled
    with `generated`: 404 for an unknown session; otherwise save the user's
    message, then on a reply save it as `'ai'`. A thrown error mentioning
    `AI service` becomes 503, any other 500; the user's message stays saved
    in both cases.
   */
  function PostWithReply(db: Db, id: Id, text: string, userId: Id, aiId: Id, now: Time,
                         generated: Result<string, string>): (s: Served)
    ensures id !in db.sessions ==> s == Served(db, Failure(404, SessionNotFound))
    ensures var w := UserSaved(db, id, text, userId, now);
      && (s.reply.Exchange? <==>
            id in db.sessions && w.result.Ok? && generated.Ok?
            && SaveMessage(w.db, NewMessage(id, generated.value, AiSender, None), aiId, now).result.Ok?)
      && (s.reply.Exchange? ==>
            && s.reply.userMessage == Message(userId, id, text, UserSender, now, None)
            && s.reply.aiMessage == Message(aiId, id, generated.value, AiSender, now, None)
            && s.db.messages == db.messages + [s.reply.userMessage] + [s.reply.aiMessage]
            && CountFor(s.db, id) == CountFor(db, id) + 2
            && id in s.db.sessions && s.db.sessions[id].messageCount == db.sessions[id].messageCount + 2
            && s.db.sessions[id].updatedAt == now)
      && (s.reply == Failure(503, AiUnavailable) <==>
            id in db.sessions && w.result.Ok? && generated.Err? && Contains(generated.error, AiServiceWords))
      && (id in db.sessions && w.result.Ok? && generated.Err? ==>
            s.db == w.db && CountFor(s.db, id) == CountFor(db, id) + 1)
      && (s.db == db || s.db == w.db
          || (generated.Ok? && s.db == SaveMessage(w.db, NewMessage(id, generated.value, AiSender, None), aiId, now).db))
    ensures s.reply.Failure? ==> s.reply.status in {404, 500, 503}
    ensures id in db.sessions && s.reply.Failure? && s.reply != Failure(503, AiUnavailable) ==>
      s.reply == Failure(500, ProcessFailed)
    // Whatever the outcome, no other session changes, no session appears or
    // disappears, and the stored messages are only appended to.
    ensures AppendsOnly(db, s.db, id, 2)
  {
    assert db.messages[..|db.messages|] == db.messages;
    if GetSession(db, id).None? then
      Served(db, Failure(404, SessionNotFound))
    else
      var w := UserSaved(db, id, text, userId, now);
      SaveMessageAppendsOnly(db, NewMessage(id, text, UserSender, None), userId, now);
      if w.result.Err? then
        Served(db, Failure(500, ProcessFailed))
      else
        SaveMessageCounts(db, NewMessage(id, text, UserSender, None), userId, now, id);
        if generated.Err? then
          Served(w.db, ErrorReply(generated.error))
        else
          var a := SaveMessage(w.db, NewMessage(id, generated.value, AiSender, None), aiId, now);
          if a.result.Err? then
            Served(w.db, Failure(500, ProcessFailed))
          else
            SaveMessageCounts(w.db, NewMessage(id, generated.value, AiSender, None), aiId, now, id);
            SaveMessageAppendsOnly(w.db, NewMessage(id, generated.value, AiSender, None), aiId, now);
            AppendsOnlyCompose(db, w.db, a.db, id, 1, 1);
            Served(a.db, Exchange(w.result.value, a.result.value))
  }

  /**
    The handler of a validated message: the steps above, with the reply
    `generateResponse` gives for the store holding the user's message. Its
    errors all mention `AI service`, so a failed generation is always 503.
   */
  function PostMessage(db: Db, id: Id, text: string, userName: Option<string>,
                       env: Env, vendor: VendorReply, userId: Id, aiId: Id, now: Time): (s: Served)
    ensures id !in db.sessions ==> s == Served(db, Failure(404, SessionNotFound))
    ensures var w := UserSaved(db, id, text, userId, now);
      var g := ReplyTo(db, id, text, userName, userId, now, env, vendor);
      && (s.reply.Exchange? <==>
            id in db.sessions && w.result.Ok? && g.result.Ok?
            && SaveMessage(w.db, NewMessage(id, g.result.value, AiSender, None), aiId, now).result.Ok?)
      && (s.reply.Exchange? ==>
            && s.reply.userMessage == Message(userId, id, text, UserSender, now, None)
            && s.reply.aiMessage == Message(aiId, id, g.result.value, AiSender, now, None)
            && s.db.messages == db.messages + [s.reply.userMessage] + [s.reply.aiMessage]
            && CountFor(s.db, id) == CountFor(db, id) + 2
            && id in s.db.sessions && s.db.sessions[id].messageCount == db.sessions[id].messageCount + 2
            && s.db.sessions[id].updatedAt == now)
      && (s.reply == Failure(503, AiUnavailable) <==> id in db.sessions && w.result.Ok? && g.result.Err?)
      && (s.reply == Failure(503, AiUnavailable) ==> s.db == w.db && CountFor(s.db, id) == CountFor(db, id) + 1)
      && (s.db == db || s.db == w.db
          || (g.result.Ok? && s.db == SaveMessage(w.db, NewMessage(id, g.result.value, AiSender, None), aiId, now).db))
    ensures s.reply.Failure? ==> s.reply.status in {404, 500, 503}
    ensures id in db.sessions && s.reply.Failure? && s.reply != Failure(503, AiUnavailable) ==>
      s.reply == Failure(500, ProcessFailed)
    ensures AppendsOnly(db, s.db, id, 2)
  {
    var g := ReplyTo(db, id, text, userName, userId, now, env, vendor);
    ServiceErrorsMentionAiService();
    PostWithReply(db, id, text, userId, aiId, now, g.result)
  }

  /** The route: validation, then the handler on the session id, text and user name. */
  function PostMessageRoute(db: Db, req: Request, isUuid: string -> bool,
                            env: Env, vendor: VendorReply, userId: Id, aiId: Id, now: Time): (s: Served)
    ensures var v := ValidateRequest(PostSchemas, req, isUuid);
      v.Fail? ==> s == Served(db, Failure(400, v.message))
    ensures ValidateRequest(PostSchemas, req, isUuid).Pass? ==>
      && "sessionId" in req.params && req.params["sessionId"].Str? && isUuid(req.params["sessionId"].s)
      && "text" in req.body && req.body["text"].Str? && 1 <= |req.body["text"].s| <= 2000
      && s == PostMessage(db, req.params["sessionId"].s, req.body["text"].s, StrField(req.body, "userName"),
                          env, vendor, userId, aiId, now)
  {
    match ValidateRequest(PostSchemas, req, isUuid)
    case Fail(status, message) => Served(db, Failure(status, message))
    case Pass(_) =>
      SessionParam(PostSchemas, req, isUuid);
      PassedPart(PostSchemas, req, isUuid, BodyPart);
      MessageSchemaAcceptsExactly(req.body, isUuid);
      PostMessage(db, req.params["sessionId"].s, req.body["text"].s, StrField(req.body, "userName"),
                  env, vendor, userId, aiId, now)
  }

  /** Whatever the vendor does, the handler keeps every session's count equal to its number of messages. */
  lemma PostMessageKeepsConsistency(db: Db, id: Id, text: string, userName: Option<string>,
                                    env: Env, vendor: VendorReply, userId: Id, aiId: Id, now: Time)
    requires Consistent(db)
    ensures Consistent(PostMessage(db, id, text, userName, env, vendor, userId, aiId, now).db)
  {
    var s := PostMessage(db, id, text, userName, env, vendor, userId, aiId, now);
    var w := UserSaved(db, id, text, userId, now);
    if id !in db.sessions || w.result.Err? {
      assert s.db == db;
      return;
    }
    SaveMessagePreservesConsistency(db, NewMessage(id, text, UserSender, None), userId, now);
    var g := ReplyTo(db, id, text, userName, userId, now, env, vendor);
    if g.result.Err? {
      assert s.db == w.db;
      return;
    }
    var reply := NewMessage(id, g.result.value, AiSender, None);
    SaveMessagePreservesConsistency(w.db, reply, aiId, now);
    assert s.db == w.db || s.db == SaveMessage(w.db, reply, aiId, now).db;
  }

  /**
    While a session holds fewer than `HistoryLimit` messages, the history the
    service reads already ends with the message just saved, so the vendor sees
    the utterance twice: as the last history turn and as the new user turn.
   */
  lemma ShortSessionRepeatsUtterance(db: Db, id: Id, text: string, userName: Option<string>,
                                     userId: Id, now: Time, env: Env, vendor: VendorReply)
    requires Chronological(db.messages) && NotAfter(db, now)
    requires UserSaved(db, id, text, userId, now).result.Ok?
    requires CountFor(db, id) < HistoryLimit
    ensures var g := ReplyTo(db, id, text, userName, userId, now, env, vendor);
      && |g.turns| >= 2
      && g.turns[|g.turns| - 2] == Turn(UserRole, text)
      && g.turns[|g.turns| - 1] == Turn(UserRole, text)
  {
    SaveEndsShortWindow(db, NewMessage(id, text, UserSender, None), userId, now, HistoryLimit);
    var g := ReplyTo(db, id, text, userName, userId, now, env, vendor);
    var last := |g.history| - 1;
    assert g.turns[last] == HistoryTurns(g.history)[last];
  }

  /**
    Once a session holds `HistoryLimit` messages, the history is its oldest
    `HistoryLimit` messages: saving the new one changes nothing the service
    reads, and the conversation's recent turns never reach the vendor.
   */
  lemma LongSessionHistoryIsFrozen(db: Db, id: Id, text: string, userName: Option<string>,
                                   userId: Id, now: Time, env: Env, vendor: VendorReply)
    requires Chronological(db.messages) && NotAfter(db, now)
    requires UserSaved(db, id, text, userId, now).result.Ok?
    requires CountFor(db, id) >= HistoryLimit
    ensures ReplyTo(db, id, text, userName, userId, now, env, vendor).history
         == GetMessages(db, id, HistoryLimit, 0)
  {
    SaveKeepsFullWindow(db, NewMessage(id, text, UserSender, None), userId, now, HistoryLimit);
  }

  // GET /sessions

  const RecentSchemas := Schemas(None, Some(PaginationSchema()), None)

  /** The `limit` (default 10) most recently updated sessions; `page` is validated but ignored. */
  function RecentSessionsRoute(db: Db, req: Request, isUuid: string -> bool): (r: Reply)
    ensures var v := ValidateRequest(RecentSchemas, req, isUuid);
      v.Fail? ==> r == Failure(400, v.message)
    ensures ValidateRequest(RecentSchemas, req, isUuid).Pass? ==>
      && var limit := QueryNumber(req.query, "limit", DefaultSessionLimit);
      && 1 <= limit <= 100
      && r == SessionList(GetRecentSessions(db, limit))
      && |r.sessions| <= limit
      && (forall i, j :: 0 <= i < j < |r.sessions| ==> r.sessions[i].updatedAt >= r.sessions[j].updatedAt)
  {
    match ValidateRequest(RecentSchemas, req, isUuid)
    case Fail(status, message) => Failure(status, message)
    case Pass(_) =>
      PassedPart(RecentSchemas, req, isUuid, QueryPart);
      PaginationSchemaAcceptsExactly(req.query, isUuid);
      SessionList(GetRecentSessions(db, QueryNumber(req.query, "limit", DefaultSessionLimit)))
  }

  /** `page` never changes the list, but a `page` below 1 or beyond the safe integers still fails validation. */
  lemma PageIsOnlyValidated(db: Db, req: Request, isUuid: string -> bool, page: int)
    requires ValidateRequest(RecentSchemas, req, isUuid).Pass?
    ensures var other := req.(query := req.query["page" := Int(page)]);
      && (1 <= page <= MaxSafeInteger ==> RecentSessionsRoute(db, other, isUuid) == RecentSessionsRoute(db, req, isUuid))
      && (page < 1 || page > MaxSafeInteger ==> Status(RecentSessionsRoute(db, other, isUuid)) == 400)
  {
    var other := req.(query := req.query["page" := Int(page)]);
    PassedPart(RecentSchemas, req, isUuid, QueryPart);
    PaginationSchemaAcceptsExactly(req.query, isUuid);
    PaginationSchemaAcceptsExactly(other.query, isUuid);
    if page < 1 || page > MaxSafeInteger {
      assert Rejects(RecentSchemas, other, QueryPart, isUuid);
    } else {
      forall p: PartName ensures !Rejects(RecentSchemas, other, p, isUuid) {
        assert !Rejects(RecentSchemas, req, p, isUuid);
      }
    }
  }
}
