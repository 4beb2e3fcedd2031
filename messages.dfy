/** The message service: storing a message on a conversation, bumping the
    conversation's `lastMessageAt`, handing inbound messages to the
    automation engine, and paging through a conversation's messages. */
module Messages {
  import opened Common
  import opened Domain
  import opened Storage
  import opened Engine

  /** The data of `create`. */
  datatype NewMessage = NewMessage(
    tenantId: Id, conversationId: Id, senderId: Option<Id>, direction: Direction,
    body: string, externalId: Option<string>)

  function OnConversation(convId: Id): Message -> bool {
    (m: Message) => m.conversationId == convId
  }

  /** The messages of a conversation, in the order they were stored. */
  function Thread(db: Db, convId: Id): seq<Message> {
    Filter(Rows(db.messages, db.clock), OnConversation(convId))
  }

  /** The insert and the `lastMessageAt` update of `create`. */
  function Insert(db: Db, d: NewMessage): (Db, Message)
    requires d.conversationId in db.conversations
  {
    var m := Message(db.clock, d.tenantId, d.conversationId, d.senderId, d.direction, d.body,
                     d.externalId, db.defaults.messageStatus, db.clock);
    var db1 := db.(messages := db.messages[db.clock := m], clock := db.clock + 1);
    (UpdateConversation(db1, db1.conversations[d.conversationId].(lastMessageAt := Some(m.createdAt))), m)
  }

  /** `create`. The hook of an inbound message runs to completion before
      `create` returns; its failures are swallowed. A message for a
      conversation that does not exist is refused and nothing is stored. */
  function CreateSpec(db: Db, d: NewMessage, faults: map<(Id, nat), string>): (Db, Result<Message>) {
    if d.conversationId !in db.conversations then (db, Err(NotFound))
    else
      var (db1, m) := Insert(db, d);
      if d.direction == Inbound then
        var isFirst := |Thread(db1, d.conversationId)| == 1;
        (OnNewMessageSpec(db1, d.tenantId, d.conversationId, d.body, isFirst, faults), Ok(m))
      else (db1, Ok(m))
  }

  /** The insert stores exactly one new message, carrying the given data and
      the default status, and sets the conversation's `lastMessageAt` to the
      message's `createdAt`; nothing else changes. */
  lemma InsertEffect(db: Db, d: NewMessage)
    requires WellFormed(db) && d.conversationId in db.conversations
    ensures var (r, m) := Insert(db, d);
      && WellFormed(r)
      && m.id !in db.messages && r.messages == db.messages[m.id := m]
      && m.tenantId == d.tenantId && m.conversationId == d.conversationId && m.senderId == d.senderId
      && m.direction == d.direction && m.body == d.body && m.externalId == d.externalId
      && m.status == db.defaults.messageStatus
      && r.conversations == db.conversations[d.conversationId := db.conversations[d.conversationId].(lastMessageAt := Some(m.createdAt))]
      && r.contacts == db.contacts && r.notes == db.notes && r.workflowLogs == db.workflowLogs
  {
    var (r, m) := Insert(db, d);
    assert MessagesKeyed(r.messages, r.clock);
    assert ConversationsKeyed(r.conversations, r.clock);
  }

  /** The conversation's thread grows by the new message, at its end. */
  lemma InsertAppends(db: Db, d: NewMessage)
    requires WellFormed(db) && d.conversationId in db.conversations
    ensures Thread(Insert(db, d).0, d.conversationId) == Thread(db, d.conversationId) + [Insert(db, d).1]
  {
    var r := Insert(db, d).0;
    var m := Insert(db, d).1;
    assert MessagesKeyed(db.messages, db.clock);
    assert r.messages == db.messages[db.clock := m] && r.clock == db.clock + 1;
    ThreadGrows(db, r, m);
  }

  lemma ThreadGrows(db: Db, r: Db, m: Message)
    requires MessagesKeyed(db.messages, db.clock)
    requires r.messages == db.messages[db.clock := m] && r.clock == db.clock + 1
    ensures Thread(r, m.conversationId) == Thread(db, m.conversationId) + [m]
  {
    ThreadAppend(db.messages, db.clock, m, m.conversationId);
  }

  lemma ThreadAppend(messages: map<Id, Message>, clock: nat, m: Message, convId: Id)
    requires forall k :: k in messages ==> k < clock
    requires m.conversationId == convId
    ensures Filter(Rows(messages[clock := m], clock + 1), OnConversation(convId))
         == Filter(Rows(messages, clock), OnConversation(convId)) + [m]
  {
    var p := OnConversation(convId);
    RowsInsert(messages, clock, m);
    FilterAppend(Rows(messages, clock), [m], p);
    assert Filter([m], p) == [m];
  }

  /** The hook's first-message flag holds exactly when the conversation had no
      message before this one. */
  lemma FirstMessageFlag(db: Db, d: NewMessage)
    requires WellFormed(db) && d.conversationId in db.conversations
    ensures |Thread(Insert(db, d).0, d.conversationId)| == 1 <==> Thread(db, d.conversationId) == []
  {
    InsertAppends(db, d);
  }

  /** What `create` does: it fails exactly when the conversation is missing,
      and then changes nothing; otherwise it returns the inserted message, and
      an outbound message runs no automation. */
  lemma CreateOutcome(db: Db, d: NewMessage, faults: map<(Id, nat), string>)
    ensures var (r, res) := CreateSpec(db, d, faults);
      && (res.Err? <==> d.conversationId !in db.conversations)
      && (res.Err? ==> res.error == NotFound && r == db)
    ensures d.conversationId in db.conversations ==>
      var (db1, m) := Insert(db, d);
      var (r, res) := CreateSpec(db, d, faults);
      res == Ok(m) && (d.direction == Outbound ==> r == db1)
  {
  }

  /** An inbound message runs the engine on the state right after the insert,
      flagged as the first message exactly when the conversation had none. */
  lemma InboundRunsEngine(db: Db, d: NewMessage, faults: map<(Id, nat), string>)
    requires WellFormed(db) && d.conversationId in db.conversations && d.direction == Inbound
    ensures CreateSpec(db, d, faults).0
         == OnNewMessageSpec(Insert(db, d).0, d.tenantId, d.conversationId, d.body, Thread(db, d.conversationId) == [], faults)
  {
    FirstMessageFlag(db, d);
  }

  /** The returned message does not depend on what the automation does. */
  lemma CreateIgnoresHook(db: Db, d: NewMessage, faults1: map<(Id, nat), string>, faults2: map<(Id, nat), string>)
    ensures CreateSpec(db, d, faults1).1 == CreateSpec(db, d, faults2).1
  {
  }

  /** After an outbound `create`, the conversation's `lastMessageAt` is the
      new message's `createdAt`, and the new message ends its thread. */
  lemma OutboundBumpsConversation(db: Db, d: NewMessage)
    requires WellFormed(db) && d.conversationId in db.conversations && d.direction == Outbound
    ensures var (r, res) := CreateSpec(db, d, map[]);
      && res.Ok?
      && r.conversations[d.conversationId].lastMessageAt == Some(res.value.createdAt)
      && Thread(r, d.conversationId) == Thread(db, d.conversationId) + [res.value]
      && WellFormed(r)
  {
    InsertEffect(db, d);
    InsertAppends(db, d);
  }

  /** An inbound `create` keeps the new message, whatever the engine does next. */
  lemma InboundKeepsMessage(db: Db, d: NewMessage, faults: map<(Id, nat), string>)
    requires WellFormed(db) && d.conversationId in db.conversations && d.direction == Inbound
    ensures var (r, res) := CreateSpec(db, d, faults);
      && res.Ok? && res.value.id in r.messages && r.messages[res.value.id] == res.value
      && r.conversations.Keys == db.conversations.Keys
      && WellFormed(r)
  {
    var (db1, m) := Insert(db, d);
    InsertEffect(db, d);
    var isFirst := |Thread(db1, d.conversationId)| == 1;
    var wfs := ActiveWorkflows(db1, d.tenantId);
    FireKeeps(db1, d.tenantId, d.conversationId, d.body, isFirst, wfs, faults);
    FireWellFormed(db1, d.tenantId, d.conversationId, d.body, isFirst, wfs, faults);
  }

  /** `create` keeps the store invariant. */
  lemma CreateWellFormed(db: Db, d: NewMessage, faults: map<(Id, nat), string>)
    requires WellFormed(db)
    ensures WellFormed(CreateSpec(db, d, faults).0)
  {
    if d.conversationId in db.conversations {
      if d.direction == Inbound {
        InboundKeepsMessage(db, d, faults);
      } else {
        InsertEffect(db, d);
      }
    }
  }

  method InsertMessage(st: Store, d: NewMessage) returns (m: Message)
    requires st.Valid() && d.conversationId in st.conversations
    modifies st
    ensures st.Valid()
    ensures (st.Snapshot(), m) == Insert(old(st.Snapshot()), d)
  {
    ghost var db0 := st.Snapshot();
    InsertWellFormed(db0, d);
    m := Message(st.clock, d.tenantId, d.conversationId, d.senderId, d.direction, d.body,
                 d.externalId, st.defaults.messageStatus, st.clock);
    var c := st.conversations[d.conversationId].(lastMessageAt := Some(m.createdAt));
    st.messages, st.clock, st.conversations := st.messages[st.clock := m], st.clock + 1, st.conversations[d.conversationId := c];
    assert st.Snapshot() == Insert(db0, d).0;
  }

  lemma InsertWellFormed(db: Db, d: NewMessage)
    requires WellFormed(db) && d.conversationId in db.conversations
    ensures WellFormed(Insert(db, d).0)
  {
    var m := Message(db.clock, d.tenantId, d.conversationId, d.senderId, d.direction, d.body,
                     d.externalId, db.defaults.messageStatus, db.clock);
    AddMessageWellFormed(db, m);
  }

  /** `create`. */
  method Create(st: Store, d: NewMessage, faults: map<(Id, nat), string>) returns (r: Result<Message>)
    requires st.Valid()
    modifies st
    ensures st.Valid()
    ensures (st.Snapshot(), r) == CreateSpec(old(st.Snapshot()), d, faults)
  {
    if d.conversationId !in st.conversations {
      return Err(NotFound);
    }
    var m := InsertMessage(st, d);
    if d.direction == Inbound {
      var count := |Thread(st.Snapshot(), d.conversationId)|;
      OnNewMessage(st, d.tenantId, d.conversationId, d.body, count == 1, faults);
    }
    return Ok(m);
  }

  // ---------------------------------------------------------------------------
  // Reading

  function MessageTime(m: Message): int { m.createdAt }

  function InConversation(tenant: Id, convId: Id): Message -> bool {
    (m: Message) => m.tenantId == tenant && m.conversationId == convId
  }

  /** `findByConversation`: one page (page 1 and 50 per page by default) of the
      tenant's messages of the conversation, ordered by `createdAt`. */
  function FindByConversation(db: Db, tenant: Id, convId: Id, page: nat, limit: nat): Paged<Message> {
    var all := Filter(Rows(db.messages, db.clock), InConversation(tenant, convId));
    Paginate(SortBy(all, MessageTime), page, limit, 50)
  }

  /** The page holds only the tenant's messages of that conversation, oldest
      first: the `limit` of them from position `(page - 1) * limit` (fewer on
      the last page); `total` counts them all. */
  lemma FindByConversationPage(db: Db, tenant: Id, convId: Id, page: nat, limit: nat)
    ensures var r := FindByConversation(db, tenant, convId, page, limit);
      && r.page == (if page == 0 then 1 else page) && r.limit == (if limit == 0 then 50 else limit)
      && r.total == |Filter(Rows(db.messages, db.clock), InConversation(tenant, convId))|
      && IsPageOf(r, SortBy(Filter(Rows(db.messages, db.clock), InConversation(tenant, convId)), MessageTime), page, limit, 50)
      && |r.data| <= r.limit
      && (forall m :: m in r.data ==> m.tenantId == tenant && m.conversationId == convId)
      && (forall i, j :: 0 <= i < j < |r.data| ==> r.data[i].createdAt <= r.data[j].createdAt)
  {
    PaginateIsPage(SortBy(Filter(Rows(db.messages, db.clock), InConversation(tenant, convId)), MessageTime), page, limit, 50);
    var p := InConversation(tenant, convId);
    var all := Filter(Rows(db.messages, db.clock), p);
    var r := FindByConversation(db, tenant, convId, page, limit);
    assert r == Paginate(SortBy(all, MessageTime), page, limit, 50);
    SortedPageOrder(all, MessageTime, page, limit, 50);
    forall m | m in r.data ensures m.tenantId == tenant && m.conversationId == convId {
      PageOf(Rows(db.messages, db.clock), p, MessageTime, page, limit, 50, m);
    }
  }
}
