/** The WhatsApp pipeline: an inbound message finds or creates its contact
    and an open conversation, is stored (running the automation engine), and
    a new conversation is auto-assigned; an outbound message goes through the
    provider and is stored with the id the provider returns. */
module WhatsApp {
  import opened Common
  import opened Domain
  import opened Storage
  import Contacts
  import Messages
  import Assignment

  /** The webhook payload of an inbound message. */
  datatype Payload = Payload(from: string, name: Option<string>, body: string, externalId: Option<string>)

  /** What `handleInboundMessage` returns: the stored message and the
      conversation as it is after the automation and the auto-assignment. */
  datatype Delivery = Delivery(message: Message, conversation: Conversation)

  /** The contact's conversations that are not resolved. */
  predicate IsOpen(c: Conversation, tenant: Id, contactId: Id) {
    c.tenantId == tenant && c.contactId == contactId && c.status != Resolved
  }

  function IsOpenOf(tenant: Id, contactId: Id): Conversation -> bool {
    (c: Conversation) => IsOpen(c, tenant, contactId)
  }

  /** `findFirst` of an unresolved conversation of the contact. */
  function OpenConversation(db: Db, tenant: Id, contactId: Id): Option<Conversation> {
    First(Rows(db.conversations, db.clock), IsOpenOf(tenant, contactId))
  }

  /** Step 2 of `handleInboundMessage`: the contact's unresolved conversation,
      or a new open one with lead status 'NEW'; the flag says which. */
  function OpenOrCreate(db: Db, tenant: Id, contactId: Id): (Db, Conversation, bool) {
    match OpenConversation(db, tenant, contactId)
    case Some(c) => (db, c, false)
    case None =>
      var c := Conversation(db.clock, tenant, contactId, None, db.defaults.channel, Open, Some("NEW"), None, db.clock);
      (AddConversation(db, c), c, true)
  }

  /** Stores `c` under its id, which is the clock. */
  function AddConversation(db: Db, c: Conversation): Db {
    db.(conversations := db.conversations[c.id := c], clock := db.clock + 1)
  }

  /** The lookup finds an unresolved conversation of the contact exactly when
      the tenant has one, and then it is the stored row. */
  lemma OpenConversationFinds(db: Db, tenant: Id, contactId: Id)
    requires ConversationsKeyed(db.conversations, db.clock)
    ensures OpenConversation(db, tenant, contactId).None? <==>
      forall k :: k in db.conversations ==> !IsOpen(db.conversations[k], tenant, contactId)
    ensures var found := OpenConversation(db, tenant, contactId);
      found.Some? ==> found.value.id in db.conversations && db.conversations[found.value.id] == found.value
                      && IsOpen(found.value, tenant, contactId)
  {
    var rows := Rows(db.conversations, db.clock);
    var p := IsOpenOf(tenant, contactId);
    var found := OpenConversation(db, tenant, contactId);
    if found.Some? {
      RowsStored(db.conversations, db.clock, found.value);
      assert p(found.value);
    } else {
      forall k | k in db.conversations ensures !IsOpen(db.conversations[k], tenant, contactId) {
        assert db.conversations[k] in rows;
        var i :| 0 <= i < |rows| && rows[i] == db.conversations[k];
      }
    }
  }

  /** A conversation is created exactly when the contact has no unresolved
      conversation in the tenant; then exactly one is added, open, unassigned,
      with lead status 'NEW'. Either way the conversation used is a stored,
      unresolved conversation of that contact. */
  lemma OpenOrCreateOutcome(db: Db, tenant: Id, contactId: Id)
    requires WellFormed(db)
    ensures var step := OpenOrCreate(db, tenant, contactId);
      var r := step.0; var c := step.1;
      && WellFormed(r)
      && c.id in r.conversations && r.conversations[c.id] == c
      && c.tenantId == tenant && c.contactId == contactId && c.status != Resolved
    ensures var step := OpenOrCreate(db, tenant, contactId);
      step.2 <==> forall k :: k in db.conversations ==> !IsOpen(db.conversations[k], tenant, contactId)
    ensures var step := OpenOrCreate(db, tenant, contactId);
      !step.2 ==> step.0 == db && step.1.id in db.conversations
    ensures var step := OpenOrCreate(db, tenant, contactId);
      var c := step.1;
      step.2 ==> && c.id !in db.conversations
                 && step.0 == db.(conversations := db.conversations[c.id := c], clock := db.clock + 1)
                 && c.status == Open && c.leadStatus == Some("NEW") && c.assignedAgentId.None?
  {
    OpenConversationFinds(db, tenant, contactId);
    if OpenConversation(db, tenant, contactId).None? {
      AddConversationWellFormed(db, OpenOrCreate(db, tenant, contactId).1);
    }
  }

  lemma AddConversationWellFormed(db: Db, c: Conversation)
    requires WellFormed(db) && c.id == db.clock
    ensures WellFormed(AddConversation(db, c))
  {
    var r := AddConversation(db, c);
    assert ConversationsKeyed(r.conversations, r.clock);
  }

  /** Steps 3 to 5 of `handleInboundMessage`: store the message (running the
      automation), auto-assign a new conversation, and re-read it. */
  function Deliver(db: Db, tenant: Id, convId: Id, isNew: bool, p: Payload, faults: map<(Id, nat), string>): (Db, Result<Delivery>) {
    var created := Messages.CreateSpec(db, Inbound(tenant, convId, p), faults);
    if created.1.Err? then (created.0, Err(created.1.error))
    else Finish(created.0, tenant, convId, isNew, created.1.value)
  }

  /** The message `handleInboundMessage` stores for a payload. */
  function Inbound(tenant: Id, convId: Id, p: Payload): Messages.NewMessage {
    Messages.NewMessage(tenant, convId, None, Direction.Inbound, p.body, p.externalId)
  }

  /** Steps 4 and 5: auto-assign a new conversation, then re-read it. */
  function Finish(db: Db, tenant: Id, convId: Id, isNew: bool, m: Message): (Db, Result<Delivery>) {
    var db2 := if isNew then Assignment.AutoAssignSpec(db, tenant, convId).0 else db;
    if convId !in db2.conversations then (db2, Err(NotFound))
    else (db2, Ok(Delivery(m, db2.conversations[convId])))
  }

  /** `handleInboundMessage`. A failing step makes the whole call fail. */
  function HandleInboundSpec(db: Db, tenant: Id, p: Payload, faults: map<(Id, nat), string>): (Db, Result<Delivery>) {
    var (db1, contact) := Contacts.FindOrCreateByPhoneSpec(db, tenant, p.from, p.name);
    var (db2, conv, isNew) := OpenOrCreate(db1, tenant, contact.id);
    Deliver(db2, tenant, conv.id, isNew, p, faults)
  }

  /** The auto-assignment keeps the store invariant, every message and the
      set of conversations. */
  lemma AutoAssignKeeps(db: Db, tenant: Id, convId: Id)
    requires WellFormed(db)
    ensures var r := Assignment.AutoAssignSpec(db, tenant, convId).0;
      WellFormed(r) && r.messages == db.messages && r.conversations.Keys == db.conversations.Keys
  {
    Assignment.AutoAssignOutcome(db, tenant, convId);
  }

  /** Delivering to a stored conversation never fails: exactly one inbound
      message with the payload's body and external id is inserted on it, and
      it is still stored after the automation and the auto-assignment. The
      returned conversation is the stored one at the end. */
  lemma DeliverOutcome(db: Db, tenant: Id, convId: Id, isNew: bool, p: Payload, faults: map<(Id, nat), string>)
    requires WellFormed(db) && convId in db.conversations
    ensures var out := Deliver(db, tenant, convId, isNew, p, faults);
      var r := out.0; var res := out.1;
      && WellFormed(r) && res.Ok?
      && r.conversations.Keys == db.conversations.Keys
      && r.conversations[convId] == res.value.conversation && res.value.conversation.id == convId
    ensures var out := Deliver(db, tenant, convId, isNew, p, faults);
      var r := out.0; var m := out.1.value.message;
      out.1.Ok? ==>
        && m.id !in db.messages && m.id in r.messages && r.messages[m.id] == m
        && m.conversationId == convId && m.tenantId == tenant
        && m.direction == Direction.Inbound && m.senderId.None?
        && m.body == p.body && m.externalId == p.externalId
  {
    InboundStored(db, tenant, convId, p, faults);
    var created := Messages.CreateSpec(db, Inbound(tenant, convId, p), faults);
    FinishOutcome(created.0, tenant, convId, isNew, created.1.value);
  }

  /** Steps 4 and 5 on a store holding the conversation: they keep the
      invariant, the messages and the conversations, and return the stored
      conversation. */
  lemma FinishOutcome(db: Db, tenant: Id, convId: Id, isNew: bool, m: Message)
    requires WellFormed(db) && convId in db.conversations
    ensures var (r, res) := Finish(db, tenant, convId, isNew, m);
      && WellFormed(r) && r.messages == db.messages && r.conversations.Keys == db.conversations.Keys
      && res == Ok(Delivery(m, r.conversations[convId])) && r.conversations[convId].id == convId
  {
    var r := Finish(db, tenant, convId, isNew, m).0;
    if isNew {
      AutoAssignKeeps(db, tenant, convId);
    }
    assert ConversationsKeyed(r.conversations, r.clock);
  }

  /** Step 3 alone: the inbound message is stored and survives the automation. */
  lemma InboundStored(db: Db, tenant: Id, convId: Id, p: Payload, faults: map<(Id, nat), string>)
    requires WellFormed(db) && convId in db.conversations
    ensures var (r, res) := Messages.CreateSpec(db, Inbound(tenant, convId, p), faults);
      && WellFormed(r) && res.Ok? && r.conversations.Keys == db.conversations.Keys
      && res.value.id !in db.messages && res.value.id in r.messages && r.messages[res.value.id] == res.value
      && res.value.conversationId == convId && res.value.tenantId == tenant
      && res.value.direction == Direction.Inbound && res.value.senderId.None?
      && res.value.body == p.body && res.value.externalId == p.externalId
  {
    var d := Inbound(tenant, convId, p);
    Messages.InsertEffect(db, d);
    Messages.InboundKeepsMessage(db, d, faults);
    assert Messages.CreateSpec(db, d, faults).1 == Ok(Messages.Insert(db, d).1);
  }

  /** An inbound message never fails on a well-formed store. Its contact is the
      tenant's contact with the sender's phone, and its conversation is that
      contact's unresolved conversation, created when there was none. */
  lemma HandleInboundOutcome(db: Db, tenant: Id, p: Payload, faults: map<(Id, nat), string>)
    requires WellFormed(db)
    ensures var (db1, contact) := Contacts.FindOrCreateByPhoneSpec(db, tenant, p.from, p.name);
      var (db2, conv, isNew) := OpenOrCreate(db1, tenant, contact.id);
      && contact.tenantId == tenant && contact.phone == p.from
      && conv.contactId == contact.id && conv.tenantId == tenant
      && (isNew <==> conv.id !in db.conversations)
      && HandleInboundSpec(db, tenant, p, faults) == Deliver(db2, tenant, conv.id, isNew, p, faults)
      && WellFormed(db2) && conv.id in db2.conversations
  {
    var (db1, contact) := Contacts.FindOrCreateByPhoneSpec(db, tenant, p.from, p.name);
    Contacts.FindOrCreateOutcome(db, tenant, p.from, p.name);
    OpenOrCreateOutcome(db1, tenant, contact.id);
  }

  /** Auto-assignment runs exactly for a conversation this call created: for
      an existing conversation the state is the one the message `create`
      leaves. */
  lemma AutoAssignOnlyWhenNew(db: Db, tenant: Id, convId: Id, isNew: bool, p: Payload, faults: map<(Id, nat), string>)
    requires WellFormed(db) && convId in db.conversations
    ensures var db1 := Messages.CreateSpec(db, Inbound(tenant, convId, p), faults).0;
      Deliver(db, tenant, convId, isNew, p, faults).0 == (if isNew then Assignment.AutoAssignSpec(db1, tenant, convId).0 else db1)
  {
    DeliverOutcome(db, tenant, convId, isNew, p, faults);
  }

  /** Step 2 of `handleInboundMessage`. */
  method OpenOrCreateConversation(st: Store, tenant: Id, contactId: Id) returns (conv: Conversation, isNew: bool)
    requires st.Valid()
    modifies st
    ensures st.Valid()
    ensures (st.Snapshot(), conv, isNew) == OpenOrCreate(old(st.Snapshot()), tenant, contactId)
  {
    ghost var db0 := st.Snapshot();
    var found := OpenConversation(st.Snapshot(), tenant, contactId);
    if found.Some? {
      return found.value, false;
    }
    conv := Conversation(st.clock, tenant, contactId, None, st.defaults.channel, Open, Some("NEW"), None, st.clock);
    isNew := true;
    AddConversationWellFormed(db0, conv);
    st.conversations, st.clock := st.conversations[st.clock := conv], st.clock + 1;
    assert st.Snapshot() == AddConversation(db0, conv);
  }

  /** Steps 3 to 5 of `handleInboundMessage`. */
  method DeliverTo(st: Store, tenant: Id, convId: Id, isNew: bool, p: Payload, faults: map<(Id, nat), string>)
    returns (r: Result<Delivery>)
    requires st.Valid() && convId in st.conversations
    modifies st
    ensures st.Valid()
    ensures (st.Snapshot(), r) == Deliver(old(st.Snapshot()), tenant, convId, isNew, p, faults)
  {
    DeliverOutcome(st.Snapshot(), tenant, convId, isNew, p, faults);
    var stored := Messages.Create(st, Inbound(tenant, convId, p), faults);
    if isNew {
      var _ := Assignment.AutoAssign(st, tenant, convId);
    }
    r := Ok(Delivery(stored.value, st.conversations[convId]));
  }

  /** `handleInboundMessage`. */
  method HandleInbound(st: Store, tenant: Id, p: Payload, faults: map<(Id, nat), string>) returns (r: Result<Delivery>)
    requires st.Valid()
    modifies st
    ensures st.Valid()
    ensures (st.Snapshot(), r) == HandleInboundSpec(old(st.Snapshot()), tenant, p, faults)
  {
    HandleInboundOutcome(st.Snapshot(), tenant, p, faults);
    var contact := Contacts.FindOrCreateByPhone(st, tenant, p.from, p.name);
    var conv, isNew := OpenOrCreateConversation(st, tenant, contact.id);
    r := DeliverTo(st, tenant, conv.id, isNew, p, faults);
  }

  // ---------------------------------------------------------------------------
  // Outbound

  /** `sendOutbound`. The provider is a parameter mapping the recipient's phone
      and the body to the external id it assigns. */
  function SendOutboundSpec(db: Db, tenant: Id, convId: Id, body: string, senderId: Id,
                            provider: (string, string) -> string): (Db, Result<Message>)
  {
    if convId !in db.conversations || db.conversations[convId].tenantId != tenant then (db, Err(NotFound))
    else if db.conversations[convId].contactId !in db.contacts then (db, Err(NotFound))
    else
      var externalId := provider(db.contacts[db.conversations[convId].contactId].phone, body);
      Messages.CreateSpec(db, Messages.NewMessage(tenant, convId, Some(senderId), Direction.Outbound, body, Some(externalId)), map[])
  }

  /** `sendOutbound` fails, storing nothing, for a conversation outside the
      tenant (or without its contact). Otherwise it stores exactly one
      outbound message from the sender, with the body and the external id the
      provider returned for the contact's phone, at the end of the
      conversation's thread, and bumps the conversation's `lastMessageAt`. */
  lemma SendOutboundOutcome(db: Db, tenant: Id, convId: Id, body: string, senderId: Id,
                            provider: (string, string) -> string)
    requires WellFormed(db)
    ensures var (r, res) := SendOutboundSpec(db, tenant, convId, body, senderId, provider);
      && WellFormed(r)
      && (res.Err? <==> convId !in db.conversations || db.conversations[convId].tenantId != tenant
                        || db.conversations[convId].contactId !in db.contacts)
      && (res.Err? ==> res.error == NotFound && r == db)
      && (res.Ok? ==>
            var m := res.value;
            && m.id !in db.messages && r.messages == db.messages[m.id := m]
            && m.conversationId == convId && m.tenantId == tenant && m.direction == Direction.Outbound
            && m.senderId == Some(senderId) && m.body == body
            && m.externalId == Some(provider(db.contacts[db.conversations[convId].contactId].phone, body))
            && r.conversations[convId].lastMessageAt == Some(m.createdAt)
            && Messages.Thread(r, convId) == Messages.Thread(db, convId) + [m])
  {
    if convId in db.conversations && db.conversations[convId].tenantId == tenant
       && db.conversations[convId].contactId in db.contacts
    {
      var externalId := provider(db.contacts[db.conversations[convId].contactId].phone, body);
      var d := Messages.NewMessage(tenant, convId, Some(senderId), Direction.Outbound, body, Some(externalId));
      Messages.InsertEffect(db, d);
      Messages.OutboundBumpsConversation(db, d);
    }
  }

  method SendOutbound(st: Store, tenant: Id, convId: Id, body: string, senderId: Id,
                      provider: (string, string) -> string) returns (r: Result<Message>)
    requires st.Valid()
    modifies st
    ensures st.Valid()
    ensures (st.Snapshot(), r) == SendOutboundSpec(old(st.Snapshot()), tenant, convId, body, senderId, provider)
  {
    if convId !in st.conversations || st.conversations[convId].tenantId != tenant {
      return Err(NotFound);
    }
    var conv := st.conversations[convId];
    if conv.contactId !in st.contacts {
      return Err(NotFound);
    }
    var externalId := provider(st.contacts[conv.contactId].phone, body);
    r := Messages.Create(st, Messages.NewMessage(tenant, convId, Some(senderId), Direction.Outbound, body, Some(externalId)), map[]);
  }
}
