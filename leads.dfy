/** The leads service: a lead is a conversation with a lead status. Agents
    see and change only the leads assigned to them; a call log on a fresh
    lead moves it from 'New lead' to 'Connected'. */
module Leads {
  import opened Common
  import opened Text
  import opened Domain
  import opened Storage
  import LeadStatuses

  /** The user on whose behalf the service runs. */
  datatype Caller = Caller(id: Id, role: Role)

  /** The conversation `id` is a lead of the tenant (`where: { id, tenantId,
      leadStatus: { not: null } }`). */
  predicate IsLead(db: Db, tenant: Id, id: Id) {
    id in db.conversations && db.conversations[id].tenantId == tenant && db.conversations[id].leadStatus.Some?
  }

  /** An agent may only work on the leads assigned to them; owners and admins
      on every lead. */
  predicate MayAccess(caller: Caller, c: Conversation) {
    caller.role != Agent || c.assignedAgentId == Some(caller.id)
  }

  /** The lookup and the authorization check shared by `findOne`,
      `updateStatus` and `addCallLog`. */
  function Authorize(db: Db, tenant: Id, id: Id, caller: Caller, denial: string): Result<Conversation> {
    if !IsLead(db, tenant, id) then Err(NotFound)
    else if !MayAccess(caller, db.conversations[id]) then Err(Forbidden(denial))
    else Ok(db.conversations[id])
  }

  /** The check fails with NotFound exactly when the conversation is not a
      lead of the tenant, and with Forbidden exactly when the caller is an
      agent and the lead is not assigned to them. */
  lemma AuthorizeExact(db: Db, tenant: Id, id: Id, caller: Caller, denial: string)
    ensures var r := Authorize(db, tenant, id, caller, denial);
      && (r.Err? && r.error == NotFound <==> !IsLead(db, tenant, id))
      && (r.Err? && r.error.Forbidden? <==>
            IsLead(db, tenant, id) && caller.role == Agent && db.conversations[id].assignedAgentId != Some(caller.id))
      && (r.Ok? ==> r.value == db.conversations[id])
  {
  }

  // ---------------------------------------------------------------------------
  // Listing

  /** The contact of a conversation matches the search text by name or phone. */
  predicate ContactMatches(db: Db, c: Conversation, search: string) {
    c.contactId in db.contacts
    && var k := db.contacts[c.contactId];
       (k.name.Some? && ContainsIgnoringCase(k.name.value, search)) || ContainsIgnoringCase(k.phone, search)
  }

  /** The agent filter of `findAll`: an agent's own id, whatever was asked;
      for other roles the requested agent, if any. */
  function AgentFilter(caller: Caller, agentId: Option<Id>): Option<Id> {
    if caller.role == Agent then Some(caller.id) else agentId
  }

  /** The `where` of `findAll`; an empty lead status or search text is not
      given. */
  function LeadMatches(db: Db, tenant: Id, agent: Option<Id>, leadStatus: string, search: string): Conversation -> bool {
    (c: Conversation) =>
      && c.tenantId == tenant && c.leadStatus.Some?
      && (agent.None? || c.assignedAgentId == agent)
      && (leadStatus == "" || c.leadStatus == Some(leadStatus))
      && (search == "" || ContactMatches(db, c, search))
  }

  /** `findAll`: a page (page 1 and 20 per page by default) of the matching
      leads, most recent message first. */
  function FindAll(db: Db, tenant: Id, caller: Caller, agentId: Option<Id>, leadStatus: string, search: string,
                   page: nat, limit: nat): Paged<Conversation>
  {
    Paginate(ByRecency(Filter(Rows(db.conversations, db.clock), LeadMatches(db, tenant, AgentFilter(caller, agentId), leadStatus, search))),
             page, limit, 20)
  }

  /** `findAll` only returns leads of the tenant (a lead status is set), in
      recency order; an agent only gets leads assigned to them, and other
      roles get the requested agent's leads when one is requested; the lead
      status and search filters hold. The page is the `limit` matches from
      position `(page - 1) * limit` (fewer on the last page), and `total`
      counts every matching lead. */
  lemma FindAllPage(db: Db, tenant: Id, caller: Caller, agentId: Option<Id>, leadStatus: string, search: string,
                    page: nat, limit: nat)
    ensures var r := FindAll(db, tenant, caller, agentId, leadStatus, search, page, limit);
      && r.page == (if page == 0 then 1 else page) && r.limit == (if limit == 0 then 20 else limit)
      && r.total == |Filter(Rows(db.conversations, db.clock), LeadMatches(db, tenant, AgentFilter(caller, agentId), leadStatus, search))|
      && IsPageOf(r, ByRecency(Filter(Rows(db.conversations, db.clock), LeadMatches(db, tenant, AgentFilter(caller, agentId), leadStatus, search))), page, limit, 20)
      && |r.data| <= r.limit
      && RecentFirst(r.data)
      && (forall c :: c in r.data ==>
            && StoredBelow(db.conversations, db.clock, c)
            && c.tenantId == tenant && c.leadStatus.Some?
            && (caller.role == Agent ==> c.assignedAgentId == Some(caller.id))
            && (caller.role != Agent && agentId.Some? ==> c.assignedAgentId == agentId)
            && (leadStatus != "" ==> c.leadStatus == Some(leadStatus))
            && (search != "" ==> ContactMatches(db, c, search)))
  {
    PaginateIsPage(ByRecency(Filter(Rows(db.conversations, db.clock), LeadMatches(db, tenant, AgentFilter(caller, agentId), leadStatus, search))), page, limit, 20);
    var rows := Rows(db.conversations, db.clock);
    var p := LeadMatches(db, tenant, AgentFilter(caller, agentId), leadStatus, search);
    ByRecencyPermutes(Filter(rows, p));
    RecentPage(Filter(rows, p), page, limit, 20);
    forall c | c in FindAll(db, tenant, caller, agentId, leadStatus, search, page, limit).data
      ensures StoredBelow(db.conversations, db.clock, c) && p(c)
    {
      FilterMember(rows, p, c);
      RowsStored(db.conversations, db.clock, c);
    }
  }

  /** For an agent the requested agent is ignored. */
  lemma AgentIgnoresAgentFilter(db: Db, tenant: Id, caller: Caller, a1: Option<Id>, a2: Option<Id>,
                                leadStatus: string, search: string, page: nat, limit: nat)
    requires caller.role == Agent
    ensures FindAll(db, tenant, caller, a1, leadStatus, search, page, limit)
         == FindAll(db, tenant, caller, a2, leadStatus, search, page, limit)
  {
  }

  // ---------------------------------------------------------------------------
  // Statistics

  function IsActiveOf(tenant: Id): LeadStatus -> bool {
    (s: LeadStatus) => s.tenantId == tenant && s.isActive
  }

  /** The tenant's active statuses by ascending `sortOrder`. */
  function ActiveStatuses(db: Db, tenant: Id): seq<LeadStatus> {
    SortBy(Filter(Rows(db.leadStatuses, db.clock), IsActiveOf(tenant)), LeadStatuses.SortOrderKey)
  }

  /** The statistics list exactly the tenant's active statuses, each once, by
      ascending `sortOrder`. */
  lemma ActiveStatusesExact(db: Db, tenant: Id)
    requires LeadStatusesKeyed(db.leadStatuses, db.clock)
    ensures var r := ActiveStatuses(db, tenant);
      && (forall i, j :: 0 <= i < j < |r| ==> r[i].sortOrder <= r[j].sortOrder)
      && multiset(r) == multiset(Filter(Rows(db.leadStatuses, db.clock), IsActiveOf(tenant)))
      && (forall s :: s in r <==> exists k :: k in db.leadStatuses && db.leadStatuses[k] == s && s.tenantId == tenant && s.isActive)
  {
    var r := ActiveStatuses(db, tenant);
    forall i, j | 0 <= i < j < |r| ensures r[i].sortOrder <= r[j].sortOrder {
      assert LeadStatuses.SortOrderKey(r[i]) <= LeadStatuses.SortOrderKey(r[j]);
    }
    forall s ensures s in r <==> exists k :: k in db.leadStatuses && db.leadStatuses[k] == s && s.tenantId == tenant && s.isActive {
      SelectMember(db.leadStatuses, db.clock, IsActiveOf(tenant), LeadStatuses.SortOrderKey, s);
    }
  }

  /** The `count` of one status: the tenant's conversations with that lead
      status, only the caller's own for an agent. */
  function CountedAs(tenant: Id, caller: Caller, name: string): Conversation -> bool {
    (c: Conversation) =>
      c.tenantId == tenant && c.leadStatus == Some(name)
      && (caller.role != Agent || c.assignedAgentId == Some(caller.id))
  }

  function StatusCount(db: Db, tenant: Id, caller: Caller, name: string): nat {
    |Filter(Rows(db.conversations, db.clock), CountedAs(tenant, caller, name))|
  }

  /** The sum of the counts of a list of entries. */
  function Total(entries: seq<(string, nat)>): nat {
    if entries == [] then 0 else entries[0].1 + Total(entries[1..])
  }

  lemma {:induction false} TotalAppend(entries: seq<(string, nat)>, e: (string, nat))
    ensures Total(entries + [e]) == Total(entries) + e.1
  {
    if entries != [] {
      assert (entries + [e])[1..] == entries[1..] + [e];
      TotalAppend(entries[1..], e);
    }
  }

  /** `getStats`: one entry per active status, in `sortOrder` order, holding
      its count, and the running total of the counts (the `TOTAL` entry). */
  method GetStats(st: Store, tenant: Id, caller: Caller) returns (entries: seq<(string, nat)>, total: nat)
    ensures var statuses := ActiveStatuses(st.Snapshot(), tenant);
      && |entries| == |statuses|
      && (forall i :: 0 <= i < |entries| ==>
            entries[i] == (statuses[i].name, StatusCount(st.Snapshot(), tenant, caller, statuses[i].name)))
      && total == Total(entries)
  {
    var db := st.Snapshot();
    var statuses := ActiveStatuses(db, tenant);
    entries, total := [], 0;
    var i := 0;
    while i < |statuses|
      invariant 0 <= i <= |statuses| && |entries| == i
      invariant forall j :: 0 <= j < i ==> entries[j] == (statuses[j].name, StatusCount(db, tenant, caller, statuses[j].name))
      invariant total == Total(entries)
    {
      var e := (statuses[i].name, StatusCount(db, tenant, caller, statuses[i].name));
      TotalAppend(entries, e);
      assert forall j :: 0 <= j < i ==> (entries + [e])[j] == entries[j];
      entries := entries + [e];
      total := total + e.1;
      i := i + 1;
    }
  }

  // ---------------------------------------------------------------------------
  // One lead

  function CallLogOf(convId: Id): CallLog -> bool {
    (l: CallLog) => l.conversationId == convId
  }

  function CallNewestFirst(l: CallLog): int { -(l.createdAt as int) }

  function MessageOf(convId: Id): Message -> bool {
    (m: Message) => m.conversationId == convId
  }

  function MessageNewestFirst(m: Message): int { -(m.createdAt as int) }

  /** The call logs of a conversation, newest first. */
  function CallLogsOf(db: Db, id: Id): seq<CallLog> {
    SortBy(Filter(Rows(db.callLogs, db.clock), CallLogOf(id)), CallNewestFirst)
  }

  /** The messages of a conversation, newest first. */
  function MessagesOf(db: Db, id: Id): seq<Message> {
    SortBy(Filter(Rows(db.messages, db.clock), MessageOf(id)), MessageNewestFirst)
  }

  /** The five latest messages of a conversation, newest first. */
  function LatestMessages(db: Db, id: Id): seq<Message> {
    MessagesOf(db, id)[..Min(5, |MessagesOf(db, id)|)]
  }

  /** A lead's call logs are exactly its stored call logs, newest first. */
  lemma CallLogsOfExact(db: Db, id: Id)
    ensures var logs := CallLogsOf(db, id);
      && (forall l :: l in logs <==> StoredBelow(db.callLogs, db.clock, l) && l.conversationId == id)
      && (forall i, j :: 0 <= i < j < |logs| ==> logs[i].createdAt >= logs[j].createdAt)
  {
    var logs := CallLogsOf(db, id);
    forall l ensures l in logs <==> StoredBelow(db.callLogs, db.clock, l) && l.conversationId == id {
      SelectStored(db.callLogs, db.clock, CallLogOf(id), CallNewestFirst, l);
    }
    forall i, j | 0 <= i < j < |logs| ensures logs[i].createdAt >= logs[j].createdAt {
      assert CallNewestFirst(logs[i]) <= CallNewestFirst(logs[j]);
    }
  }

  /** A lead's messages are exactly its stored messages, newest first. */
  lemma MessagesOfExact(db: Db, id: Id)
    ensures var msgs := MessagesOf(db, id);
      && (forall m :: m in msgs <==> StoredBelow(db.messages, db.clock, m) && m.conversationId == id)
      && (forall i, j :: 0 <= i < j < |msgs| ==> msgs[i].createdAt >= msgs[j].createdAt)
  {
    var msgs := MessagesOf(db, id);
    forall m ensures m in msgs <==> StoredBelow(db.messages, db.clock, m) && m.conversationId == id {
      SelectStored(db.messages, db.clock, MessageOf(id), MessageNewestFirst, m);
    }
    forall i, j | 0 <= i < j < |msgs| ensures msgs[i].createdAt >= msgs[j].createdAt {
      assert MessageNewestFirst(msgs[i]) <= MessageNewestFirst(msgs[j]);
    }
  }

  /** The latest messages are the first five of all the lead's messages (all
      of them when there are fewer), newest first, and no message left out
      is newer than one kept. */
  lemma LatestMessagesExact(db: Db, id: Id)
    ensures var msgs := MessagesOf(db, id); var latest := LatestMessages(db, id);
      && |latest| == Min(5, |msgs|)
      && (forall i :: 0 <= i < |latest| ==> latest[i] == msgs[i])
      && (forall m :: m in latest ==> StoredBelow(db.messages, db.clock, m) && m.conversationId == id)
      && (forall i, j :: 0 <= i < j < |latest| ==> latest[i].createdAt >= latest[j].createdAt)
      && (forall m :: m in msgs && m !in latest ==>
            forall i :: 0 <= i < |latest| ==> latest[i].createdAt >= m.createdAt)
  {
    MessagesOfExact(db, id);
    var msgs := MessagesOf(db, id);
    NewestWindow(msgs, Min(5, |msgs|));
  }

  /** The first `k` of a list of messages, newest first, are newest first,
      come from the list, and are no older than any message after them. */
  lemma NewestWindow(msgs: seq<Message>, k: nat)
    requires k <= |msgs|
    requires forall i, j :: 0 <= i < j < |msgs| ==> msgs[i].createdAt >= msgs[j].createdAt
    ensures var w := msgs[..k];
      && (forall i :: 0 <= i < |w| ==> w[i] == msgs[i])
      && (forall m :: m in w ==> m in msgs)
      && (forall i, j :: 0 <= i < j < |w| ==> w[i].createdAt >= w[j].createdAt)
      && (forall m :: m in msgs && m !in w ==> forall i :: 0 <= i < |w| ==> w[i].createdAt >= m.createdAt)
  {
    var w := msgs[..k];
    forall m | m in msgs && m !in w ensures forall i :: 0 <= i < |w| ==> w[i].createdAt >= m.createdAt {
      var j :| 0 <= j < |msgs| && msgs[j] == m;
      assert forall i :: 0 <= i < k ==> w[i] == msgs[i];
      assert j >= k;
    }
  }

  /** A lead with its call logs and its five latest messages, newest first. */
  datatype LeadView = LeadView(lead: Conversation, callLogs: seq<CallLog>, latest: seq<Message>)

  /** `findOne`. */
  function FindOne(db: Db, tenant: Id, id: Id, caller: Caller): Result<LeadView> {
    match Authorize(db, tenant, id, caller, "You can only view your own leads")
    case Err(e) => Err(e)
    case Ok(c) => Ok(LeadView(c, CallLogsOf(db, id), LatestMessages(db, id)))
  }

  /** `findOne` fails as the authorization check says; otherwise it returns
      the lead with all its call logs, newest first, and its five newest
      messages (all of them when there are fewer), newest first. */
  lemma FindOneView(db: Db, tenant: Id, id: Id, caller: Caller)
    ensures var r := FindOne(db, tenant, id, caller);
      && (r.Err? <==> !IsLead(db, tenant, id) || !MayAccess(caller, db.conversations[id]))
      && (r.Ok? ==>
            && r.value.lead == db.conversations[id]
            && (forall l :: l in r.value.callLogs <==> StoredBelow(db.callLogs, db.clock, l) && l.conversationId == id)
            && (forall i, j :: 0 <= i < j < |r.value.callLogs| ==> r.value.callLogs[i].createdAt >= r.value.callLogs[j].createdAt)
            && |r.value.latest| == Min(5, |MessagesOf(db, id)|)
            && (forall m :: m in r.value.latest ==> StoredBelow(db.messages, db.clock, m) && m.conversationId == id)
            && (forall i, j :: 0 <= i < j < |r.value.latest| ==> r.value.latest[i].createdAt >= r.value.latest[j].createdAt)
            && (forall m :: m in MessagesOf(db, id) && m !in r.value.latest ==>
                  forall i :: 0 <= i < |r.value.latest| ==> r.value.latest[i].createdAt >= m.createdAt))
  {
    CallLogsOfExact(db, id);
    LatestMessagesExact(db, id);
  }

  // ---------------------------------------------------------------------------
  // Changes

  /** `updateStatus`: after the check, any string is written as the lead status. */
  function UpdateStatusSpec(db: Db, tenant: Id, id: Id, leadStatus: string, caller: Caller): (Db, Result<Conversation>) {
    match Authorize(db, tenant, id, caller, "You can only update your own leads")
    case Err(e) => (db, Err(e))
    case Ok(c) =>
      var c' := c.(leadStatus := Some(leadStatus));
      (db.(conversations := db.conversations[id := c']), Ok(c'))
  }

  /** `updateStatus` fails as the authorization check says, changing nothing;
      otherwise it sets only that lead's status, to the given string. */
  lemma UpdateStatusOutcome(db: Db, tenant: Id, id: Id, leadStatus: string, caller: Caller)
    requires WellFormed(db)
    ensures var (r, res) := UpdateStatusSpec(db, tenant, id, leadStatus, caller);
      && WellFormed(r)
      && (res.Err? <==> !IsLead(db, tenant, id) || !MayAccess(caller, db.conversations[id]))
      && (res.Err? ==> r == db)
      && (res.Ok? ==> res.value == db.conversations[id].(leadStatus := Some(leadStatus))
                      && r == db.(conversations := db.conversations[id := res.value]))
  {
    var (r, res) := UpdateStatusSpec(db, tenant, id, leadStatus, caller);
    if res.Ok? {
      SetConversationWellFormed(db, id, res.value);
    }
  }

  method UpdateStatus(st: Store, tenant: Id, id: Id, leadStatus: string, caller: Caller) returns (r: Result<Conversation>)
    requires st.Valid()
    modifies st
    ensures st.Valid()
    ensures (st.Snapshot(), r) == UpdateStatusSpec(old(st.Snapshot()), tenant, id, leadStatus, caller)
  {
    UpdateStatusOutcome(st.Snapshot(), tenant, id, leadStatus, caller);
    var found := Authorize(st.Snapshot(), tenant, id, caller, "You can only update your own leads");
    if found.Err? {
      return Err(found.error);
    }
    var c := found.value.(leadStatus := Some(leadStatus));
    st.conversations := st.conversations[id := c];
    return Ok(c);
  }

  /** The auto-advance of `addCallLog`: a lead still at 'New lead' becomes
      'Connected'; every other status stays. */
  function Advance(status: Option<string>): Option<string> {
    if status == Some("New lead") then Some("Connected") else status
  }

  /** Advancing changes only 'New lead', and is idempotent. */
  lemma AdvanceOnlyNewLead(status: Option<string>)
    ensures status == Some("New lead") ==> Advance(status) == Some("Connected")
    ensures status != Some("New lead") ==> Advance(status) == status
    ensures Advance(Advance(status)) == Advance(status)
  {
  }

  /** The data of a call log. */
  datatype CallData = CallData(notes: string, outcome: string, duration: Option<int>)

  /** The status advance `addCallLog` makes: a lead at 'New lead' moves to
      'Connected'; any other lead keeps its status. */
  function AdvanceLead(db: Db, convId: Id): Db
    requires convId in db.conversations
  {
    var c := db.conversations[convId];
    if c.leadStatus == Some("New lead")
    then db.(conversations := db.conversations[convId := c.(leadStatus := Some("Connected"))])
    else db
  }

  /** The call log `addCallLog` stores, stamped with the store's clock. */
  function AppendCallLog(db: Db, tenant: Id, convId: Id, caller: Caller, d: CallData): (Db, Result<CallLog>) {
    var log := CallLog(db.clock, tenant, convId, caller.id, d.notes, d.outcome, d.duration, db.clock);
    (db.(callLogs := db.callLogs[db.clock := log], clock := db.clock + 1), Ok(log))
  }

  function AddCallLogSpec(db: Db, tenant: Id, convId: Id, caller: Caller, d: CallData): (Db, Result<CallLog>) {
    match Authorize(db, tenant, convId, caller, "You can only add call logs to your own leads")
    case Err(e) => (db, Err(e))
    case Ok(_) => AppendCallLog(AdvanceLead(db, convId), tenant, convId, caller, d)
  }

  /** `addCallLog` fails as the authorization check says, changing nothing;
      otherwise it stores exactly one call log by the caller with the given
      data, and advances the lead's status from 'New lead' to 'Connected',
      leaving every other status, and every other conversation, as it was. */
  lemma AddCallLogOutcome(db: Db, tenant: Id, convId: Id, caller: Caller, d: CallData)
    requires WellFormed(db)
    ensures var (r, res) := AddCallLogSpec(db, tenant, convId, caller, d);
      && WellFormed(r)
      && (res.Err? <==> !IsLead(db, tenant, convId) || !MayAccess(caller, db.conversations[convId]))
      && (res.Err? ==> r == db)
      && (res.Ok? ==>
            && res.value.id !in db.callLogs && r.callLogs == db.callLogs[res.value.id := res.value]
            && res.value.userId == caller.id && res.value.conversationId == convId && res.value.tenantId == tenant
            && res.value.notes == d.notes && res.value.outcome == d.outcome && res.value.duration == d.duration
            && r.conversations == db.conversations[convId := db.conversations[convId].(leadStatus := Advance(db.conversations[convId].leadStatus))])
  {
    AddCallLogSpecWellFormed(db, tenant, convId, caller, d);
    var (r, res) := AddCallLogSpec(db, tenant, convId, caller, d);
    if res.Ok? {
      var c := db.conversations[convId];
      if c.leadStatus != Some("New lead") {
        assert db.conversations[convId := c] == db.conversations;
      }
    }
  }

  lemma AddCallLogSpecWellFormed(db: Db, tenant: Id, convId: Id, caller: Caller, d: CallData)
    requires WellFormed(db)
    ensures WellFormed(AddCallLogSpec(db, tenant, convId, caller, d).0)
  {
    if Authorize(db, tenant, convId, caller, "You can only add call logs to your own leads").Ok? {
      AdvanceWellFormed(db, convId);
      AppendCallLogWellFormed(AdvanceLead(db, convId), tenant, convId, caller, d);
    }
  }

  lemma AdvanceWellFormed(db: Db, convId: Id)
    requires WellFormed(db) && convId in db.conversations
    ensures WellFormed(AdvanceLead(db, convId))
  {
    var c := db.conversations[convId];
    if c.leadStatus == Some("New lead") {
      SetConversationWellFormed(db, convId, c.(leadStatus := Some("Connected")));
    }
  }

  lemma AppendCallLogWellFormed(db: Db, tenant: Id, convId: Id, caller: Caller, d: CallData)
    requires WellFormed(db)
    ensures WellFormed(AppendCallLog(db, tenant, convId, caller, d).0)
  {
    var r := AppendCallLog(db, tenant, convId, caller, d).0;
    assert CallLogsKeyed(r.callLogs, r.clock);
  }

  method AddCallLog(st: Store, tenant: Id, convId: Id, caller: Caller, d: CallData) returns (r: Result<CallLog>)
    requires st.Valid()
    modifies st
    ensures st.Valid()
    ensures (st.Snapshot(), r) == AddCallLogSpec(old(st.Snapshot()), tenant, convId, caller, d)
  {
    ghost var db0 := st.Snapshot();
    AddCallLogSpecWellFormed(db0, tenant, convId, caller, d);
    var found := Authorize(st.Snapshot(), tenant, convId, caller, "You can only add call logs to your own leads");
    if found.Err? {
      return Err(found.error);
    }
    var c := found.value;
    if c.leadStatus == Some("New lead") {
      st.conversations := st.conversations[convId := c.(leadStatus := Some("Connected"))];
    }
    ghost var db1 := st.Snapshot();
    assert db1 == AdvanceLead(db0, convId);
    var log := CallLog(st.clock, tenant, convId, caller.id, d.notes, d.outcome, d.duration, st.clock);
    st.callLogs, st.clock := st.callLogs[st.clock := log], st.clock + 1;
    assert (st.Snapshot(), Ok(log)) == AppendCallLog(db1, tenant, convId, caller, d);
    return Ok(log);
  }

  /** `reassign`: the lead is given to the agent, unchecked. */
  function ReassignSpec(db: Db, tenant: Id, id: Id, agentId: Id): (Db, Result<Conversation>) {
    if id !in db.conversations || db.conversations[id].tenantId != tenant then (db, Err(NotFound))
    else
      var c := db.conversations[id].(assignedAgentId := Some(agentId));
      (db.(conversations := db.conversations[id := c]), Ok(c))
  }

  /** `reassign` fails for a conversation outside the tenant and otherwise
      changes only its assigned agent. */
  lemma ReassignOutcome(db: Db, tenant: Id, id: Id, agentId: Id)
    requires WellFormed(db)
    ensures var (r, res) := ReassignSpec(db, tenant, id, agentId);
      && WellFormed(r)
      && (res.Err? <==> id !in db.conversations || db.conversations[id].tenantId != tenant)
      && (res.Err? ==> res.error == NotFound && r == db)
      && (res.Ok? ==> res.value == db.conversations[id].(assignedAgentId := Some(agentId))
                      && r == db.(conversations := db.conversations[id := res.value]))
  {
    var (r, res) := ReassignSpec(db, tenant, id, agentId);
    if res.Ok? {
      SetConversationWellFormed(db, id, res.value);
    }
  }

  method Reassign(st: Store, tenant: Id, id: Id, agentId: Id) returns (r: Result<Conversation>)
    requires st.Valid()
    modifies st
    ensures st.Valid()
    ensures (st.Snapshot(), r) == ReassignSpec(old(st.Snapshot()), tenant, id, agentId)
  {
    ReassignOutcome(st.Snapshot(), tenant, id, agentId);
    if id !in st.conversations || st.conversations[id].tenantId != tenant {
      return Err(NotFound);
    }
    var c := st.conversations[id].(assignedAgentId := Some(agentId));
    st.conversations := st.conversations[id := c];
    return Ok(c);
  }
}
