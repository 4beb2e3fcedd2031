/** The conversation service: the status-change guard, assignment, the lead
    status of a conversation, the inbox listing and the internal notes. */
module Conversations {
  import opened Common
  import opened Domain
  import opened Storage

  /** The conversation `id` of the tenant (`where: { id, tenantId }`). */
  predicate InTenant(db: Db, tenant: Id, id: Id) {
    id in db.conversations && db.conversations[id].tenantId == tenant
  }

  /** The transition check of `updateStatus`: reopening a resolved
      conversation is let through; otherwise a change to the current status is
      refused. */
  function StatusChangeAllowed(current: ConversationStatus, next: ConversationStatus): bool {
    if current == Resolved && next == Open then true
    else current != next
  }

  /** The reopening branch adds nothing: a change is refused exactly when the
      status would stay the same. In particular OPEN to OPEN is refused and
      RESOLVED to OPEN, like every other change, is accepted. */
  lemma StatusChangeAllowedIff(current: ConversationStatus, next: ConversationStatus)
    ensures StatusChangeAllowed(current, next) <==> current != next
  {
  }

  /** `updateStatus`. */
  function UpdateStatusSpec(db: Db, tenant: Id, id: Id, status: ConversationStatus): (Db, Result<Conversation>) {
    if !InTenant(db, tenant, id) then (db, Err(NotFound))
    else if !StatusChangeAllowed(db.conversations[id].status, status) then
      (db, Err(BadRequest("Conversation already has this status")))
    else
      var c := db.conversations[id].(status := status);
      (db.(conversations := db.conversations[id := c]), Ok(c))
  }

  /** `updateStatus` fails when the conversation is not the tenant's, is
      refused exactly when the status is unchanged, and otherwise changes only
      that conversation's status. */
  lemma UpdateStatusOutcome(db: Db, tenant: Id, id: Id, status: ConversationStatus)
    requires WellFormed(db)
    ensures var (r, res) := UpdateStatusSpec(db, tenant, id, status);
      && WellFormed(r)
      && (res.Err? && res.error == NotFound <==> !InTenant(db, tenant, id))
      && (res.Err? <==> !InTenant(db, tenant, id) || db.conversations[id].status == status)
      && (res.Err? ==> r == db)
      && (res.Ok? ==> res.value == db.conversations[id].(status := status)
                      && r == db.(conversations := db.conversations[id := res.value]))
  {
    if InTenant(db, tenant, id) {
      StatusChangeAllowedIff(db.conversations[id].status, status);
      var res := UpdateStatusSpec(db, tenant, id, status).1;
      if res.Ok? {
        SetConversationWellFormed(db, id, res.value);
      }
    }
  }

  method UpdateStatus(st: Store, tenant: Id, id: Id, status: ConversationStatus) returns (r: Result<Conversation>)
    requires st.Valid()
    modifies st
    ensures st.Valid()
    ensures (st.Snapshot(), r) == UpdateStatusSpec(old(st.Snapshot()), tenant, id, status)
  {
    UpdateStatusOutcome(st.Snapshot(), tenant, id, status);
    if !(id in st.conversations && st.conversations[id].tenantId == tenant) {
      return Err(NotFound);
    }
    var convo := st.conversations[id];
    if convo.status == Resolved && status == Open {
      // reopening
    } else if convo.status == status {
      return Err(BadRequest("Conversation already has this status"));
    }
    var c := convo.(status := status);
    st.conversations := st.conversations[id := c];
    return Ok(c);
  }

  /** `assign`: the agent, or none, is written as given; nothing checks it. */
  function AssignSpec(db: Db, tenant: Id, id: Id, agentId: Option<Id>): (Db, Result<Conversation>) {
    if !InTenant(db, tenant, id) then (db, Err(NotFound))
    else
      var c := db.conversations[id].(assignedAgentId := agentId);
      (db.(conversations := db.conversations[id := c]), Ok(c))
  }

  /** `assign` fails for a conversation outside the tenant and otherwise sets
      only its `assignedAgentId`, to the given value (none included). */
  lemma AssignOutcome(db: Db, tenant: Id, id: Id, agentId: Option<Id>)
    requires WellFormed(db)
    ensures var (r, res) := AssignSpec(db, tenant, id, agentId);
      && WellFormed(r)
      && (res.Err? <==> !InTenant(db, tenant, id))
      && (res.Err? ==> res.error == NotFound && r == db)
      && (res.Ok? ==> res.value == db.conversations[id].(assignedAgentId := agentId)
                      && r == db.(conversations := db.conversations[id := res.value]))
  {
    if InTenant(db, tenant, id) {
      var res := AssignSpec(db, tenant, id, agentId).1;
      if res.Ok? {
        SetConversationWellFormed(db, id, res.value);
      }
    }
  }

  method Assign(st: Store, tenant: Id, id: Id, agentId: Option<Id>) returns (r: Result<Conversation>)
    requires st.Valid()
    modifies st
    ensures st.Valid()
    ensures (st.Snapshot(), r) == AssignSpec(old(st.Snapshot()), tenant, id, agentId)
  {
    AssignOutcome(st.Snapshot(), tenant, id, agentId);
    if !(id in st.conversations && st.conversations[id].tenantId == tenant) {
      return Err(NotFound);
    }
    var c := st.conversations[id].(assignedAgentId := agentId);
    st.conversations := st.conversations[id := c];
    return Ok(c);
  }

  /** `updateLeadStatus`: any string is accepted. */
  function UpdateLeadStatusSpec(db: Db, tenant: Id, id: Id, leadStatus: string): (Db, Result<Conversation>) {
    if !InTenant(db, tenant, id) then (db, Err(NotFound))
    else
      var c := db.conversations[id].(leadStatus := Some(leadStatus));
      (db.(conversations := db.conversations[id := c]), Ok(c))
  }

  /** `updateLeadStatus` fails for a conversation outside the tenant and
      otherwise overwrites only its `leadStatus`, whatever the string (it need
      not name one of the tenant's lead statuses). */
  lemma UpdateLeadStatusOutcome(db: Db, tenant: Id, id: Id, leadStatus: string)
    requires WellFormed(db)
    ensures var (r, res) := UpdateLeadStatusSpec(db, tenant, id, leadStatus);
      && WellFormed(r)
      && (res.Err? <==> !InTenant(db, tenant, id))
      && (res.Err? ==> res.error == NotFound && r == db)
      && (res.Ok? ==> res.value == db.conversations[id].(leadStatus := Some(leadStatus))
                      && r == db.(conversations := db.conversations[id := res.value]))
  {
    if InTenant(db, tenant, id) {
      var res := UpdateLeadStatusSpec(db, tenant, id, leadStatus).1;
      if res.Ok? {
        SetConversationWellFormed(db, id, res.value);
      }
    }
  }

  method UpdateLeadStatus(st: Store, tenant: Id, id: Id, leadStatus: string) returns (r: Result<Conversation>)
    requires st.Valid()
    modifies st
    ensures st.Valid()
    ensures (st.Snapshot(), r) == UpdateLeadStatusSpec(old(st.Snapshot()), tenant, id, leadStatus)
  {
    UpdateLeadStatusOutcome(st.Snapshot(), tenant, id, leadStatus);
    if !(id in st.conversations && st.conversations[id].tenantId == tenant) {
      return Err(NotFound);
    }
    var c := st.conversations[id].(leadStatus := Some(leadStatus));
    st.conversations := st.conversations[id := c];
    return Ok(c);
  }

  // ---------------------------------------------------------------------------
  // The inbox listing

  /** The `where` of `findAll`: the tenant, and the status and the assigned
      agent when they are given. */
  function MatchesFilter(tenant: Id, status: Option<ConversationStatus>, agent: Option<Id>): Conversation -> bool {
    (c: Conversation) =>
      c.tenantId == tenant
      && (status.None? || c.status == status.value)
      && (agent.None? || c.assignedAgentId == agent)
  }

  /** `findAll`: a page (page 1 and 20 per page by default) of the matching
      conversations, most recent message first. */
  function FindAll(db: Db, tenant: Id, status: Option<ConversationStatus>, agent: Option<Id>,
                   page: nat, limit: nat): Paged<Conversation>
  {
    Paginate(ByRecency(Filter(Rows(db.conversations, db.clock), MatchesFilter(tenant, status, agent))), page, limit, 20)
  }

  /** The page holds only stored conversations of the tenant, with the given
      status and agent when those are given, in recency order: the `limit`
      matches from position `(page - 1) * limit` (fewer on the last page);
      `total` counts every match. */
  lemma FindAllPage(db: Db, tenant: Id, status: Option<ConversationStatus>, agent: Option<Id>, page: nat, limit: nat)
    ensures var r := FindAll(db, tenant, status, agent, page, limit);
      && r.page == (if page == 0 then 1 else page) && r.limit == (if limit == 0 then 20 else limit)
      && r.total == |Filter(Rows(db.conversations, db.clock), MatchesFilter(tenant, status, agent))|
      && IsPageOf(r, ByRecency(Filter(Rows(db.conversations, db.clock), MatchesFilter(tenant, status, agent))), page, limit, 20)
      && |r.data| <= r.limit
      && RecentFirst(r.data)
      && (forall c :: c in r.data ==>
            && StoredBelow(db.conversations, db.clock, c) && c.tenantId == tenant
            && (status.Some? ==> c.status == status.value)
            && (agent.Some? ==> c.assignedAgentId == agent))
  {
    PaginateIsPage(ByRecency(Filter(Rows(db.conversations, db.clock), MatchesFilter(tenant, status, agent))), page, limit, 20);
    var rows := Rows(db.conversations, db.clock);
    var p := MatchesFilter(tenant, status, agent);
    var all := Filter(rows, p);
    ByRecencyPermutes(all);
    RecentPage(all, page, limit, 20);
    forall c | c in FindAll(db, tenant, status, agent, page, limit).data
      ensures StoredBelow(db.conversations, db.clock, c) && p(c)
    {
      FilterMember(rows, p, c);
      RowsStored(db.conversations, db.clock, c);
    }
  }

  // ---------------------------------------------------------------------------
  // Notes

  function NoteOf(tenant: Id, convId: Id): Note -> bool {
    (n: Note) => n.tenantId == tenant && n.conversationId == convId
  }

  /** The sort key of `orderBy: { createdAt: 'desc' }`. */
  function NoteNewestFirst(n: Note): int { -(n.createdAt as int) }

  /** `getNotes`. */
  function GetNotes(db: Db, tenant: Id, convId: Id): seq<Note> {
    SortBy(Filter(Rows(db.notes, db.clock), NoteOf(tenant, convId)), NoteNewestFirst)
  }

  /** `getNotes` lists exactly the tenant's notes on the conversation, each
      stored note once (the list is a permutation of the matching rows),
      newest first. */
  lemma GetNotesExact(db: Db, tenant: Id, convId: Id)
    requires NotesKeyed(db.notes, db.clock)
    ensures var r := GetNotes(db, tenant, convId);
      && multiset(r) == multiset(Filter(Rows(db.notes, db.clock), NoteOf(tenant, convId)))
      && (forall i, j :: 0 <= i < j < |r| ==> r[i].createdAt >= r[j].createdAt)
      && (forall n :: n in r <==> exists k :: k in db.notes && db.notes[k] == n && n.tenantId == tenant && n.conversationId == convId)
  {
    var r := GetNotes(db, tenant, convId);
    forall i, j | 0 <= i < j < |r| ensures r[i].createdAt >= r[j].createdAt {
      assert NoteNewestFirst(r[i]) <= NoteNewestFirst(r[j]);
    }
    forall n ensures n in r <==> exists k :: k in db.notes && db.notes[k] == n && n.tenantId == tenant && n.conversationId == convId {
      SelectMember(db.notes, db.clock, NoteOf(tenant, convId), NoteNewestFirst, n);
    }
  }

  /** `addNote`: the note is connected to the conversation and the author by
      id; a missing one makes the call fail. */
  function AddNoteSpec(db: Db, tenant: Id, convId: Id, userId: Id, content: string): (Db, Result<Note>) {
    if convId !in db.conversations || userId !in db.users then (db, Err(NotFound))
    else
      var n := Note(db.clock, tenant, convId, StaffUser(userId), content, db.clock);
      (db.(notes := db.notes[db.clock := n], clock := db.clock + 1), Ok(n))
  }

  /** `addNote` adds exactly one note by that user with that content; it
      fails, storing nothing, when the conversation or the user does not
      exist. */
  lemma AddNoteOutcome(db: Db, tenant: Id, convId: Id, userId: Id, content: string)
    requires WellFormed(db)
    ensures var (r, res) := AddNoteSpec(db, tenant, convId, userId, content);
      && WellFormed(r)
      && (res.Err? <==> convId !in db.conversations || userId !in db.users)
      && (res.Err? ==> r == db)
      && (res.Ok? ==> && res.value.id !in db.notes && r.notes == db.notes[res.value.id := res.value]
                      && res.value.author == StaffUser(userId) && res.value.content == content
                      && res.value.conversationId == convId && res.value.tenantId == tenant)
  {
    var (r, res) := AddNoteSpec(db, tenant, convId, userId, content);
    if res.Ok? {
      assert NotesKeyed(r.notes, r.clock);
    }
  }

  method AddNote(st: Store, tenant: Id, convId: Id, userId: Id, content: string) returns (r: Result<Note>)
    requires st.Valid()
    modifies st
    ensures st.Valid()
    ensures (st.Snapshot(), r) == AddNoteSpec(old(st.Snapshot()), tenant, convId, userId, content)
  {
    ghost var db0 := st.Snapshot();
    if convId !in st.conversations || userId !in st.users {
      return Err(NotFound);
    }
    var n := Note(st.clock, tenant, convId, StaffUser(userId), content, st.clock);
    AddNoteWellFormed(db0, n);
    st.notes, st.clock := st.notes[st.clock := n], st.clock + 1;
    assert st.Snapshot() == db0.(notes := db0.notes[db0.clock := n], clock := db0.clock + 1);
    r := Ok(n);
  }
}
