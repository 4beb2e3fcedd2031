/** The records of the helpdesk (the tables of its relational store and the
    enums of the shared package), and the store's contents as one value. */
module Domain {
  import opened Common

  /** Row identifiers. The store draws them from its logical clock, so a row's
      id is also the moment it was created. */
  type Id = nat

  datatype Role = Owner | Admin | Agent
  datatype Availability = Online | Away | Offline
  datatype ConversationStatus = Open | Pending | Resolved
  datatype Direction = Inbound | Outbound
  datatype MessageStatus = Sent | Delivered | Read | Failed
  datatype Strategy = RoundRobin | Manual

  datatype Contact = Contact(
    id: Id, tenantId: Id, phone: string, name: Option<string>, email: Option<string>,
    tags: seq<string>, createdAt: nat)

  datatype Conversation = Conversation(
    id: Id, tenantId: Id, contactId: Id, assignedAgentId: Option<Id>, channel: string,
    status: ConversationStatus, leadStatus: Option<string>, lastMessageAt: Option<nat>,
    createdAt: nat)

  datatype Message = Message(
    id: Id, tenantId: Id, conversationId: Id, senderId: Option<Id>, direction: Direction,
    body: string, externalId: Option<string>, status: MessageStatus, createdAt: nat)

  datatype User = User(
    id: Id, tenantId: Id, email: string, name: string, role: Role,
    availability: Availability, maxOpenConvo: nat, createdAt: nat)

  datatype TeamMember = TeamMember(teamId: Id, userId: Id)

  /** The JSON conditions of an assignment rule, `{ tags?: string[], channel?: string }`.
      `tags` is `None` when the key is absent or not an array; an absent or empty
      channel is the empty string (both are falsy). `{}` and `null` are `NoConditions`. */
  datatype Conditions = Conditions(tags: Option<seq<string>>, channel: string)

  const NoConditions := Conditions(None, "")

  datatype AssignmentRule = AssignmentRule(
    id: Id, tenantId: Id, name: string, priority: int, strategy: Strategy, isActive: bool,
    conditions: Conditions, teamId: Option<Id>, createdAt: nat)

  datatype LeadStatus = LeadStatus(
    id: Id, tenantId: Id, name: string, color: string, sortOrder: int, isActive: bool,
    createdAt: nat)

  datatype MatchMode = Any | All
  datatype TriggerType = NewMessage | KeywordMatch | NewConversation | OtherTrigger(name: string)

  /** A workflow trigger `{ type, config: { keywords?, matchMode? } }`. */
  datatype Trigger = Trigger(kind: TriggerType, keywords: Option<seq<string>>, matchMode: Option<MatchMode>)

  /** A workflow action `{ type, config }`. A missing string field is the empty
      string, a missing agent id `None`, a missing delay 0: the engine treats
      each the same as the falsy value it stands for. */
  datatype Action =
    | SendReply(body: string)
    | ChangeLeadStatus(status: string)
    | AssignAgent(agentId: Option<Id>)
    | AddNote(content: string)
    | Delay(seconds: nat)
    | OtherAction(name: string)

  datatype Workflow = Workflow(
    id: Id, tenantId: Id, name: string, description: string, isActive: bool,
    trigger: Trigger, actions: seq<Action>, createdAt: nat)

  datatype LogStatus = Success | Failure

  datatype WorkflowLog = WorkflowLog(
    id: Id, workflowId: Id, conversationId: Id, status: LogStatus, error: Option<string>,
    executedAt: nat)

  /** Notes are written by a staff user, or by the automation engine under the
      pseudo-user id 'system'. */
  datatype NoteAuthor = SystemUser | StaffUser(userId: Id)

  datatype Note = Note(
    id: Id, tenantId: Id, conversationId: Id, author: NoteAuthor, content: string, createdAt: nat)

  datatype CallLog = CallLog(
    id: Id, tenantId: Id, conversationId: Id, userId: Id, notes: string, outcome: string,
    duration: Option<int>, createdAt: nat)

  /** Column defaults of the database schema, which the services rely on when
      they leave a column out of a `create`. */
  datatype SchemaDefaults = SchemaDefaults(
    availability: Availability, maxOpenConvo: nat, channel: string,
    messageStatus: MessageStatus, isActive: bool, tags: seq<string>)

  /** The contents of the store: one map per table, keyed by row id, the
      team-membership relation, and the logical clock. */
  datatype Db = Db(
    contacts: map<Id, Contact>,
    conversations: map<Id, Conversation>,
    messages: map<Id, Message>,
    users: map<Id, User>,
    members: set<TeamMember>,
    rules: map<Id, AssignmentRule>,
    leadStatuses: map<Id, LeadStatus>,
    workflows: map<Id, Workflow>,
    workflowLogs: map<Id, WorkflowLog>,
    notes: map<Id, Note>,
    callLogs: map<Id, CallLog>,
    clock: nat,
    defaults: SchemaDefaults)

  function EmptyDb(defaults: SchemaDefaults): Db {
    Db(map[], map[], map[], map[], {}, map[], map[], map[], map[], map[], map[], 0, defaults)
  }

  // Every row is stored under its own id, and every id was drawn from the clock.
  ghost predicate ContactsKeyed(m: map<Id, Contact>, clock: nat) { forall k :: k in m ==> k < clock && m[k].id == k }
  ghost predicate ConversationsKeyed(m: map<Id, Conversation>, clock: nat) { forall k :: k in m ==> k < clock && m[k].id == k }
  ghost predicate MessagesKeyed(m: map<Id, Message>, clock: nat) { forall k :: k in m ==> k < clock && m[k].id == k }
  ghost predicate UsersKeyed(m: map<Id, User>, clock: nat) { forall k :: k in m ==> k < clock && m[k].id == k }
  ghost predicate RulesKeyed(m: map<Id, AssignmentRule>, clock: nat) { forall k :: k in m ==> k < clock && m[k].id == k }
  ghost predicate LeadStatusesKeyed(m: map<Id, LeadStatus>, clock: nat) { forall k :: k in m ==> k < clock && m[k].id == k }
  ghost predicate WorkflowsKeyed(m: map<Id, Workflow>, clock: nat) { forall k :: k in m ==> k < clock && m[k].id == k }
  ghost predicate WorkflowLogsKeyed(m: map<Id, WorkflowLog>, clock: nat) { forall k :: k in m ==> k < clock && m[k].id == k }
  ghost predicate NotesKeyed(m: map<Id, Note>, clock: nat) { forall k :: k in m ==> k < clock && m[k].id == k }
  ghost predicate CallLogsKeyed(m: map<Id, CallLog>, clock: nat) { forall k :: k in m ==> k < clock && m[k].id == k }

  /** The unique key (tenant, phone) of contacts. */
  ghost predicate ContactsUnique(m: map<Id, Contact>) {
    forall k, j :: k in m && j in m && k != j ==> m[k].tenantId != m[j].tenantId || m[k].phone != m[j].phone
  }

  /** The unique key (tenant, email) of users. */
  ghost predicate UsersUnique(m: map<Id, User>) {
    forall k, j :: k in m && j in m && k != j ==> m[k].tenantId != m[j].tenantId || m[k].email != m[j].email
  }

  /** The store invariant. */
  ghost predicate WellFormed(db: Db) {
    && ContactsKeyed(db.contacts, db.clock)
    && ConversationsKeyed(db.conversations, db.clock)
    && MessagesKeyed(db.messages, db.clock)
    && UsersKeyed(db.users, db.clock)
    && RulesKeyed(db.rules, db.clock)
    && LeadStatusesKeyed(db.leadStatuses, db.clock)
    && WorkflowsKeyed(db.workflows, db.clock)
    && WorkflowLogsKeyed(db.workflowLogs, db.clock)
    && NotesKeyed(db.notes, db.clock)
    && CallLogsKeyed(db.callLogs, db.clock)
    && ContactsUnique(db.contacts)
    && UsersUnique(db.users)
  }

  /** `x` is stored in `m` under an id below `n`. */
  ghost predicate StoredBelow<T>(m: map<Id, T>, n: nat, x: T) {
    exists k: Id :: k < n && k in m && m[k] == x
  }

  /** The rows of `m` with ids below `n`, in id order: a `findMany` without
      `orderBy` lists rows in the order they were inserted. */
  function Rows<T>(m: map<Id, T>, n: nat): (r: seq<T>)
    ensures forall i :: 0 <= i < |r| ==> StoredBelow(m, n, r[i])
    ensures forall k: Id :: k < n && k in m ==> m[k] in r
  {
    if n == 0 then []
    else
      var prefix := Rows(m, n - 1);
      var r := prefix + (if n - 1 in m then [m[n - 1]] else []);
      assert forall i :: 0 <= i < |prefix| ==> r[i] == prefix[i] && StoredBelow(m, n, r[i]);
      assert n - 1 in m ==> StoredBelow(m, n, m[n - 1]);
      r
  }

  lemma RowsStored<T>(m: map<Id, T>, n: nat, x: T)
    requires x in Rows(m, n)
    ensures StoredBelow(m, n, x)
  {
    var i :| 0 <= i < |Rows(m, n)| && Rows(m, n)[i] == x;
  }

  /** A sorted selection of the rows holds exactly the stored rows that
      satisfy the filter. */
  lemma SelectMember<T>(m: map<Id, T>, n: nat, p: T -> bool, key: T -> int, x: T)
    requires forall k :: k in m ==> k < n
    ensures x in SortBy(Filter(Rows(m, n), p), key) <==> p(x) && exists k :: k in m && m[k] == x
  {
    var sorted := SortBy(Filter(Rows(m, n), p), key);
    assert x in sorted <==> x in multiset(sorted);
    FilterMember(Rows(m, n), p, x);
    if x in Rows(m, n) {
      RowsStored(m, n, x);
    }
    if exists k :: k in m && m[k] == x {
      var k :| k in m && m[k] == x;
      assert k < n;
    }
  }

  /** The same, stated with the ids below `n`: it needs no bound on the keys. */
  lemma SelectStored<T>(m: map<Id, T>, n: nat, p: T -> bool, key: T -> int, x: T)
    ensures x in SortBy(Filter(Rows(m, n), p), key) <==> p(x) && StoredBelow(m, n, x)
  {
    var sorted := SortBy(Filter(Rows(m, n), p), key);
    assert x in sorted <==> x in multiset(sorted);
    FilterMember(Rows(m, n), p, x);
    if x in Rows(m, n) {
      RowsStored(m, n, x);
    }
  }

  /** `Rows` below `n` only looks at ids below `n`. */
  lemma {:induction false} RowsAgree<T>(m1: map<Id, T>, m2: map<Id, T>, n: nat)
    requires forall k: Id :: k < n ==> (k in m1 <==> k in m2)
    requires forall k: Id :: k < n && k in m1 ==> m1[k] == m2[k]
    ensures Rows(m1, n) == Rows(m2, n)
  {
    if n > 0 {
      RowsAgree(m1, m2, n - 1);
    }
  }

  /** Inserting a row under the clock appends it to the rows. */
  lemma RowsInsert<T>(m: map<Id, T>, n: nat, x: T)
    requires forall k :: k in m ==> k < n
    ensures Rows(m[n := x], n + 1) == Rows(m, n) + [x]
  {
    RowsAgree(m[n := x], m, n);
  }

  // `orderBy: { lastMessageAt: 'desc' }` as PostgreSQL evaluates it: NULLS
  // FIRST is its default for a descending order, so conversations without a
  // message come first, then the most recent first.

  function NeverMessaged(): Conversation -> bool { (c: Conversation) => c.lastMessageAt.None? }

  function LastMessageDesc(c: Conversation): int {
    if c.lastMessageAt.Some? then -(c.lastMessageAt.value as int) else 0
  }

  function ByRecency(cs: seq<Conversation>): seq<Conversation> {
    Filter(cs, NeverMessaged()) + SortBy(Filter(cs, Not(NeverMessaged())), LastMessageDesc)
  }

  /** Conversations without a message come first, then the others by
      descending `lastMessageAt`. */
  ghost predicate RecentFirst(s: seq<Conversation>) {
    forall i, j :: 0 <= i < j < |s| && s[i].lastMessageAt.Some? ==>
      s[j].lastMessageAt.Some? && s[i].lastMessageAt.value >= s[j].lastMessageAt.value
  }

  /** Any slice of a list in recency order is in recency order. */
  lemma RecentFirstSlice(s: seq<Conversation>, a: nat, b: nat)
    requires RecentFirst(s) && a <= b <= |s|
    ensures RecentFirst(s[a..b])
  {
    forall i, j | 0 <= i < j < b - a && s[a..b][i].lastMessageAt.Some?
      ensures s[a..b][j].lastMessageAt.Some? && s[a..b][i].lastMessageAt.value >= s[a..b][j].lastMessageAt.value
    {
      assert s[a..b][i] == s[a + i] && s[a..b][j] == s[a + j];
    }
  }

  /** The first `n` of a list in recency order are in recency order, come
      from the list, and none after them is more recent. */
  lemma RecentWindow(s: seq<Conversation>, n: nat)
    requires RecentFirst(s) && n <= |s|
    ensures var w := s[..n];
      && (forall i :: 0 <= i < |w| ==> w[i] == s[i])
      && (forall c :: c in w ==> c in s)
      && RecentFirst(w)
      && (forall i, j :: 0 <= i < |w| <= j < |s| && w[i].lastMessageAt.Some? ==>
            s[j].lastMessageAt.Some? && w[i].lastMessageAt.value >= s[j].lastMessageAt.value)
  {
    RecentFirstSlice(s, 0, n);
    assert s[..n] == s[0..n];
  }

  /** The recency order is a permutation of its input ... */
  lemma ByRecencyPermutes(cs: seq<Conversation>)
    ensures multiset(ByRecency(cs)) == multiset(cs)
    ensures |ByRecency(cs)| == |cs|
  {
    FilterPartition(cs, NeverMessaged());
    assert |multiset(ByRecency(cs))| == |multiset(cs)|;
  }

  /** ... that puts conversations without a message first and the others by
      descending `lastMessageAt`. */
  lemma {:induction false} ByRecencyOrder(cs: seq<Conversation>)
    ensures RecentFirst(ByRecency(cs))
  {
    var nulls := Filter(cs, NeverMessaged());
    var sorted := SortBy(Filter(cs, Not(NeverMessaged())), LastMessageDesc);
    var r := ByRecency(cs);
    assert r == nulls + sorted;
    forall k | 0 <= k < |sorted| ensures sorted[k].lastMessageAt.Some? {
      assert sorted[k] in multiset(sorted);
      FilterMember(cs, Not(NeverMessaged()), sorted[k]);
    }
    forall i, j | 0 <= i < j < |r| && r[i].lastMessageAt.Some?
      ensures r[j].lastMessageAt.Some? && r[i].lastMessageAt.value >= r[j].lastMessageAt.value
    {
      RecencyPair(nulls, sorted, i, j);
    }
  }

  lemma RecencyPair(nulls: seq<Conversation>, sorted: seq<Conversation>, i: nat, j: nat)
    requires forall k :: 0 <= k < |nulls| ==> NeverMessaged()(nulls[k])
    requires forall k :: 0 <= k < |sorted| ==> sorted[k].lastMessageAt.Some?
    requires SortedBy(sorted, LastMessageDesc)
    requires i < j < |nulls + sorted| && (nulls + sorted)[i].lastMessageAt.Some?
    ensures (nulls + sorted)[j].lastMessageAt.Some?
    ensures (nulls + sorted)[i].lastMessageAt.value >= (nulls + sorted)[j].lastMessageAt.value
  {
    var r := nulls + sorted;
    forall k | 0 <= k < |nulls| ensures r[k].lastMessageAt.None? {
      assert r[k] == nulls[k];
    }
    assert r[i] == sorted[i - |nulls|] && r[j] == sorted[j - |nulls|];
    assert LastMessageDesc(sorted[i - |nulls|]) <= LastMessageDesc(sorted[j - |nulls|]);
  }

  /** A page of conversations in recency order is in recency order, and holds
      only conversations of the input. */
  lemma RecentPage(cs: seq<Conversation>, page: nat, limit: nat, defaultLimit: nat)
    requires defaultLimit > 0
    ensures var r := Paginate(ByRecency(cs), page, limit, defaultLimit);
      RecentFirst(r.data) && forall c :: c in r.data ==> c in cs
  {
    var rows := ByRecency(cs);
    ByRecencyOrder(cs);
    ByRecencyPermutes(cs);
    RecentRowsPage(rows, page, limit, defaultLimit);
    forall c | c in Paginate(rows, page, limit, defaultLimit).data ensures c in cs {
      assert c in multiset(rows);
    }
  }

  lemma RecentRowsPage(rows: seq<Conversation>, page: nat, limit: nat, defaultLimit: nat)
    requires defaultLimit > 0 && RecentFirst(rows)
    ensures var r := Paginate(rows, page, limit, defaultLimit);
      RecentFirst(r.data) && forall c :: c in r.data ==> c in rows
  {
    PageIsSlice(rows, page, limit, defaultLimit);
    var r := Paginate(rows, page, limit, defaultLimit);
    var off := Offset(r.page, r.limit);
    if |r.data| > 0 {
      RecentFirstSlice(rows, off, off + |r.data|);
    }
  }

  /** Overwriting a stored conversation under its own id keeps the store
      invariant. */
  lemma SetConversationWellFormed(db: Db, id: Id, c: Conversation)
    requires WellFormed(db) && id in db.conversations && c.id == id
    ensures WellFormed(db.(conversations := db.conversations[id := c]))
  {
    var r := db.(conversations := db.conversations[id := c]);
    assert ConversationsKeyed(r.conversations, r.clock);
  }

  /** Storing a message under the clock, and advancing the clock, keeps the
      store invariant. */
  lemma AddMessageWellFormed(db: Db, m: Message)
    requires WellFormed(db) && m.id == db.clock
    ensures WellFormed(db.(messages := db.messages[db.clock := m], clock := db.clock + 1))
  {
    var r := db.(messages := db.messages[db.clock := m], clock := db.clock + 1);
    assert MessagesKeyed(r.messages, r.clock);
  }

  /** Storing a note under the clock, and advancing the clock, keeps the
      store invariant. */
  lemma AddNoteWellFormed(db: Db, n: Note)
    requires WellFormed(db) && n.id == db.clock
    ensures WellFormed(db.(notes := db.notes[db.clock := n], clock := db.clock + 1))
  {
    var r := db.(notes := db.notes[db.clock := n], clock := db.clock + 1);
    assert NotesKeyed(r.notes, r.clock);
  }

  /** Overwrites a stored conversation. */
  function UpdateConversation(db: Db, c: Conversation): (r: Db)
    ensures c.id in db.conversations ==> r.conversations.Keys == db.conversations.Keys
    ensures WellFormed(db) && c.id in db.conversations ==> WellFormed(r)
  {
    db.(conversations := db.conversations[c.id := c])
  }
}
