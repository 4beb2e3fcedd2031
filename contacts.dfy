/** The contact service: contacts are unique per (tenant, phone); inbound
    messages find or create theirs by phone number. */
module Contacts {
  import opened Common
  import opened Text
  import opened Domain
  import opened Storage

  function WithPhone(tenant: Id, phone: string): Contact -> bool {
    (c: Contact) => c.tenantId == tenant && c.phone == phone
  }

  /** `findUnique({ tenantId_phone })`. */
  function ByPhone(db: Db, tenant: Id, phone: string): Option<Contact> {
    First(Rows(db.contacts, db.clock), WithPhone(tenant, phone))
  }

  /** The lookup by phone finds a contact exactly when the tenant has one with
      that phone, and then it is the stored row. */
  lemma ByPhoneFinds(db: Db, tenant: Id, phone: string)
    requires WellFormed(db)
    ensures ByPhone(db, tenant, phone).None? <==>
              forall k :: k in db.contacts ==> db.contacts[k].tenantId != tenant || db.contacts[k].phone != phone
    ensures var r := ByPhone(db, tenant, phone);
      r.Some? ==> r.value.id in db.contacts && db.contacts[r.value.id] == r.value
                  && r.value.tenantId == tenant && r.value.phone == phone
  {
    var rows := Rows(db.contacts, db.clock);
    var r := ByPhone(db, tenant, phone);
    if r.Some? {
      RowsStored(db.contacts, db.clock, r.value);
      assert WithPhone(tenant, phone)(r.value);
    } else {
      forall k | k in db.contacts ensures db.contacts[k].tenantId != tenant || db.contacts[k].phone != phone {
        assert db.contacts[k] in rows;
        var i :| 0 <= i < |rows| && rows[i] == db.contacts[k];
        assert !WithPhone(tenant, phone)(rows[i]);
      }
    }
  }

  /** Inserts a new contact under a fresh id. */
  function AddContact(db: Db, tenant: Id, phone: string, name: Option<string>, email: Option<string>,
                      tags: seq<string>): (Db, Contact)
  {
    var c := Contact(db.clock, tenant, phone, name, email, tags, db.clock);
    (db.(contacts := db.contacts[db.clock := c], clock := db.clock + 1), c)
  }

  /** A new contact with a phone the tenant does not use keeps the store invariant. */
  lemma AddContactWellFormed(db: Db, tenant: Id, phone: string, name: Option<string>, email: Option<string>,
                             tags: seq<string>)
    requires WellFormed(db) && ByPhone(db, tenant, phone).None?
    ensures WellFormed(AddContact(db, tenant, phone, name, email, tags).0)
  {
    ByPhoneFinds(db, tenant, phone);
    var r := AddContact(db, tenant, phone, name, email, tags).0;
    assert ContactsKeyed(r.contacts, r.clock);
    assert ContactsUnique(r.contacts);
  }

  /** `findOrCreateByPhone`: the tenant's contact with that phone, created
      (with the given name, and no email) when there is none. */
  function FindOrCreateByPhoneSpec(db: Db, tenant: Id, phone: string, name: Option<string>): (Db, Contact) {
    match ByPhone(db, tenant, phone)
    case Some(c) => (db, c)
    case None => AddContact(db, tenant, phone, name, None, db.defaults.tags)
  }

  /** An existing contact is returned and nothing is created; otherwise exactly
      one contact, with that phone and name, is added. Either way the result
      is the tenant's stored contact with that phone. */
  lemma FindOrCreateOutcome(db: Db, tenant: Id, phone: string, name: Option<string>)
    requires WellFormed(db)
    ensures var (r, c) := FindOrCreateByPhoneSpec(db, tenant, phone, name);
      && WellFormed(r)
      && c.tenantId == tenant && c.phone == phone && c.id in r.contacts && r.contacts[c.id] == c
      && ((exists k :: k in db.contacts && db.contacts[k].tenantId == tenant && db.contacts[k].phone == phone) ==> r == db)
      && ((forall k :: k in db.contacts ==> db.contacts[k].tenantId != tenant || db.contacts[k].phone != phone) ==>
            && c.id !in db.contacts && c.name == name && c.email.None?
            && r == db.(contacts := db.contacts[c.id := c], clock := db.clock + 1))
  {
    ByPhoneFinds(db, tenant, phone);
    var found := ByPhone(db, tenant, phone);
    if found.None? {
      AddContactWellFormed(db, tenant, phone, name, None, db.defaults.tags);
      AddContactFresh(db, tenant, phone, name, None, db.defaults.tags);
    } else {
      assert FindOrCreateByPhoneSpec(db, tenant, phone, name) == (db, found.value);
    }
  }

  /** A new contact goes under an id no contact has. */
  lemma AddContactFresh(db: Db, tenant: Id, phone: string, name: Option<string>, email: Option<string>,
                        tags: seq<string>)
    requires ContactsKeyed(db.contacts, db.clock)
    ensures var (r, c) := AddContact(db, tenant, phone, name, email, tags);
      c.id !in db.contacts && c.id == db.clock && r.contacts == db.contacts[c.id := c]
  {
  }

  /** A second call with the same phone returns the same contact and changes
      nothing. */
  lemma FindOrCreateTwice(db: Db, tenant: Id, phone: string, name1: Option<string>, name2: Option<string>)
    requires WellFormed(db)
    ensures var (db1, c1) := FindOrCreateByPhoneSpec(db, tenant, phone, name1);
            FindOrCreateByPhoneSpec(db1, tenant, phone, name2) == (db1, c1)
  {
    var (db1, c1) := FindOrCreateByPhoneSpec(db, tenant, phone, name1);
    FindOrCreateOutcome(db, tenant, phone, name1);
    ByPhoneFinds(db1, tenant, phone);
    var found := ByPhone(db1, tenant, phone);
    assert found.Some?;
    assert found.value.id == c1.id;
  }

  /** `findOrCreateByPhone`. */
  method FindOrCreateByPhone(st: Store, tenant: Id, phone: string, name: Option<string>) returns (contact: Contact)
    requires st.Valid()
    modifies st
    ensures st.Valid()
    ensures (st.Snapshot(), contact) == FindOrCreateByPhoneSpec(old(st.Snapshot()), tenant, phone, name)
  {
    ghost var db0 := st.Snapshot();
    var found := ByPhone(st.Snapshot(), tenant, phone);
    if found.Some? {
      return found.value;
    }
    AddContactWellFormed(db0, tenant, phone, name, None, db0.defaults.tags);
    contact := Contact(st.clock, tenant, phone, name, None, st.defaults.tags, st.clock);
    st.contacts, st.clock := st.contacts[st.clock := contact], st.clock + 1;
    assert (st.Snapshot(), contact) == AddContact(db0, tenant, phone, name, None, db0.defaults.tags);
  }

  /** `create`: `tags` default to the empty list; a second contact with the
      same (tenant, phone) is refused by the store's unique key. */
  function CreateSpec(db: Db, tenant: Id, phone: string, name: Option<string>, email: Option<string>,
                      tags: Option<seq<string>>): (Db, Result<Contact>)
  {
    if ByPhone(db, tenant, phone).Some? then (db, Err(Duplicate))
    else
      var (r, c) := AddContact(db, tenant, phone, name, email, tags.GetOr([]));
      (r, Ok(c))
  }

  /** `create` fails exactly when the phone is taken in the tenant, changing
      nothing; otherwise it stores one contact with the given fields and the
      empty tag list when none is given. */
  lemma CreateOutcome(db: Db, tenant: Id, phone: string, name: Option<string>, email: Option<string>,
                      tags: Option<seq<string>>)
    requires WellFormed(db)
    ensures var (r, res) := CreateSpec(db, tenant, phone, name, email, tags);
      && WellFormed(r)
      && (res.Err? <==> exists k :: k in db.contacts && db.contacts[k].tenantId == tenant && db.contacts[k].phone == phone)
      && (res.Err? ==> res.error == Duplicate && r == db)
      && (res.Ok? ==>
            && res.value.id !in db.contacts && r.contacts == db.contacts[res.value.id := res.value]
            && res.value.tenantId == tenant && res.value.phone == phone
            && res.value.name == name && res.value.email == email
            && res.value.tags == (if tags.Some? then tags.value else []))
  {
    ByPhoneFinds(db, tenant, phone);
    if ByPhone(db, tenant, phone).None? {
      AddContactWellFormed(db, tenant, phone, name, email, tags.GetOr([]));
      AddContactFresh(db, tenant, phone, name, email, tags.GetOr([]));
    }
  }

  method Create(st: Store, tenant: Id, phone: string, name: Option<string>, email: Option<string>,
                tags: Option<seq<string>>) returns (r: Result<Contact>)
    requires st.Valid()
    modifies st
    ensures st.Valid()
    ensures (st.Snapshot(), r) == CreateSpec(old(st.Snapshot()), tenant, phone, name, email, tags)
  {
    ghost var db0 := st.Snapshot();
    if ByPhone(st.Snapshot(), tenant, phone).Some? {
      return Err(Duplicate);
    }
    AddContactWellFormed(db0, tenant, phone, name, email, tags.GetOr([]));
    var c := Contact(st.clock, tenant, phone, name, email, tags.GetOr([]), st.clock);
    st.contacts, st.clock := st.contacts[st.clock := c], st.clock + 1;
    assert (st.Snapshot(), c) == AddContact(db0, tenant, phone, name, email, tags.GetOr([]));
    r := Ok(c);
  }

  /** The contact `id` of the tenant (`where: { id, tenantId }`). */
  predicate InTenant(db: Db, tenant: Id, id: Id) {
    id in db.contacts && db.contacts[id].tenantId == tenant
  }

  /** `update`: the fields given (`Some`) are overwritten, the others kept. */
  function UpdateSpec(db: Db, tenant: Id, id: Id, name: Option<string>, email: Option<string>,
                      tags: Option<seq<string>>): (Db, Result<Contact>)
  {
    if !InTenant(db, tenant, id) then (db, Err(NotFound))
    else
      var c := db.contacts[id];
      var c' := c.(name := if name.Some? then name else c.name,
                   email := if email.Some? then email else c.email,
                   tags := tags.GetOr(c.tags));
      (db.(contacts := db.contacts[id := c']), Ok(c'))
  }

  /** `update` fails for a contact outside the tenant and changes nothing;
      otherwise it changes only the given fields of that one contact. */
  lemma UpdateOutcome(db: Db, tenant: Id, id: Id, name: Option<string>, email: Option<string>,
                      tags: Option<seq<string>>)
    requires WellFormed(db)
    ensures var (r, res) := UpdateSpec(db, tenant, id, name, email, tags);
      && WellFormed(r)
      && (res.Err? <==> !InTenant(db, tenant, id))
      && (res.Err? ==> res.error == NotFound && r == db)
      && (res.Ok? ==>
            var prev := db.contacts[id];
            && r == db.(contacts := db.contacts[id := res.value])
            && res.value.id == id && res.value.tenantId == tenant && res.value.phone == prev.phone
            && res.value.createdAt == prev.createdAt
            && res.value.name == (if name.Some? then name else prev.name)
            && res.value.email == (if email.Some? then email else prev.email)
            && res.value.tags == (if tags.Some? then tags.value else prev.tags))
  {
    var (r, res) := UpdateSpec(db, tenant, id, name, email, tags);
    if res.Ok? {
      assert ContactsKeyed(r.contacts, r.clock);
      assert ContactsUnique(r.contacts);
    }
  }

  method Update(st: Store, tenant: Id, id: Id, name: Option<string>, email: Option<string>,
                tags: Option<seq<string>>) returns (r: Result<Contact>)
    requires st.Valid()
    modifies st
    ensures st.Valid()
    ensures (st.Snapshot(), r) == UpdateSpec(old(st.Snapshot()), tenant, id, name, email, tags)
  {
    UpdateOutcome(st.Snapshot(), tenant, id, name, email, tags);
    if !(id in st.contacts && st.contacts[id].tenantId == tenant) {
      return Err(NotFound);
    }
    var c := st.contacts[id];
    var c' := c.(name := if name.Some? then name else c.name,
                 email := if email.Some? then email else c.email,
                 tags := tags.GetOr(c.tags));
    st.contacts := st.contacts[id := c'];
    return Ok(c');
  }

  /** `delete`. */
  function DeleteSpec(db: Db, tenant: Id, id: Id): (Db, Result<Contact>) {
    if !InTenant(db, tenant, id) then (db, Err(NotFound))
    else (db.(contacts := db.contacts - {id}), Ok(db.contacts[id]))
  }

  /** `delete` removes exactly the tenant's contact `id`, and fails, changing
      nothing, for a contact outside the tenant. */
  lemma DeleteOutcome(db: Db, tenant: Id, id: Id)
    requires WellFormed(db)
    ensures var (r, res) := DeleteSpec(db, tenant, id);
      && WellFormed(r)
      && (res.Err? <==> !InTenant(db, tenant, id))
      && (res.Err? ==> res.error == NotFound && r == db)
      && (res.Ok? ==> r.contacts.Keys == db.contacts.Keys - {id}
                      && (forall k :: k in r.contacts ==> r.contacts[k] == db.contacts[k])
                      && r.conversations == db.conversations)
  {
    var (r, res) := DeleteSpec(db, tenant, id);
    if res.Ok? {
      assert ContactsKeyed(r.contacts, r.clock);
      assert ContactsUnique(r.contacts);
    }
  }

  method Delete(st: Store, tenant: Id, id: Id) returns (r: Result<Contact>)
    requires st.Valid()
    modifies st
    ensures st.Valid()
    ensures (st.Snapshot(), r) == DeleteSpec(old(st.Snapshot()), tenant, id)
  {
    DeleteOutcome(st.Snapshot(), tenant, id);
    if !(id in st.contacts && st.contacts[id].tenantId == tenant) {
      return Err(NotFound);
    }
    r := Ok(st.contacts[id]);
    st.contacts := st.contacts - {id};
  }

  // ---------------------------------------------------------------------------
  // Reading

  function OfContact(id: Id): Conversation -> bool {
    (c: Conversation) => c.contactId == id
  }

  /** All conversations of a contact, most recent first. */
  function RecentConversations(db: Db, id: Id): seq<Conversation> {
    ByRecency(Filter(Rows(db.conversations, db.clock), OfContact(id)))
  }

  /** `findOne`: the contact with its ten most recent conversations. */
  function FindOne(db: Db, tenant: Id, id: Id): Result<(Contact, seq<Conversation>)> {
    if !InTenant(db, tenant, id) then Err(NotFound)
    else
      var convs := RecentConversations(db, id);
      Ok((db.contacts[id], convs[..Min(10, |convs|)]))
  }

  /** The recency list of a contact holds exactly its stored conversations,
      in recency order. */
  lemma RecentConversationsExact(db: Db, id: Id)
    ensures var all := RecentConversations(db, id);
      && (forall c :: c in all <==> StoredBelow(db.conversations, db.clock, c) && c.contactId == id)
      && RecentFirst(all)
  {
    var rows := Rows(db.conversations, db.clock);
    var own := Filter(rows, OfContact(id));
    ByRecencyPermutes(own);
    ByRecencyOrder(own);
    forall c ensures c in RecentConversations(db, id) <==> StoredBelow(db.conversations, db.clock, c) && c.contactId == id {
      assert c in RecentConversations(db, id) <==> c in multiset(own);
      FilterMember(rows, OfContact(id), c);
      if c in rows {
        RowsStored(db.conversations, db.clock, c);
      }
    }
  }

  /** `findOne` fails exactly for a contact outside the tenant; otherwise it
      returns that contact and the first ten of all its conversations in
      recency order (all of them when there are fewer): none left out is
      more recent than one returned. */
  lemma FindOneConversations(db: Db, tenant: Id, id: Id)
    ensures FindOne(db, tenant, id).Err? <==> !InTenant(db, tenant, id)
    ensures var r := FindOne(db, tenant, id); var all := RecentConversations(db, id);
      r.Ok? ==> && r.value.0 == db.contacts[id]
                && |r.value.1| == Min(10, |all|)
                && (forall i :: 0 <= i < |r.value.1| ==> r.value.1[i] == all[i])
                && (forall c :: c in r.value.1 ==> c.contactId == id && StoredBelow(db.conversations, db.clock, c))
                && RecentFirst(r.value.1)
                && (forall i, j :: 0 <= i < |r.value.1| <= j < |all| && r.value.1[i].lastMessageAt.Some? ==>
                      all[j].lastMessageAt.Some? && r.value.1[i].lastMessageAt.value >= all[j].lastMessageAt.value)
  {
    if InTenant(db, tenant, id) {
      var all := RecentConversations(db, id);
      var n := Min(10, |all|);
      RecentConversationsExact(db, id);
      RecentWindow(all, n);
    }
  }

  /** The `where` of `findAll`: the tenant's contacts, and with a search text,
      those whose name or phone contains it, ignoring case. */
  function MatchesSearch(tenant: Id, search: string): Contact -> bool {
    (c: Contact) =>
      c.tenantId == tenant
      && (search == "" || (c.name.Some? && ContainsIgnoringCase(c.name.value, search))
                       || ContainsIgnoringCase(c.phone, search))
  }

  /** The sort key of `orderBy: { createdAt: 'desc' }`. */
  function NewestFirst(c: Contact): int { -(c.createdAt as int) }

  /** `findAll`: one page (page 1 and 20 per page by default). */
  function FindAll(db: Db, tenant: Id, search: string, page: nat, limit: nat): Paged<Contact> {
    var all := Filter(Rows(db.contacts, db.clock), MatchesSearch(tenant, search));
    Paginate(SortBy(all, NewestFirst), page, limit, 20)
  }

  /** The page holds only matching contacts of the tenant, newest first, at
      most `limit` of them, from position `(page - 1) * limit` of the ordered
      matches; `total` counts all matches. */
  lemma FindAllPage(db: Db, tenant: Id, search: string, page: nat, limit: nat)
    ensures var r := FindAll(db, tenant, search, page, limit);
      && r.page == (if page == 0 then 1 else page) && r.limit == (if limit == 0 then 20 else limit)
      && r.total == |Filter(Rows(db.contacts, db.clock), MatchesSearch(tenant, search))|
      && IsPageOf(r, SortBy(Filter(Rows(db.contacts, db.clock), MatchesSearch(tenant, search)), NewestFirst), page, limit, 20)
      && |r.data| <= r.limit
      && (forall c :: c in r.data ==>
            c.tenantId == tenant
            && (search == "" || (c.name.Some? && Contains(Lower(c.name.value), Lower(search)))
                             || Contains(Lower(c.phone), Lower(search))))
      && (forall i, j :: 0 <= i < j < |r.data| ==> r.data[i].createdAt >= r.data[j].createdAt)
  {
    var p := MatchesSearch(tenant, search);
    var all := Filter(Rows(db.contacts, db.clock), p);
    var r := FindAll(db, tenant, search, page, limit);
    assert r == Paginate(SortBy(all, NewestFirst), page, limit, 20);
    PaginateIsPage(SortBy(all, NewestFirst), page, limit, 20);
    SortedPageOrder(all, NewestFirst, page, limit, 20);
    forall c | c in r.data
      ensures c.tenantId == tenant
            && (search == "" || (c.name.Some? && Contains(Lower(c.name.value), Lower(search)))
                             || Contains(Lower(c.phone), Lower(search)))
    {
      PageOf(Rows(db.contacts, db.clock), p, NewestFirst, page, limit, 20, c);
    }
    forall i, j | 0 <= i < j < |r.data| ensures r.data[i].createdAt >= r.data[j].createdAt {
      assert NewestFirst(r.data[i]) <= NewestFirst(r.data[j]);
    }
  }
}
