/** The tenant's custom lead statuses (the columns of the sales pipeline).
    A conversation refers to a status by its name, so renaming a status
    rewrites the conversations that use it, and a status in use cannot be
    deleted. */
module LeadStatuses {
  import opened Common
  import opened Domain
  import opened Storage

  function OfTenant(tenant: Id): LeadStatus -> bool {
    (s: LeadStatus) => s.tenantId == tenant
  }

  /** The tenant's statuses in the order they were stored. */
  function TenantStatuses(db: Db, tenant: Id): seq<LeadStatus> {
    Filter(Rows(db.leadStatuses, db.clock), OfTenant(tenant))
  }

  /** The largest `sortOrder` of a list, if it is not empty. */
  function MaxSortOrder(s: seq<LeadStatus>): Option<int> {
    if s == [] then None
    else
      var rest := MaxSortOrder(s[1..]);
      if rest.None? || s[0].sortOrder >= rest.value then Some(s[0].sortOrder) else rest
  }

  lemma {:induction false} MaxSortOrderIsMax(s: seq<LeadStatus>)
    ensures MaxSortOrder(s).None? <==> s == []
    ensures MaxSortOrder(s).Some? ==>
      (exists i :: 0 <= i < |s| && s[i].sortOrder == MaxSortOrder(s).value)
      && forall i :: 0 <= i < |s| ==> s[i].sortOrder <= MaxSortOrder(s).value
  {
    if s != [] {
      MaxSortOrderIsMax(s[1..]);
      var m := MaxSortOrder(s).value;
      forall i | 0 <= i < |s| ensures s[i].sortOrder <= m {
        if i > 0 {
          assert s[i] == s[1..][i - 1];
        }
      }
      if MaxSortOrder(s[1..]).Some? && m == MaxSortOrder(s[1..]).value {
        var j :| 0 <= j < |s[1..]| && s[1..][j].sortOrder == m;
        assert s[j + 1].sortOrder == m;
      }
    }
  }

  /** The `sortOrder` of a new status: one more than the tenant's largest, or
      0 for the tenant's first status (`(max?.sortOrder ?? -1) + 1`). */
  function NextSortOrder(db: Db, tenant: Id): int {
    match MaxSortOrder(TenantStatuses(db, tenant))
    case None => 0
    case Some(m) => m + 1
  }

  /** The next sort order is above every sort order the tenant uses, and one
      above the largest; it is 0 when the tenant has no status. Sort orders
      are not validated, so a tenant whose largest is -1 also gets 0; when
      the tenant's sort orders are all non-negative, 0 means it has none. */
  lemma NextSortOrderAbove(db: Db, tenant: Id)
    requires WellFormed(db)
    ensures forall k :: k in db.leadStatuses && db.leadStatuses[k].tenantId == tenant ==>
              db.leadStatuses[k].sortOrder < NextSortOrder(db, tenant)
    ensures (forall k :: k in db.leadStatuses ==> db.leadStatuses[k].tenantId != tenant) ==> NextSortOrder(db, tenant) == 0
    ensures (exists k :: k in db.leadStatuses && db.leadStatuses[k].tenantId == tenant) ==>
              exists k :: k in db.leadStatuses && db.leadStatuses[k].tenantId == tenant
                          && NextSortOrder(db, tenant) == db.leadStatuses[k].sortOrder + 1
    ensures (forall k :: k in db.leadStatuses && db.leadStatuses[k].tenantId == tenant ==> db.leadStatuses[k].sortOrder >= 0)
            && NextSortOrder(db, tenant) == 0 ==>
              forall k :: k in db.leadStatuses ==> db.leadStatuses[k].tenantId != tenant
  {
    var rows := Rows(db.leadStatuses, db.clock);
    var s := TenantStatuses(db, tenant);
    MaxSortOrderIsMax(s);
    forall k | k in db.leadStatuses && db.leadStatuses[k].tenantId == tenant
      ensures db.leadStatuses[k].sortOrder < NextSortOrder(db, tenant)
    {
      FilterMember(rows, OfTenant(tenant), db.leadStatuses[k]);
      var i :| 0 <= i < |s| && s[i] == db.leadStatuses[k];
    }
    if s != [] {
      var i :| 0 <= i < |s| && s[i].sortOrder == MaxSortOrder(s).value;
      assert s[i] in s;
      FilterMember(rows, OfTenant(tenant), s[i]);
      RowsStored(db.leadStatuses, db.clock, s[i]);
      var k :| k < db.clock && k in db.leadStatuses && db.leadStatuses[k] == s[i];
      assert db.leadStatuses[k].tenantId == tenant && NextSortOrder(db, tenant) == db.leadStatuses[k].sortOrder + 1;
    } else {
      forall k | k in db.leadStatuses ensures db.leadStatuses[k].tenantId != tenant {
        FilterMember(rows, OfTenant(tenant), db.leadStatuses[k]);
      }
    }
  }

  /** The default colour of a new status. */
  const DefaultColor := "#3b82f6"

  /** `create`: the colour defaults when it is missing or empty, the sort
      order when it is missing. */
  function CreateSpec(db: Db, tenant: Id, name: string, color: Option<string>, sortOrder: Option<int>): (Db, LeadStatus) {
    var order := if sortOrder.Some? then sortOrder.value else NextSortOrder(db, tenant);
    var c := if color.Some? && color.value != "" then color.value else DefaultColor;
    var s := LeadStatus(db.clock, tenant, name, c, order, db.defaults.isActive, db.clock);
    (AddStatus(db, s), s)
  }

  /** Stores `s` under the clock. */
  function AddStatus(db: Db, s: LeadStatus): Db {
    db.(leadStatuses := db.leadStatuses[db.clock := s], clock := db.clock + 1)
  }

  /** `create` stores exactly one status with the given name, with the default
      colour unless one is given, and without a sort order after every status
      the tenant has. */
  lemma CreateOutcome(db: Db, tenant: Id, name: string, color: Option<string>, sortOrder: Option<int>)
    requires WellFormed(db)
    ensures var (r, s) := CreateSpec(db, tenant, name, color, sortOrder);
      && WellFormed(r)
      && s.id !in db.leadStatuses && r.leadStatuses == db.leadStatuses[s.id := s]
      && s.tenantId == tenant && s.name == name
      && (color.None? || color.value == "" ==> s.color == DefaultColor)
      && (color.Some? && color.value != "" ==> s.color == color.value)
      && (sortOrder.Some? ==> s.sortOrder == sortOrder.value)
      && (sortOrder.None? ==> forall k :: k in db.leadStatuses && db.leadStatuses[k].tenantId == tenant ==>
                                db.leadStatuses[k].sortOrder < s.sortOrder)
      && r.conversations == db.conversations
  {
    NextSortOrderAbove(db, tenant);
    AddStatusWellFormed(db, CreateSpec(db, tenant, name, color, sortOrder).1);
  }

  lemma AddStatusWellFormed(db: Db, s: LeadStatus)
    requires WellFormed(db) && s.id == db.clock
    ensures WellFormed(AddStatus(db, s))
  {
    var r := AddStatus(db, s);
    assert LeadStatusesKeyed(r.leadStatuses, r.clock);
  }

  method Create(st: Store, tenant: Id, name: string, color: Option<string>, sortOrder: Option<int>) returns (s: LeadStatus)
    requires st.Valid()
    modifies st
    ensures st.Valid()
    ensures (st.Snapshot(), s) == CreateSpec(old(st.Snapshot()), tenant, name, color, sortOrder)
  {
    ghost var db0 := st.Snapshot();
    var order: int;
    if sortOrder.None? {
      order := NextSortOrder(st.Snapshot(), tenant);
    } else {
      order := sortOrder.value;
    }
    var c := if color.Some? && color.value != "" then color.value else DefaultColor;
    s := LeadStatus(st.clock, tenant, name, c, order, st.defaults.isActive, st.clock);
    assert CreateSpec(db0, tenant, name, color, sortOrder) == (AddStatus(db0, s), s);
    AddStatusWellFormed(db0, s);
    st.leadStatuses, st.clock := st.leadStatuses[st.clock := s], st.clock + 1;
    assert st.Snapshot() == AddStatus(db0, s);
  }

  // ---------------------------------------------------------------------------
  // Update and rename

  /** The fields an `update` may carry. */
  datatype Patch = Patch(name: Option<string>, color: Option<string>, sortOrder: Option<int>, isActive: Option<bool>)

  function Apply(s: LeadStatus, p: Patch): LeadStatus {
    s.(name := p.name.GetOr(s.name), color := p.color.GetOr(s.color),
       sortOrder := p.sortOrder.GetOr(s.sortOrder), isActive := p.isActive.GetOr(s.isActive))
  }

  /** The `updateMany` of a rename: the tenant's conversations with lead status
      `from` get `to`. */
  function Rename(convs: map<Id, Conversation>, tenant: Id, from: string, to: string): map<Id, Conversation> {
    map k | k in convs :: if convs[k].tenantId == tenant && convs[k].leadStatus == Some(from)
                          then convs[k].(leadStatus := Some(to)) else convs[k]
  }

  /** A rename rewrites exactly the tenant's conversations that carry the old
      name, and only their lead status. */
  lemma RenameExact(convs: map<Id, Conversation>, tenant: Id, from: string, to: string)
    ensures var r := Rename(convs, tenant, from, to);
      && r.Keys == convs.Keys
      && (forall k :: k in convs && convs[k].tenantId == tenant && convs[k].leadStatus == Some(from) ==>
            r[k] == convs[k].(leadStatus := Some(to)))
      && (forall k :: k in convs && (convs[k].tenantId != tenant || convs[k].leadStatus != Some(from)) ==>
            r[k] == convs[k])
  {
  }

  /** The rename step of `update`: only a non-empty new name that differs from
      the current one touches the conversations. */
  function Cascade(db: Db, tenant: Id, existing: LeadStatus, p: Patch): Db {
    if p.name.Some? && p.name.value != "" && existing.name != p.name.value
    then db.(conversations := Rename(db.conversations, tenant, existing.name, p.name.value))
    else db
  }

  /** `update` with the tenant check on every path: the status must be the
      tenant's whether or not the patch renames it. */
  function UpdateSpec(db: Db, tenant: Id, id: Id, p: Patch): (Db, Result<LeadStatus>) {
    if id !in db.leadStatuses || db.leadStatuses[id].tenantId != tenant then (db, Err(NotFound))
    else
      var existing := db.leadStatuses[id];
      var db1 := Cascade(db, tenant, existing, p);
      var s := Apply(existing, p);
      (db1.(leadStatuses := db1.leadStatuses[id := s]), Ok(s))
  }

  /** `update` as written: the status is looked up within the tenant only when
      the patch carries a (non-empty) name; the final update selects the status
      by id alone. */
  function UpdateAsWritten(db: Db, tenant: Id, id: Id, p: Patch): (Db, Result<LeadStatus>) {
    if p.name.Some? && p.name.value != "" && (id !in db.leadStatuses || db.leadStatuses[id].tenantId != tenant) then
      (db, Err(NotFound))
    else if id !in db.leadStatuses then (db, Err(NotFound))
    else
      var existing := db.leadStatuses[id];
      var db1 := Cascade(db, tenant, existing, p);
      var s := Apply(existing, p);
      (db1.(leadStatuses := db1.leadStatuses[id := s]), Ok(s))
  }

  /** `update` keeps the store invariant and the set of conversations. */
  lemma UpdateWellFormed(db: Db, tenant: Id, id: Id, p: Patch)
    requires WellFormed(db)
    ensures var r := UpdateSpec(db, tenant, id, p).0;
      WellFormed(r) && r.conversations.Keys == db.conversations.Keys
  {
    if id in db.leadStatuses && db.leadStatuses[id].tenantId == tenant {
      var existing := db.leadStatuses[id];
      var db1 := Cascade(db, tenant, existing, p);
      CascadeWellFormed(db, tenant, existing, p);
      SetStatusWellFormed(db1, id, Apply(existing, p));
      assert UpdateSpec(db, tenant, id, p).0 == db1.(leadStatuses := db1.leadStatuses[id := Apply(existing, p)]);
    }
  }

  lemma CascadeWellFormed(db: Db, tenant: Id, existing: LeadStatus, p: Patch)
    requires WellFormed(db)
    ensures var r := Cascade(db, tenant, existing, p);
      && WellFormed(r) && r.conversations.Keys == db.conversations.Keys
      && r.leadStatuses == db.leadStatuses && r.clock == db.clock
  {
    if p.name.Some? && p.name.value != "" && existing.name != p.name.value {
      RenameWellFormed(db, tenant, existing.name, p.name.value);
    }
  }

  lemma RenameWellFormed(db: Db, tenant: Id, from: string, to: string)
    requires WellFormed(db)
    ensures var r := db.(conversations := Rename(db.conversations, tenant, from, to));
      WellFormed(r) && r.conversations.Keys == db.conversations.Keys
  {
    var r := db.(conversations := Rename(db.conversations, tenant, from, to));
    RenameKeepsIds(db.conversations, tenant, from, to);
  }

  /** A rename keeps every conversation under its own id. */
  lemma RenameKeepsIds(convs: map<Id, Conversation>, tenant: Id, from: string, to: string)
    ensures var r := Rename(convs, tenant, from, to);
      r.Keys == convs.Keys && forall k :: k in r ==> r[k].id == convs[k].id
  {
  }

  lemma SetStatusWellFormed(db: Db, id: Id, s: LeadStatus)
    requires WellFormed(db) && id in db.leadStatuses && s.id == id
    ensures WellFormed(db.(leadStatuses := db.leadStatuses[id := s]))
  {
    var r := db.(leadStatuses := db.leadStatuses[id := s]);
    assert LeadStatusesKeyed(r.leadStatuses, r.clock);
  }

  /** `update` fails for a status outside the tenant and then changes nothing;
      otherwise it applies the patch to that status alone. */
  lemma UpdateOutcome(db: Db, tenant: Id, id: Id, p: Patch)
    ensures var (r, res) := UpdateSpec(db, tenant, id, p);
      && (res.Err? <==> id !in db.leadStatuses || db.leadStatuses[id].tenantId != tenant)
      && (res.Err? ==> res.error == NotFound && r == db)
      && (res.Ok? ==> res.value == Apply(db.leadStatuses[id], p) && r.leadStatuses == db.leadStatuses[id := res.value])
  {
  }

  /** A rename rewrites exactly the tenant's conversations that carried the
      old name; an update without a name, or with the same name, touches no
      conversation. */
  lemma UpdateCascade(db: Db, tenant: Id, id: Id, p: Patch)
    requires id in db.leadStatuses && db.leadStatuses[id].tenantId == tenant
    ensures var r := UpdateSpec(db, tenant, id, p).0;
      && (p.name.None? || p.name.value == "" || p.name.value == db.leadStatuses[id].name ==> r.conversations == db.conversations)
      && (p.name.Some? && p.name.value != "" ==>
            r.conversations == Rename(db.conversations, tenant, db.leadStatuses[id].name, p.name.value))
  {
    if p.name.Some? && p.name.value == db.leadStatuses[id].name {
      RenameExact(db.conversations, tenant, p.name.value, p.name.value);
      assert Rename(db.conversations, tenant, p.name.value, p.name.value) == db.conversations;
    }
  }

  /** `update` changes no status and no conversation of another tenant. */
  lemma UpdateScoped(db: Db, tenant: Id, id: Id, p: Patch)
    ensures var r := UpdateSpec(db, tenant, id, p).0;
      && (forall k :: k in db.leadStatuses && db.leadStatuses[k].tenantId != tenant ==>
            k in r.leadStatuses && r.leadStatuses[k] == db.leadStatuses[k])
      && (forall k :: k in db.conversations && db.conversations[k].tenantId != tenant ==>
            k in r.conversations && r.conversations[k] == db.conversations[k])
  {
    if id in db.leadStatuses && db.leadStatuses[id].tenantId == tenant {
      var existing := db.leadStatuses[id];
      var db1 := Cascade(db, tenant, existing, p);
      CascadeScoped(db, tenant, existing, p);
      assert UpdateSpec(db, tenant, id, p).0 == db1.(leadStatuses := db1.leadStatuses[id := Apply(existing, p)]);
    }
  }

  lemma CascadeScoped(db: Db, tenant: Id, existing: LeadStatus, p: Patch)
    ensures var r := Cascade(db, tenant, existing, p);
      && r.leadStatuses == db.leadStatuses
      && forall k :: k in db.conversations && db.conversations[k].tenantId != tenant ==>
           k in r.conversations && r.conversations[k] == db.conversations[k]
  {
    if p.name.Some? && p.name.value != "" && existing.name != p.name.value {
      var convs := Rename(db.conversations, tenant, existing.name, p.name.value);
      assert Cascade(db, tenant, existing, p).conversations == convs;
      forall k | k in db.conversations && db.conversations[k].tenantId != tenant
        ensures k in convs && convs[k] == db.conversations[k]
      {
      }
    }
  }

  /** The two versions agree whenever the status belongs to the tenant. */
  lemma UpdateAgreesInTenant(db: Db, tenant: Id, id: Id, p: Patch)
    requires id in db.leadStatuses && db.leadStatuses[id].tenantId == tenant
    ensures UpdateAsWritten(db, tenant, id, p) == UpdateSpec(db, tenant, id, p)
  {
  }

  /** As written, a tenant can recolour another tenant's status: with no name
      in the patch, nothing checks the tenant, and the status of tenant 2 is
      changed on behalf of tenant 1. */
  lemma UpdateAsWrittenCrossesTenants(defaults: SchemaDefaults)
    ensures var other := LeadStatus(0, 2, "Won", "#000000", 0, true, 0);
      var db := EmptyDb(defaults).(leadStatuses := map[0 := other], clock := 1);
      var p := Patch(None, Some("#ffffff"), None, None);
      && UpdateAsWritten(db, 1, 0, p).1 == Ok(other.(color := "#ffffff"))
      && UpdateAsWritten(db, 1, 0, p).0.leadStatuses[0].color == "#ffffff"
      && UpdateSpec(db, 1, 0, p) == (db, Err(NotFound))
  {
  }

  method Update(st: Store, tenant: Id, id: Id, p: Patch) returns (r: Result<LeadStatus>)
    requires st.Valid()
    modifies st
    ensures st.Valid()
    ensures (st.Snapshot(), r) == UpdateSpec(old(st.Snapshot()), tenant, id, p)
  {
    UpdateWellFormed(st.Snapshot(), tenant, id, p);
    if id !in st.leadStatuses || st.leadStatuses[id].tenantId != tenant {
      return Err(NotFound);
    }
    var existing := st.leadStatuses[id];
    if p.name.Some? && p.name.value != "" && existing.name != p.name.value {
      st.conversations := Rename(st.conversations, tenant, existing.name, p.name.value);
    }
    var s := Apply(existing, p);
    st.leadStatuses := st.leadStatuses[id := s];
    return Ok(s);
  }

  // ---------------------------------------------------------------------------
  // Remove

  function UsesStatus(tenant: Id, name: string): Conversation -> bool {
    (c: Conversation) => c.tenantId == tenant && c.leadStatus == Some(name)
  }

  /** The number of the tenant's conversations with that lead status. */
  function InUse(db: Db, tenant: Id, name: string): nat {
    |Filter(Rows(db.conversations, db.clock), UsesStatus(tenant, name))|
  }

  /** The count is positive exactly when some conversation of the tenant has
      that lead status. */
  lemma InUsePositive(db: Db, tenant: Id, name: string)
    requires WellFormed(db)
    ensures InUse(db, tenant, name) > 0 <==>
      exists k :: k in db.conversations && db.conversations[k].tenantId == tenant && db.conversations[k].leadStatus == Some(name)
  {
    var rows := Rows(db.conversations, db.clock);
    var used := Filter(rows, UsesStatus(tenant, name));
    if |used| > 0 {
      assert used[0] in used;
      FilterMember(rows, UsesStatus(tenant, name), used[0]);
      RowsStored(db.conversations, db.clock, used[0]);
    }
    if exists k :: k in db.conversations && db.conversations[k].tenantId == tenant && db.conversations[k].leadStatus == Some(name) {
      var k :| k in db.conversations && db.conversations[k].tenantId == tenant && db.conversations[k].leadStatus == Some(name);
      FilterMember(rows, UsesStatus(tenant, name), db.conversations[k]);
    }
  }

  /** `remove`. */
  function RemoveSpec(db: Db, tenant: Id, id: Id): (Db, Result<LeadStatus>) {
    if id !in db.leadStatuses || db.leadStatuses[id].tenantId != tenant then (db, Err(NotFound))
    else
      var s := db.leadStatuses[id];
      var count := InUse(db, tenant, s.name);
      if count > 0 then (db, Err(StatusInUse(count)))
      else (db.(leadStatuses := db.leadStatuses - {id}), Ok(s))
  }

  /** `remove` fails for a status outside the tenant; it fails reporting the
      (positive) count, and keeps the status, exactly when a conversation of
      the tenant uses its name; otherwise it deletes that status alone. */
  lemma RemoveOutcome(db: Db, tenant: Id, id: Id)
    requires WellFormed(db)
    ensures var (r, res) := RemoveSpec(db, tenant, id);
      && WellFormed(r)
      && (res.Err? ==> r == db)
      && (res.Err? && res.error == NotFound <==> id !in db.leadStatuses || db.leadStatuses[id].tenantId != tenant)
      && (res.Err? && res.error.StatusInUse? <==>
            id in db.leadStatuses && db.leadStatuses[id].tenantId == tenant
            && exists k :: k in db.conversations && db.conversations[k].tenantId == tenant
                           && db.conversations[k].leadStatus == Some(db.leadStatuses[id].name))
      && (res.Err? && res.error.StatusInUse? ==> res.error.count > 0)
      && (res.Ok? ==> res.value == db.leadStatuses[id] && r.leadStatuses == db.leadStatuses - {id}
                      && r.conversations == db.conversations)
  {
    if id in db.leadStatuses && db.leadStatuses[id].tenantId == tenant {
      InUsePositive(db, tenant, db.leadStatuses[id].name);
      DeleteStatusWellFormed(db, id);
    }
  }

  lemma DeleteStatusWellFormed(db: Db, id: Id)
    requires WellFormed(db)
    ensures WellFormed(db.(leadStatuses := db.leadStatuses - {id}))
  {
    var r := db.(leadStatuses := db.leadStatuses - {id});
    assert LeadStatusesKeyed(r.leadStatuses, r.clock);
  }

  method Remove(st: Store, tenant: Id, id: Id) returns (r: Result<LeadStatus>)
    requires st.Valid()
    modifies st
    ensures st.Valid()
    ensures (st.Snapshot(), r) == RemoveSpec(old(st.Snapshot()), tenant, id)
  {
    RemoveOutcome(st.Snapshot(), tenant, id);
    if id !in st.leadStatuses || st.leadStatuses[id].tenantId != tenant {
      return Err(NotFound);
    }
    var s := st.leadStatuses[id];
    var count := InUse(st.Snapshot(), tenant, s.name);
    if count > 0 {
      return Err(StatusInUse(count));
    }
    st.leadStatuses := st.leadStatuses - {id};
    return Ok(s);
  }

  // ---------------------------------------------------------------------------
  // Listing

  function SortOrderKey(s: LeadStatus): int { s.sortOrder }

  /** `findAll`: the tenant's statuses by ascending `sortOrder`. */
  function FindAll(db: Db, tenant: Id): seq<LeadStatus> {
    SortBy(TenantStatuses(db, tenant), SortOrderKey)
  }

  /** `findAll` lists exactly the tenant's statuses, each once, by ascending
      `sortOrder`. */
  lemma FindAllExact(db: Db, tenant: Id)
    requires LeadStatusesKeyed(db.leadStatuses, db.clock)
    ensures var r := FindAll(db, tenant);
      && multiset(r) == multiset(TenantStatuses(db, tenant))
      && (forall i, j :: 0 <= i < j < |r| ==> r[i].sortOrder <= r[j].sortOrder)
      && (forall s :: s in r <==> exists k :: k in db.leadStatuses && db.leadStatuses[k] == s && s.tenantId == tenant)
  {
    var r := FindAll(db, tenant);
    forall i, j | 0 <= i < j < |r| ensures r[i].sortOrder <= r[j].sortOrder {
      assert SortOrderKey(r[i]) <= SortOrderKey(r[j]);
    }
    forall s ensures s in r <==> exists k :: k in db.leadStatuses && db.leadStatuses[k] == s && s.tenantId == tenant {
      SelectMember(db.leadStatuses, db.clock, OfTenant(tenant), SortOrderKey, s);
    }
  }
}
