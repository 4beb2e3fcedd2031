/** The user service: staff users are unique per (tenant, email); invited
    users start as agents with the schema's availability and capacity. */
module Users {
  import opened Common
  import opened Domain
  import opened Storage
  import Assignment

  function WithEmail(tenant: Id, email: string): User -> bool {
    (u: User) => u.tenantId == tenant && u.email == email
  }

  /** `findUnique({ tenantId_email })`. */
  function ByEmail(db: Db, tenant: Id, email: string): Option<User> {
    First(Rows(db.users, db.clock), WithEmail(tenant, email))
  }

  /** The lookup by email finds a user exactly when the tenant has one with
      that email. */
  lemma ByEmailFinds(db: Db, tenant: Id, email: string)
    requires WellFormed(db)
    ensures ByEmail(db, tenant, email).None? <==>
              forall k :: k in db.users ==> db.users[k].tenantId != tenant || db.users[k].email != email
  {
    var rows := Rows(db.users, db.clock);
    var r := ByEmail(db, tenant, email);
    if r.Some? {
      RowsStored(db.users, db.clock, r.value);
      assert WithEmail(tenant, email)(r.value);
    } else {
      forall k | k in db.users ensures db.users[k].tenantId != tenant || db.users[k].email != email {
        assert db.users[k] in rows;
        var i :| 0 <= i < |rows| && rows[i] == db.users[k];
        assert !WithEmail(tenant, email)(rows[i]);
      }
    }
  }

  /** `invite`: Conflict when the email is taken in the tenant; otherwise a
      new user with the role given, AGENT by default, and the schema's
      availability and capacity. */
  function InviteSpec(db: Db, tenant: Id, email: string, name: string, role: Option<Role>): (Db, Result<User>) {
    if ByEmail(db, tenant, email).Some? then (db, Err(Conflict("User with this email already exists in this tenant")))
    else
      var u := User(db.clock, tenant, email, name, role.GetOr(Agent), db.defaults.availability,
                    db.defaults.maxOpenConvo, db.clock);
      (db.(users := db.users[db.clock := u], clock := db.clock + 1), Ok(u))
  }

  lemma AddUserWellFormed(db: Db, u: User)
    requires WellFormed(db) && u.id == db.clock
    requires forall k :: k in db.users ==> db.users[k].tenantId != u.tenantId || db.users[k].email != u.email
    ensures WellFormed(db.(users := db.users[db.clock := u], clock := db.clock + 1))
  {
    var r := db.(users := db.users[db.clock := u], clock := db.clock + 1);
    assert UsersKeyed(r.users, r.clock);
    assert UsersUnique(r.users);
  }

  /** `invite` fails with Conflict exactly when the email is taken in the
      tenant, creating nothing; otherwise it adds exactly one user, with the
      given email and name, role AGENT unless another is given. */
  lemma InviteOutcome(db: Db, tenant: Id, email: string, name: string, role: Option<Role>)
    requires WellFormed(db)
    ensures var (r, res) := InviteSpec(db, tenant, email, name, role);
      && WellFormed(r)
      && (res.Err? <==> exists k :: k in db.users && db.users[k].tenantId == tenant && db.users[k].email == email)
      && (res.Err? ==> res.error.Conflict? && r == db)
      && (res.Ok? ==>
            && res.value.id !in db.users && r == db.(users := db.users[res.value.id := res.value], clock := db.clock + 1)
            && res.value.tenantId == tenant && res.value.email == email && res.value.name == name
            && res.value.role == (if role.Some? then role.value else Agent)
            && res.value.availability == db.defaults.availability && res.value.maxOpenConvo == db.defaults.maxOpenConvo)
  {
    ByEmailFinds(db, tenant, email);
    if ByEmail(db, tenant, email).None? {
      var u := User(db.clock, tenant, email, name, role.GetOr(Agent), db.defaults.availability,
                    db.defaults.maxOpenConvo, db.clock);
      AddUserWellFormed(db, u);
      assert InviteSpec(db, tenant, email, name, role) == (db.(users := db.users[db.clock := u], clock := db.clock + 1), Ok(u));
      assert u.id !in db.users by { assert UsersKeyed(db.users, db.clock); }
    }
  }

  method Invite(st: Store, tenant: Id, email: string, name: string, role: Option<Role>) returns (r: Result<User>)
    requires st.Valid()
    modifies st
    ensures st.Valid()
    ensures (st.Snapshot(), r) == InviteSpec(old(st.Snapshot()), tenant, email, name, role)
  {
    ghost var db0 := st.Snapshot();
    if ByEmail(st.Snapshot(), tenant, email).Some? {
      return Err(Conflict("User with this email already exists in this tenant"));
    }
    ByEmailFinds(db0, tenant, email);
    var u := User(st.clock, tenant, email, name, role.GetOr(Agent), st.defaults.availability,
                  st.defaults.maxOpenConvo, st.clock);
    AddUserWellFormed(db0, u);
    st.users, st.clock := st.users[st.clock := u], st.clock + 1;
    assert (st.Snapshot(), Ok(u)) == InviteSpec(db0, tenant, email, name, role);
    r := Ok(u);
  }

  predicate InTenant(db: Db, tenant: Id, id: Id) {
    id in db.users && db.users[id].tenantId == tenant
  }

  /** Rewrites one user; its email, which the unique key covers, is kept. */
  lemma SetUserWellFormed(db: Db, id: Id, u: User)
    requires WellFormed(db) && id in db.users && u.id == id && u.tenantId == db.users[id].tenantId && u.email == db.users[id].email
    ensures WellFormed(db.(users := db.users[id := u]))
  {
    var r := db.(users := db.users[id := u]);
    assert UsersKeyed(r.users, r.clock);
    assert UsersUnique(r.users);
  }

  /** `update`: the given name and role overwrite the stored ones. */
  function UpdateSpec(db: Db, tenant: Id, id: Id, name: Option<string>, role: Option<Role>): (Db, Result<User>) {
    if !InTenant(db, tenant, id) then (db, Err(NotFound))
    else
      var prev := db.users[id];
      var u := prev.(name := name.GetOr(prev.name), role := role.GetOr(prev.role));
      (db.(users := db.users[id := u]), Ok(u))
  }

  /** `update` fails for a user outside the tenant; otherwise only that
      user's name and role change, each only when given. */
  lemma UpdateOutcome(db: Db, tenant: Id, id: Id, name: Option<string>, role: Option<Role>)
    requires WellFormed(db)
    ensures var (r, res) := UpdateSpec(db, tenant, id, name, role);
      && WellFormed(r)
      && (res.Err? <==> !InTenant(db, tenant, id))
      && (res.Err? ==> res.error == NotFound && r == db)
      && (res.Ok? ==>
            var prev := db.users[id];
            && r == db.(users := db.users[id := res.value])
            && res.value == User(prev.id, prev.tenantId, prev.email,
                                 if name.Some? then name.value else prev.name,
                                 if role.Some? then role.value else prev.role,
                                 prev.availability, prev.maxOpenConvo, prev.createdAt))
  {
    var (r, res) := UpdateSpec(db, tenant, id, name, role);
    if res.Ok? {
      SetUserWellFormed(db, id, res.value);
    }
  }

  method Update(st: Store, tenant: Id, id: Id, name: Option<string>, role: Option<Role>) returns (r: Result<User>)
    requires st.Valid()
    modifies st
    ensures st.Valid()
    ensures (st.Snapshot(), r) == UpdateSpec(old(st.Snapshot()), tenant, id, name, role)
  {
    UpdateOutcome(st.Snapshot(), tenant, id, name, role);
    if id !in st.users || st.users[id].tenantId != tenant {
      return Err(NotFound);
    }
    var prev := st.users[id];
    var u := prev.(name := name.GetOr(prev.name), role := role.GetOr(prev.role));
    st.users := st.users[id := u];
    return Ok(u);
  }

  /** `updateAvailability`. */
  function UpdateAvailabilitySpec(db: Db, tenant: Id, id: Id, availability: Availability): (Db, Result<User>) {
    if !InTenant(db, tenant, id) then (db, Err(NotFound))
    else
      var u := db.users[id].(availability := availability);
      (db.(users := db.users[id := u]), Ok(u))
  }

  /** `updateAvailability` fails for a user outside the tenant; otherwise
      only that user's availability changes. */
  lemma UpdateAvailabilityOutcome(db: Db, tenant: Id, id: Id, availability: Availability)
    requires WellFormed(db)
    ensures var (r, res) := UpdateAvailabilitySpec(db, tenant, id, availability);
      && WellFormed(r)
      && (res.Err? <==> !InTenant(db, tenant, id))
      && (res.Err? ==> res.error == NotFound && r == db)
      && (res.Ok? ==>
            var prev := db.users[id];
            && r == db.(users := db.users[id := res.value])
            && res.value == User(prev.id, prev.tenantId, prev.email, prev.name, prev.role,
                                 availability, prev.maxOpenConvo, prev.createdAt))
  {
    var (r, res) := UpdateAvailabilitySpec(db, tenant, id, availability);
    if res.Ok? {
      SetUserWellFormed(db, id, res.value);
    }
  }

  method UpdateAvailability(st: Store, tenant: Id, id: Id, availability: Availability) returns (r: Result<User>)
    requires st.Valid()
    modifies st
    ensures st.Valid()
    ensures (st.Snapshot(), r) == UpdateAvailabilitySpec(old(st.Snapshot()), tenant, id, availability)
  {
    UpdateAvailabilityOutcome(st.Snapshot(), tenant, id, availability);
    if id !in st.users || st.users[id].tenantId != tenant {
      return Err(NotFound);
    }
    var u := st.users[id].(availability := availability);
    st.users := st.users[id := u];
    return Ok(u);
  }

  /** `getAvailableAgents`: the tenant's online agents and admins, in store
      order, each with its count of assigned conversations not resolved. */
  function GetAvailableAgents(db: Db, tenant: Id): seq<(User, nat)> {
    var us := Assignment.Candidates(db, tenant, None);
    seq(|us|, i requires 0 <= i < |us| => (us[i], Assignment.OpenCount(db, us[i].id)))
  }

  /** The list holds exactly the tenant's stored users that are online and
      agents or admins, each with its open count: the pool the agent
      selection of automatic assignment draws from when no team is given. */
  lemma GetAvailableAgentsExact(db: Db, tenant: Id)
    requires WellFormed(db)
    ensures var r := GetAvailableAgents(db, tenant);
      && (forall i :: 0 <= i < |r| ==> r[i].1 == Assignment.OpenCount(db, r[i].0.id))
      && (forall u :: (exists i :: 0 <= i < |r| && r[i].0 == u) <==>
            (u.id in db.users && db.users[u.id] == u && u.tenantId == tenant && u.availability == Online
             && (u.role == Agent || u.role == Admin)))
  {
    var rows := Rows(db.users, db.clock);
    var us := Assignment.Candidates(db, tenant, None);
    var r := GetAvailableAgents(db, tenant);
    forall u ensures (exists i :: 0 <= i < |r| && r[i].0 == u) <==>
            (u.id in db.users && db.users[u.id] == u && u.tenantId == tenant && u.availability == Online
             && (u.role == Agent || u.role == Admin))
    {
      FilterMember(rows, Assignment.IsEligible(db, tenant, None), u);
      if exists i :: 0 <= i < |r| && r[i].0 == u {
        var i :| 0 <= i < |r| && r[i].0 == u;
        assert us[i] == u;
        RowsStored(db.users, db.clock, u);
      }
      if u.id in db.users && db.users[u.id] == u && u.tenantId == tenant && u.availability == Online
         && (u.role == Agent || u.role == Admin) {
        assert u in rows;
        assert u in us;
        var i :| 0 <= i < |us| && us[i] == u;
        assert r[i].0 == u;
      }
    }
  }
}
