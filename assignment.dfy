/** Automatic assignment of a conversation to an agent: the active rules of a
    tenant are tried in descending priority; the first one whose conditions
    match decides, unless it is a round-robin rule that finds no agent, in
    which case the next rule is tried. */
module Assignment {
  import opened Common
  import opened Domain
  import opened Storage

  // ---------------------------------------------------------------------------
  // Rule conditions

  /** Some wanted tag is among the contact's tags (`wanted.some(t => tags.includes(t))`). */
  function SharesTag(wanted: seq<string>, tags: seq<string>): (r: bool)
    ensures r <==> exists i :: 0 <= i < |wanted| && wanted[i] in tags
  {
    if wanted == [] then false
    else if wanted[0] in tags then true
    else
      var r := SharesTag(wanted[1..], tags);
      assert r ==> exists i :: 0 <= i < |wanted| && wanted[i] in tags by {
        if r {
          var k :| 0 <= k < |wanted[1..]| && wanted[1..][k] in tags;
          assert wanted[k + 1] in tags;
        }
      }
      assert (exists i :: 0 <= i < |wanted| && wanted[i] in tags) ==> r by {
        if exists i :: 0 <= i < |wanted| && wanted[i] in tags {
          var k :| 0 <= k < |wanted| && wanted[k] in tags;
          assert wanted[1..][k - 1] in tags;
        }
      }
      r
  }

  /** Whether a rule's conditions admit a conversation whose contact carries
      `tags` and which arrived on `channel`. */
  function MatchesConditions(cond: Conditions, tags: seq<string>, channel: string): (r: bool)
    ensures cond == NoConditions ==> r
    ensures r <==>
      && (cond.tags.Some? ==> exists i :: 0 <= i < |cond.tags.value| && cond.tags.value[i] in tags)
      && (cond.channel != "" ==> cond.channel == channel)
  {
    (cond.tags.None? || SharesTag(cond.tags.value, tags)) && (cond.channel == "" || cond.channel == channel)
  }

  /** The tags of the conversation's contact, or none when it has no contact. */
  function ContactTags(db: Db, conv: Conversation): seq<string> {
    if conv.contactId in db.contacts then db.contacts[conv.contactId].tags else []
  }

  // ---------------------------------------------------------------------------
  // Agent selection

  /** The conversations assigned to user `u` that are not resolved. */
  function OpenAssigned(db: Db, u: Id): set<Id> {
    set k | k in db.conversations && db.conversations[k].assignedAgentId == Some(u)
                                  && db.conversations[k].status != Resolved
  }

  function OpenCount(db: Db, u: Id): nat {
    |OpenAssigned(db, u)|
  }

  /** The sort key of the agent selection: a user's open load. */
  function LoadKey(db: Db): User -> int {
    (u: User) => OpenCount(db, u.id)
  }

  /** A user the selection may consider: in the tenant, online, an agent or an
      admin, and a member of `team` when a team is given. */
  predicate Eligible(db: Db, tenant: Id, team: Option<Id>, u: User) {
    && u.tenantId == tenant
    && u.availability == Online
    && (u.role == Agent || u.role == Admin)
    && (team.Some? ==> TeamMember(team.value, u.id) in db.members)
  }

  predicate UnderCapacity(db: Db, u: User) {
    OpenCount(db, u.id) < u.maxOpenConvo
  }

  function IsEligible(db: Db, tenant: Id, team: Option<Id>): User -> bool {
    (u: User) => Eligible(db, tenant, team, u)
  }

  function HasCapacity(db: Db): User -> bool {
    (u: User) => UnderCapacity(db, u)
  }

  /** The eligible users, in store order. */
  function Candidates(db: Db, tenant: Id, team: Option<Id>): seq<User> {
    Filter(Rows(db.users, db.clock), IsEligible(db, tenant, team))
  }

  /** The eligible users under capacity, in store order. */
  function Available(db: Db, tenant: Id, team: Option<Id>): seq<User> {
    Filter(Candidates(db, tenant, team), HasCapacity(db))
  }

  /** The candidates are the stored eligible users; the available users are
      the candidates under capacity. */
  lemma AvailableMember(db: Db, tenant: Id, team: Option<Id>, u: User)
    ensures u in Candidates(db, tenant, team) <==> u in Rows(db.users, db.clock) && Eligible(db, tenant, team, u)
    ensures u in Available(db, tenant, team) <==> u in Candidates(db, tenant, team) && UnderCapacity(db, u)
  {
    FilterMember(Rows(db.users, db.clock), IsEligible(db, tenant, team), u);
    FilterMember(Candidates(db, tenant, team), HasCapacity(db), u);
  }

  /** `findAvailableAgent`: the head of the available users sorted by load. */
  function FindAvailableAgent(db: Db, tenant: Id, team: Option<Id>): Option<User> {
    var sorted := SortBy(Available(db, tenant, team), LoadKey(db));
    if |sorted| == 0 then None else Some(sorted[0])
  }

  /** The selected agent is eligible, stored and under capacity; it has the
      least load of the eligible users under capacity, and is the earliest of
      them on ties (the sort is stable); there is none exactly when no
      eligible user is under capacity, in particular when there is none. */
  lemma FindAvailableAgentChoice(db: Db, tenant: Id, team: Option<Id>)
    ensures var r := FindAvailableAgent(db, tenant, team);
      r.Some? ==> Eligible(db, tenant, team, r.value) && StoredBelow(db.users, db.clock, r.value)
    ensures var r := FindAvailableAgent(db, tenant, team);
      r.Some? ==> OpenCount(db, r.value.id) < r.value.maxOpenConvo
    ensures var r := FindAvailableAgent(db, tenant, team); var c := Candidates(db, tenant, team);
      r.Some? ==> forall i :: 0 <= i < |c| && UnderCapacity(db, c[i]) ==> OpenCount(db, r.value.id) <= OpenCount(db, c[i].id)
    ensures var r := FindAvailableAgent(db, tenant, team); var c := Candidates(db, tenant, team);
      r.None? <==> forall i :: 0 <= i < |c| ==> !UnderCapacity(db, c[i])
    ensures var r := FindAvailableAgent(db, tenant, team); var a := Available(db, tenant, team);
      r.Some? ==> |a| > 0 && r.value == a[FirstMin(a, LoadKey(db))]
  {
    var a := Available(db, tenant, team);
    var c := Candidates(db, tenant, team);
    var sorted := SortBy(a, LoadKey(db));
    if |sorted| > 0 {
      SortByHead(a, LoadKey(db));
      var m := FirstMin(a, LoadKey(db));
      assert sorted[0] == a[m];
      AvailableMember(db, tenant, team, a[m]);
      RowsStored(db.users, db.clock, a[m]);
      LeastOfAvailable(db, tenant, team, m);
    } else {
      NoneAvailable(db, tenant, team);
    }
  }

  /** The least-loaded available user has no more load than any candidate
      under capacity. */
  lemma LeastOfAvailable(db: Db, tenant: Id, team: Option<Id>, m: nat)
    requires var a := Available(db, tenant, team);
      m < |a| && forall j :: 0 <= j < |a| ==> LoadKey(db)(a[m]) <= LoadKey(db)(a[j])
    ensures var a := Available(db, tenant, team); var c := Candidates(db, tenant, team);
      forall i :: 0 <= i < |c| && UnderCapacity(db, c[i]) ==> OpenCount(db, a[m].id) <= OpenCount(db, c[i].id)
  {
    var a := Available(db, tenant, team);
    var c := Candidates(db, tenant, team);
    forall i | 0 <= i < |c| && UnderCapacity(db, c[i])
      ensures OpenCount(db, a[m].id) <= OpenCount(db, c[i].id)
    {
      AvailableMember(db, tenant, team, c[i]);
      var j :| 0 <= j < |a| && a[j] == c[i];
      assert LoadKey(db)(a[m]) <= LoadKey(db)(a[j]);
    }
  }

  /** With no available user, every candidate is at capacity. */
  lemma NoneAvailable(db: Db, tenant: Id, team: Option<Id>)
    requires |Available(db, tenant, team)| == 0
    ensures var c := Candidates(db, tenant, team);
      forall i :: 0 <= i < |c| ==> !UnderCapacity(db, c[i])
  {
    var c := Candidates(db, tenant, team);
    forall i | 0 <= i < |c| ensures !UnderCapacity(db, c[i]) {
      AvailableMember(db, tenant, team, c[i]);
    }
  }

  // ---------------------------------------------------------------------------
  // Rule evaluation

  function IsActiveRuleOf(tenant: Id): AssignmentRule -> bool {
    (x: AssignmentRule) => x.tenantId == tenant && x.isActive
  }

  /** The sort key of `orderBy: { priority: 'desc' }`. */
  function PriorityDesc(x: AssignmentRule): int { -x.priority }

  /** The active rules of the tenant, highest priority first. */
  function ActiveRules(db: Db, tenant: Id): seq<AssignmentRule> {
    SortBy(Filter(Rows(db.rules, db.clock), IsActiveRuleOf(tenant)), PriorityDesc)
  }

  /** The rules `autoAssign` evaluates are exactly the active rules of the
      tenant, each stored, in descending priority. */
  lemma ActiveRulesOrder(db: Db, tenant: Id)
    ensures var r := ActiveRules(db, tenant);
      forall i :: 0 <= i < |r| ==> r[i].tenantId == tenant && r[i].isActive && StoredBelow(db.rules, db.clock, r[i])
    ensures var r := ActiveRules(db, tenant);
      forall i, j :: 0 <= i < j < |r| ==> r[i].priority >= r[j].priority
    ensures var r := ActiveRules(db, tenant);
      forall k: Id :: k < db.clock && k in db.rules && db.rules[k].tenantId == tenant && db.rules[k].isActive ==>
        db.rules[k] in r
  {
    var p := IsActiveRuleOf(tenant);
    var active := Filter(Rows(db.rules, db.clock), p);
    var r := ActiveRules(db, tenant);
    assert r == SortBy(active, PriorityDesc);
    forall i, j | 0 <= i < j < |r| ensures r[i].priority >= r[j].priority {
      assert PriorityDesc(r[i]) <= PriorityDesc(r[j]);
    }
    forall i | 0 <= i < |r|
      ensures r[i].tenantId == tenant && r[i].isActive && StoredBelow(db.rules, db.clock, r[i])
    {
      assert r[i] in multiset(r);
      assert r[i] in active;
      FilterMember(Rows(db.rules, db.clock), p, r[i]);
      RowsStored(db.rules, db.clock, r[i]);
    }
    forall k: Id | k < db.clock && k in db.rules && db.rules[k].tenantId == tenant && db.rules[k].isActive
      ensures db.rules[k] in r
    {
      FilterMember(Rows(db.rules, db.clock), p, db.rules[k]);
      assert db.rules[k] in multiset(active);
    }
  }

  datatype Decision = AssignTo(agent: User) | ManualRequired | NoAgent

  /** A rule settles the evaluation: it matches, and it is manual or finds an agent. */
  predicate Decisive(db: Db, tenant: Id, conv: Conversation, rule: AssignmentRule) {
    && MatchesConditions(rule.conditions, ContactTags(db, conv), conv.channel)
    && (rule.strategy == Manual || FindAvailableAgent(db, tenant, rule.teamId).Some?)
  }

  function VerdictOf(db: Db, tenant: Id, rule: AssignmentRule): Decision {
    if rule.strategy == Manual then ManualRequired
    else match FindAvailableAgent(db, tenant, rule.teamId)
      case Some(a) => AssignTo(a)
      case None => NoAgent
  }

  /** The outcome of the rule loop over `rules`. */
  function Decide(db: Db, tenant: Id, conv: Conversation, rules: seq<AssignmentRule>): Decision {
    if rules == [] then NoAgent
    else if !MatchesConditions(rules[0].conditions, ContactTags(db, conv), conv.channel) then
      Decide(db, tenant, conv, rules[1..])
    else if rules[0].strategy == Manual then ManualRequired
    else match FindAvailableAgent(db, tenant, rules[0].teamId)
      case Some(a) => AssignTo(a)
      case None => Decide(db, tenant, conv, rules[1..])
  }

  /** The loop's outcome is the verdict of the first decisive rule, and there
      is no assignment exactly when no rule is decisive: a matching round-robin
      rule without an agent does not end the evaluation. */
  lemma {:induction false} DecideFirstDecisive(db: Db, tenant: Id, conv: Conversation, rules: seq<AssignmentRule>)
    ensures Decide(db, tenant, conv, rules) == NoAgent <==>
              forall i :: 0 <= i < |rules| ==> !Decisive(db, tenant, conv, rules[i])
    ensures Decide(db, tenant, conv, rules) != NoAgent ==>
              exists i :: 0 <= i < |rules| && Decisive(db, tenant, conv, rules[i])
                && (forall j :: 0 <= j < i ==> !Decisive(db, tenant, conv, rules[j]))
                && Decide(db, tenant, conv, rules) == VerdictOf(db, tenant, rules[i])
  {
    if rules != [] {
      DecideFirstDecisive(db, tenant, conv, rules[1..]);
      if !Decisive(db, tenant, conv, rules[0]) {
        assert Decide(db, tenant, conv, rules) == Decide(db, tenant, conv, rules[1..]);
        assert forall i :: 1 <= i < |rules| ==> rules[i] == rules[1..][i - 1];
        if Decide(db, tenant, conv, rules) != NoAgent {
          var k :| 0 <= k < |rules[1..]| && Decisive(db, tenant, conv, rules[1..][k])
                && (forall j :: 0 <= j < k ==> !Decisive(db, tenant, conv, rules[1..][j]))
                && Decide(db, tenant, conv, rules[1..]) == VerdictOf(db, tenant, rules[1..][k]);
          assert forall j :: 0 <= j < k + 1 ==> !Decisive(db, tenant, conv, rules[j]) by {
            forall j | 0 <= j < k + 1 ensures !Decisive(db, tenant, conv, rules[j]) {
              if j > 0 { assert rules[j] == rules[1..][j - 1]; }
            }
          }
        }
      } else {
        assert Decide(db, tenant, conv, rules) == VerdictOf(db, tenant, rules[0]);
      }
    }
  }

  /** An agent chosen by the rule loop is an online agent or admin of the
      tenant, stored in the user table, and under capacity. */
  lemma {:induction false} DecideAssignsEligible(db: Db, tenant: Id, conv: Conversation, rules: seq<AssignmentRule>, a: User)
    requires Decide(db, tenant, conv, rules) == AssignTo(a)
    ensures a.tenantId == tenant && a.availability == Online && (a.role == Agent || a.role == Admin)
    ensures OpenCount(db, a.id) < a.maxOpenConvo
    ensures StoredBelow(db.users, db.clock, a)
  {
    var rule := rules[0];
    if !MatchesConditions(rule.conditions, ContactTags(db, conv), conv.channel) {
      assert Decide(db, tenant, conv, rules[1..]) == AssignTo(a);
      DecideAssignsEligible(db, tenant, conv, rules[1..], a);
    } else if rule.strategy != Manual {
      var found := FindAvailableAgent(db, tenant, rule.teamId);
      if found.None? {
        assert Decide(db, tenant, conv, rules[1..]) == AssignTo(a);
        DecideAssignsEligible(db, tenant, conv, rules[1..], a);
      } else {
        assert found.value == a;
        FindAvailableAgentChoice(db, tenant, rule.teamId);
      }
    }
  }

  /** `autoAssign` on the store value. */
  function AutoAssignSpec(db: Db, tenant: Id, convId: Id): (Db, Result<Option<Id>>) {
    if convId !in db.conversations then (db, Err(NotFound))
    else
      var conv := db.conversations[convId];
      match Decide(db, tenant, conv, ActiveRules(db, tenant))
      case AssignTo(a) => (UpdateConversation(db, conv.(assignedAgentId := Some(a.id))), Ok(Some(a.id)))
      case _ => (db, Ok(None))
  }

  /** `autoAssign` fails only for a missing conversation; on a null result
      nothing changes; otherwise only that conversation's `assignedAgentId`
      changes, to an online agent or admin of the tenant under capacity. */
  lemma AutoAssignOutcome(db: Db, tenant: Id, convId: Id)
    ensures var (db', r) := AutoAssignSpec(db, tenant, convId);
      && (r.Err? <==> convId !in db.conversations)
      && (r.Err? ==> r.error == NotFound)
      && (r.Err? || r.value.None? ==> db' == db)
      && (r.Ok? && r.value.Some? ==>
            db' == UpdateConversation(db, db.conversations[convId].(assignedAgentId := r.value)))
    ensures var (db', r) := AutoAssignSpec(db, tenant, convId);
      r.Ok? && r.value.Some? ==>
        exists a: User :: a.id == r.value.value && a.tenantId == tenant && a.availability == Online
          && (a.role == Agent || a.role == Admin) && OpenCount(db, a.id) < a.maxOpenConvo
          && StoredBelow(db.users, db.clock, a)
  {
    if convId in db.conversations {
      var conv := db.conversations[convId];
      var d := Decide(db, tenant, conv, ActiveRules(db, tenant));
      if d.AssignTo? {
        DecideAssignsEligible(db, tenant, conv, ActiveRules(db, tenant), d.agent);
      }
    }
  }

  /** `autoAssign`: walks the active rules in priority order. */
  method AutoAssign(st: Store, tenant: Id, convId: Id) returns (r: Result<Option<Id>>)
    requires st.Valid()
    modifies st
    ensures st.Valid()
    ensures (st.Snapshot(), r) == AutoAssignSpec(old(st.Snapshot()), tenant, convId)
  {
    if convId !in st.conversations {
      return Err(NotFound);
    }
    var conv := st.conversations[convId];
    var db := st.Snapshot();
    var rules := ActiveRules(db, tenant);
    var i := 0;
    while i < |rules|
      invariant 0 <= i <= |rules|
      invariant st.Snapshot() == db
      invariant Decide(db, tenant, conv, rules) == Decide(db, tenant, conv, rules[i..])
    {
      var rule := rules[i];
      assert rules[i..][0] == rule && rules[i..][1..] == rules[i + 1..];
      if !MatchesConditions(rule.conditions, ContactTags(db, conv), conv.channel) {
        i := i + 1;
        continue;
      }
      if rule.strategy == Manual {
        assert Decide(db, tenant, conv, rules[i..]) == ManualRequired;
        return Ok(None);
      }
      var agent := FindAvailableAgent(db, tenant, rule.teamId);
      if agent.Some? {
        assert Decide(db, tenant, conv, rules[i..]) == AssignTo(agent.value);
        var c := conv.(assignedAgentId := Some(agent.value.id));
        assert conv.id == convId by {
          assert ConversationsKeyed(db.conversations, db.clock);
        }
        ghost var db' := UpdateConversation(db, c);
        st.conversations := st.conversations[convId := c];
        assert st.Snapshot() == db';
        return Ok(Some(agent.value.id));
      }
      i := i + 1;
    }
    assert rules[i..] == [];
    return Ok(None);
  }

  // ---------------------------------------------------------------------------
  // Rule creation

  /** `createRule`: priority 0, round-robin and empty conditions unless given;
      the rule is stored under a fresh id and nothing else changes. */
  function CreateRuleSpec(db: Db, tenant: Id, name: string, priority: Option<int>, strategy: Option<Strategy>,
                          conditions: Option<Conditions>, team: Option<Id>): (r: (Db, AssignmentRule))
    ensures r.1.id == db.clock && r.1.tenantId == tenant && r.1.name == name && r.1.teamId == team
    ensures r.1.priority == (if priority.Some? then priority.value else 0)
    ensures r.1.strategy == (if strategy.Some? then strategy.value else RoundRobin)
    ensures r.1.conditions == (if conditions.Some? then conditions.value else NoConditions)
    ensures r.1.isActive == db.defaults.isActive
    ensures r.0 == db.(rules := db.rules[db.clock := r.1], clock := db.clock + 1)
    ensures WellFormed(db) ==> WellFormed(r.0)
  {
    var rule := AssignmentRule(db.clock, tenant, name, priority.GetOr(0), strategy.GetOr(RoundRobin),
                               db.defaults.isActive, conditions.GetOr(NoConditions), team, db.clock);
    (db.(rules := db.rules[db.clock := rule], clock := db.clock + 1), rule)
  }

  method CreateRule(st: Store, tenant: Id, name: string, priority: Option<int>, strategy: Option<Strategy>,
                    conditions: Option<Conditions>, team: Option<Id>) returns (rule: AssignmentRule)
    requires st.Valid()
    modifies st
    ensures st.Valid()
    ensures (st.Snapshot(), rule) == CreateRuleSpec(old(st.Snapshot()), tenant, name, priority, strategy, conditions, team)
  {
    ghost var db0 := st.Snapshot();
    rule := AssignmentRule(st.clock, tenant, name, priority.GetOr(0), strategy.GetOr(RoundRobin),
                           st.defaults.isActive, conditions.GetOr(NoConditions), team, st.clock);
    ghost var spec := CreateRuleSpec(db0, tenant, name, priority, strategy, conditions, team);
    assert spec.1 == rule;
    st.rules, st.clock := st.rules[st.clock := rule], st.clock + 1;
    assert st.Snapshot() == spec.0;
  }

  /** A rule created active is among the rules the next `autoAssign` of its
      tenant evaluates. */
  lemma CreatedRuleConsidered(db: Db, tenant: Id, name: string, priority: Option<int>, strategy: Option<Strategy>,
                              conditions: Option<Conditions>, team: Option<Id>)
    requires db.defaults.isActive
    ensures var (db', rule) := CreateRuleSpec(db, tenant, name, priority, strategy, conditions, team);
            rule in ActiveRules(db', tenant)
  {
    var (db', rule) := CreateRuleSpec(db, tenant, name, priority, strategy, conditions, team);
    assert db.clock < db'.clock && db.clock in db'.rules && db'.rules[db.clock] == rule;
    ActiveRulesOrder(db', tenant);
  }
}
