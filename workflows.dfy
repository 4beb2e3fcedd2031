/** The workflow service: the tenant's chatbot workflows and their
    execution logs. */
module Workflows {
  import opened Common
  import opened Domain
  import opened Storage

  predicate InTenant(db: Db, tenant: Id, id: Id) {
    id in db.workflows && db.workflows[id].tenantId == tenant
  }

  function OfTenant(tenant: Id): Workflow -> bool {
    (w: Workflow) => w.tenantId == tenant
  }

  function NewestFirst(w: Workflow): int { -(w.createdAt as int) }

  /** `findAll`: the tenant's workflows, newest first. */
  function FindAll(db: Db, tenant: Id): seq<Workflow> {
    SortBy(Filter(Rows(db.workflows, db.clock), OfTenant(tenant)), NewestFirst)
  }

  /** `findAll` lists exactly the tenant's stored workflows, each once, newest
      first. */
  lemma FindAllExact(db: Db, tenant: Id)
    requires WellFormed(db)
    ensures var r := FindAll(db, tenant);
      && (forall i, j :: 0 <= i < j < |r| ==> r[i].createdAt >= r[j].createdAt)
      && multiset(r) == multiset(Filter(Rows(db.workflows, db.clock), OfTenant(tenant)))
      && (forall w :: w in r <==> w.id in db.workflows && db.workflows[w.id] == w && w.tenantId == tenant)
  {
    var rows := Rows(db.workflows, db.clock);
    var r := FindAll(db, tenant);
    forall i, j | 0 <= i < j < |r| ensures r[i].createdAt >= r[j].createdAt {
      assert NewestFirst(r[i]) <= NewestFirst(r[j]);
    }
    forall w ensures w in r <==> w.id in db.workflows && db.workflows[w.id] == w && w.tenantId == tenant {
      FilterMember(rows, OfTenant(tenant), w);
      assert w in r <==> w in multiset(r);
      assert w in Filter(rows, OfTenant(tenant)) <==> w in multiset(Filter(rows, OfTenant(tenant)));
      if w in rows {
        RowsStored(db.workflows, db.clock, w);
      }
    }
  }

  // ---------------------------------------------------------------------------
  // Logs

  function LogOf(wf: Id): WorkflowLog -> bool {
    (l: WorkflowLog) => l.workflowId == wf
  }

  function LatestFirst(l: WorkflowLog): int { -(l.executedAt as int) }

  /** The logs of a workflow, most recent run first. */
  function LogsOf(db: Db, wf: Id): seq<WorkflowLog> {
    SortBy(Filter(Rows(db.workflowLogs, db.clock), LogOf(wf)), LatestFirst)
  }

  /** The `n` most recent logs of a workflow. */
  function LatestLogs(db: Db, wf: Id, n: nat): seq<WorkflowLog> {
    LogsOf(db, wf)[..Min(n, |LogsOf(db, wf)|)]
  }

  lemma LogsOfOrder(db: Db, wf: Id)
    ensures var logs := LogsOf(db, wf);
      forall i, j :: 0 <= i < j < |logs| ==> logs[i].executedAt >= logs[j].executedAt
  {
    var logs := LogsOf(db, wf);
    forall i, j | 0 <= i < j < |logs| ensures logs[i].executedAt >= logs[j].executedAt {
      assert LatestFirst(logs[i]) <= LatestFirst(logs[j]);
    }
  }

  /** The logs of a workflow are exactly its stored logs. */
  lemma LogsOfMembers(db: Db, wf: Id)
    ensures var logs := LogsOf(db, wf);
      forall l :: l in logs <==> StoredBelow(db.workflowLogs, db.clock, l) && l.workflowId == wf
  {
    var rows := Rows(db.workflowLogs, db.clock);
    var logs := LogsOf(db, wf);
    forall l ensures l in logs <==> StoredBelow(db.workflowLogs, db.clock, l) && l.workflowId == wf {
      FilterMember(rows, LogOf(wf), l);
      assert l in logs <==> l in multiset(logs);
      assert l in Filter(rows, LogOf(wf)) <==> l in multiset(Filter(rows, LogOf(wf)));
      if l in rows {
        RowsStored(db.workflowLogs, db.clock, l);
      }
      if StoredBelow(db.workflowLogs, db.clock, l) {
        var k: Id :| k < db.clock && k in db.workflowLogs && db.workflowLogs[k] == l;
        assert l in rows;
      }
    }
  }

  /** The window is the first `n` of all the workflow's logs (all of them
      when there are fewer), most recent first, and it is the most recent
      ones: a log left out is no more recent than any log shown. */
  lemma LatestLogsWindow(db: Db, wf: Id, n: nat)
    ensures var w := LatestLogs(db, wf, n);
      && |w| <= n && |w| == Min(n, |LogsOf(db, wf)|)
      && (forall i :: 0 <= i < |w| ==> w[i] == LogsOf(db, wf)[i])
      && (forall i, j :: 0 <= i < j < |w| ==> w[i].executedAt >= w[j].executedAt)
      && (forall l :: l in w ==> StoredBelow(db.workflowLogs, db.clock, l) && l.workflowId == wf)
      && (forall i, j :: 0 <= i < |w| && |w| <= j < |LogsOf(db, wf)| ==> w[i].executedAt >= LogsOf(db, wf)[j].executedAt)
  {
    var logs := LogsOf(db, wf);
    LogsOfOrder(db, wf);
    LogsOfMembers(db, wf);
    PrefixKeepsOrder(logs, Min(n, |logs|));
  }

  lemma PrefixKeepsOrder(logs: seq<WorkflowLog>, k: nat)
    requires k <= |logs|
    requires forall i, j :: 0 <= i < j < |logs| ==> logs[i].executedAt >= logs[j].executedAt
    ensures var w := logs[..k];
      && (forall i, j :: 0 <= i < j < |w| ==> w[i].executedAt >= w[j].executedAt)
      && (forall l :: l in w ==> l in logs)
      && (forall i, j :: 0 <= i < |w| && |w| <= j < |logs| ==> w[i].executedAt >= logs[j].executedAt)
  {
    var w := logs[..k];
    forall i, j | 0 <= i < j < |w| ensures w[i].executedAt >= w[j].executedAt {
      assert w[i] == logs[i] && w[j] == logs[j];
    }
    forall i, j | 0 <= i < |w| && |w| <= j < |logs| ensures w[i].executedAt >= logs[j].executedAt {
      assert w[i] == logs[i];
    }
  }

  /** A workflow with its most recent logs. */
  datatype WorkflowView = WorkflowView(workflow: Workflow, logs: seq<WorkflowLog>)

  /** `findOne`: the tenant's workflow with its 20 most recent logs. */
  function FindOne(db: Db, tenant: Id, id: Id): (r: Result<WorkflowView>)
    ensures r.Err? <==> !InTenant(db, tenant, id)
    ensures r.Err? ==> r.error == NotFound
    ensures r.Ok? ==> r.value.workflow == db.workflows[id] && |r.value.logs| <= 20
  {
    if !InTenant(db, tenant, id) then Err(NotFound)
    else Ok(WorkflowView(db.workflows[id], LatestLogs(db, id, 20)))
  }

  /** `getLogs`: the 50 most recent logs of one of the tenant's workflows. */
  function GetLogs(db: Db, tenant: Id, id: Id): (r: Result<seq<WorkflowLog>>)
    ensures r.Err? <==> !InTenant(db, tenant, id)
    ensures r.Err? ==> r.error == NotFound
    ensures r.Ok? ==> |r.value| <= 50
  {
    if !InTenant(db, tenant, id) then Err(NotFound)
    else Ok(LatestLogs(db, id, 50))
  }

  /** `findOne` fails exactly outside the tenant; otherwise it returns the
      workflow and the first 20 of its logs (all of them when there are
      fewer), most recent first, none left out more recent than one shown. */
  lemma FindOneLogsWindow(db: Db, tenant: Id, id: Id)
    ensures var r := FindOne(db, tenant, id); var all := LogsOf(db, id);
      && (r.Err? <==> !InTenant(db, tenant, id))
      && (r.Ok? ==>
            && r.value.workflow == db.workflows[id]
            && |r.value.logs| == Min(20, |all|)
            && (forall i :: 0 <= i < |r.value.logs| ==> r.value.logs[i] == all[i])
            && (forall l :: l in r.value.logs ==> StoredBelow(db.workflowLogs, db.clock, l) && l.workflowId == id)
            && (forall i, j :: 0 <= i < j < |r.value.logs| ==> r.value.logs[i].executedAt >= r.value.logs[j].executedAt)
            && (forall i, j :: 0 <= i < |r.value.logs| <= j < |all| ==> r.value.logs[i].executedAt >= all[j].executedAt))
  {
    LatestLogsWindow(db, id, 20);
  }

  /** `getLogs` fails exactly outside the tenant; otherwise it returns the
      first 50 of the workflow's logs (all of them when there are fewer),
      most recent first, none left out more recent than one returned. */
  lemma GetLogsWindow(db: Db, tenant: Id, id: Id)
    ensures var r := GetLogs(db, tenant, id); var all := LogsOf(db, id);
      && (r.Err? <==> !InTenant(db, tenant, id))
      && (r.Ok? ==>
            && |r.value| == Min(50, |all|)
            && (forall i :: 0 <= i < |r.value| ==> r.value[i] == all[i])
            && (forall l :: l in r.value ==> StoredBelow(db.workflowLogs, db.clock, l) && l.workflowId == id)
            && (forall i, j :: 0 <= i < j < |r.value| ==> r.value[i].executedAt >= r.value[j].executedAt)
            && (forall i, j :: 0 <= i < |r.value| <= j < |all| ==> r.value[i].executedAt >= all[j].executedAt))
  {
    LatestLogsWindow(db, id, 50);
  }

  /** The two views of the logs agree: the 20 logs `findOne` shows are the
      first 20 of the 50 `getLogs` returns. */
  lemma FindOneLogsPrefix(db: Db, tenant: Id, id: Id)
    requires InTenant(db, tenant, id)
    ensures var logs := GetLogs(db, tenant, id).value;
      FindOne(db, tenant, id).value.logs == logs[..Min(20, |logs|)]
  {
  }

  // ---------------------------------------------------------------------------
  // Changes

  /** `create`: the description defaults to the empty string. */
  function CreateSpec(db: Db, tenant: Id, name: string, description: Option<string>, trigger: Trigger,
                      actions: seq<Action>): (Db, Workflow)
  {
    var w := Workflow(db.clock, tenant, name, description.GetOr(""), db.defaults.isActive, trigger, actions, db.clock);
    (AddWorkflow(db, w), w)
  }

  /** Stores `w` under the clock. */
  function AddWorkflow(db: Db, w: Workflow): Db {
    db.(workflows := db.workflows[db.clock := w], clock := db.clock + 1)
  }

  lemma AddWorkflowWellFormed(db: Db, w: Workflow)
    requires WellFormed(db) && w.id == db.clock
    ensures WellFormed(AddWorkflow(db, w))
  {
    var r := AddWorkflow(db, w);
    assert WorkflowsKeyed(r.workflows, r.clock);
  }

  /** `create` stores exactly one new workflow of the tenant, with the given
      fields and an empty description when none is given. */
  lemma CreateOutcome(db: Db, tenant: Id, name: string, description: Option<string>, trigger: Trigger,
                      actions: seq<Action>)
    requires WellFormed(db)
    ensures var (r, w) := CreateSpec(db, tenant, name, description, trigger, actions);
      && WellFormed(r)
      && w.id !in db.workflows && r == db.(workflows := db.workflows[w.id := w], clock := db.clock + 1)
      && w.tenantId == tenant && w.name == name && w.trigger == trigger && w.actions == actions
      && w.description == (if description.Some? then description.value else "")
  {
    var (r, w) := CreateSpec(db, tenant, name, description, trigger, actions);
    AddWorkflowWellFormed(db, w);
  }

  /** A created workflow is listed by the next `findAll` of its tenant. */
  lemma CreatedListed(db: Db, tenant: Id, name: string, description: Option<string>, trigger: Trigger,
                      actions: seq<Action>)
    requires WellFormed(db)
    ensures var (r, w) := CreateSpec(db, tenant, name, description, trigger, actions);
      w in FindAll(r, tenant)
  {
    CreateOutcome(db, tenant, name, description, trigger, actions);
    var (r, w) := CreateSpec(db, tenant, name, description, trigger, actions);
    FindAllExact(r, tenant);
  }

  method Create(st: Store, tenant: Id, name: string, description: Option<string>, trigger: Trigger,
                actions: seq<Action>) returns (w: Workflow)
    requires st.Valid()
    modifies st
    ensures st.Valid()
    ensures (st.Snapshot(), w) == CreateSpec(old(st.Snapshot()), tenant, name, description, trigger, actions)
  {
    ghost var db0 := st.Snapshot();
    w := Workflow(st.clock, tenant, name, description.GetOr(""), st.defaults.isActive, trigger, actions, st.clock);
    AddWorkflowWellFormed(db0, w);
    st.workflows, st.clock := st.workflows[st.clock := w], st.clock + 1;
    assert st.Snapshot() == AddWorkflow(db0, w);
  }

  /** The fields an `update` may set; absent ones are kept. */
  datatype Patch = Patch(name: Option<string>, description: Option<string>, trigger: Option<Trigger>,
                         actions: Option<seq<Action>>, isActive: Option<bool>)

  function Apply(w: Workflow, p: Patch): Workflow {
    w.(name := p.name.GetOr(w.name), description := p.description.GetOr(w.description),
       trigger := p.trigger.GetOr(w.trigger), actions := p.actions.GetOr(w.actions),
       isActive := p.isActive.GetOr(w.isActive))
  }

  /** `update` as written: the row is looked up by id alone, whatever the
      tenant. */
  function UpdateAsWritten(db: Db, tenant: Id, id: Id, p: Patch): (Db, Result<Workflow>) {
    if id !in db.workflows then (db, Err(NotFound))
    else
      var w := Apply(db.workflows[id], p);
      (db.(workflows := db.workflows[id := w]), Ok(w))
  }

  /** `update` scoped to the tenant, like `findOne`, `remove` and `getLogs`. */
  function UpdateSpec(db: Db, tenant: Id, id: Id, p: Patch): (Db, Result<Workflow>) {
    if !InTenant(db, tenant, id) then (db, Err(NotFound))
    else
      var w := Apply(db.workflows[id], p);
      (db.(workflows := db.workflows[id := w]), Ok(w))
  }

  /** `update` fails for a workflow outside the tenant, changing nothing;
      otherwise it sets exactly the given fields of that workflow, and its
      id, tenant and creation time stay. */
  lemma UpdateOutcome(db: Db, tenant: Id, id: Id, p: Patch)
    requires WellFormed(db)
    ensures var (r, res) := UpdateSpec(db, tenant, id, p);
      && WellFormed(r)
      && (res.Err? <==> !InTenant(db, tenant, id))
      && (res.Err? ==> res.error == NotFound && r == db)
      && (res.Ok? ==>
            var prev := db.workflows[id];
            && r == db.(workflows := db.workflows[id := res.value])
            && res.value.id == id && res.value.tenantId == tenant && res.value.createdAt == prev.createdAt
            && res.value.name == (if p.name.Some? then p.name.value else prev.name)
            && res.value.description == (if p.description.Some? then p.description.value else prev.description)
            && res.value.trigger == (if p.trigger.Some? then p.trigger.value else prev.trigger)
            && res.value.actions == (if p.actions.Some? then p.actions.value else prev.actions)
            && res.value.isActive == (if p.isActive.Some? then p.isActive.value else prev.isActive))
  {
    var (r, res) := UpdateSpec(db, tenant, id, p);
    assert WorkflowsKeyed(r.workflows, r.clock);
  }

  /** On the tenant's own workflows the two agree. */
  lemma UpdateAgreesInTenant(db: Db, tenant: Id, id: Id, p: Patch)
    requires InTenant(db, tenant, id)
    ensures UpdateAsWritten(db, tenant, id, p) == UpdateSpec(db, tenant, id, p)
  {
  }

  /** As written, a tenant can switch off another tenant's workflow: the
      workflow of tenant 2 is deactivated on behalf of tenant 1. */
  lemma UpdateAsWrittenCrossesTenants(defaults: SchemaDefaults)
    ensures var other := Workflow(0, 2, "Welcome", "", true, Trigger(NewConversation, None, None), [], 0);
      var db := EmptyDb(defaults).(workflows := map[0 := other], clock := 1);
      var p := Patch(None, None, None, None, Some(false));
      && UpdateAsWritten(db, 1, 0, p).1 == Ok(other.(isActive := false))
      && UpdateAsWritten(db, 1, 0, p).0.workflows[0].isActive == false
      && UpdateSpec(db, 1, 0, p) == (db, Err(NotFound))
  {
  }

  method Update(st: Store, tenant: Id, id: Id, p: Patch) returns (r: Result<Workflow>)
    requires st.Valid()
    modifies st
    ensures st.Valid()
    ensures (st.Snapshot(), r) == UpdateSpec(old(st.Snapshot()), tenant, id, p)
  {
    UpdateOutcome(st.Snapshot(), tenant, id, p);
    if id !in st.workflows || st.workflows[id].tenantId != tenant {
      return Err(NotFound);
    }
    var w := Apply(st.workflows[id], p);
    st.workflows := st.workflows[id := w];
    return Ok(w);
  }

  /** `remove`: the tenant's workflow is deleted. */
  function RemoveSpec(db: Db, tenant: Id, id: Id): (Db, Result<Workflow>) {
    if !InTenant(db, tenant, id) then (db, Err(NotFound))
    else (db.(workflows := db.workflows - {id}), Ok(db.workflows[id]))
  }

  /** `remove` fails for a workflow outside the tenant, deleting nothing;
      otherwise exactly that workflow is gone, and `findAll` no longer lists
      it. */
  lemma RemoveOutcome(db: Db, tenant: Id, id: Id)
    requires WellFormed(db)
    ensures var (r, res) := RemoveSpec(db, tenant, id);
      && WellFormed(r)
      && (res.Err? <==> !InTenant(db, tenant, id))
      && (res.Err? ==> res.error == NotFound && r == db)
      && (res.Ok? ==>
            && res.value == db.workflows[id]
            && r == db.(workflows := db.workflows - {id})
            && r.workflows.Keys == db.workflows.Keys - {id}
            && res.value !in FindAll(r, tenant))
  {
    var (r, res) := RemoveSpec(db, tenant, id);
    assert WorkflowsKeyed(r.workflows, r.clock);
    if res.Ok? {
      FindAllExact(r, tenant);
    }
  }

  method Remove(st: Store, tenant: Id, id: Id) returns (r: Result<Workflow>)
    requires st.Valid()
    modifies st
    ensures st.Valid()
    ensures (st.Snapshot(), r) == RemoveSpec(old(st.Snapshot()), tenant, id)
  {
    RemoveOutcome(st.Snapshot(), tenant, id);
    if id !in st.workflows || st.workflows[id].tenantId != tenant {
      return Err(NotFound);
    }
    r := Ok(st.workflows[id]);
    st.workflows := st.workflows - {id};
  }
}
