/** The workflow automation engine: on each inbound message, every active
    workflow of the tenant whose trigger fires runs its actions in order; a
    failing action ends that workflow's run, and each run is logged. */
module Engine {
  import opened Common
  import opened Text
  import opened Domain
  import opened Storage

  // ---------------------------------------------------------------------------
  // Triggers

  /** The keyword occurs in the body, ignoring case. */
  predicate KeywordIn(body: string, keyword: string) {
    Contains(Lower(body), Lower(keyword))
  }

  /** `keywords.some(...)`. */
  function AnyKeyword(keywords: seq<string>, body: string): (r: bool)
    ensures r <==> exists i :: 0 <= i < |keywords| && KeywordIn(body, keywords[i])
  {
    if keywords == [] then false
    else if KeywordIn(body, keywords[0]) then true
    else
      var r := AnyKeyword(keywords[1..], body);
      assert r ==> exists i :: 0 <= i < |keywords| && KeywordIn(body, keywords[i]) by {
        if r {
          var k :| 0 <= k < |keywords[1..]| && KeywordIn(body, keywords[1..][k]);
          assert KeywordIn(body, keywords[k + 1]);
        }
      }
      assert (exists i :: 0 <= i < |keywords| && KeywordIn(body, keywords[i])) ==> r by {
        if exists i :: 0 <= i < |keywords| && KeywordIn(body, keywords[i]) {
          var k :| 0 <= k < |keywords| && KeywordIn(body, keywords[k]);
          assert KeywordIn(body, keywords[1..][k - 1]);
        }
      }
      r
  }

  /** `keywords.every(...)`. */
  function AllKeywords(keywords: seq<string>, body: string): (r: bool)
    ensures r <==> forall i :: 0 <= i < |keywords| ==> KeywordIn(body, keywords[i])
  {
    if keywords == [] then true
    else if !KeywordIn(body, keywords[0]) then false
    else
      var r := AllKeywords(keywords[1..], body);
      assert r ==> forall i :: 0 <= i < |keywords| ==> KeywordIn(body, keywords[i]) by {
        if r {
          forall i | 0 <= i < |keywords| ensures KeywordIn(body, keywords[i]) {
            if i > 0 { assert keywords[i] == keywords[1..][i - 1]; }
          }
        }
      }
      r
  }

  /** `evaluateTrigger`. */
  function EvaluateTrigger(t: Trigger, body: string, isFirst: bool): (r: bool)
    ensures t.kind == NewMessage ==> r
    ensures t.kind == NewConversation ==> (r <==> isFirst)
    ensures t.kind.OtherTrigger? ==> !r
    ensures var keywords := if t.keywords.Some? then t.keywords.value else [];
      t.kind == KeywordMatch && t.matchMode == Some(All) ==>
        (r <==> forall i :: 0 <= i < |keywords| ==> Contains(Lower(body), Lower(keywords[i])))
    ensures var keywords := if t.keywords.Some? then t.keywords.value else [];
      t.kind == KeywordMatch && t.matchMode != Some(All) ==>
        (r <==> exists i :: 0 <= i < |keywords| && Contains(Lower(body), Lower(keywords[i])))
  {
    match t.kind
    case NewMessage => true
    case KeywordMatch =>
      var keywords := t.keywords.GetOr([]);
      if t.matchMode.GetOr(Any) == All then AllKeywords(keywords, body) else AnyKeyword(keywords, body)
    case NewConversation => isFirst
    case OtherTrigger(_) => false
  }

  /** With no keywords, a keyword trigger fires under `all` and never under `any`. */
  lemma NoKeywords(t: Trigger, body: string, isFirst: bool)
    requires t.kind == KeywordMatch && (t.keywords.None? || t.keywords == Some([]))
    ensures EvaluateTrigger(t, body, isFirst) <==> t.matchMode == Some(All)
  {
  }

  // ---------------------------------------------------------------------------
  // Actions

  /** The message a failed lookup of the conversation reports. */
  const RecordNotFound := "Record to update not found."

  /** `error.message || 'Unknown error'`. */
  function Reported(message: string): (r: string)
    ensures r != ""
    ensures message != "" ==> r == message
    ensures message == "" ==> r == "Unknown error"
  {
    if message == "" then "Unknown error" else message
  }

  /** The action writes to the store: its config field is set. */
  predicate Writes(a: Action) {
    match a
    case SendReply(body) => body != ""
    case ChangeLeadStatus(status) => status != ""
    case AssignAgent(agentId) => agentId.Some?
    case AddNote(content) => content != ""
    case Delay(_) => false
    case OtherAction(_) => false
  }

  /** The timer of a `delay` action: `seconds || 1`. */
  function DelaySeconds(seconds: nat): (r: nat)
    ensures r >= 1
    ensures seconds > 0 ==> r == seconds
    ensures seconds == 0 ==> r == 1
  {
    if seconds == 0 then 1 else seconds
  }

  /** The effect of one action that does not fail. */
  function ApplyAction(db: Db, tenant: Id, convId: Id, a: Action): (r: Db)
    requires Writes(a) ==> convId in db.conversations
    ensures r.conversations.Keys == db.conversations.Keys
    ensures r.workflowLogs == db.workflowLogs && r.clock >= db.clock
  {
    match a
    case SendReply(body) =>
      if body == "" then db
      else
        var m := Message(db.clock, tenant, convId, None, Outbound, body, None, Sent, db.clock);
        var db1 := db.(messages := db.messages[db.clock := m], clock := db.clock + 1);
        db1.(conversations := db1.conversations[convId := db1.conversations[convId].(lastMessageAt := Some(db1.clock))])
    case ChangeLeadStatus(status) =>
      if status == "" then db
      else db.(conversations := db.conversations[convId := db.conversations[convId].(leadStatus := Some(status))])
    case AssignAgent(agentId) =>
      if agentId.None? then db
      else db.(conversations := db.conversations[convId := db.conversations[convId].(assignedAgentId := agentId)])
    case AddNote(content) =>
      if content == "" then db
      else
        var n := Note(db.clock, tenant, convId, SystemUser, content, db.clock);
        db.(notes := db.notes[db.clock := n], clock := db.clock + 1)
    case Delay(_) => db
    case OtherAction(_) => db
  }

  /** What each action does to the store. */
  lemma ActionEffects(db: Db, tenant: Id, convId: Id, a: Action)
    requires convId in db.conversations
    ensures var r := ApplyAction(db, tenant, convId, a);
      a.SendReply? && a.body != "" ==>
        && r == db.(messages := db.messages[db.clock := Message(db.clock, tenant, convId, None, Outbound, a.body, None, Sent, db.clock)],
                    conversations := db.conversations[convId := db.conversations[convId].(lastMessageAt := Some(db.clock + 1))],
                    clock := db.clock + 1)
        && r.conversations[convId].lastMessageAt == Some(r.clock)
    ensures var r := ApplyAction(db, tenant, convId, a);
      a.ChangeLeadStatus? && a.status != "" ==>
        r == db.(conversations := db.conversations[convId := db.conversations[convId].(leadStatus := Some(a.status))])
    ensures var r := ApplyAction(db, tenant, convId, a);
      a.AssignAgent? && a.agentId.Some? ==>
        r == db.(conversations := db.conversations[convId := db.conversations[convId].(assignedAgentId := a.agentId)])
    ensures var r := ApplyAction(db, tenant, convId, a);
      a.AddNote? && a.content != "" ==>
        r == db.(notes := db.notes[db.clock := Note(db.clock, tenant, convId, SystemUser, a.content, db.clock)], clock := db.clock + 1)
    ensures !Writes(a) ==> ApplyAction(db, tenant, convId, a) == db
  {
  }

  /** No action breaks the store invariant. */
  lemma ApplyActionWellFormed(db: Db, tenant: Id, convId: Id, a: Action)
    requires WellFormed(db) && (Writes(a) ==> convId in db.conversations)
    ensures WellFormed(ApplyAction(db, tenant, convId, a))
  {
    match a
    case SendReply(body) =>
      if body != "" {
        SendReplyWellFormed(db, tenant, convId, body);
      }
    case ChangeLeadStatus(status) =>
      if status != "" {
        SetConversationWellFormed(db, convId, db.conversations[convId].(leadStatus := Some(status)));
        assert ApplyAction(db, tenant, convId, a)
            == db.(conversations := db.conversations[convId := db.conversations[convId].(leadStatus := Some(status))]);
      }
    case AssignAgent(agentId) =>
      if agentId.Some? {
        SetConversationWellFormed(db, convId, db.conversations[convId].(assignedAgentId := agentId));
        assert ApplyAction(db, tenant, convId, a)
            == db.(conversations := db.conversations[convId := db.conversations[convId].(assignedAgentId := agentId)]);
      }
    case AddNote(content) =>
      if content != "" {
        var n := Note(db.clock, tenant, convId, SystemUser, content, db.clock);
        AddNoteWellFormed(db, n);
        assert ApplyAction(db, tenant, convId, a) == db.(notes := db.notes[db.clock := n], clock := db.clock + 1);
      }
    case Delay(_) =>
    case OtherAction(_) =>
  }

  lemma SendReplyWellFormed(db: Db, tenant: Id, convId: Id, body: string)
    requires WellFormed(db) && convId in db.conversations && body != ""
    ensures WellFormed(ApplyAction(db, tenant, convId, SendReply(body)))
  {
    var m := Message(db.clock, tenant, convId, None, Outbound, body, None, Sent, db.clock);
    AddMessageWellFormed(db, m);
    var db1 := db.(messages := db.messages[db.clock := m], clock := db.clock + 1);
    var c := db1.conversations[convId].(lastMessageAt := Some(db1.clock));
    SetConversationWellFormed(db1, convId, c);
    assert ApplyAction(db, tenant, convId, SendReply(body)) == db1.(conversations := db1.conversations[convId := c]);
  }

  // ---------------------------------------------------------------------------
  // Running a workflow's actions

  /** The action at `i` of workflow `wf` throws: an injected store failure
      stops a writing action before it writes. */
  predicate Faulty(faults: map<(Id, nat), string>, wf: Id, actions: seq<Action>, i: nat)
    requires i < |actions|
  {
    Writes(actions[i]) && (wf, i) in faults
  }

  datatype RunResult = RunResult(db: Db, error: Option<string>)

  /** `executeActions` from index `i` on, with the failure it throws, if any.
      `faults` stands for the store errors of the environment: a writing
      action at index `i` of workflow `wf` throws `faults[(wf, i)]`. */
  function Run(db: Db, tenant: Id, convId: Id, wf: Id, actions: seq<Action>,
               faults: map<(Id, nat), string>, i: nat): (r: RunResult)
    ensures r.db.conversations.Keys == db.conversations.Keys
    decreases |actions| - i
  {
    if i >= |actions| then RunResult(db, None)
    else if Faulty(faults, wf, actions, i) then RunResult(db, Some(Reported(faults[(wf, i)])))
    else if Writes(actions[i]) && convId !in db.conversations then RunResult(db, Some(RecordNotFound))
    else Run(ApplyAction(db, tenant, convId, actions[i]), tenant, convId, wf, actions, faults, i + 1)
  }

  /** The effect of running `actions` when none of them fails. */
  function Effects(db: Db, tenant: Id, convId: Id, actions: seq<Action>): (r: Db)
    requires convId in db.conversations
    ensures r.conversations.Keys == db.conversations.Keys
    decreases |actions|
  {
    if actions == [] then db
    else Effects(ApplyAction(db, tenant, convId, actions[0]), tenant, convId, actions[1..])
  }

  /** Actions run in list order. Without a fault, the run applies them all and
      reports no error; otherwise it stops at the first faulty action, keeps
      the effects of the actions before it, and reports that action's error
      message (or 'Unknown error'). */
  lemma {:induction false} RunStopsAtFirstFault(db: Db, tenant: Id, convId: Id, wf: Id, actions: seq<Action>,
                                                faults: map<(Id, nat), string>, i: nat)
    requires convId in db.conversations && i <= |actions|
    ensures var r := Run(db, tenant, convId, wf, actions, faults, i);
      r.error.None? <==> forall j :: i <= j < |actions| ==> !Faulty(faults, wf, actions, j)
    ensures var r := Run(db, tenant, convId, wf, actions, faults, i);
      r.error.None? ==> r.db == Effects(db, tenant, convId, actions[i..])
    ensures var r := Run(db, tenant, convId, wf, actions, faults, i);
      r.error.Some? ==>
        exists k :: i <= k < |actions| && Faulty(faults, wf, actions, k)
          && (forall j :: i <= j < k ==> !Faulty(faults, wf, actions, j))
          && r.db == Effects(db, tenant, convId, actions[i..k])
          && r.error == Some(Reported(faults[(wf, k)]))
    decreases |actions| - i
  {
    RunClean(db, tenant, convId, wf, actions, faults, i);
    RunFaulty(db, tenant, convId, wf, actions, faults, i);
  }

  /** The no-fault half of `RunStopsAtFirstFault`. */
  lemma {:induction false} RunClean(db: Db, tenant: Id, convId: Id, wf: Id, actions: seq<Action>,
                                    faults: map<(Id, nat), string>, i: nat)
    requires convId in db.conversations && i <= |actions|
    ensures var r := Run(db, tenant, convId, wf, actions, faults, i);
      r.error.None? <==> forall j :: i <= j < |actions| ==> !Faulty(faults, wf, actions, j)
    ensures var r := Run(db, tenant, convId, wf, actions, faults, i);
      r.error.None? ==> r.db == Effects(db, tenant, convId, actions[i..])
    decreases |actions| - i
  {
    if i < |actions| && !Faulty(faults, wf, actions, i) {
      var db1 := ApplyAction(db, tenant, convId, actions[i]);
      RunClean(db1, tenant, convId, wf, actions, faults, i + 1);
      assert Run(db, tenant, convId, wf, actions, faults, i) == Run(db1, tenant, convId, wf, actions, faults, i + 1);
      EffectsStep(db, tenant, convId, actions[i..]);
      assert actions[i..][0] == actions[i] && actions[i..][1..] == actions[i + 1..];
    }
  }

  /** The fault half of `RunStopsAtFirstFault`. */
  lemma {:induction false} RunFaulty(db: Db, tenant: Id, convId: Id, wf: Id, actions: seq<Action>,
                                     faults: map<(Id, nat), string>, i: nat)
    requires convId in db.conversations && i <= |actions|
    ensures var r := Run(db, tenant, convId, wf, actions, faults, i);
      r.error.Some? ==>
        exists k :: i <= k < |actions| && Faulty(faults, wf, actions, k)
          && (forall j :: i <= j < k ==> !Faulty(faults, wf, actions, j))
          && r.db == Effects(db, tenant, convId, actions[i..k])
          && r.error == Some(Reported(faults[(wf, k)]))
    decreases |actions| - i
  {
    if i == |actions| {
    } else if Faulty(faults, wf, actions, i) {
      assert actions[i..i] == [];
    } else {
      var db1 := ApplyAction(db, tenant, convId, actions[i]);
      RunFaulty(db1, tenant, convId, wf, actions, faults, i + 1);
      var r := Run(db1, tenant, convId, wf, actions, faults, i + 1);
      assert Run(db, tenant, convId, wf, actions, faults, i) == r;
      if r.error.Some? {
        var k :| i + 1 <= k < |actions| && Faulty(faults, wf, actions, k)
          && (forall j :: i + 1 <= j < k ==> !Faulty(faults, wf, actions, j))
          && r.db == Effects(db1, tenant, convId, actions[i + 1..k])
          && r.error == Some(Reported(faults[(wf, k)]));
        EffectsStep(db, tenant, convId, actions[i..k]);
        assert actions[i..k][0] == actions[i] && actions[i..k][1..] == actions[i + 1..k];
      }
    }
  }

  /** One step of `Effects`. */
  lemma EffectsStep(db: Db, tenant: Id, convId: Id, actions: seq<Action>)
    requires convId in db.conversations && actions != []
    ensures Effects(db, tenant, convId, actions)
         == Effects(ApplyAction(db, tenant, convId, actions[0]), tenant, convId, actions[1..])
  {
  }

  lemma {:induction false} RunWellFormed(db: Db, tenant: Id, convId: Id, wf: Id, actions: seq<Action>,
                                         faults: map<(Id, nat), string>, i: nat)
    requires WellFormed(db)
    ensures WellFormed(Run(db, tenant, convId, wf, actions, faults, i).db)
    decreases |actions| - i
  {
    if i < |actions| && !Faulty(faults, wf, actions, i) && !(Writes(actions[i]) && convId !in db.conversations) {
      ApplyActionWellFormed(db, tenant, convId, actions[i]);
      RunWellFormed(ApplyAction(db, tenant, convId, actions[i]), tenant, convId, wf, actions, faults, i + 1);
    }
  }

  // ---------------------------------------------------------------------------
  // Firing workflows

  /** The active workflows of the tenant, in store order. */
  function ActiveWorkflows(db: Db, tenant: Id): seq<Workflow> {
    Filter(Rows(db.workflows, db.clock), (w: Workflow) => w.tenantId == tenant && w.isActive)
  }

  /** Appends a workflow log for a run that ended with `error`. */
  function AddLog(db: Db, wf: Id, convId: Id, error: Option<string>): Db {
    var log := WorkflowLog(db.clock, wf, convId, if error.None? then Success else Failure, error, db.clock);
    db.(workflowLogs := db.workflowLogs[db.clock := log], clock := db.clock + 1)
  }

  /** The loop of `onNewMessage` over `wfs`: each workflow whose trigger fires
      runs, from the state the previous ones left, and is logged. */
  function Fire(db: Db, tenant: Id, convId: Id, body: string, isFirst: bool, wfs: seq<Workflow>,
                faults: map<(Id, nat), string>): Db
    decreases |wfs|
  {
    if wfs == [] then db
    else
      var w := wfs[0];
      if !EvaluateTrigger(w.trigger, body, isFirst) then Fire(db, tenant, convId, body, isFirst, wfs[1..], faults)
      else
        var run := Run(db, tenant, convId, w.id, w.actions, faults, 0);
        Fire(AddLog(run.db, w.id, convId, run.error), tenant, convId, body, isFirst, wfs[1..], faults)
  }

  lemma AddLogWellFormed(db: Db, wf: Id, convId: Id, error: Option<string>)
    requires WellFormed(db)
    ensures WellFormed(AddLog(db, wf, convId, error))
  {
    assert WorkflowLogsKeyed(AddLog(db, wf, convId, error).workflowLogs, db.clock + 1);
  }

  lemma {:induction false} FireWellFormed(db: Db, tenant: Id, convId: Id, body: string, isFirst: bool,
                                          wfs: seq<Workflow>, faults: map<(Id, nat), string>)
    requires WellFormed(db)
    ensures WellFormed(Fire(db, tenant, convId, body, isFirst, wfs, faults))
    decreases |wfs|
  {
    if wfs != [] {
      var w := wfs[0];
      if !EvaluateTrigger(w.trigger, body, isFirst) {
        FireWellFormed(db, tenant, convId, body, isFirst, wfs[1..], faults);
      } else {
        var run := Run(db, tenant, convId, w.id, w.actions, faults, 0);
        RunWellFormed(db, tenant, convId, w.id, w.actions, faults, 0);
        AddLogWellFormed(run.db, w.id, convId, run.error);
        FireWellFormed(AddLog(run.db, w.id, convId, run.error), tenant, convId, body, isFirst, wfs[1..], faults);
      }
    }
  }

  /** A firing workflow writes exactly one fresh log for its run: `success`
      with no error when none of its actions fails, otherwise `failed` with the
      message of the first failing action. */
  lemma FireLogsOutcome(db: Db, tenant: Id, convId: Id, body: string, isFirst: bool, w: Workflow,
                        faults: map<(Id, nat), string>)
    requires WorkflowLogsKeyed(db.workflowLogs, db.clock) && convId in db.conversations
    requires EvaluateTrigger(w.trigger, body, isFirst)
    ensures var r := Fire(db, tenant, convId, body, isFirst, [w], faults); var k := r.clock - 1;
      && r.clock > db.clock && k !in db.workflowLogs && k in r.workflowLogs
      && r.workflowLogs == db.workflowLogs[k := r.workflowLogs[k]]
      && r.workflowLogs[k].workflowId == w.id && r.workflowLogs[k].conversationId == convId
      && (r.workflowLogs[k].status == Success <==> forall j :: 0 <= j < |w.actions| ==> !Faulty(faults, w.id, w.actions, j))
      && (r.workflowLogs[k].status == Success ==> r.workflowLogs[k].error.None?)
      && (r.workflowLogs[k].status == Failure ==>
            exists j :: 0 <= j < |w.actions| && Faulty(faults, w.id, w.actions, j)
              && (forall i :: 0 <= i < j ==> !Faulty(faults, w.id, w.actions, i))
              && r.workflowLogs[k].error == Some(Reported(faults[(w.id, j)])))
  {
    var run := Run(db, tenant, convId, w.id, w.actions, faults, 0);
    RunKeepsLogs(db, tenant, convId, w.id, w.actions, faults, 0);
    assert WorkflowLogsKeyed(run.db.workflowLogs, run.db.clock);
    RunError(db, tenant, convId, w.id, w.actions, faults);
    AddLogEffect(run.db, w.id, convId, run.error);
    FireOne(db, tenant, convId, body, isFirst, w, faults);
    var r := Fire(db, tenant, convId, body, isFirst, [w], faults);
    if run.error.Some? {
      var j :| 0 <= j < |w.actions| && Faulty(faults, w.id, w.actions, j)
        && (forall i :: 0 <= i < j ==> !Faulty(faults, w.id, w.actions, i))
        && run.error == Some(Reported(faults[(w.id, j)]));
      assert r.workflowLogs[r.clock - 1].error == Some(Reported(faults[(w.id, j)]));
    }
  }

  /** A single firing workflow runs its actions and is logged. */
  lemma FireOne(db: Db, tenant: Id, convId: Id, body: string, isFirst: bool, w: Workflow,
                faults: map<(Id, nat), string>)
    requires EvaluateTrigger(w.trigger, body, isFirst)
    ensures var run := Run(db, tenant, convId, w.id, w.actions, faults, 0);
      Fire(db, tenant, convId, body, isFirst, [w], faults) == AddLog(run.db, w.id, convId, run.error)
  {
    assert [w][1..] == [];
  }

  /** The error of a whole run: none exactly when no action is faulty, and
      otherwise the fault of the first faulty action. */
  lemma RunError(db: Db, tenant: Id, convId: Id, wf: Id, actions: seq<Action>, faults: map<(Id, nat), string>)
    requires convId in db.conversations
    ensures var r := Run(db, tenant, convId, wf, actions, faults, 0);
      r.error.None? <==> forall j :: 0 <= j < |actions| ==> !Faulty(faults, wf, actions, j)
    ensures var r := Run(db, tenant, convId, wf, actions, faults, 0);
      r.error.Some? ==>
        exists k :: 0 <= k < |actions| && Faulty(faults, wf, actions, k)
          && (forall j :: 0 <= j < k ==> !Faulty(faults, wf, actions, j))
          && r.error == Some(Reported(faults[(wf, k)]))
  {
    RunStopsAtFirstFault(db, tenant, convId, wf, actions, faults, 0);
  }

  /** A log is written under the clock, with the run's status and error. */
  lemma AddLogEffect(db: Db, wf: Id, convId: Id, error: Option<string>)
    requires WorkflowLogsKeyed(db.workflowLogs, db.clock)
    ensures var r := AddLog(db, wf, convId, error); var k := db.clock;
      && r.clock == db.clock + 1 && k !in db.workflowLogs
      && r.workflowLogs == db.workflowLogs[k := WorkflowLog(k, wf, convId, if error.None? then Success else Failure, error, k)]
  {
  }

  /** Every message stored in `a` is still stored, unchanged, in `b`. */
  ghost predicate KeepsMessages(a: Db, b: Db) {
    forall k :: k in a.messages ==> k in b.messages && b.messages[k] == a.messages[k]
  }

  /** The engine deletes no conversation and alters no stored message. */
  lemma {:induction false} FireKeeps(db: Db, tenant: Id, convId: Id, body: string, isFirst: bool,
                                     wfs: seq<Workflow>, faults: map<(Id, nat), string>)
    requires WellFormed(db)
    ensures var r := Fire(db, tenant, convId, body, isFirst, wfs, faults);
      r.conversations.Keys == db.conversations.Keys && KeepsMessages(db, r)
    decreases |wfs|
  {
    if wfs != [] {
      var w := wfs[0];
      if !EvaluateTrigger(w.trigger, body, isFirst) {
        FireKeeps(db, tenant, convId, body, isFirst, wfs[1..], faults);
      } else {
        var run := Run(db, tenant, convId, w.id, w.actions, faults, 0);
        RunKeepsMessages(db, tenant, convId, w.id, w.actions, faults, 0);
        RunWellFormed(db, tenant, convId, w.id, w.actions, faults, 0);
        AddLogWellFormed(run.db, w.id, convId, run.error);
        var next := AddLog(run.db, w.id, convId, run.error);
        FireKeeps(next, tenant, convId, body, isFirst, wfs[1..], faults);
      }
    }
  }

  lemma ApplyActionKeepsMessages(db: Db, tenant: Id, convId: Id, a: Action)
    requires MessagesKeyed(db.messages, db.clock) && (Writes(a) ==> convId in db.conversations)
    ensures KeepsMessages(db, ApplyAction(db, tenant, convId, a))
  {
    if a.SendReply? && a.body != "" {
      assert db.clock !in db.messages;
    }
  }

  lemma {:induction false} RunKeepsMessages(db: Db, tenant: Id, convId: Id, wf: Id, actions: seq<Action>,
                                            faults: map<(Id, nat), string>, i: nat)
    requires WellFormed(db)
    ensures KeepsMessages(db, Run(db, tenant, convId, wf, actions, faults, i).db)
    decreases |actions| - i
  {
    if i < |actions| && !Faulty(faults, wf, actions, i) && !(Writes(actions[i]) && convId !in db.conversations) {
      var db1 := ApplyAction(db, tenant, convId, actions[i]);
      ApplyActionKeepsMessages(db, tenant, convId, actions[i]);
      ApplyActionWellFormed(db, tenant, convId, actions[i]);
      RunKeepsMessages(db1, tenant, convId, wf, actions, faults, i + 1);
    }
  }

  /** `onNewMessage` on the store value. */
  function OnNewMessageSpec(db: Db, tenant: Id, convId: Id, body: string, isFirst: bool,
                            faults: map<(Id, nat), string>): Db
  {
    Fire(db, tenant, convId, body, isFirst, ActiveWorkflows(db, tenant), faults)
  }

  /** A failing workflow does not stop the later ones: firing a concatenation
      is firing the second list from the state the first one leaves. */
  lemma {:induction false} FireAppend(db: Db, tenant: Id, convId: Id, body: string, isFirst: bool,
                                      wfs1: seq<Workflow>, wfs2: seq<Workflow>, faults: map<(Id, nat), string>)
    ensures Fire(db, tenant, convId, body, isFirst, wfs1 + wfs2, faults)
         == Fire(Fire(db, tenant, convId, body, isFirst, wfs1, faults), tenant, convId, body, isFirst, wfs2, faults)
    decreases |wfs1|
  {
    if wfs1 == [] {
      assert wfs1 + wfs2 == wfs2;
    } else {
      assert (wfs1 + wfs2)[0] == wfs1[0] && (wfs1 + wfs2)[1..] == wfs1[1..] + wfs2;
      var w := wfs1[0];
      if !EvaluateTrigger(w.trigger, body, isFirst) {
        FireAppend(db, tenant, convId, body, isFirst, wfs1[1..], wfs2, faults);
      } else {
        var run := Run(db, tenant, convId, w.id, w.actions, faults, 0);
        FireAppend(AddLog(run.db, w.id, convId, run.error), tenant, convId, body, isFirst, wfs1[1..], wfs2, faults);
      }
    }
  }

  /** Running actions writes no workflow log and never moves the clock back. */
  lemma {:induction false} RunKeepsLogs(db: Db, tenant: Id, convId: Id, wf: Id, actions: seq<Action>,
                                        faults: map<(Id, nat), string>, i: nat)
    ensures var r := Run(db, tenant, convId, wf, actions, faults, i);
      r.db.workflowLogs == db.workflowLogs && r.db.clock >= db.clock
    decreases |actions| - i
  {
    if i < |actions| && !Faulty(faults, wf, actions, i) && !(Writes(actions[i]) && convId !in db.conversations) {
      RunKeepsLogs(ApplyAction(db, tenant, convId, actions[i]), tenant, convId, wf, actions, faults, i + 1);
    }
  }

  /** Exactly one workflow log is written per workflow whose trigger fires. */
  lemma {:induction false} FireLogCount(db: Db, tenant: Id, convId: Id, body: string, isFirst: bool,
                                        wfs: seq<Workflow>, faults: map<(Id, nat), string>)
    requires WorkflowLogsKeyed(db.workflowLogs, db.clock)
    ensures |Fire(db, tenant, convId, body, isFirst, wfs, faults).workflowLogs|
         == |db.workflowLogs| + |Filter(wfs, (w: Workflow) => EvaluateTrigger(w.trigger, body, isFirst))|
    decreases |wfs|
  {
    var fires := (w: Workflow) => EvaluateTrigger(w.trigger, body, isFirst);
    if wfs != [] {
      var w := wfs[0];
      assert Filter(wfs, fires) == (if fires(w) then [w] else []) + Filter(wfs[1..], fires);
      if !fires(w) {
        FireLogCount(db, tenant, convId, body, isFirst, wfs[1..], faults);
      } else {
        var run := Run(db, tenant, convId, w.id, w.actions, faults, 0);
        RunKeepsLogs(db, tenant, convId, w.id, w.actions, faults, 0);
        var db2 := AddLog(run.db, w.id, convId, run.error);
        assert run.db.clock !in run.db.workflowLogs;
        assert |db2.workflowLogs| == |db.workflowLogs| + 1;
        FireLogCount(db2, tenant, convId, body, isFirst, wfs[1..], faults);
      }
    }
  }

  /** `onNewMessage` logs one run per active workflow of the tenant whose
      trigger fires, and none for the others. */
  lemma OnNewMessageLogCount(db: Db, tenant: Id, convId: Id, body: string, isFirst: bool,
                             faults: map<(Id, nat), string>)
    requires WellFormed(db)
    ensures |OnNewMessageSpec(db, tenant, convId, body, isFirst, faults).workflowLogs|
         == |db.workflowLogs| + |Filter(ActiveWorkflows(db, tenant), (w: Workflow) => EvaluateTrigger(w.trigger, body, isFirst))|
  {
    FireLogCount(db, tenant, convId, body, isFirst, ActiveWorkflows(db, tenant), faults);
  }

  // ---------------------------------------------------------------------------
  // The engine against the store

  /** One action. */
  method Perform(st: Store, tenant: Id, convId: Id, a: Action)
    requires st.Valid()
    requires Writes(a) ==> convId in st.conversations
    modifies st
    ensures st.Valid()
    ensures st.Snapshot() == ApplyAction(old(st.Snapshot()), tenant, convId, a)
  {
    ghost var db := st.Snapshot();
    match a {
      case SendReply(body) =>
        if body != "" {
          var m := Message(st.clock, tenant, convId, None, Outbound, body, None, Sent, st.clock);
          var c := st.conversations[convId].(lastMessageAt := Some(st.clock + 1));
          st.messages, st.clock, st.conversations := st.messages[st.clock := m], st.clock + 1, st.conversations[convId := c];
          assert st.Snapshot() == ApplyAction(db, tenant, convId, a);
        }
      case ChangeLeadStatus(status) =>
        if status != "" {
          st.conversations := st.conversations[convId := st.conversations[convId].(leadStatus := Some(status))];
          assert st.Snapshot() == ApplyAction(db, tenant, convId, a);
        }
      case AssignAgent(agentId) =>
        if agentId.Some? {
          st.conversations := st.conversations[convId := st.conversations[convId].(assignedAgentId := agentId)];
          assert st.Snapshot() == ApplyAction(db, tenant, convId, a);
        }
      case AddNote(content) =>
        if content != "" {
          var n := Note(st.clock, tenant, convId, SystemUser, content, st.clock);
          st.notes, st.clock := st.notes[st.clock := n], st.clock + 1;
          assert st.Snapshot() == ApplyAction(db, tenant, convId, a);
        }
      case Delay(seconds) =>
        // The timer of DelaySeconds(seconds) seconds changes no stored state.
      case OtherAction(_) =>
    }
    ApplyActionWellFormed(db, tenant, convId, a);
  }

  /** `executeActions`: returns the message of the failure that stopped it. */
  method ExecuteActions(st: Store, tenant: Id, convId: Id, wf: Id, actions: seq<Action>,
                        faults: map<(Id, nat), string>) returns (error: Option<string>)
    requires st.Valid()
    modifies st
    ensures st.Valid()
    ensures RunResult(st.Snapshot(), error) == Run(old(st.Snapshot()), tenant, convId, wf, actions, faults, 0)
  {
    ghost var db0 := st.Snapshot();
    RunWellFormed(db0, tenant, convId, wf, actions, faults, 0);
    var i := 0;
    while i < |actions|
      invariant 0 <= i <= |actions|
      invariant st.Valid()
      invariant Run(st.Snapshot(), tenant, convId, wf, actions, faults, i) == Run(db0, tenant, convId, wf, actions, faults, 0)
    {
      var a := actions[i];
      ghost var pre := st.Snapshot();
      if Writes(a) && (wf, i) in faults {
        assert Run(pre, tenant, convId, wf, actions, faults, i) == RunResult(pre, Some(Reported(faults[(wf, i)])));
        return Some(Reported(faults[(wf, i)]));
      }
      if Writes(a) && convId !in st.conversations {
        assert Run(pre, tenant, convId, wf, actions, faults, i) == RunResult(pre, Some(RecordNotFound));
        return Some(RecordNotFound);
      }
      Perform(st, tenant, convId, a);
      assert Run(pre, tenant, convId, wf, actions, faults, i)
          == Run(st.Snapshot(), tenant, convId, wf, actions, faults, i + 1);
      i := i + 1;
    }
    assert Run(st.Snapshot(), tenant, convId, wf, actions, faults, i) == RunResult(st.Snapshot(), None);
    return None;
  }

  /** Writes the log of one workflow run. */
  method LogRun(st: Store, wf: Id, convId: Id, error: Option<string>)
    requires st.Valid()
    modifies st
    ensures st.Valid()
    ensures st.Snapshot() == AddLog(old(st.Snapshot()), wf, convId, error)
  {
    AddLogWellFormed(st.Snapshot(), wf, convId, error);
    var log := WorkflowLog(st.clock, wf, convId, if error.None? then Success else Failure, error, st.clock);
    st.workflowLogs, st.clock := st.workflowLogs[st.clock := log], st.clock + 1;
  }

  /** The loop of `onNewMessage` over the workflows `wfs`. */
  method FireWorkflows(st: Store, tenant: Id, convId: Id, body: string, isFirst: bool, wfs: seq<Workflow>,
                       faults: map<(Id, nat), string>)
    requires st.Valid()
    modifies st
    ensures st.Valid()
    ensures st.Snapshot() == Fire(old(st.Snapshot()), tenant, convId, body, isFirst, wfs, faults)
  {
    ghost var db0 := st.Snapshot();
    var i := 0;
    while i < |wfs|
      invariant 0 <= i <= |wfs|
      invariant st.Valid()
      invariant Fire(st.Snapshot(), tenant, convId, body, isFirst, wfs[i..], faults)
             == Fire(db0, tenant, convId, body, isFirst, wfs, faults)
    {
      var w := wfs[i];
      assert wfs[i..][0] == w && wfs[i..][1..] == wfs[i + 1..];
      if EvaluateTrigger(w.trigger, body, isFirst) {
        var error := ExecuteActions(st, tenant, convId, w.id, w.actions, faults);
        LogRun(st, w.id, convId, error);
      }
      i := i + 1;
    }
    assert wfs[i..] == [];
  }

  /** `onNewMessage`: the tenant's active workflows, in store order. */
  method OnNewMessage(st: Store, tenant: Id, convId: Id, body: string, isFirst: bool,
                      faults: map<(Id, nat), string>)
    requires st.Valid()
    modifies st
    ensures st.Valid()
    ensures st.Snapshot() == OnNewMessageSpec(old(st.Snapshot()), tenant, convId, body, isFirst, faults)
  {
    var wfs := ActiveWorkflows(st.Snapshot(), tenant);
    FireWorkflows(st, tenant, convId, body, isFirst, wfs, faults);
  }
}
