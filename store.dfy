/** The persistence layer: one in-memory store holding every table the
    services read and write. Each Prisma call of a service becomes a read or a
    reassignment of one of these fields. */
module Storage {
  import opened Domain

  class Store {
    var contacts: map<Id, Contact>
    var conversations: map<Id, Conversation>
    var messages: map<Id, Message>
    var users: map<Id, User>
    var members: set<TeamMember>
    var rules: map<Id, AssignmentRule>
    var leadStatuses: map<Id, LeadStatus>
    var workflows: map<Id, Workflow>
    var workflowLogs: map<Id, WorkflowLog>
    var notes: map<Id, Note>
    var callLogs: map<Id, CallLog>
    /** The logical clock: the next row id, and the current time. */
    var clock: nat
    const defaults: SchemaDefaults

    /** The contents of the store as one value. */
    function Snapshot(): (db: Db)
      reads this
      ensures db.clock == clock && db.defaults == defaults
    {
      Db(contacts, conversations, messages, users, members, rules, leadStatuses,
         workflows, workflowLogs, notes, callLogs, clock, defaults)
    }

    ghost predicate Valid()
      reads this
    {
      WellFormed(Snapshot())
    }

    constructor (defaults: SchemaDefaults)
      ensures Snapshot() == EmptyDb(defaults)
      ensures Valid()
    {
      contacts, conversations, messages, users := map[], map[], map[], map[];
      members := {};
      rules, leadStatuses, workflows, workflowLogs := map[], map[], map[], map[];
      notes, callLogs := map[], map[];
      clock := 0;
      this.defaults := defaults;
    }
  }
}
