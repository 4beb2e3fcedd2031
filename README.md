# A verified model of a multi-tenant WhatsApp helpdesk

This project models the core of a multi-tenant WhatsApp helpdesk and sales CRM. It is written in Dafny.

- **Inbound pipeline.** A WhatsApp message from a phone number finds or creates the tenant's contact and an open conversation. The message is stored, the workflow automation engine runs on it, and a new conversation is auto-assigned.
- **Outbound messages.** These go through a provider and are stored with the id the provider returns.
- **Automatic assignment.** Prioritised assignment rules with tag and channel conditions choose the least loaded online agent that has capacity.
- **Automation engine.** Workflows have a trigger and a list of actions. Every run is logged, and a failing action ends only its own workflow.
- **Lead pipeline.** Custom lead statuses are the pipeline columns. Agents may touch only their own leads. Logging a call advances a new lead, and per-status statistics are computed.
- **Staff users, contacts, notes and workflow management.**
- **Web client.** The stores and editors hold the lead board, the inbox, the message thread, and the action and trigger editors of the workflow builder.

The relational store is the class `Storage.Store`:
- one map per table, keyed by row id;
- the team-membership relation;
- a logical clock that issues row ids and creation times.

`Store.Snapshot()` is the store's contents as a value of type `Domain.Db`. `Domain.WellFormed` is the store invariant: rows are keyed by their ids, ids are below the clock, and the unique keys (tenant, phone) and (tenant, email) hold.

Each service operation has three parts:
- **A specification function on `Db`.** It returns the new contents and the operation's result, an `Ok` value or an `Err` with the error the service raises.
- **An outcome lemma.** It states what the operation promises: its failures, the rows it adds or changes, and what it leaves alone.
- **A method on the store.** Its contract ties the new state and the result to the specification function and keeps the invariant. Loops are methods with invariants proved against specification functions. Examples are the rule loop of `autoAssign`, the workflow loop of the engine, `getStats` and the grouping loop of the lead board.

The web client's stores are classes whose fields the methods reassign. Server calls are replaced by their responses, which the methods take as parameters. The editors of the workflow builder build new lists and triggers, so they are pure functions.

Two behaviours of the code are easy to misread; the model follows the code:
- **`autoAssign`.** A matching round-robin rule that finds no available agent does not end the evaluation; the loop goes on to the next rule (apps/api/src/modules/assignment/assignment.service.ts:35-44). Only a matching manual rule returns early.
- **The status guard of `updateStatus`.** A change to the current status is refused, and nothing else is. The "reopening is always allowed" branch only covers RESOLVED to OPEN, which the "same status" test accepts anyway (apps/api/src/modules/conversations/conversations.service.ts:59-63).

There is also a remark on lead-status names. A conversation created by an inbound message gets the lead status 'NEW' (apps/api/src/modules/whatsapp/whatsapp.service.ts:54). The auto-advance on a call log only looks for 'New lead' (apps/api/src/modules/leads/leads.service.ts:176-181). So a call log on a lead that came in over WhatsApp does not advance it. The model keeps both strings as written.

## Model

| member | source | states |
|---|---|---|
| Text.Lower | apps/api/src/modules/chatbot/chatbot-engine.service.ts:83 | lower-casing keeps the length and maps each character to its lower-case form |
| Text.Contains | apps/api/src/modules/chatbot/chatbot-engine.service.ts:85-87 | `includes` holds exactly when the needle occurs at some position of the text |
| Text.Trim | apps/web/src/components/automation/TriggerConfig.tsx:49-50 | `trim` returns the input between a leading and a trailing run of whitespace, and the result neither starts nor ends with whitespace, so it is the longest such slice; it is empty exactly when the input is all whitespace |
| Common.Paginate | apps/api/src/modules/contacts/contacts.service.ts:12-14 | a page is the `limit` rows from `(page - 1) * limit`, with the defaults standing for a missing (0) page or limit; `total` is the number of all rows |
| Common.WithoutIndexExact | apps/web/src/components/automation/ActionList.tsx:21-23 | `filter((_, i) => i !== index)` drops exactly the element at `index` and keeps the rest in order (one element fewer, same multiset minus that element); an index outside the list removes nothing |
| Domain.ByRecencyOrder | apps/api/src/modules/conversations/conversations.service.ts:25 | `orderBy lastMessageAt desc` puts conversations without a message first, then the others by descending `lastMessageAt` |
| Domain.ByRecencyPermutes | apps/api/src/modules/conversations/conversations.service.ts:25 | the recency order is a permutation of the rows it orders |
| Contacts.ByPhoneFinds | apps/api/src/modules/contacts/contacts.service.ts:76-78 | the lookup by (tenant, phone) finds a contact exactly when the tenant has one with that phone, and then returns the stored row |
| Contacts.FindOrCreateOutcome | apps/api/src/modules/contacts/contacts.service.ts:75-85 | an existing contact is returned and nothing is created; otherwise exactly one contact with that phone and name is added; either way the result is the tenant's stored contact with that phone |
| Contacts.FindOrCreateTwice | apps/api/src/modules/contacts/contacts.service.ts:75-85 | a second call with the same phone returns the same contact and changes nothing |
| Contacts.FindOrCreateByPhone | apps/api/src/modules/contacts/contacts.service.ts:75-85 | the method leaves the store and returns the contact as the specification says, keeping the invariant |
| Contacts.CreateOutcome | apps/api/src/modules/contacts/contacts.service.ts:50-60 | `create` fails with Duplicate exactly when the phone is taken in the tenant, changing nothing; otherwise it stores one contact with the given fields and tags defaulting to the empty list |
| Contacts.Create | apps/api/src/modules/contacts/contacts.service.ts:50-60 | the method follows the specification of `create` and keeps the invariant |
| Contacts.UpdateOutcome | apps/api/src/modules/contacts/contacts.service.ts:62-67 | `update` fails for a contact outside the tenant, changing nothing; otherwise it changes only the given fields of that contact |
| Contacts.Update | apps/api/src/modules/contacts/contacts.service.ts:62-67 | the method follows the specification of `update` and keeps the invariant |
| Contacts.DeleteOutcome | apps/api/src/modules/contacts/contacts.service.ts:69-73 | `delete` removes exactly the tenant's contact and fails, changing nothing, for one outside the tenant |
| Contacts.Delete | apps/api/src/modules/contacts/contacts.service.ts:69-73 | the method follows the specification of `delete` and keeps the invariant |
| Contacts.FindOneConversations | apps/api/src/modules/contacts/contacts.service.ts:38-48 | `findOne` fails exactly for a contact outside the tenant; otherwise it returns the contact and the first ten (or all, when fewer) of its conversations in recency order, so none left out is more recent than one returned |
| Contacts.RecentConversationsExact | apps/api/src/modules/contacts/contacts.service.ts:38-48 | the recency list of a contact holds exactly its stored conversations, conversations without a message first, then by descending last message time |
| Contacts.FindAllPage | apps/api/src/modules/contacts/contacts.service.ts:8-36 | the page holds only the tenant's contacts whose name or phone contains the search text, ignoring case, newest first: the `limit` matches (20 by default) from position `(page - 1) * limit`, fewer on the last page; `total` counts every match |
| Assignment.SharesTag | apps/api/src/modules/assignment/assignment.service.ts:56-60 | `tags.some(t => contactTags.includes(t))` holds exactly when some wanted tag is among the contact's tags |
| Assignment.MatchesConditions | apps/api/src/modules/assignment/assignment.service.ts:50-66 | empty conditions match everything; a rule matches exactly when its tags, if given, share a tag with the contact and its channel, if set, equals the conversation's |
| Assignment.AvailableMember | apps/api/src/modules/assignment/assignment.service.ts:69-96 | the candidates are exactly the stored online agents and admins of the tenant (and of the team when one is given); the available ones are exactly the candidates under capacity |
| Assignment.FindAvailableAgentChoice | apps/api/src/modules/assignment/assignment.service.ts:68-100 | the chosen agent is eligible, stored and strictly under its `maxOpenConvo`; it has the least open count of the candidates under capacity and is the earliest of them on ties; there is none exactly when no candidate is under capacity |
| Assignment.ActiveRulesOrder | apps/api/src/modules/assignment/assignment.service.ts:18-22 | the rules evaluated are exactly the tenant's stored active rules, in descending priority |
| Assignment.DecideFirstDecisive | apps/api/src/modules/assignment/assignment.service.ts:24-47 | the loop's outcome is the verdict of the first rule that matches and is manual or finds an agent; it assigns nobody exactly when no rule is such, so a matching round-robin rule without an agent does not end the loop |
| Assignment.DecideAssignsEligible | apps/api/src/modules/assignment/assignment.service.ts:35-43 | an agent chosen by the loop is a stored online agent or admin of the tenant under capacity |
| Assignment.AutoAssignOutcome | apps/api/src/modules/assignment/assignment.service.ts:11-48 | `autoAssign` fails only for a missing conversation; a null result changes nothing; otherwise only that conversation's `assignedAgentId` changes, to the returned eligible agent under capacity |
| Assignment.AutoAssign | apps/api/src/modules/assignment/assignment.service.ts:11-48 | the rule loop, with its invariant, leaves the store and returns the result that the specification of `autoAssign` gives |
| Assignment.CreateRuleSpec | apps/api/src/modules/assignment/assignment.service.ts:110-130 | `createRule` stores one rule under a fresh id, with priority 0, round robin and no conditions unless they are given, and keeps the invariant |
| Assignment.CreateRule | apps/api/src/modules/assignment/assignment.service.ts:110-130 | the method follows the specification of `createRule` and keeps the invariant |
| Assignment.CreatedRuleConsidered | apps/api/src/modules/assignment/assignment.service.ts:18-22 | a rule created active is among the rules the next `autoAssign` of its tenant evaluates |
| Engine.AnyKeyword | apps/api/src/modules/chatbot/chatbot-engine.service.ts:87 | `some` fires exactly when some keyword, lower-cased, occurs in the lower-cased body |
| Engine.AllKeywords | apps/api/src/modules/chatbot/chatbot-engine.service.ts:84-85 | `every` fires exactly when every keyword, lower-cased, occurs in the lower-cased body |
| Engine.EvaluateTrigger | apps/api/src/modules/chatbot/chatbot-engine.service.ts:71-96 | a new-message trigger always fires, a new-conversation trigger exactly on the first message, and a keyword trigger by its mode, `any` by default |
| Engine.NoKeywords | apps/api/src/modules/chatbot/chatbot-engine.service.ts:81-87 | with no keywords a keyword trigger fires under `all` and never under `any` |
| Engine.Reported | apps/api/src/modules/chatbot/chatbot-engine.service.ts:63 | the logged error is the error's message, or 'Unknown error' when it is empty |
| Engine.DelaySeconds | apps/api/src/modules/chatbot/chatbot-engine.service.ts:159 | a delay waits the configured seconds, or 1 when none (or 0) is configured |
| Engine.ActionEffects | apps/api/src/modules/chatbot/chatbot-engine.service.ts:103-162 | a reply appends one outbound SENT message with the body and bumps `lastMessageAt`; a lead-status or agent action overwrites only that field; a note action adds one note by the system user; an action with an empty config field, and a delay, change nothing |
| Engine.RunStopsAtFirstFault | apps/api/src/modules/chatbot/chatbot-engine.service.ts:47-67 | actions run in list order; without a fault all are applied and no error is reported; otherwise the run stops at the first failing action, keeps the earlier effects and reports that action's error |
| Engine.FireLogsOutcome | apps/api/src/modules/chatbot/chatbot-engine.service.ts:47-67 | a firing workflow writes exactly one fresh log: `success` without an error when no action fails, otherwise `failed` with the message of the first failing action |
| Engine.FireAppend | apps/api/src/modules/chatbot/chatbot-engine.service.ts:39-68 | a failing workflow does not stop the later ones: firing a concatenation is firing the second list from the state the first leaves |
| Engine.FireKeeps | apps/api/src/modules/chatbot/chatbot-engine.service.ts:39-68 | the engine deletes no conversation and alters no stored message |
| Engine.FireLogCount | apps/api/src/modules/chatbot/chatbot-engine.service.ts:39-68 | exactly one workflow log is written per workflow whose trigger fires |
| Engine.OnNewMessageLogCount | apps/api/src/modules/chatbot/chatbot-engine.service.ts:35-67 | `onNewMessage` logs one run per active workflow of the tenant whose trigger fires, and none for inactive or non-firing ones |
| Engine.Perform | apps/api/src/modules/chatbot/chatbot-engine.service.ts:104-163 | one action changes the store as the specification of an action says |
| Engine.ExecuteActions | apps/api/src/modules/chatbot/chatbot-engine.service.ts:98-165 | the action loop leaves the store and returns the error that the run specification gives |
| Engine.LogRun | apps/api/src/modules/chatbot/chatbot-engine.service.ts:49-65 | one log is written, with the outcome of the run |
| Engine.FireWorkflows | apps/api/src/modules/chatbot/chatbot-engine.service.ts:39-68 | the workflow loop leaves the store as firing the list in order does |
| Engine.OnNewMessage | apps/api/src/modules/chatbot/chatbot-engine.service.ts:29-69 | `onNewMessage` leaves the store as its specification says, over the tenant's active workflows in store order, and keeps the invariant |
| Messages.InsertEffect | apps/api/src/modules/messages/messages.service.ts:48-66 | the insert stores exactly one new message with the given data and sets the conversation's `lastMessageAt` to its `createdAt`; nothing else changes |
| Messages.InsertAppends | apps/api/src/modules/messages/messages.service.ts:48-60 | the conversation's thread grows by the new message, at its end |
| Messages.FirstMessageFlag | apps/api/src/modules/messages/messages.service.ts:70-74 | the hook's first-message flag holds exactly when the conversation had no message before this one |
| Messages.CreateOutcome | apps/api/src/modules/messages/messages.service.ts:40-79 | `create` fails exactly when the conversation is missing, changing nothing; otherwise it returns the inserted message, and an outbound message runs no automation |
| Messages.InboundRunsEngine | apps/api/src/modules/messages/messages.service.ts:69-76 | an inbound message runs the engine on the state right after the insert, with the first-message flag |
| Messages.CreateIgnoresHook | apps/api/src/modules/messages/messages.service.ts:73-78 | the returned message does not depend on what the automation does or how it fails |
| Messages.OutboundBumpsConversation | apps/api/src/modules/messages/messages.service.ts:63-66 | after an outbound `create` the conversation's `lastMessageAt` is the message's `createdAt` and the message ends its thread |
| Messages.InboundKeepsMessage | apps/api/src/modules/messages/messages.service.ts:69-78 | after an inbound `create` the new message is still stored, whatever the engine does |
| Messages.CreateWellFormed | apps/api/src/modules/messages/messages.service.ts:40-79 | `create` keeps the store invariant |
| Messages.Create | apps/api/src/modules/messages/messages.service.ts:40-79 | the method follows the specification of `create` and keeps the invariant |
| Messages.FindByConversationPage | apps/api/src/modules/messages/messages.service.ts:15-38 | the page holds only the tenant's messages of the conversation, oldest first: the `limit` of them (50 by default) from position `(page - 1) * limit`, fewer on the last page; `total` counts them all |
| WhatsApp.OpenConversationFinds | apps/api/src/modules/whatsapp/whatsapp.service.ts:39-45 | the lookup finds an unresolved conversation of the contact exactly when the tenant has one, and then returns the stored row |
| WhatsApp.OpenOrCreateOutcome | apps/api/src/modules/whatsapp/whatsapp.service.ts:39-57 | a conversation is created exactly when the contact has no unresolved one; then exactly one is added, OPEN, unassigned, with lead status 'NEW'; either way the conversation used is a stored unresolved conversation of the contact |
| WhatsApp.DeliverOutcome | apps/api/src/modules/whatsapp/whatsapp.service.ts:59-95 | exactly one inbound message with the payload's body and external id is stored on the conversation and is still stored after the automation and the assignment; the returned conversation is the stored one |
| WhatsApp.AutoAssignOnlyWhenNew | apps/api/src/modules/whatsapp/whatsapp.service.ts:68-76 | auto-assignment runs exactly for a conversation this call created |
| WhatsApp.HandleInboundOutcome | apps/api/src/modules/whatsapp/whatsapp.service.ts:23-96 | an inbound message never fails on a well-formed store; its contact is the tenant's contact with the sender's phone and its conversation that contact's unresolved conversation, created when there was none |
| WhatsApp.HandleInbound | apps/api/src/modules/whatsapp/whatsapp.service.ts:23-96 | the method follows the specification of `handleInboundMessage` and keeps the invariant |
| WhatsApp.SendOutboundOutcome | apps/api/src/modules/whatsapp/whatsapp.service.ts:98-124 | `sendOutbound` fails, storing nothing, for a conversation outside the tenant; otherwise it stores exactly one outbound message from the sender, with the body and the external id the provider returned for the contact's phone, at the end of the thread |
| WhatsApp.SendOutbound | apps/api/src/modules/whatsapp/whatsapp.service.ts:98-124 | the method follows the specification of `sendOutbound` and keeps the invariant |
| Conversations.StatusChangeAllowedIff | apps/api/src/modules/conversations/conversations.service.ts:59-63 | the guard refuses a change exactly when the status would stay the same: OPEN to OPEN is refused and RESOLVED to OPEN is accepted |
| Conversations.UpdateStatusOutcome | apps/api/src/modules/conversations/conversations.service.ts:53-73 | `updateStatus` fails for a conversation outside the tenant, is refused exactly when the status is unchanged, and otherwise changes only that conversation's status |
| Conversations.UpdateStatus | apps/api/src/modules/conversations/conversations.service.ts:53-73 | the method follows the specification of `updateStatus` and keeps the invariant |
| Conversations.AssignOutcome | apps/api/src/modules/conversations/conversations.service.ts:75-84 | `assign` fails outside the tenant; otherwise it sets only `assignedAgentId`, to the given value, none included |
| Conversations.Assign | apps/api/src/modules/conversations/conversations.service.ts:75-84 | the method follows the specification of `assign` and keeps the invariant |
| Conversations.UpdateLeadStatusOutcome | apps/api/src/modules/conversations/conversations.service.ts:110-119 | `updateLeadStatus` fails outside the tenant; otherwise it overwrites only `leadStatus`, with any string |
| Conversations.UpdateLeadStatus | apps/api/src/modules/conversations/conversations.service.ts:110-119 | the method follows the specification of `updateLeadStatus` and keeps the invariant |
| Conversations.FindAllPage | apps/api/src/modules/conversations/conversations.service.ts:9-41 | the page holds only the tenant's stored conversations, with the status and the agent when given, in recency order: the `limit` matches (20 by default) from position `(page - 1) * limit`, fewer on the last page; `total` counts every match |
| Conversations.GetNotesExact | apps/api/src/modules/conversations/conversations.service.ts:86-94 | `getNotes` lists exactly the tenant's notes on the conversation, each stored note once (a permutation of the matching rows), newest first |
| Conversations.AddNoteOutcome | apps/api/src/modules/conversations/conversations.service.ts:96-108 | `addNote` adds exactly one note by the user with the content, and fails, storing nothing, when the conversation or the user does not exist |
| Conversations.AddNote | apps/api/src/modules/conversations/conversations.service.ts:96-108 | the method follows the specification of `addNote` and keeps the invariant |
| LeadStatuses.MaxSortOrderIsMax | apps/api/src/modules/lead-status/lead-status.service.ts:21-24 | the largest sort order is that of some status and no status has a larger one; there is none exactly for an empty list |
| LeadStatuses.NextSortOrderAbove | apps/api/src/modules/lead-status/lead-status.service.ts:20-26 | a missing sort order becomes one more than the tenant's largest, above every sort order the tenant uses, and 0 when the tenant has no status; when the tenant's sort orders are all non-negative (they are not validated, so -1 is possible), 0 also means it has none |
| LeadStatuses.CreateOutcome | apps/api/src/modules/lead-status/lead-status.service.ts:15-36 | `create` stores exactly one status with the name, the colour '#3b82f6' unless a non-empty one is given, and the computed sort order unless one is given |
| LeadStatuses.Create | apps/api/src/modules/lead-status/lead-status.service.ts:15-36 | the method follows the specification of `create` and keeps the invariant |
| LeadStatuses.RenameExact | apps/api/src/modules/lead-status/lead-status.service.ts:49-52 | the rename rewrites exactly the tenant's conversations carrying the old name, and only their lead status |
| LeadStatuses.UpdateOutcome | apps/api/src/modules/lead-status/lead-status.service.ts:38-60 | the tenant-checked `update` fails for a status outside the tenant, changing nothing; otherwise it applies the patch to that status alone |
| LeadStatuses.UpdateCascade | apps/api/src/modules/lead-status/lead-status.service.ts:44-54 | a rename rewrites exactly the tenant's conversations that carried the old name; an update without a name, or with the same name, touches no conversation |
| LeadStatuses.UpdateScoped | apps/api/src/modules/lead-status/lead-status.service.ts:38-60 | the tenant-checked `update` changes no status and no conversation of another tenant |
| LeadStatuses.UpdateWellFormed | apps/api/src/modules/lead-status/lead-status.service.ts:38-60 | `update` keeps the store invariant and the set of conversations |
| LeadStatuses.UpdateAgreesInTenant | apps/api/src/modules/lead-status/lead-status.service.ts:38-60 | the code as written and the tenant-checked version agree whenever the status belongs to the tenant |
| LeadStatuses.UpdateAsWrittenCrossesTenants | apps/api/src/modules/lead-status/lead-status.service.ts:56-59 | as written, an update without a name changes another tenant's status; the tenant-checked version refuses it |
| LeadStatuses.Update | apps/api/src/modules/lead-status/lead-status.service.ts:38-60 | the method follows the tenant-checked specification of `update` and keeps the invariant |
| LeadStatuses.InUsePositive | apps/api/src/modules/lead-status/lead-status.service.ts:68-72 | the count is positive exactly when some conversation of the tenant has that lead status |
| LeadStatuses.RemoveOutcome | apps/api/src/modules/lead-status/lead-status.service.ts:62-79 | `remove` fails outside the tenant; it fails with the positive count, keeping the status, exactly when a conversation of the tenant uses the name; otherwise it deletes that status alone |
| LeadStatuses.Remove | apps/api/src/modules/lead-status/lead-status.service.ts:62-79 | the method follows the specification of `remove` and keeps the invariant |
| LeadStatuses.FindAllExact | apps/api/src/modules/lead-status/lead-status.service.ts:8-13 | `findAll` lists exactly the tenant's statuses, each once, by ascending sort order |
| Leads.AuthorizeExact | apps/api/src/modules/leads/leads.service.ts:107-135 | the check fails with NotFound exactly when the conversation is not a lead of the tenant, and with Forbidden exactly when the caller is an agent and the lead is not assigned to them |
| Leads.FindAllPage | apps/api/src/modules/leads/leads.service.ts:9-70 | `findAll` returns a page (page 1, 20 per page by default) of leads of the tenant (lead status set), in recency order, the `limit` matches from position `(page - 1) * limit`, fewer on the last page; every lead on it has the requested lead status and a contact whose name or phone contains the search text; an agent gets only leads assigned to them, other roles the requested agent's when one is requested; `total` counts all matching leads |
| Leads.AgentIgnoresAgentFilter | apps/api/src/modules/leads/leads.service.ts:30-34 | for an agent the requested agent makes no difference to `findAll` |
| Leads.ActiveStatusesExact | apps/api/src/modules/leads/leads.service.ts:83-86 | the statistics cover exactly the tenant's active statuses, each once, by ascending sort order |
| Leads.TotalAppend | apps/api/src/modules/leads/leads.service.ts:98-102 | the total of a list extended by one entry grows by that entry's count |
| Leads.GetStats | apps/api/src/modules/leads/leads.service.ts:72-105 | the loop produces one entry per active status, in sort order, holding the number of the tenant's conversations with that status (only the agent's own for an agent), and a total equal to the sum of the entries |
| Leads.CallLogsOfExact | apps/api/src/modules/leads/leads.service.ts:116-120 | a call log is listed for a lead exactly when it is stored and belongs to that conversation; the list is newest first |
| Leads.MessagesOfExact | apps/api/src/modules/leads/leads.service.ts:121-125 | a message is listed for a lead exactly when it is stored and belongs to that conversation; the list is newest first |
| Leads.LatestMessagesExact | apps/api/src/modules/leads/leads.service.ts:121-125 | the latest messages are the first five (or all, when fewer) of the lead's messages newest first, so no message left out is newer than one kept |
| Leads.FindOneView | apps/api/src/modules/leads/leads.service.ts:107-135 | `findOne` fails as the check says; otherwise it returns the lead with exactly its stored call logs, newest first, and its five newest messages (all, when fewer), none left out newer than one kept |
| Leads.UpdateStatusOutcome | apps/api/src/modules/leads/leads.service.ts:137-159 | `updateStatus` fails as the check says, changing nothing; otherwise it sets only that lead's status, to the given string |
| Leads.UpdateStatus | apps/api/src/modules/leads/leads.service.ts:137-159 | the method follows the specification of `updateStatus` and keeps the invariant |
| Leads.AdvanceOnlyNewLead | apps/api/src/modules/leads/leads.service.ts:176-181 | the auto-advance changes only 'New lead', to 'Connected', and is idempotent |
| Leads.AddCallLogOutcome | apps/api/src/modules/leads/leads.service.ts:161-196 | `addCallLog` fails as the check says, changing nothing; otherwise it stores exactly one call log by the caller with the given data and advances the lead from 'New lead' to 'Connected', leaving every other status and conversation as it was |
| Leads.AddCallLog | apps/api/src/modules/leads/leads.service.ts:161-196 | the method follows the specification of `addCallLog` and keeps the invariant |
| Leads.ReassignOutcome | apps/api/src/modules/leads/leads.service.ts:198-211 | `reassign` fails outside the tenant; otherwise it changes only the lead's assigned agent |
| Leads.Reassign | apps/api/src/modules/leads/leads.service.ts:198-211 | the method follows the specification of `reassign` and keeps the invariant |
| Users.ByEmailFinds | apps/api/src/modules/users/users.service.ts:26-28 | the lookup by (tenant, email) finds a user exactly when the tenant has one with that email |
| Users.InviteOutcome | apps/api/src/modules/users/users.service.ts:25-51 | `invite` fails with Conflict exactly when the email is taken in the tenant, creating nothing; otherwise it adds exactly one user with the email and name, role AGENT unless another is given |
| Users.Invite | apps/api/src/modules/users/users.service.ts:25-51 | the method follows the specification of `invite` and keeps the invariant |
| Users.UpdateOutcome | apps/api/src/modules/users/users.service.ts:53-66 | `update` fails outside the tenant; otherwise only that user's name and role change, each only when given |
| Users.Update | apps/api/src/modules/users/users.service.ts:53-66 | the method follows the specification of `update` and keeps the invariant |
| Users.UpdateAvailabilityOutcome | apps/api/src/modules/users/users.service.ts:68-80 | `updateAvailability` fails outside the tenant; otherwise only that user's availability changes |
| Users.UpdateAvailability | apps/api/src/modules/users/users.service.ts:68-80 | the method follows the specification of `updateAvailability` and keeps the invariant |
| Users.GetAvailableAgentsExact | apps/api/src/modules/users/users.service.ts:82-99 | the list holds exactly the tenant's stored online agents and admins, each with its count of assigned conversations that are not resolved |
| Workflows.FindAllExact | apps/api/src/modules/chatbot/chatbot.service.ts:8-14 | `findAll` lists exactly the tenant's stored workflows, each once, newest first |
| Workflows.LogsOfOrder | apps/api/src/modules/chatbot/chatbot.service.ts:21-23 | a workflow's logs are listed most recent run first |
| Workflows.LogsOfMembers | apps/api/src/modules/chatbot/chatbot.service.ts:21-23 | a workflow's logs are exactly its stored logs |
| Workflows.LatestLogsWindow | apps/api/src/modules/chatbot/chatbot.service.ts:61-70 | the window is the first `n` (or all, when fewer) of the workflow's logs, most recent first, so it has `Min(n, total)` logs and a log left out is no more recent than any log shown |
| Workflows.FindOneLogsWindow | apps/api/src/modules/chatbot/chatbot.service.ts:16-26 | `findOne` fails exactly outside the tenant; otherwise it returns the workflow with its 20 most recent logs (all, when fewer): stored logs of that workflow, most recent first, none left out more recent than one shown |
| Workflows.GetLogsWindow | apps/api/src/modules/chatbot/chatbot.service.ts:61-70 | `getLogs` fails exactly outside the tenant; otherwise it returns the workflow's 50 most recent logs (all, when fewer): stored logs of that workflow, most recent first, none left out more recent than one returned |
| Workflows.FindOneLogsPrefix | apps/api/src/modules/chatbot/chatbot.service.ts:16-26 | the 20 logs `findOne` shows are the first 20 of the 50 `getLogs` returns |
| Workflows.CreateOutcome | apps/api/src/modules/chatbot/chatbot.service.ts:28-41 | `create` stores exactly one workflow of the tenant with the given fields and an empty description when none is given |
| Workflows.CreatedListed | apps/api/src/modules/chatbot/chatbot.service.ts:8-14 | a created workflow is listed by the next `findAll` of its tenant |
| Workflows.Create | apps/api/src/modules/chatbot/chatbot.service.ts:28-41 | the method follows the specification of `create` and keeps the invariant |
| Workflows.UpdateOutcome | apps/api/src/modules/chatbot/chatbot.service.ts:43-52 | the tenant-checked `update` fails outside the tenant, changing nothing; otherwise it sets exactly the given fields, keeping id, tenant and creation time |
| Workflows.UpdateAgreesInTenant | apps/api/src/modules/chatbot/chatbot.service.ts:43-52 | the code as written and the tenant-checked version agree on the tenant's own workflows |
| Workflows.UpdateAsWrittenCrossesTenants | apps/api/src/modules/chatbot/chatbot.service.ts:49 | as written, a tenant switches off another tenant's workflow; the tenant-checked version refuses it |
| Workflows.Update | apps/api/src/modules/chatbot/chatbot.service.ts:43-52 | the method follows the tenant-checked specification of `update` and keeps the invariant |
| Workflows.RemoveOutcome | apps/api/src/modules/chatbot/chatbot.service.ts:54-59 | `remove` fails outside the tenant, deleting nothing; otherwise exactly that workflow is gone and `findAll` no longer lists it |
| Workflows.Remove | apps/api/src/modules/chatbot/chatbot.service.ts:54-59 | the method follows the specification of `remove` and keeps the invariant |
| LeadClient.WithStatusOnlyMatching | apps/web/src/stores/leadStore.ts:118-120 | only the lead with that id changes, and only its status; the list keeps its length and order, and setting the same status again changes nothing |
| LeadClient.AdvancedAgreesWithServer | apps/web/src/stores/leadStore.ts:146 | the client advances a status exactly as the server does on a call log |
| LeadClient.WithCallLoggedEffect | apps/web/src/stores/leadStore.ts:141-151 | logging a call counts one more call on the matching lead, moves it from 'New lead' to 'Connected', and leaves its other fields and every other lead as they were |
| LeadClient.GroupedStep | apps/web/src/stores/leadStore.ts:174-178 | one more lead goes at the end of its column, which is created when missing |
| LeadClient.GroupEachIsGrouped | apps/web/src/stores/leadStore.ts:173-178 | pushing the leads one at a time into their columns builds exactly the board with one column per status in use, each holding that status's leads in list order |
| LeadClient.GroupedPlacesEachOnce | apps/web/src/stores/leadStore.ts:173-179 | every lead is on the board in exactly one column, that of its status or 'Unknown', and every card is a lead of the list |
| LeadClient.MoveNoOp | apps/web/src/stores/leadStore.ts:186-192 | a move to the same column, or of a card not in the from-column, leaves the board as it was |
| LeadClient.MoveOutcome | apps/web/src/stores/leadStore.ts:194-200 | after a move the card has left its column and leads the target column with the new status; every other column is untouched |
| LeadClient.MoveKeepsCount | apps/web/src/stores/leadStore.ts:194-200 | with unique ids in the from-column, a move keeps the number of cards |
| LeadClient.LeadStore.constructor | apps/web/src/stores/leadStore.ts:61-74 | the store starts empty on page 1 without filters |
| LeadClient.LeadStore.SetSearch | apps/web/src/stores/leadStore.ts:76 | a new search text resets the page to 1 and keeps the other state |
| LeadClient.LeadStore.SetPage | apps/web/src/stores/leadStore.ts:77 | the page changes and nothing else |
| LeadClient.LeadStore.SetLeadStatusFilter | apps/web/src/stores/leadStore.ts:78 | a new status filter resets the page to 1 and keeps the other state |
| LeadClient.LeadStore.SetAgentFilter | apps/web/src/stores/leadStore.ts:79 | a new agent filter resets the page to 1 and keeps the other state |
| LeadClient.LeadStore.ClearSelected | apps/web/src/stores/leadStore.ts:80 | the open lead is closed and nothing else changes |
| LeadClient.LeadStore.UpdateLeadStatus | apps/web/src/stores/leadStore.ts:116-126 | the list gets the new status on the matching lead only, the open lead follows when it is that lead; the board, the page, the total and the filters are kept |
| LeadClient.LeadStore.AddCallLog | apps/web/src/stores/leadStore.ts:128-153 | the list records the call on the matching lead; the open lead, when it is that lead, gets the log first, one more call and the advanced status; the board, the page, the total and the filters are kept |
| LeadClient.LeadStore.ReassignLead | apps/web/src/stores/leadStore.ts:155-164 | the list cards get the returned agent; the open lead, when it is that lead, also gets the agent's id; the board, the page, the total and the filters are kept |
| LeadClient.LeadStore.FetchBoardLeads | apps/web/src/stores/leadStore.ts:166-183 | the grouping loop, with its invariant, leaves the board equal to the grouping of the fetched leads and keeps the rest of the state |
| LeadClient.LeadStore.MoveLead | apps/web/src/stores/leadStore.ts:185-212 | accepted, the board is the moved board and the open lead follows the move; refused, the board is exactly the one before the move; the list, the page, the total and the filters are kept |
| ConversationClient.UpsertReplaces | apps/web/src/stores/conversationStore.ts:52-56 | with the id present, that entry is replaced in place; length, order and every other entry are kept |
| ConversationClient.UpsertPrepends | apps/web/src/stores/conversationStore.ts:58 | with the id absent, the conversation is prepended and nothing else changes |
| ConversationClient.UpsertIdempotent | apps/web/src/stores/conversationStore.ts:50-60 | applying the same update twice is applying it once, and the conversation is in the list afterwards |
| ConversationClient.UpsertKeepsUnique | apps/web/src/stores/conversationStore.ts:50-60 | a list without repeated ids keeps that property |
| ConversationClient.ConversationStore.constructor | apps/web/src/stores/conversationStore.ts:28-33 | the store starts with no conversation, no selection and no filter |
| ConversationClient.ConversationStore.SetSelectedId | apps/web/src/stores/conversationStore.ts:35 | only the selection changes |
| ConversationClient.ConversationStore.SetStatusFilter | apps/web/src/stores/conversationStore.ts:36 | only the filter changes |
| ConversationClient.ConversationStore.UpdateConversation | apps/web/src/stores/conversationStore.ts:50-60 | the list becomes the upsert of the conversation; selection and filter are kept |
| ConversationClient.ConversationStore.UpdateStatus | apps/web/src/stores/conversationStore.ts:62-65 | the server's conversation goes through the same upsert |
| ConversationClient.ConversationStore.AssignAgent | apps/web/src/stores/conversationStore.ts:67-70 | the server's conversation goes through the same upsert |
| MessageClient.AddedExtends | apps/web/src/stores/messageStore.ts:39-44 | the thread only grows at its end: a known id changes nothing, a new id adds exactly that message last, and the id is held afterwards |
| MessageClient.AddedIdempotent | apps/web/src/stores/messageStore.ts:41 | adding a message whose id was just added, as the realtime echo of a sent message does, changes nothing |
| MessageClient.AddedKeepsUnique | apps/web/src/stores/messageStore.ts:39-44 | a thread without repeated ids keeps that property |
| MessageClient.MessageStore.constructor | apps/web/src/stores/messageStore.ts:22-25 | the thread starts empty |
| MessageClient.MessageStore.AddMessage | apps/web/src/stores/messageStore.ts:39-44 | the thread becomes the message added unless its id is held |
| MessageClient.MessageStore.SendMessage | apps/web/src/stores/messageStore.ts:46-49 | the stored message goes through the same deduplicating add |
| ActionList.AddActionExact | apps/web/src/components/automation/ActionList.tsx:11-13 | the list grows by one reply step with an empty body, last, leaving the others; removing it gives back the list |
| ActionList.AddedStepIsInert | apps/web/src/components/automation/ActionList.tsx:12 | the added step has no effect on the store when the workflow runs |
| ActionList.AddedStepRunsInert | apps/web/src/components/automation/ActionList.tsx:12 | the added step changes no run of the workflow, whatever faults the store raises |
| ActionList.UpdateAction | apps/web/src/components/automation/ActionList.tsx:15-19 | the copy differs from the list only at the index, which holds the new action |
| ActionList.SwapPermutes | apps/web/src/components/automation/ActionList.tsx:28 | a swap is a permutation, undoes itself, and keeps every other position |
| ActionList.MovesPermute | apps/web/src/components/automation/ActionList.tsx:25-37 | moving keeps the same steps; the first step does not move up nor the last down; moving a step up and then down (or down and then up) restores the list |
| ActionList.MoveUp | apps/web/src/components/automation/ActionList.tsx:25-30 | the swap on a copied array yields the list with the step moved up |
| ActionList.MoveDown | apps/web/src/components/automation/ActionList.tsx:32-37 | the swap on a copied array yields the list with the step moved down |
| TriggerConfig.ForTypeFires | apps/web/src/components/automation/TriggerConfig.tsx:43-46 | a keyword trigger fresh from a type change has no keywords in `any` mode and does not fire; the other types fire as their type says |
| TriggerConfig.AddKeywordExact | apps/web/src/components/automation/TriggerConfig.tsx:48-52 | whitespace-only input changes nothing; other input appends its trimmed, non-blank form last, keeping the type and match mode, and removing it gives back the list |
| TriggerConfig.AddedKeywordFires | apps/web/src/components/automation/TriggerConfig.tsx:48-52 | after adding a keyword, a keyword trigger in `any` mode fires on every message containing it, whatever the case |
| TriggerConfig.RemoveKeywordExact | apps/web/src/components/automation/TriggerConfig.tsx:54-57 | removing drops exactly the keyword at the index and keeps the others in order, with the type and match mode |
| TriggerConfig.SetMatchModeExact | apps/web/src/components/automation/TriggerConfig.tsx:105-109 | changing the mode keeps the type and keywords, and under `all` the trigger fires exactly when every keyword occurs |

## Findings

| source | as written | input that shows it | evidently intended | confidence | as-written member | corrected member |
|---|---|---|---|---|---|---|
| apps/api/src/modules/lead-status/lead-status.service.ts:56-59 | the final update selects the status by id alone; the tenant is only checked when the patch carries a name | tenant 1 sends a colour-only patch for a status id that belongs to tenant 2 | every path checks that the status belongs to the calling tenant, as `remove` does | high; not executed | LeadStatuses.UpdateAsWrittenCrossesTenants | LeadStatuses.UpdateSpec |
| apps/api/src/modules/chatbot/chatbot.service.ts:43-52 | `update` selects the workflow by id alone | tenant 1 sets `isActive: false` on a workflow id of tenant 2 | the update is scoped to the tenant, as `findOne`, `remove` and `getLogs` are | high; not executed | Workflows.UpdateAsWrittenCrossesTenants | Workflows.UpdateSpec |

`LeadStatuses.UpdateAsWritten` and `Workflows.UpdateAsWritten` model the code as written. The corrected `UpdateSpec` versions are the ones the `Update` methods follow, and their `UpdateOutcome` and `UpdateScoped` lemmas prove the tenant scoping.

## Left out

- Engine.ApplyAction: an `add_note` action writes its note with `userId: 'system'` (apps/api/src/modules/chatbot/chatbot-engine.service.ts:150), and the model's `SystemUser` note always succeeds. Notes have a `user` relation (apps/api/src/modules/conversations/conversations.service.ts:91, 102), so if that relation is a foreign key, the database refuses every automation note: the run would stop at that action and be logged as failed. The database schema is not part of this model, so whether that happens is not decided here, and the model does not capture that failure.
- Common.Paginate: `page` and `limit` are natural numbers, with 0 standing for a missing or falsy value. The controllers pass `parseInt` of the query string, so `page=-1` or `limit=-5` reaches the services. A negative page or limit is not modelled. The service would then hand Prisma a negative `skip` or `take`, and what Prisma does with those (a validation error, or rows counted from the end) belongs to Prisma, which is not part of this model. A query that does not parse gives `NaN`, which `||` replaces with the default, exactly as the model's 0 does. This applies to every `FindAll` and `FindByConversation` built on `Paginate`.
- Text.Lower, Text.Trim: case folding and whitespace trimming cover ASCII only; JavaScript's Unicode tables are not modelled.
- Foreign keys of the database schema are modelled only where a create refers to a row: a create whose referenced conversation (a message, an automation note) or connected user (a staff note) is missing fails with `NotFound` and stores nothing, as the foreign key would make it. Other foreign keys are not modelled, so a row may refer to a missing row; apart from those creates, only a Prisma `update`, `delete` or `...OrThrow` on a missing row fails, with `NotFound`.
- The schema's column defaults (the default `isActive`, user availability and `maxOpenConvo`) are not visible in the services. They are given as the `SchemaDefaults` record the store carries.
- Clocks: the store's logical clock issues ids and creation times, so insertion order, id order and `createdAt` order coincide. `new Date()` reads that clock.
- Realtime events (`emitToTenant`) are side effects on the socket layer and are not modelled.
- The password hash of `invite` is an opaque library call and is not part of the model. The response projections (`select`, `include`, `_count`) are not modelled beyond the fields the contracts talk about.
- Concurrency: the fire-and-forget automation hook of `create` is modelled as a synchronous call whose failures are swallowed. Races between concurrent requests are not modelled.
- The timer of a `delay` action is not modelled: the action changes no state, and the wait it computes is `Engine.DelaySeconds`.
- Engine.Run: errors the database raises inside an action are an input map from (workflow, action index) to a message, and a failing action writes nothing. Whether a send-reply can fail between its insert and its update is not modelled.
- The WhatsApp provider is a function parameter from the phone and the body to an external id. Its own id generation uses the wall clock and randomness and is not modelled.
- Controllers, modules, the auth service, teams, tenants and the other web stores (auth, contacts, lead statuses, notes, workflows) are not part of this model. Team membership is a relation the agent selection reads.
- `findAllRules`, `updateRule` and `deleteRule` of the assignment service, `users.findAll`, `conversations.findOne`, `chatbot.findAll`'s log counts and the leads list's call-log counts are plain reads or thin writes and are not modelled.
- Sorting ties: `SortBy` is a stable sort. The database's order among rows with equal sort keys is unspecified; the model keeps store order.
- The client's `fetchLeads`, `fetchStats`, `fetchLeadDetail`, `fetchMessages` and `fetchConversations` only store a server response, and their loading flags are not modelled.
- LeadClient.LeadStore.UpdateLeadStatus, LeadClient.LeadStore.AddCallLog, LeadClient.LeadStore.ReassignLead: a failing server call is not modelled. The methods take the accepted response, and on a failure the source changes no state.
- Leads.GetStats: the entries are a list of (name, count) pairs, not a JavaScript object. A status named "TOTAL" would collide with the total key, and two statuses with one name would share a key; the list keeps them apart.
- LeadClient.LeadStore.ReassignLead: the lead-list cards get the returned agent but not its id, as in the source; only the open lead's `assignedAgentId` changes.
- TriggerConfig: configuration keys other than `keywords` and `matchMode` are not part of the trigger record, so keeping them is not stated.
- ActionList.UpdateAction: requires an index inside the list. The editor only calls it with the index of an existing step; an index past the end, which would lengthen a JavaScript array, is not modelled.
- The pages, components and helpers of the web client other than the action list and the trigger editor are rendering and are not modelled.
