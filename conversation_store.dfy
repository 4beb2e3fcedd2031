/** The web client's conversation store: the inbox list, which server
    results and realtime events update in place by id. */
module ConversationClient {
  import opened Common

  /** An inbox entry: the fields the store reads, the rest left to the UI. */
  datatype Conversation = Conversation(id: string, status: string, assignedAgentId: Option<string>,
                                       lastMessageAt: Option<string>)

  function HasId(id: string): Conversation -> bool {
    (c: Conversation) => c.id == id
  }

  /** `updateConversation`: the entry with the same id is replaced in place,
      or the conversation goes first when the list has none. */
  function Upserted(cs: seq<Conversation>, c: Conversation): seq<Conversation> {
    var idx := FindIndex(cs, HasId(c.id));
    if idx >= 0 then cs[idx := c] else [c] + cs
  }

  /** With the id present, the first entry with that id is replaced and the
      list keeps its length, its order and every other entry. */
  lemma UpsertReplaces(cs: seq<Conversation>, c: Conversation, idx: nat)
    requires idx < |cs| && cs[idx].id == c.id && forall j :: 0 <= j < idx ==> cs[j].id != c.id
    ensures var r := Upserted(cs, c);
      && |r| == |cs| && r[idx] == c
      && forall j :: 0 <= j < |cs| && j != idx ==> r[j] == cs[j]
  {
    assert FindIndex(cs, HasId(c.id)) == idx;
  }

  /** With the id absent, the conversation is prepended and nothing else
      changes. */
  lemma UpsertPrepends(cs: seq<Conversation>, c: Conversation)
    requires forall j :: 0 <= j < |cs| ==> cs[j].id != c.id
    ensures Upserted(cs, c) == [c] + cs
  {
  }

  /** Applying the same update twice is applying it once, and the
      conversation is in the list afterwards. */
  lemma UpsertIdempotent(cs: seq<Conversation>, c: Conversation)
    ensures Upserted(Upserted(cs, c), c) == Upserted(cs, c)
    ensures c in Upserted(cs, c)
  {
    var r := Upserted(cs, c);
    var idx := FindIndex(cs, HasId(c.id));
    if idx >= 0 {
      assert r[idx] == c;
      forall j | 0 <= j < idx ensures !HasId(c.id)(r[j]) {
        assert r[j] == cs[j];
      }
      assert FindIndex(r, HasId(c.id)) == idx;
    } else {
      assert FindIndex(r, HasId(c.id)) == 0;
    }
  }

  predicate UniqueIds(cs: seq<Conversation>) {
    forall i, j :: 0 <= i < |cs| && 0 <= j < |cs| && cs[i].id == cs[j].id ==> i == j
  }

  /** A list without repeated ids keeps that property. */
  lemma UpsertKeepsUnique(cs: seq<Conversation>, c: Conversation)
    requires UniqueIds(cs)
    ensures UniqueIds(Upserted(cs, c))
  {
    var idx := FindIndex(cs, HasId(c.id));
    var r := Upserted(cs, c);
    if idx >= 0 {
      assert forall j :: 0 <= j < |r| ==> r[j].id == cs[j].id;
    } else {
      assert forall j :: 0 <= j < |cs| ==> !HasId(c.id)(cs[j]);
      assert forall j :: 0 < j < |r| ==> r[j] == cs[j - 1];
    }
  }

  class ConversationStore {
    var conversations: seq<Conversation>
    var selectedId: Option<string>
    var statusFilter: string

    constructor ()
      ensures conversations == [] && selectedId.None? && statusFilter == ""
    {
      conversations, selectedId, statusFilter := [], None, "";
    }

    method SetSelectedId(id: Option<string>)
      modifies this
      ensures selectedId == id && conversations == old(conversations) && statusFilter == old(statusFilter)
    {
      selectedId := id;
    }

    method SetStatusFilter(filter: string)
      modifies this
      ensures statusFilter == filter && conversations == old(conversations) && selectedId == old(selectedId)
    {
      statusFilter := filter;
    }

    /** `updateConversation`. */
    method UpdateConversation(c: Conversation)
      modifies this
      ensures conversations == Upserted(old(conversations), c)
      ensures selectedId == old(selectedId) && statusFilter == old(statusFilter)
    {
      var idx := FindIndex(conversations, HasId(c.id));
      if idx >= 0 {
        conversations := conversations[idx := c];
      } else {
        conversations := [c] + conversations;
      }
    }

    /** `updateStatus`, given the conversation the server returned. */
    method UpdateStatus(id: string, status: string, returned: Conversation)
      modifies this
      ensures conversations == Upserted(old(conversations), returned)
      ensures selectedId == old(selectedId) && statusFilter == old(statusFilter)
    {
      UpdateConversation(returned);
    }

    /** `assignAgent`, given the conversation the server returned. */
    method AssignAgent(id: string, agentId: Option<string>, returned: Conversation)
      modifies this
      ensures conversations == Upserted(old(conversations), returned)
      ensures selectedId == old(selectedId) && statusFilter == old(statusFilter)
    {
      UpdateConversation(returned);
    }
  }
}
