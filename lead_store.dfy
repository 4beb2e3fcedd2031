/** The web client's lead store: the lead list with its filters and page,
    the lead opened in the detail panel, and the pipeline board, one column
    of cards per lead status. Server calls are replaced by their responses,
    which the methods take as parameters. */
module LeadClient {
  import opened Common
  import Leads

  datatype Agent = Agent(id: string, name: string)

  datatype CallLogEntry = CallLogEntry(id: string, notes: string, outcome: string, duration: Option<int>)

  /** A lead card: the fields the store reads or writes, with `callLogCount`
      standing for `_count.callLogs`. */
  datatype Lead = Lead(id: string, leadStatus: string, assignedAgentId: Option<string>,
                       assignedAgent: Option<Agent>, callLogCount: nat)

  /** The lead of the detail panel, with its call logs. */
  datatype LeadDetail = LeadDetail(lead: Lead, callLogs: seq<CallLogEntry>)

  function HasId(id: string): Lead -> bool {
    (l: Lead) => l.id == id
  }

  // ---------------------------------------------------------------------------
  // Local updates of the lead list

  /** The list with the lead `id` given a new status. */
  function WithStatus(leads: seq<Lead>, id: string, status: string): seq<Lead> {
    seq(|leads|, i requires 0 <= i < |leads| => if leads[i].id == id then leads[i].(leadStatus := status) else leads[i])
  }

  /** Only the lead with that id changes, and only its status; the list keeps
      its length and order, and setting the same status again changes
      nothing. */
  lemma WithStatusOnlyMatching(leads: seq<Lead>, id: string, status: string)
    ensures var r := WithStatus(leads, id, status);
      && |r| == |leads|
      && (forall i :: 0 <= i < |r| && leads[i].id != id ==> r[i] == leads[i])
      && (forall i :: 0 <= i < |r| && leads[i].id == id ==> r[i].leadStatus == status && r[i].(leadStatus := leads[i].leadStatus) == leads[i])
      && WithStatus(r, id, status) == r
  {
  }

  /** The client's auto-advance on a logged call. */
  function Advanced(status: string): string {
    if status == "New lead" then "Connected" else status
  }

  /** The client advances a status exactly as the server does when it stores
      a call log, so the optimistic list agrees with the stored lead. */
  lemma AdvancedAgreesWithServer(status: string)
    ensures Leads.Advance(Some(status)) == Some(Advanced(status))
    ensures status != "New lead" ==> Advanced(status) == status
  {
  }

  /** A lead after a call was logged on it. */
  function LogCall(l: Lead): Lead {
    l.(leadStatus := Advanced(l.leadStatus), callLogCount := l.callLogCount + 1)
  }

  function WithCallLogged(leads: seq<Lead>, id: string): seq<Lead> {
    seq(|leads|, i requires 0 <= i < |leads| => if leads[i].id == id then LogCall(leads[i]) else leads[i])
  }

  /** Logging a call counts one more call on the matching lead, moves it from
      'New lead' to 'Connected' and leaves its other fields and every other
      lead as they were. */
  lemma WithCallLoggedEffect(leads: seq<Lead>, id: string)
    ensures var r := WithCallLogged(leads, id);
      && |r| == |leads|
      && (forall i :: 0 <= i < |r| && leads[i].id != id ==> r[i] == leads[i])
      && (forall i :: 0 <= i < |r| && leads[i].id == id ==>
            && r[i].callLogCount == leads[i].callLogCount + 1
            && r[i].leadStatus == (if leads[i].leadStatus == "New lead" then "Connected" else leads[i].leadStatus)
            && r[i].id == id && r[i].assignedAgentId == leads[i].assignedAgentId && r[i].assignedAgent == leads[i].assignedAgent)
  {
  }

  function WithAgent(leads: seq<Lead>, id: string, agent: Option<Agent>): seq<Lead> {
    seq(|leads|, i requires 0 <= i < |leads| => if leads[i].id == id then leads[i].(assignedAgent := agent) else leads[i])
  }

  // ---------------------------------------------------------------------------
  // The pipeline board

  /** The column of a card: its status, or 'Unknown' when it has none. */
  function Column(l: Lead): string {
    if l.leadStatus == "" then "Unknown" else l.leadStatus
  }

  function InColumn(k: string): Lead -> bool {
    (l: Lead) => Column(l) == k
  }

  function Columns(leads: seq<Lead>): set<string> {
    set l | l in leads :: Column(l)
  }

  /** The board built from a list of leads: one column per status in use,
      holding that status's leads in list order. */
  function Grouped(leads: seq<Lead>): map<string, seq<Lead>> {
    map k | k in Columns(leads) :: Filter(leads, InColumn(k))
  }

  lemma FilterNone(leads: seq<Lead>, k: string)
    requires k !in Columns(leads)
    ensures Filter(leads, InColumn(k)) == []
  {
    var f := Filter(leads, InColumn(k));
    if f != [] {
      FilterMember(leads, InColumn(k), f[0]);
    }
  }

  /** One more lead goes at the end of its column, which is created when
      missing: the step of the grouping loop. */
  lemma GroupedStep(leads: seq<Lead>, l: Lead)
    ensures Grouped(leads + [l]) ==
      var g := Grouped(leads);
      g[Column(l) := (if Column(l) in g then g[Column(l)] else []) + [l]]
  {
    var g := Grouped(leads);
    var g' := g[Column(l) := (if Column(l) in g then g[Column(l)] else []) + [l]];
    var h := Grouped(leads + [l]);
    ColumnsAppend(leads, l);
    forall k | k in h.Keys ensures h[k] == g'[k] {
      FilterStep(leads, l, k);
    }
  }

  lemma ColumnsAppend(leads: seq<Lead>, l: Lead)
    ensures Columns(leads + [l]) == Columns(leads) + {Column(l)}
  {
    forall x | x in leads + [l] ensures x in leads || x == l { }
  }

  lemma FilterStep(leads: seq<Lead>, l: Lead, k: string)
    ensures Filter(leads + [l], InColumn(k))
         == if k == Column(l) then (if k in Columns(leads) then Filter(leads, InColumn(k)) else []) + [l]
            else Filter(leads, InColumn(k))
  {
    FilterAppend(leads, [l], InColumn(k));
    if k !in Columns(leads) {
      FilterNone(leads, k);
    }
  }

  /** The grouping loop, one lead at a time: the lead goes at the end of
      its column, which is created when missing. */
  function GroupEach(leads: seq<Lead>): map<string, seq<Lead>>
    decreases |leads|
  {
    if leads == [] then map[]
    else
      var g := GroupEach(leads[..|leads| - 1]);
      var l := leads[|leads| - 1];
      g[Column(l) := (if Column(l) in g then g[Column(l)] else []) + [l]]
  }

  /** The loop builds the board. */
  lemma {:induction false} GroupEachIsGrouped(leads: seq<Lead>)
    ensures GroupEach(leads) == Grouped(leads)
    decreases |leads|
  {
    if leads == [] {
      assert Columns(leads) == {};
    } else {
      var init := leads[..|leads| - 1];
      GroupEachIsGrouped(init);
      assert leads == init + [leads[|leads| - 1]];
      GroupedStep(init, leads[|leads| - 1]);
    }
  }

  /** Every lead of the list is on the board in exactly one column, the one
      of its status, and every card on the board is a lead of the list. */
  lemma GroupedPlacesEachOnce(leads: seq<Lead>)
    ensures var g := Grouped(leads);
      && (forall l :: l in leads ==> Column(l) in g && l in g[Column(l)])
      && (forall k, l :: k in g && l in g[k] ==> l in leads && Column(l) == k)
  {
    var g := Grouped(leads);
    forall l | l in leads ensures Column(l) in g && l in g[Column(l)] {
      FilterMember(leads, InColumn(Column(l)), l);
    }
    forall k, l | k in g && l in g[k] ensures l in leads && Column(l) == k {
      FilterMember(leads, InColumn(k), l);
    }
  }

  /** The column of a status, empty when the board has none. */
  function ColumnOf(board: map<string, seq<Lead>>, k: string): seq<Lead> {
    if k in board then board[k] else []
  }

  /** A move has an effect: the statuses differ and the card is in its
      column. */
  predicate Moves(board: map<string, seq<Lead>>, leadId: string, from: string, to: string) {
    from != to && First(ColumnOf(board, from), HasId(leadId)).Some?
  }

  /** The board after an optimistic move of a card from one column to the
      front of another. */
  function Moved(board: map<string, seq<Lead>>, leadId: string, from: string, to: string): map<string, seq<Lead>> {
    if !Moves(board, leadId, from, to) then board
    else
      var card := First(ColumnOf(board, from), HasId(leadId)).value;
      board[from := Filter(ColumnOf(board, from), Not(HasId(leadId)))][to := [card.(leadStatus := to)] + ColumnOf(board, to)]
  }

  /** A move to the same column, or of a card that is not in the from-column,
      leaves the board as it was. */
  lemma MoveNoOp(board: map<string, seq<Lead>>, leadId: string, from: string, to: string)
    requires from == to || forall l :: l in ColumnOf(board, from) ==> l.id != leadId
    ensures Moved(board, leadId, from, to) == board
  {
    if from != to {
      assert First(ColumnOf(board, from), HasId(leadId)).None?;
    }
  }

  /** After a move the card has left its column, leads the target column
      with the new status, and every other column is untouched. */
  lemma MoveOutcome(board: map<string, seq<Lead>>, leadId: string, from: string, to: string)
    requires Moves(board, leadId, from, to)
    ensures var r := Moved(board, leadId, from, to);
      && r.Keys == board.Keys + {to}
      && (forall l :: l in r[from] ==> l.id != leadId && l in board[from])
      && r[to][0].id == leadId && r[to][0].leadStatus == to && r[to][1..] == ColumnOf(board, to)
      && (forall k :: k in board && k != from && k != to ==> r[k] == board[k])
  {
    var col := ColumnOf(board, from);
    var r := Moved(board, leadId, from, to);
    assert from in board;
    forall l: Lead | l in r[from] ensures l.id != leadId && l in board[from] {
      FilterMember(col, Not(HasId(leadId)), l);
    }
  }

  /** Ids are unique within a column. */
  predicate UniqueIds(s: seq<Lead>) {
    forall i, j :: 0 <= i < |s| && 0 <= j < |s| && s[i].id == s[j].id ==> i == j
  }

  lemma {:induction false} FilterOutUnique(s: seq<Lead>, id: string)
    requires UniqueIds(s) && exists i :: 0 <= i < |s| && s[i].id == id
    ensures |Filter(s, Not(HasId(id)))| == |s| - 1
  {
    if s[0].id == id {
      KeepAll(s[1..], Not(HasId(id)));
    } else {
      var i :| 0 <= i < |s| && s[i].id == id;
      assert s[1..][i - 1].id == id;
      assert UniqueIds(s[1..]) by {
        forall a, b | 0 <= a < |s[1..]| && 0 <= b < |s[1..]| && s[1..][a].id == s[1..][b].id ensures a == b {
          assert s[a + 1].id == s[b + 1].id;
        }
      }
      FilterOutUnique(s[1..], id);
    }
  }

  lemma {:induction false} KeepAll(s: seq<Lead>, p: Lead -> bool)
    requires forall i :: 0 <= i < |s| ==> p(s[i])
    ensures Filter(s, p) == s
  {
    if s != [] {
      KeepAll(s[1..], p);
    }
  }

  /** With unique ids in the from-column, a move keeps the number of cards:
      one leaves the from-column and one joins the target. */
  lemma MoveKeepsCount(board: map<string, seq<Lead>>, leadId: string, from: string, to: string)
    requires Moves(board, leadId, from, to) && UniqueIds(ColumnOf(board, from))
    ensures var r := Moved(board, leadId, from, to);
      |r[from]| + |r[to]| == |ColumnOf(board, from)| + |ColumnOf(board, to)|
  {
    var col := ColumnOf(board, from);
    var card := First(col, HasId(leadId)).value;
    assert card in col && card.id == leadId;
    FilterOutUnique(col, leadId);
  }

  // ---------------------------------------------------------------------------
  // The store

  class LeadStore {
    var leads: seq<Lead>
    var total: nat
    var page: int
    var search: string
    var leadStatusFilter: string
    var agentFilter: string
    var selected: Option<LeadDetail>
    var board: map<string, seq<Lead>>

    constructor ()
      ensures leads == [] && total == 0 && page == 1
      ensures search == "" && leadStatusFilter == "" && agentFilter == ""
      ensures selected.None? && board == map[]
    {
      leads, total, page := [], 0, 1;
      search, leadStatusFilter, agentFilter := "", "", "";
      selected, board := None, map[];
    }

    /** The state the filter setters keep. */
    function Data(): (seq<Lead>, nat, Option<LeadDetail>, map<string, seq<Lead>>)
      reads this
    {
      (leads, total, selected, board)
    }

    /** The list filters the user has set. */
    function Filters(): (string, string, string)
      reads this
    {
      (search, leadStatusFilter, agentFilter)
    }

    /** A new search text starts again from page 1. */
    method SetSearch(s: string)
      modifies this
      ensures search == s && page == 1
      ensures leadStatusFilter == old(leadStatusFilter) && agentFilter == old(agentFilter) && Data() == old(Data())
    {
      search, page := s, 1;
    }

    method SetPage(p: int)
      modifies this
      ensures page == p
      ensures search == old(search) && leadStatusFilter == old(leadStatusFilter) && agentFilter == old(agentFilter)
      ensures Data() == old(Data())
    {
      page := p;
    }

    /** A new status filter starts again from page 1. */
    method SetLeadStatusFilter(s: string)
      modifies this
      ensures leadStatusFilter == s && page == 1
      ensures search == old(search) && agentFilter == old(agentFilter) && Data() == old(Data())
    {
      leadStatusFilter, page := s, 1;
    }

    /** A new agent filter starts again from page 1. */
    method SetAgentFilter(a: string)
      modifies this
      ensures agentFilter == a && page == 1
      ensures search == old(search) && leadStatusFilter == old(leadStatusFilter) && Data() == old(Data())
    {
      agentFilter, page := a, 1;
    }

    method ClearSelected()
      modifies this
      ensures selected.None?
      ensures leads == old(leads) && board == old(board) && total == old(total) && page == old(page) && Filters() == old(Filters())
    {
      selected := None;
    }

    /** `updateLeadStatus`, once the server has accepted the new status. */
    method UpdateLeadStatus(id: string, status: string)
      modifies this
      ensures leads == WithStatus(old(leads), id, status)
      ensures selected == (if old(selected).Some? && old(selected).value.lead.id == id
                           then Some(old(selected).value.(lead := old(selected).value.lead.(leadStatus := status)))
                           else old(selected))
      ensures board == old(board) && total == old(total) && page == old(page) && Filters() == old(Filters())
    {
      leads := WithStatus(leads, id, status);
      if selected.Some? && selected.value.lead.id == id {
        selected := Some(selected.value.(lead := selected.value.lead.(leadStatus := status)));
      }
    }

    /** `addCallLog`, given the call log the server stored: the log goes first
        in the open lead's list, and the lead's counters and status follow. */
    method AddCallLog(id: string, log: CallLogEntry)
      modifies this
      ensures leads == WithCallLogged(old(leads), id)
      ensures selected == (if old(selected).Some? && old(selected).value.lead.id == id
                           then Some(LeadDetail(LogCall(old(selected).value.lead), [log] + old(selected).value.callLogs))
                           else old(selected))
      ensures board == old(board) && total == old(total) && page == old(page) && Filters() == old(Filters())
    {
      if selected.Some? && selected.value.lead.id == id {
        selected := Some(LeadDetail(LogCall(selected.value.lead), [log] + selected.value.callLogs));
      }
      leads := WithCallLogged(leads, id);
    }

    /** `reassignLead`, given the agent the server returned: the list cards
        get the agent, the open lead also its id. */
    method ReassignLead(id: string, agentId: string, agent: Option<Agent>)
      modifies this
      ensures leads == WithAgent(old(leads), id, agent)
      ensures selected == (if old(selected).Some? && old(selected).value.lead.id == id
                           then Some(old(selected).value.(lead := old(selected).value.lead.(assignedAgent := agent, assignedAgentId := Some(agentId))))
                           else old(selected))
      ensures board == old(board) && total == old(total) && page == old(page) && Filters() == old(Filters())
    {
      leads := WithAgent(leads, id, agent);
      if selected.Some? && selected.value.lead.id == id {
        selected := Some(selected.value.(lead := selected.value.lead.(assignedAgent := agent, assignedAgentId := Some(agentId))));
      }
    }

    /** `fetchBoardLeads`, given the leads the server listed: the cards are
        grouped into one column per status, in list order. */
    method FetchBoardLeads(fetched: seq<Lead>)
      modifies this
      ensures board == Grouped(fetched)
      ensures leads == old(leads) && selected == old(selected) && total == old(total) && page == old(page) && Filters() == old(Filters())
    {
      var grouped: map<string, seq<Lead>> := map[];
      var i := 0;
      while i < |fetched|
        invariant 0 <= i <= |fetched|
        invariant grouped == GroupEach(fetched[..i])
        invariant unchanged(this)
      {
        var status := Column(fetched[i]);
        var column := if status in grouped then grouped[status] else [];
        grouped := grouped[status := column + [fetched[i]]];
        assert fetched[..i + 1][..i] == fetched[..i];
        i := i + 1;
      }
      assert fetched[..i] == fetched;
      GroupEachIsGrouped(fetched);
      board := grouped;
    }

    /** `moveLead`: the card moves at once; `accepted` is the server's
        answer to the status change. Accepted, the open lead follows the
        move; refused, the board is put back exactly as it was. */
    method MoveLead(leadId: string, from: string, to: string, accepted: bool)
      modifies this
      ensures board == (if accepted then Moved(old(board), leadId, from, to) else old(board))
      ensures selected == (if accepted && Moves(old(board), leadId, from, to)
                              && old(selected).Some? && old(selected).value.lead.id == leadId
                           then Some(old(selected).value.(lead := old(selected).value.lead.(leadStatus := to)))
                           else old(selected))
      ensures leads == old(leads) && total == old(total) && page == old(page) && Filters() == old(Filters())
    {
      if from == to {
        return;
      }
      var prev := board;
      var fromCol := ColumnOf(prev, from);
      var toCol := ColumnOf(prev, to);
      var card := First(fromCol, HasId(leadId));
      if card.None? {
        return;
      }
      board := prev[from := Filter(fromCol, Not(HasId(leadId)))][to := [card.value.(leadStatus := to)] + toCol];
      if accepted {
        if selected.Some? && selected.value.lead.id == leadId {
          selected := Some(selected.value.(lead := selected.value.lead.(leadStatus := to)));
        }
      } else {
        board := prev;
      }
    }
  }
}
