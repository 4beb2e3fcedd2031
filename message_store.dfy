/** The web client's message store: the thread on screen, which both the
    send call and the realtime echo of the same message append to. */
module MessageClient {
  import opened Common

  datatype Direction = Inbound | Outbound

  /** A message as the client holds it. */
  datatype Message = Message(id: string, conversationId: string, senderId: Option<string>,
                             direction: Direction, body: string, status: string)

  /** The thread already holds a message with that id (`messages.some`). */
  predicate Holds(ms: seq<Message>, id: string) {
    exists i :: 0 <= i < |ms| && ms[i].id == id
  }

  /** `addMessage`: a message whose id is already in the thread is dropped;
      any other goes last. */
  function Added(ms: seq<Message>, m: Message): seq<Message> {
    if Holds(ms, m.id) then ms else ms + [m]
  }

  /** The thread only grows at its end: every message already there keeps
      its place, and a new id adds exactly one message. */
  lemma AddedExtends(ms: seq<Message>, m: Message)
    ensures var r := Added(ms, m);
      && r[..|ms|] == ms
      && (Holds(ms, m.id) ==> r == ms)
      && (!Holds(ms, m.id) ==> |r| == |ms| + 1 && r[|ms|] == m)
      && Holds(r, m.id)
  {
    var r := Added(ms, m);
    if !Holds(ms, m.id) {
      assert r[|ms|] == m;
    }
  }

  /** Adding a message with an id the thread already got, as the realtime
      echo of a sent message does, changes nothing: adding is idempotent by
      id. */
  lemma AddedIdempotent(ms: seq<Message>, m: Message, echo: Message)
    requires echo.id == m.id
    ensures Added(Added(ms, m), echo) == Added(ms, m)
  {
    AddedExtends(ms, m);
  }

  predicate UniqueIds(ms: seq<Message>) {
    forall i, j :: 0 <= i < |ms| && 0 <= j < |ms| && ms[i].id == ms[j].id ==> i == j
  }

  /** Whatever order the send response and the echo arrive in, a thread
      without repeated ids keeps that property. */
  lemma AddedKeepsUnique(ms: seq<Message>, m: Message)
    requires UniqueIds(ms)
    ensures UniqueIds(Added(ms, m))
  {
    var r := Added(ms, m);
    if !Holds(ms, m.id) {
      assert forall j :: 0 <= j < |ms| ==> r[j] == ms[j] && ms[j].id != m.id;
    }
  }

  class MessageStore {
    var messages: seq<Message>

    constructor ()
      ensures messages == []
    {
      messages := [];
    }

    /** `addMessage`. */
    method AddMessage(m: Message)
      modifies this
      ensures messages == Added(old(messages), m)
    {
      if !Holds(messages, m.id) {
        messages := messages + [m];
      }
    }

    /** `sendMessage`, given the message the server stored. */
    method SendMessage(conversationId: string, body: string, stored: Message)
      modifies this
      ensures messages == Added(old(messages), stored)
    {
      AddMessage(stored);
    }
  }
}
