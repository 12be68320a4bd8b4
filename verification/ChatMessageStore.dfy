/** The session's chat messages, outgoing and incoming, oldest first. */
module ChatMessageStore {
  import opened Wrappers
  import opened Utf8

  datatype Status = SENDING | SENT | FAILED | RECEIVED

  datatype ChatMessage =
    ChatMessage(id: string, senderNodeId: string, recipientNodeId: string, text: seq<unit>, incoming: bool,
      status: Status)

  predicate SameIncoming(a: ChatMessage, b: ChatMessage) {
    a.incoming && b.incoming && a.senderNodeId == b.senderNodeId && a.id == b.id
  }

  predicate Known(messages: seq<ChatMessage>, m: ChatMessage) {
    exists i :: 0 <= i < |messages| && messages[i].incoming && messages[i].senderNodeId == m.senderNodeId
      && messages[i].id == m.id
  }

  function AddIncoming(messages: seq<ChatMessage>, m: ChatMessage): seq<ChatMessage> {
    if Known(messages, m) then messages else messages + [m]
  }

  function Updated(m: ChatMessage, id: string, status: Status): ChatMessage {
    if m.id == id && !m.incoming then m.(status := status) else m
  }

  function SetStatus(messages: seq<ChatMessage>, id: string, status: Status): (r: seq<ChatMessage>)
    ensures |r| == |messages|
    ensures forall i :: 0 <= i < |r| ==> r[i] == Updated(messages[i], id, status)
  {
    seq(|messages|, i requires 0 <= i < |messages| => Updated(messages[i], id, status))
  }

  /** No incoming message is stored twice. */
  ghost predicate IncomingOnce(messages: seq<ChatMessage>) {
    forall i, j :: 0 <= i < j < |messages| ==> !SameIncoming(messages[i], messages[j])
  }

  function Occurrences(messages: seq<ChatMessage>, m: ChatMessage): nat {
    if messages == [] then 0
    else Occurrences(messages[..|messages| - 1], m) + if SameIncoming(messages[|messages| - 1], m) then 1 else 0
  }

  lemma AddIncomingOnce(messages: seq<ChatMessage>, m: ChatMessage)
    requires IncomingOnce(messages) && m.incoming
    ensures IncomingOnce(AddIncoming(messages, m)) && Known(AddIncoming(messages, m), m)
  {
    var r := AddIncoming(messages, m);
    if !Known(messages, m) {
      assert r[|messages|] == m;
    }
  }

  lemma SetStatusKeepsIncoming(messages: seq<ChatMessage>, id: string, status: Status)
    requires IncomingOnce(messages)
    ensures IncomingOnce(SetStatus(messages, id, status))
    ensures forall i :: 0 <= i < |messages| && messages[i].incoming ==>
      SetStatus(messages, id, status)[i] == messages[i]
  {
  }

  /** Sender and id of an incoming message occur once in the store when they are known, else never. */
  lemma {:induction false} OccursOnce(messages: seq<ChatMessage>, m: ChatMessage)
    requires IncomingOnce(messages) && m.incoming
    ensures Occurrences(messages, m) == if Known(messages, m) then 1 else 0
  {
    if messages != [] {
      var init := messages[..|messages| - 1];
      OccursOnce(init, m);
      if Known(init, m) {
        var i :| 0 <= i < |init| && init[i].incoming && init[i].senderNodeId == m.senderNodeId && init[i].id == m.id;
        assert init[i] == messages[i];
      }
      assert Known(messages, m) <==> Known(init, m) || SameIncoming(messages[|messages| - 1], m) by {
        if Known(messages, m) {
          var i :| 0 <= i < |messages| && messages[i].incoming && messages[i].senderNodeId == m.senderNodeId
            && messages[i].id == m.id;
          assert i < |init| ==> init[i] == messages[i];
        }
      }
    }
  }

  class ChatMessageStore {
    var messages: seq<ChatMessage>

    constructor ()
      ensures messages == []
    {
      messages := [];
    }

    method AddOutgoingChatMessage(m: ChatMessage)
      modifies this
      ensures messages == old(messages) + [m]
      ensures old(IncomingOnce(messages)) && !m.incoming ==> IncomingOnce(messages)
    {
      messages := messages + [m];
    }

    method SetOutgoingChatMessageStatus(id: string, status: Status)
      modifies this
      ensures |messages| == |old(messages)|
      ensures forall i :: 0 <= i < |messages| ==>
        messages[i] == if old(messages)[i].id == id && !old(messages)[i].incoming
                       then old(messages)[i].(status := status) else old(messages)[i]
      ensures old(IncomingOnce(messages)) ==> IncomingOnce(messages)
    {
      if IncomingOnce(messages) { SetStatusKeepsIncoming(messages, id, status); }
      messages := SetStatus(messages, id, status);
    }

    method AddIncomingChatMessage(m: ChatMessage) returns (added: bool)
      requires IncomingOnce(messages) && m.incoming
      modifies this
      ensures messages == AddIncoming(old(messages), m) && IncomingOnce(messages)
      ensures messages == if added then old(messages) + [m] else old(messages)
      ensures added <==> !Known(old(messages), m)
    {
      AddIncomingOnce(messages, m);
      if Known(messages, m) {
        return false;
      }
      messages := messages + [m];
      added := true;
    }
  }
}
