/** What holds at every point of every run of the link. */
module ReliableLinkRuns {
  import opened Collections
  import opened Reassembler
  import opened Reassembly
  import opened ReceiverCaches
  import opened VoiceReceiver
  import opened ReliableLink
  import V6A = BinaryMessageCodec
  import R = ReliabilityManager
  import P = ReliabilityProofs

  function EmptyLink(): Link {
    Link(R.Init(true), [], map[], {}, Silent())
  }

  lemma EmptyLinkOK(peer: string)
    ensures LinkOK(peer, EmptyLink())
  {
    assert TableOK(EMPTY_TABLE);
    hide TableOK;
  }

  /** A history of the link: inputs[k] takes links[k] to links[k + 1]. */
  datatype History = History(peer: string, links: seq<Link>, inputs: seq<LinkInput>)

  ghost predicate Moves(h: History, k: nat) {
    && k < |h.inputs| && |h.links| == |h.inputs| + 1
    && R.InRange(h.links[k].sender, h.links[k].sender.active) && R.InRange(h.links[k].sender, h.links[k].sender.queued)
    && h.links[k + 1] == LinkStep(h.peer, h.links[k], h.inputs[k])
  }

  ghost predicate IsRun(h: History) {
    && |h.links| == |h.inputs| + 1 && h.links[0] == EmptyLink()
    && forall k: nat :: k < |h.inputs| ==> Moves(h, k)
  }

  lemma {:induction false} RunOK(h: History, k: nat)
    requires IsRun(h) && k < |h.links|
    ensures LinkOK(h.peer, h.links[k])
  {
    hide LinkOK, LinkStep, R.InRange, EmptyLink;
    if k == 0 {
      EmptyLinkOK(h.peer);
    } else {
      RunOK(h, k - 1);
      assert Moves(h, k - 1);
      LinkStepOK(h.peer, h.links[k - 1], h.inputs[k - 1]);
    }
  }

  /** Every state can be continued by every input, so runs of all inputs exist. */
  lemma RunsGoOn(h: History, e: LinkInput) returns (h': History)
    requires IsRun(h)
    ensures IsRun(h') && h'.peer == h.peer && h'.inputs == h.inputs + [e] && h'.links[..|h.links|] == h.links
    ensures Moves(h', |h.inputs|)
  {
    hide LinkOK, LinkStep, R.InRange, EmptyLink;
    var n := |h.inputs|;
    RunOK(h, n);
    LinkStepOK(h.peer, h.links[n], e);
    h' := History(h.peer, h.links + [LinkStep(h.peer, h.links[n], e)], h.inputs + [e]);
    forall k: nat | k < n + 1
      ensures Moves(h', k)
    {
      if k < n { assert Moves(h, k); }
    }
  }

  /**
   * Acknowledgements are honest: whatever the channel loses, repeats or reorders, at every point of
   * every run a message that the sender regards as acknowledged has had its wire id handed to speech
   * at the receiver.
   */
  lemma HonestAck(h: History, k: nat, i: nat)
    requires IsRun(h) && k < |h.links|
    requires i < |h.links[k].sender.messages| && h.links[k].sender.messages[i].acked
    ensures h.links[k].sender.messages[i].messageId in HeardIds(h.links[k].receiver)
  {
    RunOK(h, k);
    hide IsRun, P.Inv, Genuine, ReceiverOK, BookOK, PlanMatches;
  }

  /** Nothing is heard that was not sent: same text and labels, and the hash of the same id. */
  lemma NothingInvented(h: History, k: nat, m: V6A.ReceivedMessage)
    requires IsRun(h) && k < |h.links| && m in h.links[k].receiver.heard
    ensures WasSent(h.links[k].sends, m)
  {
    RunOK(h, k);
    hide IsRun, P.Inv, Genuine, ReceiverOK, BookOK, PlanMatches;
  }

  /** Two deliveries of one wire id have at least 64 others, none of that id and no two alike, between them. */
  lemma SpokenAtMostOnce(h: History, k: nat, i: nat, j: nat)
    requires IsRun(h) && k < |h.links| && i < j < |h.links[k].receiver.heard|
    requires h.links[k].receiver.heard[i].messageId == h.links[k].receiver.heard[j].messageId
    ensures j - i > DELIVERED_CACHE_MAX
    ensures var between := HeardIds(h.links[k].receiver)[i + 1..i + 1 + DELIVERED_CACHE_MAX];
      h.links[k].receiver.heard[i].messageId !in between && Distinct(between)
  {
    hide P.Inv, Genuine, BookOK, PlanMatches;
    RunOK(h, k);
    hide IsRun;
    var ids := HeardIds(h.links[k].receiver);
    assert Spaced(ids, DELIVERED_CACHE_MAX);
    SpacedStretch(ids, DELIVERED_CACHE_MAX, i);
  }

  /** No other registered message has the id of message i. */
  ghost predicate OwnId(messages: seq<R.Pending>, i: nat) {
    i < |messages| && forall k :: 0 <= k < |messages| && k != i ==> messages[k].messageId != messages[i].messageId
  }

  lemma ReceivedUnderWireId(o: Outgoing)
    ensures V6A.AsReceived(o.message).messageId == WireId(o)
  {
  }

  /** Whatever is heard under an unshared id is the message of that id. */
  lemma HeardUnderOwnId(l: Link, i: nat)
    requires BookOK(l) && HeardWasSent(l) && OwnId(l.sender.messages, i)
    requires l.sender.messages[i].messageId in HeardIds(l.receiver)
    ensures SpokenAs(l.receiver, l.sender.messages[i].messageId, l.sends[i].message)
  {
    hide WireId, V6A.AsReceived, Sendable, FramesOf;
    var r := l.receiver;
    var j :| 0 <= j < |r.heard| && HeardIds(r)[j] == l.sender.messages[i].messageId;
    var m := r.heard[j];
    assert m in r.heard && WasSent(l.sends, m);
    var n :| 0 <= n < |l.sends| && m == V6A.AsReceived(l.sends[n].message);
    assert BookedAt(l, n) && BookedAt(l, i);
    ReceivedUnderWireId(l.sends[n]);
    assert n == i;
    AsReceivedFields(l.sends[i].message);
  }

  lemma LinkFacts(peer: string, l: Link)
    requires LinkOK(peer, l)
    ensures BookOK(l) && HeardWasSent(l) && |l.sends| == |l.sender.messages|
  {
    hide P.Inv, Genuine, ReceiverOK, PlanMatches;
  }

  /** The message was handed to speech under the given id, with its text and emotion. */
  ghost predicate SpokenAs(r: Receiver, id: string, m: V6A.SemanticMessage) {
    exists j :: 0 <= j < |r.heard| && r.heard[j].messageId == id && r.heard[j].text == m.text
      && r.heard[j].emotion == m.emotion
  }

  lemma AsReceivedFields(m: V6A.SemanticMessage)
    ensures V6A.AsReceived(m).text == m.text && V6A.AsReceived(m).emotion == m.emotion
  {
  }

  /** An acknowledged message whose id no other message shares has itself been heard, with its own text. */
  lemma AckedMessageWasHeard(h: History, k: nat, i: nat)
    requires IsRun(h) && k < |h.links|
    requires OwnId(h.links[k].sender.messages, i) && h.links[k].sender.messages[i].acked
    ensures i < |h.links[k].sends|
    ensures SpokenAs(h.links[k].receiver, h.links[k].sender.messages[i].messageId, h.links[k].sends[i].message)
  {
    hide LinkOK, BookOK, V6A.AsReceived, HeardIds;
    HonestAck(h, k, i);
    RunOK(h, k);
    LinkFacts(h.peer, h.links[k]);
    HeardUnderOwnId(h.links[k], i);
  }
}
