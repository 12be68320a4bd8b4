/**
 * One direction of a link: a reliable sender, a channel that loses, repeats and reorders frames in
 * both directions, and the receive path of its peer. Whatever happens, an acknowledgement is
 * honest, nothing is heard that was not sent, and nothing is heard twice within 64 deliveries.
 *
 * The state carries the messages given to the sender and the packets under way as fragments; the
 * invariant says that the manager's book, the fragments on the air and what the receiver has heard
 * agree with them. It is kept by every step; what follows for runs is in ReliableLinkRuns.
 */
module ReliableLink {
  import opened Wrappers
  import opened Bytes
  import opened Collections
  import opened FragmentCodec
  import opened Reassembler
  import opened Reassembly
  import opened ReceiverCaches
  import opened VoiceReceiver
  import BitChatPacket
  import Payloads = ReliabilityPayloads
  import R = ReliabilityManager
  import P = ReliabilityProofs
  import V6A = BinaryMessageCodec

  // The receiver on its own -----------------------------------------------------------------------------

  /** The wire ids handed to speech, oldest first. */
  function HeardIds(r: Receiver): (ids: seq<string>)
    ensures |ids| == |r.heard|
    ensures forall i :: 0 <= i < |ids| ==> ids[i] == r.heard[i].messageId
  {
    seq(|r.heard|, i requires 0 <= i < |r.heard| => r.heard[i].messageId)
  }

  ghost predicate Remembers(r: Receiver) {
    IdsOf(r.delivered) == Last(HeardIds(r), DELIVERED_CACHE_MAX) && Spaced(HeardIds(r), DELIVERED_CACHE_MAX)
  }

  ghost predicate AcksHeard(r: Receiver) {
    forall id :: id in r.acks ==> id in HeardIds(r)
  }

  ghost predicate GroupsHeard(r: Receiver) {
    forall c :: c in r.completed ==> c.messageId in HeardIds(r)
  }

  ghost predicate ReceiverOK(r: Receiver) {
    Remembers(r) && AcksHeard(r) && GroupsHeard(r)
  }

  lemma HeardMore(r: Receiver, m: V6A.ReceivedMessage, now: int)
    ensures HeardIds(Heard(r, m, now)) == HeardIds(r) + [m.messageId]
    ensures IdsOf(Heard(r, m, now).delivered) == Push(IdsOf(r.delivered), m.messageId, DELIVERED_CACHE_MAX)
  {
  }

  lemma HeardOK(r: Receiver, m: V6A.ReceivedMessage, now: int)
    requires ReceiverOK(r) && m.messageId !in IdsOf(r.delivered)
    ensures ReceiverOK(Heard(r, m, now)) && m.messageId in HeardIds(Heard(r, m, now))
  {
    HeardMore(r, m, now);
    PushIsWindow(HeardIds(r), DELIVERED_CACHE_MAX, m.messageId);
    SpacedPush(HeardIds(r), DELIVERED_CACHE_MAX, m.messageId);
    assert m.messageId in HeardIds(r) + [m.messageId];
    hide Push, Last, Spaced, IdsOf;
  }

  lemma FinishedOK(r: Receiver, groupId: nat, id: string, now: int)
    requires ReceiverOK(r) && id in HeardIds(r)
    ensures ReceiverOK(Finished(r, groupId, id, now)) && HeardIds(Finished(r, groupId, id, now)) == HeardIds(r)
  {
  }

  lemma AckedOK(r: Receiver, id: string)
    requires ReceiverOK(r) && id in HeardIds(r)
    ensures ReceiverOK(Acked(r, id)) && HeardIds(Acked(r, id)) == HeardIds(r)
  {
  }

  lemma OnPacketOK(r: Receiver, packet: seq<byte>, group: Option<nat>, now: int)
    requires ReceiverOK(r)
    ensures ReceiverOK(OnPacket(r, packet, group, now)) && HeardIds(r) <= HeardIds(OnPacket(r, packet, group, now))
  {
    hide V6A.Decode, ReceiverOK, Heard, Finished, Acked;
    if V6A.Decode(packet).Ok? {
      var m := V6A.Decode(packet).value;
      if m.messageId in IdsOf(r.delivered) {
        KnownIsHeard(r, m.messageId);
        AckedOK(r, m.messageId);
      } else {
        var r1 := Heard(r, m, now);
        HeardOK(r, m, now);
        HeardMore(r, m, now);
        if group.Some? {
          FinishedOK(r1, group.value, m.messageId, now);
          AckedOK(Finished(r1, group.value, m.messageId, now), m.messageId);
        } else {
          AckedOK(r1, m.messageId);
        }
      }
    }
  }

  lemma KnownIsHeard(r: Receiver, id: string)
    requires ReceiverOK(r) && id in IdsOf(r.delivered)
    ensures id in HeardIds(r)
  {
    LastInside(HeardIds(r), DELIVERED_CACHE_MAX, id);
  }

  lemma TableOnly(r: Receiver, t: Table)
    requires ReceiverOK(r)
    ensures ReceiverOK(r.(table := t)) && HeardIds(r.(table := t)) == HeardIds(r)
  {
  }

  /** Whatever bytes arrive, the receiver keeps its windows and acknowledges only what it has handed over. */
  lemma OnDataOK(r: Receiver, peer: string, payload: seq<byte>, now: int)
    requires ReceiverOK(r)
    ensures ReceiverOK(OnData(r, peer, payload, now)) && HeardIds(r) <= HeardIds(OnData(r, peer, payload, now))
  {
    hide ReceiverOK, OnPacket, AddFragmentTo, ParseHeader;
    if payload != [] && payload[0] == V7_MARKER {
      if ParseHeader(payload).Ok? {
        var h := ParseHeader(payload).value;
        var cached := CompletedId(r.completed, h.groupId);
        if cached.Some? && cached.value != "" {
          CachedIsHeard(r, h.groupId);
          AckedOK(r, cached.value);
        } else {
          ParsedLength(payload);
          var (t, answer) := AddFragmentTo(r.table, peer, h, payload[V7_HEADER_SIZE..], now);
          TableOnly(r, t);
          if answer.Complete? {
            OnPacketOK(r.(table := t), answer.v6aPacket, Some(h.groupId), now);
          }
        }
      }
    } else {
      OnPacketOK(r, payload, None, now);
    }
  }

  lemma ParsedLength(payload: seq<byte>)
    requires ParseHeader(payload).Ok?
    ensures |payload| >= V7_HEADER_SIZE
  {
  }

  lemma CachedIsHeard(r: Receiver, groupId: nat)
    requires ReceiverOK(r) && CompletedId(r.completed, groupId).Some?
    ensures CompletedId(r.completed, groupId).value in HeardIds(r)
  {
    var id := CompletedId(r.completed, groupId).value;
    var i :| 0 <= i < |r.completed| && r.completed[i].groupId == groupId && r.completed[i].messageId == id;
    assert r.completed[i] in r.completed;
  }

  // The link -----------------------------------------------------------------------------------------------

  /** A message given to the sender, and the group id under which it is split if it is too long for one frame. */
  datatype Outgoing = Outgoing(message: V6A.SemanticMessage, groupId: nat)

  /**
   * `onAir` holds the (message, frame) pairs ever transmitted: a frame on the air may arrive at any
   * time, any number of times, or never. The same goes for the acknowledgements in receiver.acks.
   */
  datatype Link = Link(
    sender: R.State, sends: seq<Outgoing>, plan: Plan, onAir: set<(nat, nat)>, receiver: Receiver)

  datatype LinkInput =
    | SendMessage(outgoing: Outgoing)
    | Transmit(message: nat, index: nat)
    | SenderEvent(event: R.Input)
    | FrameArrives(message: nat, index: nat, now: int)
    | AckArrives(id: string)
    | CleansUp(now: int)

  function PacketFor(o: Outgoing): seq<byte> {
    V6A.PacketOf(o.message)
  }

  function WireId(o: Outgoing): string {
    BitChatPacket.FormatId(V6A.HashMessageId(o.message.messageId))
  }

  /** What the codecs accept: a valid message whose packet fits 128 fragments. */
  predicate Sendable(o: Outgoing) {
    V6A.ValidateMessage(o.message).Ok? && |PacketFor(o)| <= MAX_V6A_LENGTH && o.groupId < TWO_32
  }

  predicate Fragmented(o: Outgoing) {
    |PacketFor(o)| > SINGLE_FRAME_LIMIT
  }

  function FragmentPayload(packet: seq<byte>, groupId: nat, i: nat): seq<byte> {
    if Offset(MAX_CHUNK_SIZE, i) <= |packet| then FragmentAt(packet, groupId, MAX_CHUNK_SIZE, i).payload else []
  }

  function FramesOf(o: Outgoing): seq<seq<byte>> {
    var p := PacketFor(o);
    if !Fragmented(o) then [p]
    else seq(ChunkCount(|p|, MAX_CHUNK_SIZE), i requires 0 <= i => FragmentPayload(p, o.groupId, i))
  }

  function KeyFor(peer: string, o: Outgoing): string {
    MakeGroupKey(peer, o.groupId)
  }

  /** Group ids are not reused while the link lasts. */
  predicate FreshGroup(peer: string, l: Link, o: Outgoing) {
    Fragmented(o) ==> KeyFor(peer, o) !in l.plan
  }

  function Registered(peer: string, l: Link, o: Outgoing): Link
    requires R.InRange(l.sender, l.sender.active) && R.InRange(l.sender, l.sender.queued)
  {
    var s1 := R.Step(l.sender, R.Send(WireId(o), if Fragmented(o) then o.groupId else 0, FramesOf(o))).0;
    l.(sender := if Fragmented(o) then s1.(groupIds := s1.groupIds[o.groupId := WireId(o)]) else s1,
       sends := l.sends + [o],
       plan := if Fragmented(o) then l.plan[KeyFor(peer, o) := Sent(PacketFor(o), MAX_CHUNK_SIZE)] else l.plan)
  }

  /** The frames whose transmission the outputs report. */
  function Started(outs: seq<R.Output>): set<(nat, nat)> {
    if outs == [] then {}
    else
      var o := outs[|outs| - 1];
      Started(outs[..|outs| - 1]) + if o.FrameStarted? then {(o.message, o.index)} else {}
  }

  /** Events of the manager that need nothing from the channel. */
  predicate Local(e: R.Input) {
    !e.Send? && !e.RegisterGroupId? && !e.HandleAck?
  }

  /** One step of the link; an input that is not possible leaves it alone. */
  function LinkStep(peer: string, l: Link, e: LinkInput): Link
    requires R.InRange(l.sender, l.sender.active) && R.InRange(l.sender, l.sender.queued)
  {
    match e
    case SendMessage(o) => if Sendable(o) && FreshGroup(peer, l, o) then Registered(peer, l, o) else l
    case Transmit(m, k) =>
      if m < |l.sender.messages| && k < |l.sender.messages[m].frames| then l.(onAir := l.onAir + {(m, k)}) else l
    case SenderEvent(e) =>
      if !Local(e) then l
      else
        var (s, outs) := R.Step(l.sender, e);
        l.(sender := s, onAir := l.onAir + Started(outs))
    case FrameArrives(m, k, now) =>
      if (m, k) in l.onAir && m < |l.sender.messages| && k < |l.sender.messages[m].frames| then
        l.(receiver := OnData(l.receiver, peer, l.sender.messages[m].frames[k], now))
      else l
    case AckArrives(id) =>
      if id in l.receiver.acks && BitChatPacket.IsPrefixedHex(id) then
        match Payloads.ParseAckPayload(Payloads.AckBytes(id))
        case None => l
        case Some(acked) => l.(sender := R.Step(l.sender, R.HandleAck(acked)).0)
      else l
    case CleansUp(now) => l.(receiver := OnCleanup(l.receiver, now))
  }

  // The invariant ----------------------------------------------------------------------------------------

  ghost predicate BookedAt(l: Link, i: nat) {
    && i < |l.sends| == |l.sender.messages| && Sendable(l.sends[i])
    && l.sender.messages[i].messageId == WireId(l.sends[i]) && l.sender.messages[i].frames == FramesOf(l.sends[i])
  }

  /** The manager's messages are the ones given to it. */
  ghost predicate BookOK(l: Link) {
    |l.sender.messages| == |l.sends| && forall i: nat :: i < |l.sends| ==> BookedAt(l, i)
  }

  ghost predicate PlannedAt(peer: string, l: Link, i: nat)
    requires i < |l.sends|
  {
    Fragmented(l.sends[i]) ==>
      KeyFor(peer, l.sends[i]) in l.plan
        && l.plan[KeyFor(peer, l.sends[i])] == Sent(PacketFor(l.sends[i]), MAX_CHUNK_SIZE)
  }

  /** The packets under way as fragments are the long ones given to the manager. */
  ghost predicate PlanMatches(peer: string, l: Link) {
    PlanOK(l.plan) && forall i: nat :: i < |l.sends| ==> PlannedAt(peer, l, i)
  }

  /** The message was given to the manager. */
  ghost predicate WasSent(sends: seq<Outgoing>, m: V6A.ReceivedMessage) {
    exists i :: 0 <= i < |sends| && m == V6A.AsReceived(sends[i].message)
  }

  ghost predicate HeardWasSent(l: Link) {
    forall m :: m in l.receiver.heard ==> WasSent(l.sends, m)
  }

  ghost predicate AckedWasHeard(l: Link) {
    forall i :: 0 <= i < |l.sender.messages| && l.sender.messages[i].acked ==>
      l.sender.messages[i].messageId in HeardIds(l.receiver)
  }

  ghost predicate LinkOK(peer: string, l: Link) {
    && P.Inv(l.sender) && BookOK(l) && PlanMatches(peer, l)
    && ReceiverOK(l.receiver) && Genuine(l.receiver.table, l.plan)
    && HeardWasSent(l) && AckedWasHeard(l)
  }

  lemma FragmentedSplittable(o: Outgoing)
    requires Sendable(o) && Fragmented(o)
    ensures Splittable(PacketFor(o), MAX_CHUNK_SIZE)
  {
    OffsetIsProduct(MAX_CHUNK_SIZE, MAX_FRAGMENTS);
    CountWithin(|PacketFor(o)|, MAX_CHUNK_SIZE, MAX_FRAGMENTS);
    hide V6A.PacketOf, V6A.ValidateMessage;
  }

  lemma PacketDecodes(o: Outgoing)
    requires Sendable(o)
    ensures V6A.Decode(PacketFor(o)) == Ok(V6A.AsReceived(o.message))
    ensures PacketFor(o) != [] && PacketFor(o)[0] != V7_MARKER
  {
    assert PacketFor(o)[0] == V6A.PROTOCOL_VERSION;
    V6A.PacketRoundTrip(o.message);
    hide V6A.Decode, V6A.ValidateMessage, V6A.AsReceived;
  }

  /** A packet hands over at most the message that it decodes to. */
  lemma OnPacketHears(r: Receiver, packet: seq<byte>, group: Option<nat>, now: int, m: V6A.ReceivedMessage)
    requires V6A.Decode(packet) == Ok(m)
    ensures var r' := OnPacket(r, packet, group, now);
      r'.table == r.table && (r'.heard == r.heard || r'.heard == r.heard + [m])
  {
  }

  /** Frame k of message i, as an arrival at the reassembler. */
  lemma FrameIsWire(peer: string, l: Link, i: nat, k: nat, now: int)
    requires PlanMatches(peer, l) && i < |l.sends| && Sendable(l.sends[i]) && Fragmented(l.sends[i])
    requires k < |FramesOf(l.sends[i])|
    ensures var a := Arrival(peer, l.sends[i].groupId, k, now);
      && Fits(l.plan, a) && KeyOf(a) == KeyFor(peer, l.sends[i])
      && l.plan[KeyOf(a)] == Sent(PacketFor(l.sends[i]), MAX_CHUNK_SIZE)
      && FramesOf(l.sends[i])[k] == Wire(l.plan, a)
  {
    assert PlannedAt(peer, l, i);
    ChunkInside(|PacketFor(l.sends[i])|, MAX_CHUNK_SIZE, k);
    hide V6A.PacketOf, V6A.ValidateMessage, ChunkCount, Offset, Splittable, FragmentAt, MakeGroupKey;
  }

  ghost predicate HearsAtMost(r: Receiver, r': Receiver, m: V6A.ReceivedMessage) {
    r'.heard == r.heard || r'.heard == r.heard + [m]
  }

  lemma SingleArrives(r: Receiver, peer: string, o: Outgoing, now: int)
    requires Sendable(o)
    ensures var r' := OnData(r, peer, PacketFor(o), now);
      r'.table == r.table && HearsAtMost(r, r', V6A.AsReceived(o.message))
  {
    PacketDecodes(o);
    OnPacketHears(r, PacketFor(o), None, now, V6A.AsReceived(o.message));
    hide OnPacket, V6A.Decode, PacketFor, V6A.AsReceived;
  }

  /** A genuine fragment keeps the reassembler genuine and hands over at most the message it is part of. */
  lemma FragmentArrives(plan: Plan, r: Receiver, a: Arrival, o: Outgoing)
    requires PlanOK(plan) && Fits(plan, a) && Genuine(r.table, plan) && Sendable(o)
    requires plan[KeyOf(a)].packet == PacketFor(o)
    ensures var r' := OnData(r, a.sourceId, Wire(plan, a), a.now);
      Genuine(r'.table, plan) && HearsAtMost(r, r', V6A.AsReceived(o.message))
  {
    hide Genuine, Fits, PlanOK, PacketFor, V6A.AsReceived, V6A.Decode, OnPacket, Wire, AddFragmentTo, KeyOf,
         AcceptableHeader;
    RealStepGenuine(plan, r.table, a);
    WireHeader(plan, a);
    PacketDecodes(o);
    var (t, answer) := RealStep(plan, r.table, a);
    var h := ParseHeader(Wire(plan, a)).value;
    if answer.Complete? {
      OnPacketHears(r.(table := t), answer.v6aPacket, Some(h.groupId), a.now, V6A.AsReceived(o.message));
    }
  }

  lemma WireHeader(plan: Plan, a: Arrival)
    requires PlanOK(plan) && Fits(plan, a)
    ensures var p := Wire(plan, a);
      && ParseHeader(p).Ok? && |p| >= V7_HEADER_SIZE && p[0] == V7_MARKER
  {
    WireParses(plan, a);
  }

  // Each step keeps the invariant ------------------------------------------------------------------------

  lemma RegisteredBook(peer: string, l: Link, o: Outgoing)
    requires P.Inv(l.sender) && BookOK(l) && Sendable(o)
    ensures R.InRange(l.sender, l.sender.active) && R.InRange(l.sender, l.sender.queued)
    ensures P.Inv(Registered(peer, l, o).sender) && BookOK(Registered(peer, l, o))
  {
    hide P.Inv, Sendable, WireId, FramesOf, Fragmented, R.InRange;
    var e := R.Send(WireId(o), if Fragmented(o) then o.groupId else 0, FramesOf(o));
    P.StepInv(l.sender, e);
    var s1 := R.Step(l.sender, e).0;
    P.MinorInv(s1, o.groupId, WireId(o));
    var l' := Registered(peer, l, o);
    forall i: nat | i < |l'.sends|
      ensures BookedAt(l', i)
    {
      assert i < |l.sends| ==> BookedAt(l, i);
    }
  }

  lemma GenuineGrows(plan: Plan, t: Table, key: string, p: Sent)
    requires PlanOK(plan) && Genuine(t, plan) && key !in plan && Splittable(p.packet, p.d)
    ensures PlanOK(plan[key := p]) && Genuine(t, plan[key := p])
  {
    hide Splittable, TableOK, GenuineState;
  }

  lemma RegisteredPlan(peer: string, l: Link, o: Outgoing)
    requires R.InRange(l.sender, l.sender.active) && R.InRange(l.sender, l.sender.queued)
    requires PlanMatches(peer, l) && Genuine(l.receiver.table, l.plan) && Sendable(o) && FreshGroup(peer, l, o)
    ensures PlanMatches(peer, Registered(peer, l, o)) && Genuine(l.receiver.table, Registered(peer, l, o).plan)
  {
    hide Genuine, PlanOK, Splittable, Sendable, PacketFor, Fragmented, KeyFor, WireId, FramesOf, R.Step;
    var l' := Registered(peer, l, o);
    if Fragmented(o) {
      FragmentedSplittable(o);
      GenuineGrows(l.plan, l.receiver.table, KeyFor(peer, o), Sent(PacketFor(o), MAX_CHUNK_SIZE));
    }
    assert l'.sends == l.sends + [o];
    forall i: nat | i < |l'.sends|
      ensures PlannedAt(peer, l', i)
    {
      if i < |l.sends| {
        assert PlannedAt(peer, l, i) && l'.sends[i] == l.sends[i];
      }
    }
  }

  lemma WasSentGrows(sends: seq<Outgoing>, o: Outgoing, m: V6A.ReceivedMessage)
    requires WasSent(sends, m)
    ensures WasSent(sends + [o], m)
  {
    var i :| 0 <= i < |sends| && m == V6A.AsReceived(sends[i].message);
    assert (sends + [o])[i] == sends[i];
  }

  lemma SendOK(peer: string, l: Link, o: Outgoing)
    requires LinkOK(peer, l) && Sendable(o) && FreshGroup(peer, l, o)
    ensures R.InRange(l.sender, l.sender.active) && R.InRange(l.sender, l.sender.queued)
    ensures LinkOK(peer, Registered(peer, l, o))
  {
    hide P.Inv, BookOK, PlanMatches, Genuine, Sendable, FreshGroup, FramesOf, WireId, Fragmented, R.Step, ReceiverOK;
    RegisteredBook(peer, l, o);
    RegisteredPlan(peer, l, o);
    var l' := Registered(peer, l, o);
    var e := R.Send(WireId(o), if Fragmented(o) then o.groupId else 0, FramesOf(o));
    assert l'.sender.messages == R.Step(l.sender, e).0.messages;
    P.StepAcks(l.sender, e);
    P.StepConserves(l.sender, e);
    forall m | m in l'.receiver.heard
      ensures WasSent(l'.sends, m)
    {
      WasSentGrows(l.sends, o, m);
    }
    AcksStayHeard(l.sender, l'.sender, None, l.receiver);
  }

  /** Marks of the sender stay honest when only heard ids are newly marked. */
  lemma AcksStayHeard(s: R.State, s': R.State, id: Option<string>, r: Receiver)
    requires P.NewAcks(s, s', id) && P.KeepsBook(s, s') && (id.Some? ==> id.value in HeardIds(r))
    requires forall i :: 0 <= i < |s.messages| && s.messages[i].acked ==> s.messages[i].messageId in HeardIds(r)
    ensures forall i :: 0 <= i < |s'.messages| && s'.messages[i].acked ==> s'.messages[i].messageId in HeardIds(r)
  {
  }

  lemma BookKept(l: Link, l': Link)
    requires BookOK(l) && l'.sends == l.sends
    requires P.KeepsBook(l.sender, l'.sender) && |l'.sender.messages| == |l.sender.messages|
    ensures BookOK(l')
  {
    hide Sendable, WireId, FramesOf;
    forall i: nat | i < |l'.sends|
      ensures BookedAt(l', i)
    {
      assert BookedAt(l, i);
    }
  }

  lemma PlanKept(peer: string, l: Link, l': Link)
    requires PlanMatches(peer, l) && l'.plan == l.plan && l'.sends == l.sends
    ensures PlanMatches(peer, l')
  {
    hide PlanOK, KeyFor, PacketFor, Fragmented;
    forall i: nat | i < |l'.sends|
      ensures PlannedAt(peer, l', i)
    {
      assert PlannedAt(peer, l, i);
    }
  }

  lemma SenderMovesOK(peer: string, l: Link, e: R.Input)
    requires LinkOK(peer, l) && !e.Send? && (e.HandleAck? ==> e.ackedId in HeardIds(l.receiver))
    ensures R.InRange(l.sender, l.sender.active) && R.InRange(l.sender, l.sender.queued)
    ensures LinkOK(peer, l.(sender := R.Step(l.sender, e).0))
  {
    hide P.Inv, R.Step, R.InRange, BookOK, PlanMatches, Genuine, ReceiverOK, HeardIds, P.NewAcks, P.KeepsBook;
    P.StepInv(l.sender, e);
    P.StepConserves(l.sender, e);
    P.StepAcks(l.sender, e);
    var s' := R.Step(l.sender, e).0;
    BookKept(l, l.(sender := s'));
    PlanKept(peer, l, l.(sender := s'));
    AcksStayHeard(l.sender, s', if e.HandleAck? then Some(e.ackedId) else None, l.receiver);
  }

  lemma HeardIsHex(l: Link, id: string)
    requires HeardWasSent(l) && id in HeardIds(l.receiver)
    ensures BitChatPacket.IsValidId(id)
  {
    var i :| 0 <= i < |l.receiver.heard| && HeardIds(l.receiver)[i] == id;
    var m := l.receiver.heard[i];
    assert m in l.receiver.heard;
    var k :| 0 <= k < |l.sends| && m == V6A.AsReceived(l.sends[k].message);
    BitChatPacket.FormatThenRead(V6A.HashMessageId(l.sends[k].message.messageId));
  }

  /** A receiver step that keeps its own invariant and hears only what was sent keeps the link's. */
  lemma ReceiverMovesOK(peer: string, l: Link, r: Receiver, m: V6A.ReceivedMessage)
    requires LinkOK(peer, l) && ReceiverOK(r) && Genuine(r.table, l.plan)
    requires HearsAtMost(l.receiver, r, m) && WasSent(l.sends, m) && HeardIds(l.receiver) <= HeardIds(r)
    ensures LinkOK(peer, l.(receiver := r))
  {
    hide P.Inv, Genuine, ReceiverOK, WasSent, Sendable, FramesOf, WireId, HeardIds, PlanMatches;
    BookKept(l, l.(receiver := r));
    PlanKept(peer, l, l.(receiver := r));
    assert forall id :: id in HeardIds(l.receiver) ==> id in HeardIds(r);
  }

  lemma FrameArrivesOK(peer: string, l: Link, i: nat, k: nat, now: int)
    requires LinkOK(peer, l) && i < |l.sender.messages| && k < |l.sender.messages[i].frames|
    ensures LinkOK(peer, l.(receiver := OnData(l.receiver, peer, l.sender.messages[i].frames[k], now)))
  {
    hide P.Inv, Genuine, ReceiverOK, OnData, HearsAtMost, HeardWasSent, AckedWasHeard, Fits, KeyOf, PacketFor,
         V6A.AsReceived;
    assert BookedAt(l, i);
    var o := l.sends[i];
    var payload := l.sender.messages[i].frames[k];
    assert WasSent(l.sends, V6A.AsReceived(o.message));
    OnDataOK(l.receiver, peer, payload, now);
    if Fragmented(o) {
      FrameIsWire(peer, l, i, k, now);
      FragmentArrives(l.plan, l.receiver, Arrival(peer, o.groupId, k, now), o);
    } else {
      SingleArrives(l.receiver, peer, o, now);
    }
    ReceiverMovesOK(peer, l, OnData(l.receiver, peer, payload, now), V6A.AsReceived(o.message));
  }

  lemma PlanIsOK(peer: string, l: Link)
    requires PlanMatches(peer, l)
    ensures PlanOK(l.plan)
  {
  }

  lemma CleanupOK(peer: string, l: Link, now: int)
    requires LinkOK(peer, l)
    ensures LinkOK(peer, l.(receiver := OnCleanup(l.receiver, now)))
  {
    hide P.Inv, Sendable, WireId, FramesOf, Genuine, ReceiverOK, WasSent, HeardIds, Restrict, Unexpired, PlanMatches;
    BookKept(l, l.(receiver := OnCleanup(l.receiver, now)));
    PlanKept(peer, l, l.(receiver := OnCleanup(l.receiver, now)));
    PlanIsOK(peer, l);
    RestrictGenuine(l.plan, l.receiver.table, Unexpired(l.receiver.table, now));
    TableOnly(l.receiver, OnCleanup(l.receiver, now).table);
  }

  lemma AirIsFree(peer: string, l: Link, air: set<(nat, nat)>)
    requires LinkOK(peer, l)
    ensures LinkOK(peer, l.(onAir := air))
  {
    hide P.Inv, Genuine, ReceiverOK, WasSent, Sendable, FramesOf, WireId, HeardIds, PlanMatches;
    BookKept(l, l.(onAir := air));
    PlanKept(peer, l, l.(onAir := air));
  }

  lemma AckArrivesOK(peer: string, l: Link, id: string)
    requires LinkOK(peer, l) && id in l.receiver.acks
    ensures R.InRange(l.sender, l.sender.active) && R.InRange(l.sender, l.sender.queued)
    ensures BitChatPacket.IsPrefixedHex(id) && LinkOK(peer, LinkStep(peer, l, AckArrives(id)))
  {
    hide LinkOK, R.Step;
    assert id in HeardIds(l.receiver) && HeardWasSent(l) by { LinkParts(peer, l); }
    HeardIsHex(l, id);
    Payloads.AckRoundTrip(id, []);
    assert Payloads.AckBytes(id) + [] == Payloads.AckBytes(id);
    SenderMovesOK(peer, l, R.HandleAck(id));
  }

  lemma LinkParts(peer: string, l: Link)
    requires LinkOK(peer, l)
    ensures HeardWasSent(l) && (forall id :: id in l.receiver.acks ==> id in HeardIds(l.receiver))
    ensures R.InRange(l.sender, l.sender.active) && R.InRange(l.sender, l.sender.queued)
  {
    P.InvInRange(l.sender);
  }

  lemma LinkStepOK(peer: string, l: Link, e: LinkInput)
    requires LinkOK(peer, l)
    ensures R.InRange(l.sender, l.sender.active) && R.InRange(l.sender, l.sender.queued)
    ensures LinkOK(peer, LinkStep(peer, l, e))
  {
    hide LinkOK, R.Step, R.InRange, Sendable, FreshGroup, Registered, OnData, HeardIds, Genuine;
    LinkParts(peer, l);
    match e
    case SendMessage(o) =>
      if Sendable(o) && FreshGroup(peer, l, o) { SendOK(peer, l, o); }
    case Transmit(m, k) => AirIsFree(peer, l, l.onAir + {(m, k)});
    case SenderEvent(e) =>
      if Local(e) {
        SenderMovesOK(peer, l, e);
        AirIsFree(peer, l.(sender := R.Step(l.sender, e).0), l.onAir + Started(R.Step(l.sender, e).1));
      }
    case FrameArrives(m, k, now) =>
      if m < |l.sender.messages| && k < |l.sender.messages[m].frames| { FrameArrivesOK(peer, l, m, k, now); }
    case AckArrives(id) =>
      if id in l.receiver.acks { AckArrivesOK(peer, l, id); }
    case CleansUp(now) => CleanupOK(peer, l, now);
  }
}
