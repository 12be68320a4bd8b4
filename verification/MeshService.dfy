/**
 * A chat message on its way through the mesh, and the chat service that hears its packets: whatever
 * their order, the service recovers the message exactly when it has heard all of them.
 *
 * The service is followed along the list `js` of the indices of the payloads it hears. Its reassembler
 * goes through a session of Reassembly with a single group, which is complete when the list has all
 * indices.
 */
module MeshService {
  import opened Wrappers
  import opened Bytes
  import opened Collections
  import opened FragmentCodec
  import opened Reassembler
  import opened Reassembly
  import opened ChatMessageService
  import opened FloodCoverage
  import BitChatPacket
  import Utf8
  import Dedup = DedupCache
  import Engine = RelayEngine
  import Stack = ChatStack
  import Store = ChatMessageStore
  import V6A = BinaryMessageCodec

  /** A message from node o: `packet` is its V6A packet, and `plan` are the originations of sendChatMessage. */
  datatype Sending = Sending(
    g: Graph, o: nat, destination: nat, ttl: nat, message: V6A.SemanticMessage, packet: seq<byte>, groupId: nat,
    plan: seq<Origination>)

  /** The mesh packet of one origination. */
  function MeshPacket(c: Sending, x: Origination): Engine.Packet
    requires BitChatPacket.IsPrefixedHex(x.packetId)
  {
    Engine.Packet(1, Engine.PACKET_TYPE_DATA, c.ttl, c.o, c.destination, BitChatPacket.IdValue(x.packetId), 0,
      x.payload)
  }

  /** Origination i is one of those sendChatMessage makes for the message. */
  ghost predicate Originates(c: Sending, i: nat) {
    && i < |c.plan|
    && V6A.ValidateMessage(c.message).Ok? && c.packet == V6A.PacketOf(c.message) && FitsBudget(c.packet, CHUNK_BUDGET)
    && IsSendPlan(c.packet, V6A.HashMessageId(c.message.messageId), c.groupId, c.plan)
  }

  ghost predicate IsSending(c: Sending) {
    && c.o < TWO_64 && c.groupId < TWO_32 && 0 < |c.plan|
    && forall i: nat :: i < |c.plan| ==> Originates(c, i)
  }

  lemma PlanKeysDiffer(c: Sending, i: nat, j: nat)
    requires c.o < TWO_64 && Originates(c, i) && j < |c.plan| && i != j
    ensures BitChatPacket.IsPrefixedHex(c.plan[i].packetId) && BitChatPacket.IsPrefixedHex(c.plan[j].packetId)
    ensures Engine.KeyOf(MeshPacket(c, c.plan[i])) != Engine.KeyOf(MeshPacket(c, c.plan[j]))
  {
    hide V6A.PacketOf, V6A.HashMessageId, V6A.ValidateMessage, Dedup.BuildKey, BitChatPacket.IsValidId,
         BitChatPacket.IdValue;
    SendPlanFits(c.packet, V6A.HashMessageId(c.message.messageId), c.groupId, c.plan);
    var x, y := c.plan[i].packetId, c.plan[j].packetId;
    assert i < j ==> c.plan[i].packetId != c.plan[j].packetId;
    assert j < i ==> c.plan[j].packetId != c.plan[i].packetId;
    BitChatPacket.IdsAreValues(x, y);
    BitChatPacket.ReadThenFormat(x);
    BitChatPacket.ReadThenFormat(y);
    Dedup.KeyInjective(c.o, BitChatPacket.IdValue(x), c.o, BitChatPacket.IdValue(y));
  }

  /** Every plan that sendChatMessage makes is one of these. */
  lemma PlansAreOriginated(c: Sending, messageId: seq<Utf8.unit>, text: seq<Utf8.unit>, i: nat)
    requires messageId != [] && Trimmed(text) != [] && c.message == MessageFor(messageId, Trimmed(text))
    requires c.packet == V6A.PacketOf(c.message) && FitsBudget(c.packet, CHUNK_BUDGET)
    requires IsSendPlan(c.packet, V6A.HashMessageId(messageId), c.groupId, c.plan)
    ensures i < |c.plan| ==> Originates(c, i)
    ensures IsTrimOf(text, c.message.text) && (Tight(text) ==> c.message.text == text)
  {
    MessageForIsValid(messageId, text);
    TrimmedIsTrim(text);
    if Tight(text) { TightIsTrimmed(text); }
    hide Trimmed, V6A.ValidateMessage, V6A.PacketOf, V6A.HashMessageId, IsSendPlan, FitsBudget;
  }

  /** The nodes that are to hear the message. */
  ghost predicate InReach(c: Sending, v: nat) {
    v in Reach(c.g, c.o, c.ttl) && v != c.o && (c.destination == v || c.destination == Engine.NODE_ID_BROADCAST)
  }

  /** Different payloads of the message, by their indices. */
  ghost predicate Ordered(c: Sending, js: seq<nat>) {
    Distinct(js) && forall k :: 0 <= k < |js| ==> js[k] < |c.plan|
  }

  // The application at a node in reach -------------------------------------------------------------------

  /** The reassembler of a node's chat service after the first k payloads, heard at the given times. */
  function TableAt(c: Sending, js: seq<nat>, now: nat -> int, k: nat): Table
    requires Ordered(c, js) && k <= |js|
  {
    if k == 0 then EMPTY_TABLE
    else Stack.ReceiveChat(TableAt(c, js, now, k - 1), BitChatPacket.FormatId(c.o), c.plan[js[k - 1]].payload,
      now(k - 1)).0
  }

  /** What the node makes of the k-th of them. */
  function RecoveredAt(c: Sending, js: seq<nat>, now: nat -> int, k: nat): Option<V6A.ReceivedMessage>
    requires Ordered(c, js) && k < |js|
  {
    Stack.ReceiveChat(TableAt(c, js, now, k), BitChatPacket.FormatId(c.o), c.plan[js[k]].payload, now(k)).1
  }

  function KeyAt(c: Sending): string {
    MakeGroupKey(BitChatPacket.FormatId(c.o), c.groupId)
  }

  function PlanAt(c: Sending): Plan {
    map[KeyAt(c) := Sent(c.packet, DataBudget(CHUNK_BUDGET))]
  }

  function ArrivalAt(c: Sending, js: seq<nat>, now: nat -> int, k: nat): Arrival
    requires k < |js|
  {
    Arrival(BitChatPacket.FormatId(c.o), c.groupId, js[k], now(k))
  }

  /** The message takes more than one packet. */
  predicate Split(c: Sending) {
    |c.packet| > DataBudget(CHUNK_BUDGET)
  }

  lemma ArrivalFits(c: Sending, js: seq<nat>, now: nat -> int, k: nat)
    requires IsSending(c) && Split(c) && Ordered(c, js) && k < |js|
    ensures PlanOK(PlanAt(c)) && Fits(PlanAt(c), ArrivalAt(c, js, now, k))
      && KeyOf(ArrivalAt(c, js, now, k)) == KeyAt(c)
    ensures c.plan[js[k]].payload == EncodeChatApplicationPayload(Wire(PlanAt(c), ArrivalAt(c, js, now, k)))
    ensures Stack.Carries(PlanAt(c), map[KeyAt(c) := c.message])
  {
    hide V6A.PacketOf, V6A.ValidateMessage, V6A.HashMessageId, MakeGroupKey, ChunkCount, Offset,
         FragmentAt, EncodeChatApplicationPayload, BitChatPacket.FormatId, FragmentPacketId;
    var messages := map[KeyAt(c) := c.message];
    assert Originates(c, js[k]);
    forall key
      ensures Stack.CarriedAt(PlanAt(c), messages, key)
    {
    }
  }

  ghost function AnswerAt(c: Sending, js: seq<nat>, now: nat -> int, k: nat): ReassemblyResult
    requires Ordered(c, js) && k < |js|
  {
    if PlanOK(PlanAt(c)) && Fits(PlanAt(c), ArrivalAt(c, js, now, k)) then
      RealStep(PlanAt(c), TableAt(c, js, now, k), ArrivalAt(c, js, now, k)).1
    else Incomplete
  }

  /** The node's reassembly session. */
  ghost function SessionAt(c: Sending, js: seq<nat>, now: nat -> int): Session
    requires Ordered(c, js)
  {
    var n := |js|;
    Session(PlanAt(c), seq(n, k requires 0 <= k < n => ArrivalAt(c, js, now, k)),
            seq(n + 1, k requires 0 <= k <= n => TableAt(c, js, now, k)),
            seq(n, k requires 0 <= k < n => AnswerAt(c, js, now, k)))
  }

  lemma PayloadStep(c: Sending, js: seq<nat>, now: nat -> int, k: nat)
    requires IsSending(c) && Split(c) && Ordered(c, js) && k < |js|
    ensures Received(SessionAt(c, js, now), k)
    ensures var answer := AnswerAt(c, js, now, k);
      RecoveredAt(c, js, now, k) == if answer.Complete? then Stack.Semantic(answer.v6aPacket) else None
  {
    hide IsSending, Wire, Stack.ReceiveChat, RealStep, EncodeChatApplicationPayload, Stack.Carries, PlanOK, Fits,
         BitChatPacket.FormatId, Stack.Semantic, MakeGroupKey;
    ArrivalFits(c, js, now, k);
    Stack.ChatStep(PlanAt(c), map[KeyAt(c) := c.message], TableAt(c, js, now, k), ArrivalAt(c, js, now, k));
  }

  lemma SessionHolds(c: Sending, js: seq<nat>, now: nat -> int)
    requires IsSending(c) && Split(c) && Ordered(c, js)
    ensures IsSession(SessionAt(c, js, now))
  {
    hide IsSending, Received, PlanOK, TableAt, AnswerAt;
    assert TableAt(c, js, now, 0) == EMPTY_TABLE by { FirstTable(c, js, now); }
    assert PlanOK(PlanAt(c)) by { SplitPlanOK(c); }
    forall k: nat | k < |js|
      ensures Received(SessionAt(c, js, now), k)
    {
      PayloadStep(c, js, now, k);
    }
  }

  lemma FirstTable(c: Sending, js: seq<nat>, now: nat -> int)
    requires Ordered(c, js)
    ensures TableAt(c, js, now, 0) == EMPTY_TABLE
  {
  }

  lemma SplitPlanOK(c: Sending)
    requires IsSending(c) && Split(c)
    ensures PlanOK(PlanAt(c)) && |c.plan| == CountOf(PlanAt(c)[KeyAt(c)])
  {
    hide V6A.PacketOf, V6A.ValidateMessage, V6A.HashMessageId, MakeGroupKey, FragmentAt;
    assert Originates(c, 0);
    CountBounds(|c.packet|, DataBudget(CHUNK_BUDGET));
  }

  /** The reassembler of the node never holds anything but chunks of this message. */
  lemma {:induction false} TableGenuine(c: Sending, js: seq<nat>, now: nat -> int, k: nat)
    requires IsSending(c) && Split(c) && Ordered(c, js) && k <= |js|
    ensures PlanOK(PlanAt(c)) && Genuine(TableAt(c, js, now, k), PlanAt(c))
  {
    hide IsSending, PlanOK, Genuine, RealStep, GenuineOutcome, Fits, Stack.ReceiveChat;
    SplitPlanOK(c);
    if k == 0 {
      NothingIsGenuine(PlanAt(c));
      FirstTable(c, js, now);
    } else {
      TableGenuine(c, js, now, k - 1);
      PayloadStep(c, js, now, k - 1);
      ArrivalFits(c, js, now, k - 1);
      RealStepGenuine(PlanAt(c), TableAt(c, js, now, k - 1), ArrivalAt(c, js, now, k - 1));
      NextTable(c, js, now, k - 1);
    }
  }

  lemma NothingIsGenuine(plan: Plan)
    requires PlanOK(plan)
    ensures Genuine(EMPTY_TABLE, plan)
  {
  }

  lemma NextTable(c: Sending, js: seq<nat>, now: nat -> int, k: nat)
    requires Ordered(c, js) && k < |js| && Received(SessionAt(c, js, now), k)
    requires PlanOK(PlanAt(c)) && Fits(PlanAt(c), ArrivalAt(c, js, now, k))
    ensures TableAt(c, js, now, k + 1) == RealStep(PlanAt(c), TableAt(c, js, now, k), ArrivalAt(c, js, now, k)).0
  {
    hide RealStep, PlanOK, Fits, TableAt;
    var tables := SessionAt(c, js, now).tables;
    assert tables[k + 1] == TableAt(c, js, now, k + 1) && tables[k] == TableAt(c, js, now, k);
  }

  lemma OneGroupOnly(c: Sending, t: Table)
    requires PlanOK(PlanAt(c)) && Genuine(t, PlanAt(c))
    ensures |t.groups| <= 1
  {
    hide TableOK, GenuineState;
    assert t.groups.Keys <= {KeyAt(c)};
    SubsetSize(t.groups.Keys, {KeyAt(c)});
    assert |t.groups| == |t.groups.Keys|;
  }

  lemma SessionHasRoom(c: Sending, js: seq<nat>, now: nat -> int)
    requires IsSending(c) && Split(c) && Ordered(c, js)
    ensures AtMostEightOpen(SessionAt(c, js, now))
  {
    hide IsSending, TableAt, PlanOK, Genuine, AnswerAt;
    forall k: nat | k < |js|
      ensures RoomAt(SessionAt(c, js, now), k)
    {
      TableGenuine(c, js, now, k);
      OneGroupOnly(c, TableAt(c, js, now, k));
    }
  }

  /** The first k payloads heard are the fragments with their indices. */
  lemma {:induction false} HeardIndices(c: Sending, js: seq<nat>, now: nat -> int, k: nat)
    requires Ordered(c, js) && k <= |js|
    ensures IndicesOf(SessionAt(c, js, now).arrivals[..k], KeyAt(c)) == Elements(js[..k])
  {
    hide AnswerAt, TableAt, MakeGroupKey, PlanAt;
    var arrivals := SessionAt(c, js, now).arrivals;
    if k > 0 {
      HeardIndices(c, js, now, k - 1);
      assert arrivals[..k][..k - 1] == arrivals[..k - 1];
      assert arrivals[..k][k - 1] == ArrivalAt(c, js, now, k - 1);
      assert js[..k] == js[..k - 1] + [js[k - 1]];
    }
    hide Ordered;
  }

  /** They are all there when as many have been heard as there are. */
  lemma AllHeard(c: Sending, js: seq<nat>, k: nat)
    requires Ordered(c, js) && k <= |js|
    ensures Elements(js[..k]) == Below(|c.plan|) <==> k == |c.plan|
    ensures k <= |c.plan|
  {
    DistinctElements(js[..k]);
    BelowSize(|c.plan|);
    assert Elements(js[..k]) <= Below(|c.plan|);
    SubsetSize(Elements(js[..k]), Below(|c.plan|));
  }

  lemma {:induction false} DistinctElements(s: seq<nat>)
    requires Distinct(s)
    ensures |Elements(s)| == |s|
  {
    if s != [] {
      var init, x := s[..|s| - 1], s[|s| - 1];
      assert s == init + [x];
      DistinctPush(init, x);
      DistinctElements(init);
      assert Elements(s) == Elements(init) + {x};
    }
  }

  lemma SplitRecovered(c: Sending, js: seq<nat>, now: nat -> int, k: nat)
    requires IsSending(c) && Split(c) && Ordered(c, js) && k < |js|
    ensures RecoveredAt(c, js, now, k) == if k == |c.plan| - 1 then Some(V6A.AsReceived(c.message)) else None
  {
    hide IsSending, IsSession, AtMostEightOpen, TableAt, RecoveredAt, PlanOK, Received, IndicesOf, Below, Elements,
         Ordered, Stack.Semantic, V6A.AsReceived,
         MakeGroupKey, Stack.Carries, Fits;
    SessionHolds(c, js, now);
    SessionHasRoom(c, js, now);
    SplitPlanOK(c);
    HeardIndices(c, js, now, k);
    HeardIndices(c, js, now, k + 1);
    AllHeard(c, js, k);
    AllHeard(c, js, k + 1);
    ArrivalFits(c, js, now, k);
    SplitThenReassemble(SessionAt(c, js, now), k, KeyAt(c));
    PayloadStep(c, js, now, k);
    Stack.CarriedDecodes(PlanAt(c), map[KeyAt(c) := c.message], KeyAt(c));
  }

  lemma WholeRecovered(c: Sending, js: seq<nat>, now: nat -> int, k: nat)
    requires IsSending(c) && !Split(c) && Ordered(c, js) && k < |js|
    ensures |c.plan| == 1 && RecoveredAt(c, js, now, k) == Some(V6A.AsReceived(c.message))
  {
    hide V6A.PacketOf, V6A.ValidateMessage, V6A.HashMessageId, V6A.AsReceived, Stack.ReceiveChat,
         EncodeChatApplicationPayload;
    assert Originates(c, js[k]);
    Stack.WholeRecovers(TableAt(c, js, now, k), BitChatPacket.FormatId(c.o), c.message, now(k));
  }

  lemma Recovered(c: Sending, js: seq<nat>, now: nat -> int, k: nat)
    requires IsSending(c) && Ordered(c, js) && k < |js|
    ensures RecoveredAt(c, js, now, k) == if k == |c.plan| - 1 then Some(V6A.AsReceived(c.message)) else None
  {
    hide IsSending, RecoveredAt, V6A.AsReceived;
    if Split(c) {
      SplitRecovered(c, js, now, k);
    } else {
      WholeRecovered(c, js, now, k);
      AllHeard(c, js, k + 1);
    }
  }

  /** The chat service of a node: its reassembler, and the messages recovered so far. */
  datatype Service = Service(table: Table, recovered: seq<V6A.ReceivedMessage>)

  /** A service that has been handed the packets in order, the i-th one at now(i). */
  function Serving(ps: seq<Engine.Packet>, now: nat -> int): Service {
    if ps == [] then Service(EMPTY_TABLE, [])
    else
      var n := |ps| - 1;
      var s := Serving(ps[..n], now);
      var (t, m) := Stack.ReceiveChat(s.table, BitChatPacket.FormatId(ps[n].source), ps[n].payload, now(n));
      Service(t, s.recovered + if m.Some? then [m.value] else [])
  }

  /** The packets carry the payloads with the given indices, as sent by the origin. */
  ghost predicate Carry(c: Sending, js: seq<nat>, ps: seq<Engine.Packet>) {
    && Ordered(c, js) && |ps| == |js|
    && forall k :: 0 <= k < |ps| ==> ps[k].source == c.o && ps[k].payload == c.plan[js[k]].payload
  }

  lemma {:induction false} ServingTable(c: Sending, js: seq<nat>, ps: seq<Engine.Packet>, now: nat -> int, k: nat)
    requires IsSending(c) && Carry(c, js, ps) && k <= |ps|
    ensures Serving(ps[..k], now).table == TableAt(c, js, now, k)
    ensures Serving(ps[..k], now).recovered == if k == |c.plan| then [V6A.AsReceived(c.message)] else []
  {
    hide IsSending, Ordered, Stack.ReceiveChat, V6A.AsReceived, RecoveredAt;
    if k == 0 {
      PlanNotEmpty(c);
    } else {
      ServingTable(c, js, ps, now, k - 1);
      Recovered(c, js, now, k - 1);
      AllHeard(c, js, k);
      assert ps[..k][..k - 1] == ps[..k - 1];
      RecoveredNow(c, js, ps, now, k - 1);
    }
  }

  lemma RecoveredNow(c: Sending, js: seq<nat>, ps: seq<Engine.Packet>, now: nat -> int, k: nat)
    requires Carry(c, js, ps) && k < |ps| && Serving(ps[..k], now).table == TableAt(c, js, now, k)
    ensures var r := RecoveredAt(c, js, now, k);
      Serving(ps[..k + 1], now).recovered == Serving(ps[..k], now).recovered + if r.Some? then [r.value] else []
  {
    assert ps[..k + 1][..k] == ps[..k];
    hide Ordered, Stack.ReceiveChat;
  }

  /**
   * A service that is handed different payloads of a message, in whatever order, recovers the
   * message exactly when it has been handed all of them, and from the last one.
   */
  lemma ServingRecovers(c: Sending, js: seq<nat>, ps: seq<Engine.Packet>, now: nat -> int)
    requires IsSending(c) && Carry(c, js, ps)
    ensures Serving(ps, now).recovered == if |ps| == |c.plan| then [V6A.AsReceived(c.message)] else []
  {
    hide IsSending, Carry, Serving, TableAt, V6A.AsReceived;
    ServingTable(c, js, ps, now, |ps|);
    assert ps[..|ps|] == ps;
  }

  lemma PlanNotEmpty(c: Sending)
    requires IsSending(c)
    ensures 0 < |c.plan|
  {
  }

  // The store -------------------------------------------------------------------------------------------------

  /** What a service that has recovered the messages puts into the store. */
  function Shown(source: nat, destination: nat, recovered: seq<V6A.ReceivedMessage>): (shown: seq<Store.ChatMessage>)
    ensures |shown| == |recovered|
  {
    var s, d := BitChatPacket.FormatId(source), BitChatPacket.FormatId(destination);
    seq(|recovered|, i requires 0 <= i < |recovered| => Stack.Incoming(s, d, recovered[i]))
  }

  /** The message as the store of a receiver is to have it: with the id, sender and text that the sender's store has. */
  function Delivered(c: Sending): Store.ChatMessage {
    Store.ChatMessage(BitChatPacket.FormatId(V6A.HashMessageId(c.message.messageId)), BitChatPacket.FormatId(c.o),
                      BitChatPacket.FormatId(c.destination), c.message.text, true, Store.RECEIVED)
  }

  /** A message recovered once is shown once, whatever else is in the store. */
  lemma RecoveredIsShown(c: Sending, store: seq<Store.ChatMessage>)
    requires Store.IncomingOnce(store)
    ensures var shown := Shown(c.o, c.destination, [V6A.AsReceived(c.message)]);
      && shown == [Delivered(c)] && Store.Occurrences(Stack.StoreAfter(store, shown), Delivered(c)) == 1
  {
    var shown := Shown(c.o, c.destination, [V6A.AsReceived(c.message)]);
    assert shown[0] == Delivered(c) && shown == [shown[0]];
    hide Store.IncomingOnce, Store.Occurrences, Stack.StoreAfter, Shown;
    Stack.RecoveredStoredOnce(store, shown, shown[0]);
  }
}
