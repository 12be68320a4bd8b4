/**
 * The whole chat stack: semantic packet, fragments, chat discriminator, mesh envelope and transport
 * frame on the way out; all of them undone, in any order of arrival, on the way in.
 */
module ChatStack {
  import opened Wrappers
  import opened Bytes
  import opened Collections
  import opened FragmentCodec
  import opened Reassembler
  import opened Reassembly
  import opened ChatMessageService
  import BitChatPacket
  import Store = ChatMessageStore
  import V6A = BinaryMessageCodec
  import Mesh = BitChatPacketCodec
  import V6B = V6BFrameCodec

  /** What may differ from hop to hop and from packet to packet. */
  datatype Hop = Hop(sequence: nat, ttl: nat, destination: string, packetId: string)

  predicate HopOK(h: Hop) {
    h.sequence < TWO_32 && h.ttl <= 255 && BitChatPacket.IsValidId(h.destination) && BitChatPacket.IsValidId(h.packetId)
  }

  function EnvelopeFor(source: string, h: Hop, payload: seq<byte>): Mesh.Envelope {
    Mesh.Envelope(Mesh.PROTOCOL_VERSION, 1, h.ttl, source, h.destination, h.packetId, 0, payload)
  }

  /** The transport frame that carries a chat payload from source over one hop. */
  function FrameFor(source: string, h: Hop, payload: seq<byte>): Result<seq<byte>> {
    match Mesh.Encode(EnvelopeFor(source, h, payload))
    case Err(e) => Err(e)
    case Ok(envelope) => V6B.Encode(h.sequence, V6B.V6B_FRAME_BITCHAT, envelope)
  }

  /** The mesh envelope inside a transport frame. */
  function Unframe(frame: seq<byte>): Option<Mesh.Envelope> {
    match V6B.Decode(frame)
    case Err(_) => None
    case Ok(f) =>
      if f.frameType != V6B.V6B_FRAME_BITCHAT then None
      else
        match Mesh.Decode(f.payload)
        case Err(_) => None
        case Ok(p) => Some(p)
  }

  /** receiveChatApplicationPayload: the reassembler afterwards, and the message to be stored, if any. */
  function ReceiveChat(t: Table, source: string, payload: seq<byte>, now: int): (Table, Option<V6A.ReceivedMessage>) {
    match DecodeChatApplicationPayload(payload)
    case None => (t, None)
    case Some(app) =>
      if app != [] && app[0] == V7_MARKER then
        var (t', r) := ReceivePayload(t, source, app, now);
        (t', if r.Complete? then Semantic(r.v6aPacket) else None)
      else (t, Semantic(app))
  }

  /** Payloads of other applications touch nothing. */
  lemma OnlyChatIsTaken(t: Table, source: string, payload: seq<byte>, now: int)
    ensures ReceiveChat(t, source, payload, now) != (t, None) ==>
      |payload| > 4 && payload[..4] == [0x49, 0x54, 0x43, 0x01]
  {
  }

  function Semantic(packet: seq<byte>): Option<V6A.ReceivedMessage> {
    match V6A.Decode(packet)
    case Err(_) => None
    case Ok(m) => Some(m)
  }

  function ReceiveFrame(t: Table, frame: seq<byte>, now: int): (Table, Option<V6A.ReceivedMessage>) {
    match Unframe(frame)
    case None => (t, None)
    case Some(p) => ReceiveChat(t, p.sourceNodeId, p.payload, now)
  }

  /** A chat payload within budget always makes a frame of at most 509 bytes, and the frame gives it back. */
  lemma FrameCarriesPayload(source: string, h: Hop, payload: seq<byte>)
    requires BitChatPacket.IsValidId(source) && HopOK(h) && |payload| <= CHAT_HEADER_SIZE + CHUNK_BUDGET
    ensures FrameFor(source, h, payload).Ok?
    ensures |FrameFor(source, h, payload).value| == |payload| + 38 <= V6B.V6B_MAX_FRAME_SIZE
    ensures Unframe(FrameFor(source, h, payload).value) == Some(EnvelopeFor(source, h, payload))
  {
    var p := EnvelopeFor(source, h, payload);
    assert Mesh.Encode(p).Ok?;
    Mesh.EnvelopeRoundTrip(p);
    var envelope := Mesh.Encode(p).value;
    V6B.FrameRoundTrip(h.sequence, V6B.V6B_FRAME_BITCHAT, envelope, []);
    var frame := V6B.Encode(h.sequence, V6B.V6B_FRAME_BITCHAT, envelope).value;
    assert frame + [] == frame;
    hide Mesh.Encode, Mesh.Decode, V6B.Decode;
  }

  /** Everything that sendChatMessage originates can be framed on every hop. */
  lemma SendPlanFrames(packet: seq<byte>, hash: nat, groupId: nat, plan: seq<Origination>, source: string, h: Hop,
        i: nat)
    requires FitsBudget(packet, CHUNK_BUDGET) && hash < TWO_64 && IsSendPlan(packet, hash, groupId, plan) && i < |plan|
    requires BitChatPacket.IsValidId(source) && HopOK(h)
    ensures FrameFor(source, h.(packetId := plan[i].packetId), plan[i].payload).Ok?
    ensures |FrameFor(source, h.(packetId := plan[i].packetId), plan[i].payload).value| <= V6B.V6B_MAX_FRAME_SIZE
  {
    SendPlanFits(packet, hash, groupId, plan);
    FrameCarriesPayload(source, h.(packetId := plan[i].packetId), plan[i].payload);
    hide FrameFor, FitsBudget, IsSendPlan;
  }

  lemma ReceiveFrameIs(t: Table, source: string, h: Hop, payload: seq<byte>, now: int)
    requires BitChatPacket.IsValidId(source) && HopOK(h) && |payload| <= CHUNK_BUDGET
    ensures FrameFor(source, h, EncodeChatApplicationPayload(payload)).Ok?
    ensures ReceiveFrame(t, FrameFor(source, h, EncodeChatApplicationPayload(payload)).value, now)
         == ReceiveChat(t, source, EncodeChatApplicationPayload(payload), now)
  {
    FrameCarriesPayload(source, h, EncodeChatApplicationPayload(payload));
    hide FrameFor, Unframe, ReceiveChat;
  }

  /** A chat payload that is not a fragment is a whole message. */
  lemma WholeRecovers(t: Table, source: string, m: V6A.SemanticMessage, now: int)
    requires V6A.ValidateMessage(m).Ok? && |V6A.PacketOf(m)| < TWO_31
    ensures ReceiveChat(t, source, EncodeChatApplicationPayload(V6A.PacketOf(m)), now) == (t, Some(V6A.AsReceived(m)))
  {
    var packet := V6A.PacketOf(m);
    assert packet[0] == V6A.PROTOCOL_VERSION;
    ChatRoundTrip(packet, []);
    V6A.PacketRoundTrip(m);
    hide V6A.PacketOf, V6A.Decode, V6A.ValidateMessage, DecodeChatApplicationPayload, EncodeChatApplicationPayload,
         V6A.AsReceived;
  }

  /** A message that needs no splitting arrives whole in its one frame. */
  lemma SingleFrameRecovers(t: Table, source: string, h: Hop, m: V6A.SemanticMessage, now: int)
    requires BitChatPacket.IsValidId(source) && HopOK(h)
    requires V6A.ValidateMessage(m).Ok? && |V6A.PacketOf(m)| <= DataBudget(CHUNK_BUDGET)
    ensures FrameFor(source, h, EncodeChatApplicationPayload(V6A.PacketOf(m))).Ok?
    ensures ReceiveFrame(t, FrameFor(source, h, EncodeChatApplicationPayload(V6A.PacketOf(m))).value, now)
         == (t, Some(V6A.AsReceived(m)))
  {
    hide FrameFor, ReceiveFrame, ReceiveChat, V6A.PacketOf, V6A.ValidateMessage, V6A.AsReceived;
    ReceiveFrameIs(t, source, h, V6A.PacketOf(m), now);
    WholeRecovers(t, source, m, now);
  }

  // Fragmented messages, interleaved and in any order ---------------------------------------------------

  /** The chat messages under way, by reassembly key. */
  type Messages = map<string, V6A.SemanticMessage>

  /** The packet under key k is the packet of a valid message, split at the chat budget. */
  ghost predicate CarriedAt(plan: Plan, messages: Messages, k: string) {
    k in plan ==>
      && k in messages && V6A.ValidateMessage(messages[k]).Ok?
      && plan[k] == Sent(V6A.PacketOf(messages[k]), DataBudget(CHUNK_BUDGET))
  }

  ghost predicate Carries(plan: Plan, messages: Messages) {
    forall k :: CarriedAt(plan, messages, k)
  }

  /** The frame in which arrival a reaches its last hop. */
  function ArrivingFrame(plan: Plan, a: Arrival, h: Hop): Result<seq<byte>>
    requires PlanOK(plan) && Fits(plan, a)
  {
    FrameFor(a.sourceId, h, EncodeChatApplicationPayload(Wire(plan, a)))
  }

  lemma WireSize(plan: Plan, messages: Messages, a: Arrival)
    requires PlanOK(plan) && Fits(plan, a) && Carries(plan, messages)
    ensures 0 < |Wire(plan, a)| <= CHUNK_BUDGET && Wire(plan, a)[0] == V7_MARKER
  {
    var p := plan[KeyOf(a)];
    assert CarriedAt(plan, messages, KeyOf(a));
    ChunkInside(|p.packet|, p.d, a.index);
    hide ChunkCount, Offset, Splittable, V6A.PacketOf, V6A.ValidateMessage;
  }

  /** One chat payload at the receiver: exactly the reassembler's step, and the decoded message on completion. */
  lemma ChatStep(plan: Plan, messages: Messages, t: Table, a: Arrival)
    requires PlanOK(plan) && Fits(plan, a) && Carries(plan, messages)
    ensures var (t', r) := RealStep(plan, t, a);
      ReceiveChat(t, a.sourceId, EncodeChatApplicationPayload(Wire(plan, a)), a.now)
      == (t', if r.Complete? then Semantic(r.v6aPacket) else None)
  {
    WireSize(plan, messages, a);
    ChatRoundTrip(Wire(plan, a), []);
    hide Wire, DecodeChatApplicationPayload, EncodeChatApplicationPayload, Semantic, ReceivePayload, Carries;
  }

  /** One frame at the receiver does the same. */
  lemma FrameStep(plan: Plan, messages: Messages, t: Table, a: Arrival, h: Hop)
    requires PlanOK(plan) && Fits(plan, a) && Carries(plan, messages)
    requires BitChatPacket.IsValidId(a.sourceId) && HopOK(h)
    ensures ArrivingFrame(plan, a, h).Ok?
    ensures var (t', r) := RealStep(plan, t, a);
      ReceiveFrame(t, ArrivingFrame(plan, a, h).value, a.now)
        == (t', if r.Complete? then Semantic(r.v6aPacket) else None)
  {
    hide Wire, FrameFor, ReceiveFrame, ReceiveChat, RealStep, Semantic, Carries, PlanOK, Fits, HopOK,
         BitChatPacket.IsValidId;
    WireSize(plan, messages, a);
    ReceiveFrameIs(t, a.sourceId, h, Wire(plan, a), a.now);
    ChatStep(plan, messages, t, a);
  }

  /**
   * A receiving session of the whole stack: the frame of arrivals[k], as it leaves its last hop
   * hops[k], takes tables[k] to tables[k + 1] and yields recovered[k].
   */
  datatype ChatSession = ChatSession(
    plan: Plan, messages: Messages, arrivals: seq<Arrival>, hops: seq<Hop>, tables: seq<Table>,
    recovered: seq<Option<V6A.ReceivedMessage>>)

  ghost predicate FrameTaken(c: ChatSession, k: nat) {
    && k < |c.arrivals| == |c.hops| == |c.recovered| && |c.tables| == |c.arrivals| + 1
    && PlanOK(c.plan) && Fits(c.plan, c.arrivals[k])
    && BitChatPacket.IsValidId(c.arrivals[k].sourceId) && HopOK(c.hops[k])
    && ArrivingFrame(c.plan, c.arrivals[k], c.hops[k]).Ok?
    && (c.tables[k + 1], c.recovered[k])
       == ReceiveFrame(c.tables[k], ArrivingFrame(c.plan, c.arrivals[k], c.hops[k]).value, c.arrivals[k].now)
  }

  ghost predicate IsChatSession(c: ChatSession) {
    && |c.arrivals| == |c.hops| == |c.recovered| && |c.tables| == |c.arrivals| + 1
    && PlanOK(c.plan) && Carries(c.plan, c.messages) && c.tables[0] == EMPTY_TABLE
    && forall k: nat :: k < |c.arrivals| ==> FrameTaken(c, k)
  }

  /** What the reassembler alone answers in a session of the stack. */
  ghost function AnswerAt(c: ChatSession, k: nat): ReassemblyResult {
    if FrameTaken(c, k) then RealStep(c.plan, c.tables[k], c.arrivals[k]).1 else Incomplete
  }

  /** The session of the reassembler inside a session of the stack. */
  ghost function Inner(c: ChatSession): Session {
    Session(c.plan, c.arrivals, c.tables, seq(|c.arrivals|, k requires 0 <= k => AnswerAt(c, k)))
  }

  lemma FrameTakenIsReceived(c: ChatSession, k: nat)
    requires IsChatSession(c) && k < |c.arrivals|
    ensures Received(Inner(c), k)
    ensures c.recovered[k] == if Inner(c).answers[k].Complete? then Semantic(Inner(c).answers[k].v6aPacket) else None
  {
    hide ArrivingFrame, ReceiveFrame, RealStep, Carries, Semantic, Fits, HopOK, BitChatPacket.IsValidId, PlanOK;
    assert FrameTaken(c, k);
    FrameStep(c.plan, c.messages, c.tables[k], c.arrivals[k], c.hops[k]);
  }

  lemma InnerIsSession(c: ChatSession)
    requires IsChatSession(c)
    ensures IsSession(Inner(c))
  {
    hide Received, FrameTaken, PlanOK, Carries, AnswerAt;
    forall k: nat | k < |c.arrivals|
      ensures Received(Inner(c), k)
    {
      FrameTakenIsReceived(c, k);
    }
  }

  /** The recovered message carries the text and the hashed id of m. */
  ghost predicate Recovers(r: Option<V6A.ReceivedMessage>, m: V6A.SemanticMessage) {
    r == Some(V6A.AsReceived(m))
  }

  /**
   * The stack theorem. Frames of any number of messages from any sources arrive interleaved,
   * reordered and repeated, with at most eight groups open: while a message is not all there, the
   * j-th frame yields it, with its exact text and hashed id, just when it is its last missing one.
   */
  lemma StackRecovers(c: ChatSession, j: nat, key: string)
    requires IsChatSession(c) && AtMostEightOpen(Inner(c))
    requires j < |c.arrivals| && key in c.plan && key in c.messages && KeyOf(c.arrivals[j]) == key
    requires IndicesOf(c.arrivals[..j], key) != Below(CountOf(c.plan[key]))
    ensures if IndicesOf(c.arrivals[..j + 1], key) == Below(CountOf(c.plan[key]))
            then Recovers(c.recovered[j], c.messages[key])
            else c.recovered[j] == None
  {
    hide FrameTaken, AnswerAt, IndicesOf, AtMostEightOpen, Semantic, PlanOK, Received, V6A.AsReceived;
    InnerIsSession(c);
    SplitThenReassemble(Inner(c), j, key);
    FrameTakenIsReceived(c, j);
    CarriedDecodes(c.plan, c.messages, key);
  }

  lemma CarriedDecodes(plan: Plan, messages: Messages, key: string)
    requires PlanOK(plan) && Carries(plan, messages) && key in plan
    ensures key in messages && Semantic(plan[key].packet) == Some(V6A.AsReceived(messages[key]))
  {
    assert CarriedAt(plan, messages, key);
    var m := messages[key];
    assert CarriedAt(plan, messages, key);
    assert |V6A.PacketOf(m)| <= MAX_V6A_LENGTH;
    V6A.PacketRoundTrip(m);
    hide V6A.Decode, V6A.ValidateMessage, V6A.AsReceived;
  }

  // The store ------------------------------------------------------------------------------------------

  /** toIncomingMessage */
  function Incoming(source: string, local: string, m: V6A.ReceivedMessage): Store.ChatMessage {
    Store.ChatMessage(m.messageId, source, local, m.text, true, Store.RECEIVED)
  }

  /** The store after a list of recoveries, in the order in which they happened. */
  function StoreAfter(store: seq<Store.ChatMessage>, recovered: seq<Store.ChatMessage>): seq<Store.ChatMessage> {
    if recovered == [] then store
    else Store.AddIncoming(StoreAfter(store, recovered[..|recovered| - 1]), recovered[|recovered| - 1])
  }

  lemma {:induction false} StoreAfterOnce(store: seq<Store.ChatMessage>, recovered: seq<Store.ChatMessage>,
        m: Store.ChatMessage)
    requires Store.IncomingOnce(store) && m.incoming && forall i :: 0 <= i < |recovered| ==> recovered[i].incoming
    ensures Store.IncomingOnce(StoreAfter(store, recovered))
    ensures m in recovered ==> Store.Known(StoreAfter(store, recovered), m)
  {
    hide Store.AddIncoming, Store.IncomingOnce, Store.Known;
    if recovered != [] {
      var n := |recovered| - 1;
      StoreAfterOnce(store, recovered[..n], m);
      Store.AddIncomingOnce(StoreAfter(store, recovered[..n]), recovered[n]);
      if m in recovered && m != recovered[n] {
        assert m in recovered[..n];
        KnownStays(StoreAfter(store, recovered[..n]), recovered[n], m);
      }
    }
  }

  lemma KnownStays(store: seq<Store.ChatMessage>, x: Store.ChatMessage, m: Store.ChatMessage)
    requires Store.Known(store, m)
    ensures Store.Known(Store.AddIncoming(store, x), m)
  {
    var i :| 0 <= i < |store| && store[i].incoming && store[i].senderNodeId == m.senderNodeId && store[i].id == m.id;
    assert Store.AddIncoming(store, x)[i] == store[i];
  }

  /** However often a message is recovered, the store holds its sender and id exactly once. */
  lemma RecoveredStoredOnce(store: seq<Store.ChatMessage>, recovered: seq<Store.ChatMessage>, m: Store.ChatMessage)
    requires Store.IncomingOnce(store) && forall i :: 0 <= i < |recovered| ==> recovered[i].incoming
    requires m in recovered
    ensures Store.Occurrences(StoreAfter(store, recovered), m) == 1
  {
    StoreAfterOnce(store, recovered, m);
    Store.OccursOnce(StoreAfter(store, recovered), m);
    hide StoreAfter, Store.IncomingOnce, Store.Known, Store.Occurrences;
  }
}
