/** Typed chat above the mesh: wrap, split, originate; and on the way in unwrap, reassemble, decode. */
module ChatMessageService {
  import opened Wrappers
  import opened Bytes
  import opened Utf8
  import opened FragmentCodec
  import opened ChatMessageStore
  import BitChatPacket
  import V6A = BinaryMessageCodec

  const CHAT_MAGIC: seq<byte> := [0x49, 0x54, 0x43, 0x01]
  const CHAT_HEADER_SIZE := 4
  /** 499 bytes of transport payload less 28 of mesh envelope and 4 of chat discriminator. */
  const CHUNK_BUDGET := 467

  function EncodeChatApplicationPayload(payload: seq<byte>): seq<byte> {
    CHAT_MAGIC + payload
  }

  function DecodeChatApplicationPayload(payload: seq<byte>): Option<seq<byte>> {
    if |payload| <= CHAT_HEADER_SIZE || payload[..CHAT_HEADER_SIZE] != CHAT_MAGIC then None
    else Some(payload[CHAT_HEADER_SIZE..])
  }

  /** Chat payloads are exactly the non-empty wrapped ones. */
  lemma ChatRoundTrip(payload: seq<byte>, wrapped: seq<byte>)
    ensures payload != [] ==> DecodeChatApplicationPayload(EncodeChatApplicationPayload(payload)) == Some(payload)
    ensures DecodeChatApplicationPayload(wrapped).Some? ==>
      EncodeChatApplicationPayload(DecodeChatApplicationPayload(wrapped).value) == wrapped
  {
    assert EncodeChatApplicationPayload(payload)[CHAT_HEADER_SIZE..] == payload;
    if DecodeChatApplicationPayload(wrapped).Some? {
      assert wrapped == wrapped[..CHAT_HEADER_SIZE] + wrapped[CHAT_HEADER_SIZE..];
    }
  }

  /** The packet id of fragment i of the message with the given hash. */
  function FragmentPacketId(hash: nat, i: nat): string {
    BitChatPacket.FormatId((hash + i) % TWO_64)
  }

  lemma SmallModInjective(a: nat, i: nat, j: nat)
    requires i < 256 && j < 256 && (a + i) % TWO_64 == (a + j) % TWO_64
    ensures i == j
  {
    var p, q := (a + i) / TWO_64, (a + j) / TWO_64;
    assert a + i == TWO_64 * p + (a + i) % TWO_64;
    assert a + j == TWO_64 * q + (a + j) % TWO_64;
    assert i - j == TWO_64 * (p - q);
  }

  /** The fragments of one message travel under pairwise distinct valid packet ids. */
  lemma FragmentIdsDistinct(hash: nat, i: nat, j: nat)
    requires i < MAX_FRAGMENTS && j < MAX_FRAGMENTS
    ensures BitChatPacket.IsValidId(FragmentPacketId(hash, i))
    ensures BitChatPacket.IsPrefixedHex(FragmentPacketId(hash, i))
    ensures BitChatPacket.IdValue(FragmentPacketId(hash, i)) == (hash + i) % TWO_64
    ensures FragmentPacketId(hash, i) == FragmentPacketId(hash, j) <==> i == j
  {
    BitChatPacket.FormatThenRead((hash + i) % TWO_64);
    BitChatPacket.FormatThenRead((hash + j) % TWO_64);
    if FragmentPacketId(hash, i) == FragmentPacketId(hash, j) {
      SmallModInjective(hash, i, j);
    }
    hide BitChatPacket.FormatId;
  }

  /** One originate call: payload, packet id and announced fragment count. */
  datatype Origination = Origination(payload: seq<byte>, packetId: string, fragmentCount: nat)

  /** The originations that send a packet: itself, or its fragments in order. */
  ghost predicate IsSendPlan(packet: seq<byte>, hash: nat, groupId: nat, plan: seq<Origination>)
    requires FitsBudget(packet, CHUNK_BUDGET)
  {
    var d := DataBudget(CHUNK_BUDGET);
    if |packet| <= d then
      plan == [Origination(EncodeChatApplicationPayload(packet), BitChatPacket.FormatId(hash), 1)]
    else
      && |plan| == ChunkCount(|packet|, d)
      && forall i :: 0 <= i < |plan| ==>
           && Offset(d, i) <= |packet|
           && plan[i] == Origination(EncodeChatApplicationPayload(FragmentAt(packet, groupId, d, i).payload),
                                     FragmentPacketId(hash, i), |plan|)
  }

  /** Every payload handed to the mesh fits one transport frame, and no two carry the same packet id. */
  lemma SendPlanFits(packet: seq<byte>, hash: nat, groupId: nat, plan: seq<Origination>)
    requires FitsBudget(packet, CHUNK_BUDGET) && hash < TWO_64 && IsSendPlan(packet, hash, groupId, plan)
    ensures 1 <= |plan| <= MAX_FRAGMENTS
    ensures forall i :: 0 <= i < |plan| ==>
      CHAT_HEADER_SIZE <= |plan[i].payload| <= CHAT_HEADER_SIZE + CHUNK_BUDGET
        && BitChatPacket.IsValidId(plan[i].packetId)
    ensures forall i, j :: 0 <= i < j < |plan| ==> plan[i].packetId != plan[j].packetId
  {
    var d := DataBudget(CHUNK_BUDGET);
    BitChatPacket.FormatThenRead(hash);
    if |packet| > d {
      CountBounds(|packet|, d);
      forall i, j | 0 <= i < |plan| && 0 <= j < |plan|
        ensures BitChatPacket.IsValidId(plan[i].packetId)
        ensures plan[i].packetId == plan[j].packetId ==> i == j
      {
        FragmentIdsDistinct(hash, i, j);
      }
    }
    hide BitChatPacket.IsValidId, BitChatPacket.FormatId, FragmentPacketId, HeaderBytes, ChunkCount, Offset;
  }

  // Sending --------------------------------------------------------------------------------------------

  function TrimStart(s: seq<unit>): seq<unit> {
    if s != [] && V6A.IsSpaceUnit(s[0]) then TrimStart(s[1..]) else s
  }

  function TrimEnd(s: seq<unit>): seq<unit> {
    if s != [] && V6A.IsSpaceUnit(s[|s| - 1]) then TrimEnd(s[..|s| - 1]) else s
  }

  /** `text.trim()` */
  function Trimmed(s: seq<unit>): seq<unit> {
    TrimEnd(TrimStart(s))
  }

  /** t neither begins nor ends with a space unit. */
  predicate Tight(t: seq<unit>) {
    t != [] ==> !V6A.IsSpaceUnit(t[0]) && !V6A.IsSpaceUnit(t[|t| - 1])
  }

  /** s is t, which is tight, between blanks. */
  ghost predicate Encloses(s: seq<unit>, before: seq<unit>, t: seq<unit>, after: seq<unit>) {
    s == before + t + after && V6A.IsBlank(before) && V6A.IsBlank(after) && Tight(t)
  }

  ghost predicate IsTrimOf(s: seq<unit>, t: seq<unit>) {
    exists before, after :: Encloses(s, before, t, after)
  }

  lemma {:induction false} TrimStartCuts(s: seq<unit>) returns (before: seq<unit>)
    ensures s == before + TrimStart(s) && V6A.IsBlank(before)
    ensures TrimStart(s) == [] || !V6A.IsSpaceUnit(TrimStart(s)[0])
  {
    before := [];
    if s != [] && V6A.IsSpaceUnit(s[0]) {
      before := TrimStartCuts(s[1..]);
      before := [s[0]] + before;
    }
  }

  lemma {:induction false} TrimEndCuts(s: seq<unit>) returns (after: seq<unit>)
    ensures s == TrimEnd(s) + after && V6A.IsBlank(after)
    ensures TrimEnd(s) == [] || !V6A.IsSpaceUnit(TrimEnd(s)[|TrimEnd(s)| - 1])
  {
    after := [];
    if s != [] && V6A.IsSpaceUnit(s[|s| - 1]) {
      after := TrimEndCuts(s[..|s| - 1]);
      after := after + [s[|s| - 1]];
    }
  }

  lemma TrimmedIsTrim(s: seq<unit>)
    ensures IsTrimOf(s, Trimmed(s))
  {
    var before := TrimStartCuts(s);
    var after := TrimEndCuts(TrimStart(s));
    hide TrimStart, TrimEnd;
    assert TrimStart(s) == Trimmed(s) + after;
    assert Trimmed(s) != [] ==> Trimmed(s)[0] == TrimStart(s)[0];
    assert Encloses(s, before, Trimmed(s), after);
  }

  /** Trimming takes off exactly the outer blanks: its result is the one tight text that s is between blanks. */
  lemma TrimmedExactly(s: seq<unit>, t: seq<unit>)
    ensures IsTrimOf(s, t) <==> t == Trimmed(s)
  {
    TrimmedIsTrim(s);
    if IsTrimOf(s, t) {
      var b, a :| Encloses(s, b, t, a);
      var b', a' :| Encloses(s, b', Trimmed(s), a');
      hide Trimmed, V6A.IsSpaceUnit;
      OneTrim(s, b, t, a, b', Trimmed(s), a');
    }
  }

  lemma OneTrim(s: seq<unit>, b: seq<unit>, t: seq<unit>, a: seq<unit>, b': seq<unit>, t': seq<unit>, a': seq<unit>)
    requires Encloses(s, b, t, a) && Encloses(s, b', t', a')
    ensures t == t'
  {
    hide V6A.IsSpaceUnit;
    if t != [] {
      InsideTrim(s, b, t, a, b', t', a', |b|);
      InsideTrim(s, b, t, a, b', t', a', |b| + |t| - 1);
    }
    if t' != [] {
      InsideTrim(s, b', t', a', b, t, a, |b'|);
      InsideTrim(s, b', t', a', b, t, a, |b'| + |t'| - 1);
    }
    assert t == s[|b|..|b| + |t|] && t' == s[|b'|..|b'| + |t'|];
  }

  /** A unit of s that is no space lies in every tight part. */
  lemma InsideTrim(s: seq<unit>, b: seq<unit>, t: seq<unit>, a: seq<unit>, b': seq<unit>, t': seq<unit>, a': seq<unit>,
        i: nat)
    requires Encloses(s, b, t, a) && Encloses(s, b', t', a') && i < |s| && !V6A.IsSpaceUnit(s[i])
    ensures |b'| <= i < |b'| + |t'|
  {
    assert forall k :: 0 <= k < |b'| ==> s[k] == b'[k];
    assert forall k :: |b'| + |t'| <= k < |s| ==> s[k] == a'[k - |b'| - |t'|];
  }

  /** A text without outer blanks is its own trim. */
  lemma TightIsTrimmed(s: seq<unit>)
    requires Tight(s)
    ensures Trimmed(s) == s
  {
    assert Encloses(s, [], s, []);
    TrimmedExactly(s, s);
    hide Trimmed;
  }

  /** A trimmed text is either empty or not blank. */
  lemma TrimmedNotBlank(s: seq<unit>)
    ensures Trimmed(s) == [] || !V6A.IsBlank(Trimmed(s))
  {
    TrimmedIsTrim(s);
  }

  /** createSemanticMessage with its defaults. */
  function MessageFor(messageId: seq<unit>, text: seq<unit>): V6A.SemanticMessage {
    V6A.SemanticMessage(messageId, text, "en", "neutral", 0, "default")
  }

  /** What sendChatMessage builds always passes the codec's validation. */
  lemma MessageForIsValid(messageId: seq<unit>, text: seq<unit>)
    requires messageId != [] && Trimmed(text) != []
    ensures V6A.ValidateMessage(MessageFor(messageId, Trimmed(text))).Ok?
  {
    TrimmedNotBlank(text);
    hide Trimmed;
  }

  /** How many originations are attempted: all, or up to the first that no peer accepts. */
  function Attempted(accepted: nat -> nat, n: nat): nat {
    if n == 0 then 0
    else
      var k := Attempted(accepted, n - 1);
      if k == n - 1 && AllAccepted(accepted, n - 1) then n else k
  }

  predicate AllAccepted(accepted: nat -> nat, n: nat) {
    forall k: nat :: k < n ==> accepted(k) > 0
  }

  lemma {:induction false} AttemptedMeaning(accepted: nat -> nat, n: nat, k: nat)
    requires k < n && AllAccepted(accepted, k) && accepted(k) == 0
    ensures Attempted(accepted, n) == k + 1
    decreases n
  {
    AttemptedAll(accepted, k);
    if k + 1 < n {
      AttemptedMeaning(accepted, n - 1, k);
    }
  }

  lemma {:induction false} AttemptedAll(accepted: nat -> nat, n: nat)
    requires AllAccepted(accepted, n)
    ensures Attempted(accepted, n) == n
  {
    if n > 0 {
      AttemptedAll(accepted, n - 1);
    }
  }

  function Outgoing(id: string, sender: string, recipient: string, text: seq<unit>): ChatMessage {
    ChatMessage(id, sender, recipient, text, false, SENDING)
  }

  /** m has been sent: it is the last in the store, and earlier outgoing messages with its id have its status. */
  ghost predicate Sent(before: seq<ChatMessage>, after: seq<ChatMessage>, m: ChatMessage) {
    && |after| == |before| + 1 && after[|before|] == m
    && forall i :: 0 <= i < |before| ==>
         after[i] == if before[i].id == m.id && !before[i].incoming then before[i].(status := m.status) else before[i]
  }

  class ChatMessageService {
    const localNodeId: string
    const store: ChatMessageStore
    const codec: FragmentCodec
    var originations: seq<Origination>

    constructor (localNodeId: string, store: ChatMessageStore, codec: FragmentCodec)
      ensures this.localNodeId == localNodeId && this.store == store && this.codec == codec && originations == []
    {
      this.localNodeId, this.store, this.codec, originations := localNodeId, store, codec, [];
    }

    /** The originations of a packet, or none when it cannot be split within budget. */
    method Plan(packet: seq<byte>, hash: nat) returns (plan: Option<seq<Origination>>)
      requires codec.groupIdCounter < TWO_32
      modifies codec
      ensures plan.Some? <==> FitsBudget(packet, CHUNK_BUDGET)
      ensures plan.Some? ==> IsSendPlan(packet, hash, old(codec.groupIdCounter), plan.value)
      ensures codec.groupIdCounter < TWO_32
    {
      var split := codec.SplitV6AForBudget(packet, CHUNK_BUDGET);
      if split.Err? {
        return None;
      }
      var fragments := split.value;
      if fragments == [] {
        return Some([Origination(EncodeChatApplicationPayload(packet), BitChatPacket.FormatId(hash), 1)]);
      }
      var steps: seq<Origination> := [];
      var i := 0;
      while i < |fragments|
        invariant 0 <= i == |steps| <= |fragments|
        invariant forall k :: 0 <= k < i ==>
          steps[k] == Origination(EncodeChatApplicationPayload(fragments[k].payload), FragmentPacketId(hash, k),
            |fragments|)
      {
        steps := steps
          + [Origination(EncodeChatApplicationPayload(fragments[i].payload), FragmentPacketId(hash, i), |fragments|)];
        i := i + 1;
      }
      plan := Some(steps);
    }

    /** Originates step by step until one is accepted by no peer. */
    method OriginateAll(plan: seq<Origination>, accepted: nat -> nat) returns (ok: bool)
      modifies this
      ensures ok <==> AllAccepted(accepted, |plan|)
      ensures Attempted(accepted, |plan|) <= |plan|
      ensures originations == old(originations) + plan[..Attempted(accepted, |plan|)]
    {
      var i := 0;
      while i < |plan|
        invariant 0 <= i <= |plan| && AllAccepted(accepted, i)
        invariant originations == old(originations) + plan[..i]
      {
        assert plan[..i + 1] == plan[..i] + [plan[i]];
        originations := originations + [plan[i]];
        if accepted(i) == 0 {
          AttemptedMeaning(accepted, |plan|, i);
          return false;
        }
        i := i + 1;
      }
      AttemptedAll(accepted, |plan|);
      ok := true;
    }

    /**
     * SENT means that the packet fits and at least one peer accepted every origination. `accepted`
     * gives the number of peers that accept the k-th origination.
     */
    method SendChatMessage(destination: string, text: seq<unit>, messageId: seq<unit>, canRoute: bool,
          accepted: nat -> nat)
      returns (r: Result<()>, ghost plan: seq<Origination>)
      requires codec.groupIdCounter < TWO_32 && messageId != []
      modifies this, store, codec
      ensures var t := Trimmed(text);
        var m := V6A.SemanticMessage(messageId, t, "en", "neutral", 0, "default");
        var hash := V6A.HashMessageId(messageId);
        var possible := t != [] && canRoute && FitsBudget(V6A.PacketOf(m), CHUNK_BUDGET);
        && IsTrimOf(text, t) && (t != [] ==> V6A.ValidateMessage(m).Ok?)
        && (possible ==> IsSendPlan(V6A.PacketOf(m), hash, old(codec.groupIdCounter), plan))
        && (!possible ==> plan == [])
        && (r.Ok? <==> possible && AllAccepted(accepted, |plan|))
        && Attempted(accepted, |plan|) <= |plan|
        && originations == old(originations) + plan[..Attempted(accepted, |plan|)]
        && (t == [] ==> store.messages == old(store.messages))
        && (t != [] ==>
              Sent(old(store.messages), store.messages,
                   ChatMessage(BitChatPacket.FormatId(hash), localNodeId, destination, t, false,
                               if r.Ok? then SENT else FAILED)))
    {
      TrimmedIsTrim(text);
      plan := [];
      var normalizedText := Trimmed(text);
      if normalizedText == [] {
        return Err("Message cannot be empty"), plan;
      }
      var semantic := MessageFor(messageId, normalizedText);
      MessageForIsValid(messageId, text);
      var hash := V6A.HashMessageId(messageId);
      var id := BitChatPacket.FormatId(hash);
      store.AddOutgoingChatMessage(Outgoing(id, localNodeId, destination, normalizedText));
      if !canRoute {
        store.SetOutgoingChatMessageStatus(id, FAILED);
        return Err("No connected mesh route to this node"), plan;
      }
      var v6a := V6A.BuildPacket(semantic);
      var steps := Plan(v6a, hash);
      if steps.None? {
        store.SetOutgoingChatMessageStatus(id, FAILED);
        return Err("TOO_MANY_FRAGMENTS"), plan;
      }
      plan := steps.value;
      var ok := OriginateAll(steps.value, accepted);
      store.SetOutgoingChatMessageStatus(id, if ok then SENT else FAILED);
      r := if ok then Ok(()) else Err("No mesh peer accepted the message");
    }
  }
}
