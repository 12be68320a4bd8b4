/**
 * Progress on the link: when all frames of a message get through, while there is room and nothing
 * expires, the message is handed to speech and acknowledged, and its acknowledgement retires it.
 *
 * A frame that has arrived is noted: either the message is done, or the chunk is in its open group. A
 * smooth step keeps what has been noted, and an open group never has all its chunks. A group that is
 * remembered as completed is answered from memory, so what is remembered must be right as well.
 */
module LinkProgress {
  import opened Wrappers
  import opened Bytes
  import opened Collections
  import opened FragmentCodec
  import opened Reassembler
  import opened Reassembly
  import opened ReceiverCaches
  import opened VoiceReceiver
  import opened ReliableLink
  import opened ReliableLinkRuns
  import BitChatPacket
  import Payloads = ReliabilityPayloads
  import V6A = BinaryMessageCodec
  import R = ReliabilityManager
  import P = ReliabilityProofs
  import Runs = ReliabilityRuns

  // What is remembered of completed groups -----------------------------------------------------------------

  /** All messages split under the group have this wire id. */
  ghost predicate SplitUnder(l: Link, groupId: nat, id: string) {
    forall j :: 0 <= j < |l.sends| && Fragmented(l.sends[j]) && l.sends[j].groupId == groupId ==>
      WireId(l.sends[j]) == id
  }

  /** The id remembered for a completed group is acknowledged, and that of every message split under that group. */
  ghost predicate CompletedAt(peer: string, l: Link, c: Completed) {
    && c.messageId != "" && c.messageId in l.receiver.acks && MakeGroupKey(peer, c.groupId) in l.plan
    && SplitUnder(l, c.groupId, c.messageId)
  }

  ghost predicate CompletedOK(peer: string, l: Link) {
    forall c {:trigger CompletedAt(peer, l, c)} :: c in l.receiver.completed ==> CompletedAt(peer, l, c)
  }

  /** The message has been handed to speech and acknowledged. */
  ghost predicate Done(r: Receiver, id: string) {
    id in HeardIds(r) && id in r.acks
  }

  lemma PacketDone(r: Receiver, packet: seq<byte>, group: Option<nat>, now: int, m: V6A.ReceivedMessage)
    requires ReceiverOK(r) && V6A.Decode(packet) == Ok(m)
    ensures var r' := OnPacket(r, packet, group, now);
      && r'.acks == r.acks + [m.messageId] && Done(r', m.messageId) && r'.table == r.table
      && forall c :: c in r'.completed ==> c in r.completed || (group == Some(c.groupId) && c.messageId == m.messageId)
  {
    hide V6A.Decode, ReceiverOK, Remembers, Spaced, Last;
    if m.messageId in IdsOf(r.delivered) {
      KnownIsHeard(r, m.messageId);
    } else {
      HeardMore(r, m, now);
      assert m.messageId in HeardIds(r) + [m.messageId];
    }
  }

  /** What a genuine fragment does at the receiver. */
  lemma FragmentEffect(plan: Plan, r: Receiver, a: Arrival)
    requires PlanOK(plan) && Fits(plan, a) && Genuine(r.table, plan)
    ensures var r' := OnData(r, a.sourceId, Wire(plan, a), a.now);
      var cached := CompletedId(r.completed, a.groupId);
      var (t, answer) := RealStep(plan, r.table, a);
      if cached.Some? && cached.value != "" then r' == Acked(r, cached.value)
      else if answer.Complete? then r' == OnPacket(r.(table := t), plan[KeyOf(a)].packet, Some(a.groupId), a.now)
      else r' == r.(table := t)
  {
    hide Genuine, Fits, PlanOK, V6A.Decode, OnPacket, Wire, AddFragmentTo, KeyOf, AcceptableHeader, CompletedId;
    RealStepGenuine(plan, r.table, a);
    WireParses(plan, a);
  }

  // Progress towards one message -----------------------------------------------------------------------------

  /** Frame j of message i has been taken note of: the message is done, or its chunk is in the open group. */
  ghost predicate Noted(peer: string, l: Link, i: nat, j: nat) {
    && i < |l.sends|
    && (|| Done(l.receiver, WireId(l.sends[i]))
        || (Fragmented(l.sends[i]) && j in StoredChunks(l.receiver.table, KeyFor(peer, l.sends[i]))))
  }

  /** No group expires, and a fragment finds its group open or room for it. */
  ghost predicate Smooth(peer: string, l: Link, e: LinkInput) {
    match e
    case CleansUp(_) => false
    case FrameArrives(m, _, _) =>
      m < |l.sends| && Fragmented(l.sends[m]) ==>
        KeyFor(peer, l.sends[m]) in l.receiver.table.groups || |l.receiver.table.groups| < MAX_CONCURRENT_GROUPS
    case _ => true
  }

  lemma SamePacketSameId(a: Outgoing, b: Outgoing)
    requires Sendable(a) && Sendable(b) && PacketFor(a) == PacketFor(b)
    ensures WireId(a) == WireId(b)
  {
    PacketDecodes(a);
    PacketDecodes(b);
    ReceivedUnderWireId(a);
    ReceivedUnderWireId(b);
    hide Sendable, PacketFor, WireId, V6A.Decode, V6A.AsReceived;
  }

  /** In the receiver's next state nothing done is undone, and nothing noted is lost. */
  ghost predicate Keeps(peer: string, l: Link, r: Receiver) {
    && (forall id :: Done(l.receiver, id) ==> Done(r, id))
    && forall i: nat, j: nat :: Noted(peer, l, i, j) ==> Noted(peer, l.(receiver := r), i, j)
  }

  lemma DoneOnly(peer: string, l: Link, r: Receiver)
    requires r.table == l.receiver.table && forall id :: Done(l.receiver, id) ==> Done(r, id)
    ensures Keeps(peer, l, r)
  {
    hide Done, Fragmented, WireId, KeyFor, StoredChunks;
  }

  lemma DoneGrows(r: Receiver, r': Receiver)
    requires HeardIds(r) <= HeardIds(r') && r.acks <= r'.acks
    ensures forall id :: Done(r, id) ==> Done(r', id)
  {
  }

  lemma CompletedStays(peer: string, l: Link, r: Receiver)
    requires CompletedOK(peer, l) && l.receiver.acks <= r.acks && r.completed == l.receiver.completed
    ensures CompletedOK(peer, l.(receiver := r))
  {
    hide WireId, Fragmented, MakeGroupKey;
    forall c | c in r.completed
      ensures CompletedAt(peer, l.(receiver := r), c)
    {
      assert CompletedAt(peer, l, c);
    }
  }

  /** A packet completed under a group, or alone. */
  lemma PacketTaken(peer: string, l: Link, o: Outgoing, t: Table, group: Option<nat>, now: int)
    requires CompletedOK(peer, l) && ReceiverOK(l.receiver) && Sendable(o)
    requires group.Some? ==> MakeGroupKey(peer, group.value) in l.plan && SplitUnder(l, group.value, WireId(o))
    ensures var r := OnPacket(l.receiver.(table := t), PacketFor(o), group, now);
      && r.table == t && Done(r, WireId(o)) && CompletedOK(peer, l.(receiver := r))
      && forall id :: Done(l.receiver, id) ==> Done(r, id)
  {
    hide V6A.Decode, V6A.AsReceived, OnPacket, ReceiverOK, WireId, PacketFor, Sendable, Fragmented, MakeGroupKey;
    PacketDecodes(o);
    ReceivedUnderWireId(o);
    var r1 := l.receiver.(table := t);
    TableOnly(l.receiver, t);
    PacketDone(r1, PacketFor(o), group, now, V6A.AsReceived(o.message));
    OnPacketOK(r1, PacketFor(o), group, now);
    var r := OnPacket(r1, PacketFor(o), group, now);
    DoneGrows(l.receiver, r);
    WireIdNotEmpty(o);
    forall c | c in r.completed
      ensures CompletedAt(peer, l.(receiver := r), c)
    {
      if c in l.receiver.completed { assert CompletedAt(peer, l, c); }
    }
    hide HeardIds;
  }

  lemma WireIdNotEmpty(o: Outgoing)
    ensures WireId(o) != ""
  {
    BitChatPacket.FormatThenRead(V6A.HashMessageId(o.message.messageId));
  }

  lemma CachedIsDone(peer: string, l: Link, o: Outgoing, m: nat)
    requires CompletedOK(peer, l) && ReceiverOK(l.receiver) && m < |l.sends| && l.sends[m] == o && Fragmented(o)
    requires CompletedId(l.receiver.completed, o.groupId).Some?
    ensures CompletedId(l.receiver.completed, o.groupId).value == WireId(o) && Done(l.receiver, WireId(o))
  {
    hide WireId, Fragmented, MakeGroupKey, Remembers, HeardIds;
    var id := CompletedId(l.receiver.completed, o.groupId).value;
    var entries := l.receiver.completed;
    var k :| LatestOf(entries, o.groupId, k) && entries[k].messageId == id;
    assert entries[k] in entries && CompletedAt(peer, l, entries[k]);
  }

  /** Messages split under one group of the plan are sent as one packet. */
  lemma OneIdPerKey(peer: string, l: Link, i: nat, m: nat)
    requires PlanMatches(peer, l) && BookOK(l) && i < |l.sends| && m < |l.sends|
    requires Fragmented(l.sends[i]) && Fragmented(l.sends[m]) && KeyFor(peer, l.sends[i]) == KeyFor(peer, l.sends[m])
    ensures WireId(l.sends[i]) == WireId(l.sends[m])
  {
    assert PlannedAt(peer, l, i) && PlannedAt(peer, l, m) && BookedAt(l, i) && BookedAt(l, m);
    hide Sendable, PacketFor, WireId, FramesOf, Fragmented, KeyFor;
    SamePacketSameId(l.sends[i], l.sends[m]);
  }

  lemma SplitUnderKey(peer: string, l: Link, m: nat)
    requires PlanMatches(peer, l) && BookOK(l) && m < |l.sends| && Fragmented(l.sends[m])
    ensures KeyFor(peer, l.sends[m]) in l.plan && SplitUnder(l, l.sends[m].groupId, WireId(l.sends[m]))
  {
    assert PlannedAt(peer, l, m);
    hide WireId, Fragmented, PlanMatches, BookOK, MakeGroupKey;
    forall j | 0 <= j < |l.sends| && Fragmented(l.sends[j]) && l.sends[j].groupId == l.sends[m].groupId
      ensures WireId(l.sends[j]) == WireId(l.sends[m])
    {
      OneIdPerKey(peer, l, j, m);
    }
  }

  /** The short frame of a message that needs no splitting. */
  lemma ShortFrameNoted(peer: string, l: Link, m: nat, now: int)
    requires LinkOK(peer, l) && CompletedOK(peer, l) && m < |l.sends| && !Fragmented(l.sends[m])
    ensures var r := OnData(l.receiver, peer, PacketFor(l.sends[m]), now);
      CompletedOK(peer, l.(receiver := r)) && Keeps(peer, l, r) && Done(r, WireId(l.sends[m]))
  {
    assert BookedAt(l, m);
    hide P.Inv, BookOK, PlanMatches, Genuine, Fragmented, PacketFor, WireId, OnPacket, ReceiverOK, Sendable, Keeps,
         Done, CompletedOK, FramesOf;
    var o := l.sends[m];
    PacketDecodes(o);
    PacketTaken(peer, l, o, l.receiver.table, None, now);
    assert l.receiver.(table := l.receiver.table) == l.receiver;
    DoneOnly(peer, l, OnPacket(l.receiver, PacketFor(o), None, now));
  }

  /** A chunk joins its group, or the group is complete. */
  lemma ChunkNoted(peer: string, l: Link, m: nat, k: nat, now: int, t: Table, r: Receiver)
    requires PlanMatches(peer, l) && BookOK(l) && m < |l.sends| && Fragmented(l.sends[m])
    requires r.table == t && forall id :: Done(l.receiver, id) ==> Done(r, id)
    requires OthersUntouched(l.receiver.table, t, KeyFor(peer, l.sends[m]))
    requires var key := KeyFor(peer, l.sends[m]);
      Done(r, WireId(l.sends[m]))
      || (StoredChunks(l.receiver.table, key).Keys <= StoredChunks(t, key).Keys && k in StoredChunks(t, key))
    ensures Keeps(peer, l, r) && Noted(peer, l.(receiver := r), m, k)
  {
    hide Done, WireId, Fragmented, KeyFor, PlanMatches, BookOK;
    forall i: nat, j: nat | Noted(peer, l, i, j)
      ensures Noted(peer, l.(receiver := r), i, j)
    {
      if Fragmented(l.sends[i]) && KeyFor(peer, l.sends[i]) == KeyFor(peer, l.sends[m]) { OneIdPerKey(peer, l, i, m); }
    }
  }

  /** With or without room: the memory of completed groups stays right. */
  lemma FragmentCompleted(peer: string, l: Link, m: nat, k: nat, now: int)
    requires LinkOK(peer, l) && CompletedOK(peer, l) && m < |l.sends| && Fragmented(l.sends[m])
      && k < |FramesOf(l.sends[m])|
    ensures CompletedOK(peer, l.(receiver := OnData(l.receiver, peer, FramesOf(l.sends[m])[k], now)))
  {
    assert BookedAt(l, m);
    hide P.Inv, BookOK, PlanMatches, Genuine, Fragmented, PacketFor, WireId, OnPacket, OnData, ReceiverOK, Sendable,
         Done, CompletedOK, FramesOf, Fits, PlanOK, Wire, RealStep, KeyOf, CompletedId;
    var o := l.sends[m];
    var a := Arrival(peer, o.groupId, k, now);
    PlanIsOK(peer, l);
    FrameIsWire(peer, l, m, k, now);
    FragmentEffect(l.plan, l.receiver, a);
    SplitUnderKey(peer, l, m);
    var r := OnData(l.receiver, peer, FramesOf(o)[k], now);
    var (t, answer) := RealStep(l.plan, l.receiver.table, a);
    var cached := CompletedId(l.receiver.completed, o.groupId);
    if !(cached.Some? && cached.value != "") && answer.Complete? {
      PacketTaken(peer, l, o, t, Some(o.groupId), now);
    } else {
      CompletedStays(peer, l, r);
    }
  }

  lemma FragmentNoted(peer: string, l: Link, m: nat, k: nat, now: int)
    requires LinkOK(peer, l) && CompletedOK(peer, l) && m < |l.sends| && Fragmented(l.sends[m])
    requires k < |FramesOf(l.sends[m])| && Smooth(peer, l, FrameArrives(m, k, now))
    ensures var r := OnData(l.receiver, peer, FramesOf(l.sends[m])[k], now);
      Keeps(peer, l, r) && Noted(peer, l.(receiver := r), m, k)
  {
    assert BookedAt(l, m);
    hide P.Inv, BookOK, PlanMatches, Genuine, Fragmented, PacketFor, WireId, OnPacket, OnData, ReceiverOK, Sendable,
         Keeps, Done, CompletedOK, FramesOf, Fits, PlanOK, Wire, RealStep, KeyOf, StoredChunks, CompletedId,
         OthersUntouched, GenuineOutcome;
    var o, key := l.sends[m], KeyFor(peer, l.sends[m]);
    var a := Arrival(peer, o.groupId, k, now);
    PlanIsOK(peer, l);
    FrameIsWire(peer, l, m, k, now);
    FragmentEffect(l.plan, l.receiver, a);
    RealStepGenuine(l.plan, l.receiver.table, a);
    RealStepFrame(l.plan, l.receiver.table, a);
    SplitUnderKey(peer, l, m);
    var r := OnData(l.receiver, peer, FramesOf(o)[k], now);
    var (t, answer) := RealStep(l.plan, l.receiver.table, a);
    var cached := CompletedId(l.receiver.completed, o.groupId);
    if cached.Some? && cached.value != "" {
      CachedIsDone(peer, l, o, m);
      CachedNoted(peer, l, r, m, k, cached.value);
    } else {
      if answer.Complete? {
        PacketTaken(peer, l, o, t, Some(o.groupId), now);
      } else {
        SameDone(l.receiver, t);
        ChunkJoins(l.plan, l.receiver.table, a, t, answer);
      }
      ChunkNoted(peer, l, m, k, now, t, r);
    }
  }

  lemma SameDone(r: Receiver, t: Table)
    ensures forall id :: Done(r, id) ==> Done(r.(table := t), id)
  {
  }

  lemma CachedNoted(peer: string, l: Link, r: Receiver, m: nat, k: nat, id: string)
    requires CompletedOK(peer, l) && m < |l.sends| && id == WireId(l.sends[m]) && Done(l.receiver, id)
      && r == Acked(l.receiver, id)
    ensures CompletedOK(peer, l.(receiver := r)) && Keeps(peer, l, r) && Noted(peer, l.(receiver := r), m, k)
  {
    hide WireId, Fragmented, KeyFor;
    assert HeardIds(r) == HeardIds(l.receiver);
    DoneGrows(l.receiver, r);
    hide HeardIds;
    DoneOnly(peer, l, r);
    CompletedStays(peer, l, r);
  }

  lemma ChunkJoins(plan: Plan, t: Table, a: Arrival, t': Table, answer: ReassemblyResult)
    requires PlanOK(plan) && Fits(plan, a) && GenuineOutcome(plan, t, a, t', answer) && !answer.Complete?
    ensures StoredChunks(t, KeyOf(a)).Keys <= StoredChunks(t', KeyOf(a)).Keys && a.index in StoredChunks(t', KeyOf(a))
  {
    hide PlanOK, Fits, KeyOf, StoredChunks, CountOf;
  }

  // Steps ------------------------------------------------------------------------------------------------------

  /** What has been noted stays noted. */
  ghost predicate Onward(peer: string, l: Link, l': Link) {
    forall i: nat, j: nat :: Noted(peer, l, i, j) ==> Noted(peer, l', i, j)
  }

  lemma FrameNoted(peer: string, l: Link, m: nat, k: nat, now: int)
    requires LinkOK(peer, l) && CompletedOK(peer, l) && Smooth(peer, l, FrameArrives(m, k, now))
    requires m < |l.sender.messages| && k < |l.sender.messages[m].frames|
    ensures var r := OnData(l.receiver, peer, l.sender.messages[m].frames[k], now);
      CompletedOK(peer, l.(receiver := r)) && Keeps(peer, l, r) && Noted(peer, l.(receiver := r), m, k)
  {
    assert BookedAt(l, m);
    hide P.Inv, PlanMatches, Genuine, PacketFor, WireId, OnData, ReceiverOK, Sendable, Keeps, Done, CompletedOK;
    if Fragmented(l.sends[m]) {
      FragmentCompleted(peer, l, m, k, now);
      FragmentNoted(peer, l, m, k, now);
    } else {
      ShortFrameNoted(peer, l, m, now);
    }
  }

  lemma SendNoted(peer: string, l: Link, o: Outgoing)
    requires CompletedOK(peer, l) && FreshGroup(peer, l, o)
    requires R.InRange(l.sender, l.sender.active) && R.InRange(l.sender, l.sender.queued)
    ensures CompletedOK(peer, Registered(peer, l, o)) && Onward(peer, l, Registered(peer, l, o))
  {
    hide R.Step, WireId, Fragmented, FramesOf, MakeGroupKey, PacketFor, Done, StoredChunks;
    var l' := Registered(peer, l, o);
    forall c | c in l'.receiver.completed
      ensures CompletedAt(peer, l', c)
    {
      assert CompletedAt(peer, l, c);
    }
  }

  lemma ElsewhereNoted(peer: string, l: Link, l': Link)
    requires CompletedOK(peer, l) && l'.receiver == l.receiver && l'.sends == l.sends && l'.plan == l.plan
    ensures CompletedOK(peer, l') && Onward(peer, l, l')
  {
    hide WireId, Fragmented, MakeGroupKey, Done, StoredChunks;
    forall c | c in l'.receiver.completed
      ensures CompletedAt(peer, l', c)
    {
      assert CompletedAt(peer, l, c);
    }
  }

  /** Frame j of message i is on the air and arrives. */
  predicate Brings(l: Link, e: LinkInput, i: nat, j: nat) {
    e.FrameArrives? && e.message == i && e.index == j && (i, j) in l.onAir
    && i < |l.sender.messages| && j < |l.sender.messages[i].frames|
  }

  lemma StepNoted(peer: string, l: Link, e: LinkInput)
    requires LinkOK(peer, l) && CompletedOK(peer, l) && Smooth(peer, l, e)
    requires R.InRange(l.sender, l.sender.active) && R.InRange(l.sender, l.sender.queued)
    ensures CompletedOK(peer, LinkStep(peer, l, e)) && Onward(peer, l, LinkStep(peer, l, e))
    ensures forall i: nat, j: nat :: Brings(l, e, i, j) ==> Noted(peer, LinkStep(peer, l, e), i, j)
  {
    hide LinkOK, CompletedOK, Noted, R.Step, R.InRange, OnData, Registered, Sendable, FreshGroup;
    var l' := LinkStep(peer, l, e);
    if e.SendMessage? {
      if Sendable(e.outgoing) && FreshGroup(peer, l, e.outgoing) { SendNoted(peer, l, e.outgoing); }
    } else if e.FrameArrives? {
      if l' != l { FrameNoted(peer, l, e.message, e.index, e.now); }
      if (e.message, e.index) in l.onAir && e.message < |l.sender.messages|
        && e.index < |l.sender.messages[e.message].frames| {
        FrameNoted(peer, l, e.message, e.index, e.now);
      }
    } else {
      ElsewhereNoted(peer, l, l');
    }
  }

  /** Smooth or not. */
  lemma StepCompleted(peer: string, l: Link, e: LinkInput)
    requires LinkOK(peer, l) && CompletedOK(peer, l)
    requires R.InRange(l.sender, l.sender.active) && R.InRange(l.sender, l.sender.queued)
    ensures CompletedOK(peer, LinkStep(peer, l, e))
  {
    hide LinkOK, CompletedOK, R.Step, R.InRange, OnData, Registered, Sendable, FreshGroup;
    var l' := LinkStep(peer, l, e);
    if e.SendMessage? {
      if Sendable(e.outgoing) && FreshGroup(peer, l, e.outgoing) { SendNoted(peer, l, e.outgoing); }
    } else if e.FrameArrives? {
      if l' != l { FrameCompleted(peer, l, e.message, e.index, e.now); }
    } else if e.CleansUp? {
      CompletedStays(peer, l, l'.receiver);
    } else {
      ElsewhereNoted(peer, l, l');
    }
  }

  lemma FrameCompleted(peer: string, l: Link, m: nat, k: nat, now: int)
    requires LinkOK(peer, l) && CompletedOK(peer, l)
    requires m < |l.sender.messages| && k < |l.sender.messages[m].frames|
    ensures CompletedOK(peer, l.(receiver := OnData(l.receiver, peer, l.sender.messages[m].frames[k], now)))
  {
    assert BookedAt(l, m);
    hide P.Inv, PlanMatches, Genuine, PacketFor, WireId, OnData, ReceiverOK, Sendable, Keeps, Done, CompletedOK;
    if Fragmented(l.sends[m]) {
      FragmentCompleted(peer, l, m, k, now);
    } else {
      ShortFrameNoted(peer, l, m, now);
    }
  }

  // Runs -------------------------------------------------------------------------------------------------------

  ghost predicate SmoothAt(h: History, k: nat) {
    k < |h.inputs| && |h.links| == |h.inputs| + 1 && Smooth(h.peer, h.links[k], h.inputs[k])
  }

  /** From point a to point b of the run nothing expires, and there is room for every group. */
  ghost predicate SmoothFrom(h: History, a: nat, b: nat) {
    IsRun(h) && a <= b < |h.links| && forall k: nat :: a <= k < b ==> SmoothAt(h, k)
  }

  ghost predicate BringsAt(h: History, k: nat, i: nat, j: nat) {
    k < |h.inputs| && |h.links| == |h.inputs| + 1 && Brings(h.links[k], h.inputs[k], i, j)
  }

  /** Frame j of message i arrives between points a and b. */
  ghost predicate ArrivesWithin(h: History, a: nat, b: nat, i: nat, j: nat) {
    exists k: nat :: a <= k < b && BringsAt(h, k, i, j)
  }

  lemma {:induction false} RunCompleted(h: History, k: nat)
    requires IsRun(h) && k < |h.links|
    ensures CompletedOK(h.peer, h.links[k])
  {
    hide LinkStep, R.InRange, LinkOK, CompletedAt;
    if k > 0 {
      RunCompleted(h, k - 1);
      RunOK(h, k - 1);
      assert Moves(h, k - 1);
      hide CompletedOK;
      StepCompleted(h.peer, h.links[k - 1], h.inputs[k - 1]);
    }
  }

  lemma {:induction false} StaysNoted(h: History, a: nat, b: nat, i: nat, j: nat)
    requires SmoothFrom(h, a, b) && Noted(h.peer, h.links[a], i, j)
    ensures Noted(h.peer, h.links[b], i, j)
    decreases b
  {
    hide LinkStep, R.InRange, LinkOK, Noted, CompletedOK, Smooth, IsRun;
    if a < b {
      StaysNoted(h, a, b - 1, i, j);
      assert SmoothAt(h, b - 1);
      LastMove(h, b - 1);
      StepNoted(h.peer, h.links[b - 1], h.inputs[b - 1]);
    }
  }

  lemma LastMove(h: History, k: nat)
    requires IsRun(h) && k + 1 < |h.links|
    ensures Moves(h, k) && LinkOK(h.peer, h.links[k]) && CompletedOK(h.peer, h.links[k])
  {
    RunOK(h, k);
    RunCompleted(h, k);
    hide LinkOK, CompletedOK, LinkStep, R.InRange;
  }

  /** A frame that arrives within a smooth stretch is noted at its end. */
  lemma ArrivedIsNoted(h: History, a: nat, b: nat, i: nat, j: nat)
    requires SmoothFrom(h, a, b) && ArrivesWithin(h, a, b, i, j)
    ensures Noted(h.peer, h.links[b], i, j)
  {
    hide LinkStep, R.InRange, LinkOK, Noted, CompletedOK, Smooth, IsRun, Brings;
    var k: nat :| a <= k < b && BringsAt(h, k, i, j);
    assert SmoothAt(h, k);
    LastMove(h, k);
    StepNoted(h.peer, h.links[k], h.inputs[k]);
    StaysNoted(h, k + 1, b, i, j);
  }

  lemma FramesCounted(peer: string, l: Link, i: nat)
    requires BookOK(l) && i < |l.sends|
    ensures |FramesOf(l.sends[i])|
            == if Fragmented(l.sends[i]) then ChunkCount(|PacketFor(l.sends[i])|, MAX_CHUNK_SIZE) else 1
    ensures |FramesOf(l.sends[i])| >= 1
  {
    assert BookedAt(l, i);
    if Fragmented(l.sends[i]) { CountBounds(|PacketFor(l.sends[i])|, MAX_CHUNK_SIZE); }
    hide V6A.PacketOf, V6A.ValidateMessage, ChunkCount;
  }

  /** An open group never has all its chunks. */
  lemma NeverFull(t: Table, plan: Plan, key: string)
    requires PlanOK(plan) && Genuine(t, plan) && key in plan
    ensures exists j: nat :: j < CountOf(plan[key]) && j !in StoredChunks(t, key)
  {
    var n := CountOf(plan[key]);
    CountBounds(|plan[key].packet|, plan[key].d);
    if key in t.groups {
      assert GroupOK(t, key);
      var f := t.groups[key].fragments;
      hide MakeGroupKey, Assemble;
      BelowSize(n);
      assert |f.Keys| == |f| < n;
      if Below(n) <= f.Keys { SubsetSize(Below(n), f.Keys); }
      var j :| j in Below(n) && j !in f.Keys;
      assert StoredChunks(t, key) == f;
    } else {
      assert 0 < n && 0 !in StoredChunks(t, key);
    }
  }

  /** So a message all of whose frames are noted is done. */
  lemma AllNotedIsDone(peer: string, l: Link, i: nat)
    requires LinkOK(peer, l) && i < |l.sends|
    requires forall j: nat :: j < |FramesOf(l.sends[i])| ==> Noted(peer, l, i, j)
    ensures Done(l.receiver, WireId(l.sends[i]))
  {
    hide P.Inv, BookOK, Done, WireId, ReceiverOK, PlanOK, Genuine, StoredChunks, FramesOf, PacketFor;
    FramesCounted(peer, l, i);
    assert Noted(peer, l, i, 0);
    if Fragmented(l.sends[i]) {
      assert PlannedAt(peer, l, i);
      var key := KeyFor(peer, l.sends[i]);
      NeverFull(l.receiver.table, l.plan, key);
      var j: nat :| j < CountOf(l.plan[key]) && j !in StoredChunks(l.receiver.table, key);
      assert Noted(peer, l, i, j);
    }
  }

  // The theorem --------------------------------------------------------------------------------------------------

  /**
   * When every frame of a message arrives at least once in a smooth stretch of a run, in any order
   * and among any others, then at its end the message's id has been handed to speech and acknowledged.
   */
  lemma ArrivedIsSpoken(h: History, a: nat, b: nat, i: nat)
    requires SmoothFrom(h, a, b) && i < |h.links[b].sends|
    requires forall j: nat :: j < |FramesOf(h.links[b].sends[i])| ==> ArrivesWithin(h, a, b, i, j)
    ensures Done(h.links[b].receiver, WireId(h.links[b].sends[i]))
  {
    hide LinkOK, Noted, ArrivesWithin, FramesOf, Done, WireId;
    RunOK(h, b);
    forall j: nat | j < |FramesOf(h.links[b].sends[i])|
      ensures Noted(h.peer, h.links[b], i, j)
    {
      ArrivedIsNoted(h, a, b, i, j);
    }
    AllNotedIsDone(h.peer, h.links[b], i);
  }

  lemma AckEffect(s: R.State, a: nat)
    requires P.Inv(s) && s.active == Some(a) && R.InRange(s, s.active) && R.InRange(s, s.queued)
    ensures var s' := R.Step(s, R.HandleAck(s.messages[a].messageId)).0;
      && a < |s'.messages| && s'.messages[a].acked
      && (!s.retransmitting ==> P.Retired(s', a) && s'.active == s.queued)
  {
  }

  /**
   * Then its acknowledgement may arrive. If the message is the active one it is marked, and retired
   * at once in favour of the queued one, unless a loop is sending it again just then.
   */
  lemma AckRetires(peer: string, l: Link, i: nat)
    requires LinkOK(peer, l) && i < |l.sends| && Done(l.receiver, WireId(l.sends[i])) && l.sender.active == Some(i)
    ensures R.InRange(l.sender, l.sender.active) && R.InRange(l.sender, l.sender.queued)
    ensures var s := LinkStep(peer, l, AckArrives(WireId(l.sends[i]))).sender;
      && i < |s.messages| && s.messages[i].acked
      && (!l.sender.retransmitting ==> P.Retired(s, i) && s.active == l.sender.queued)
  {
    hide P.Inv, WireId, FramesOf, Sendable, R.Step, PlanMatches, Genuine, ReceiverOK, HeardIds, HeardWasSent, P.Retired;
    assert BookedAt(l, i);
    var id := WireId(l.sends[i]);
    WireIdIsHex(l.sends[i]);
    Payloads.AckRoundTrip(id, []);
    assert Payloads.AckBytes(id) + [] == Payloads.AckBytes(id);
    LinkParts(peer, l);
    AckEffect(l.sender, i);
    hide Payloads.AckBytes, Payloads.ParseAckPayload, BitChatPacket.IsPrefixedHex;
  }

  /**
   * And if a loop is sending it again: it is the last one, suspended in a send, and when that send
   * settles, one way or the other, the message is retired in favour of the queued one.
   */
  lemma LoopRetires(peer: string, l: Link, i: nat, ok: bool)
    requires LinkOK(peer, l) && l.sender.active == Some(i)
    requires i < |l.sender.messages| && l.sender.messages[i].acked
    ensures R.InRange(l.sender, l.sender.active) && R.InRange(l.sender, l.sender.queued)
    ensures l.sender.loops != [] && P.IsLive(l.sender, |l.sender.loops| - 1)
    ensures var s := LinkStep(peer, l, SenderEvent(R.Resume(|l.sender.loops| - 1, ok))).sender;
      P.Retired(s, i) && s.active == l.sender.queued && !s.retransmitting
  {
    LinkParts(peer, l);
    Runs.ActiveAckedIsLive(l.sender, i);
    P.AckedLoopRetires(l.sender, |l.sender.loops| - 1, ok);
    hide P.Inv, R.Step, LinkOK, P.IsLive;
  }

  lemma WireIdIsHex(o: Outgoing)
    ensures BitChatPacket.IsValidId(WireId(o)) && BitChatPacket.IsPrefixedHex(WireId(o))
  {
    BitChatPacket.FormatThenRead(V6A.HashMessageId(o.message.messageId));
  }
}
