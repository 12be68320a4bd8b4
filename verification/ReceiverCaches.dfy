/** Per-peer memory of the last 64 deliveries and the last 64 completed fragment groups. */
module ReceiverCaches {
  import opened Wrappers
  import opened Collections

  const DELIVERED_CACHE_MAX := 64
  const COMPLETED_CACHE_MAX := 64

  datatype Delivered = Delivered(messageId: string, deliveredAt: int)

  datatype Completed = Completed(groupId: nat, messageId: string, completedAt: int)

  /** Evict the oldest entry at capacity, then push. */
  function Push<T>(entries: seq<T>, x: T, n: nat): seq<T>
    requires n > 0
  {
    (if |entries| >= n then entries[1..] else entries) + [x]
  }

  /** So a cache that is only pushed to holds the n most recent entries. */
  lemma PushIsWindow<T>(history: seq<T>, n: nat, x: T)
    requires n > 0
    ensures Push(Last(history, n), x, n) == Last(history + [x], n)
  {
  }

  function IdsOf(entries: seq<Delivered>): (ids: seq<string>)
    ensures |ids| == |entries|
    ensures forall i :: 0 <= i < |ids| ==> ids[i] == entries[i].messageId
  {
    seq(|entries|, i requires 0 <= i < |entries| => entries[i].messageId)
  }

  /** Entry i is the last one for the group. */
  ghost predicate LatestOf(entries: seq<Completed>, groupId: nat, i: int) {
    && 0 <= i < |entries| && entries[i].groupId == groupId
    && forall j :: i < j < |entries| ==> entries[j].groupId != groupId
  }

  /** The message id of the most recent entry for the group. */
  function CompletedId(entries: seq<Completed>, groupId: nat): (r: Option<string>)
    ensures r.Some? <==> exists i :: 0 <= i < |entries| && entries[i].groupId == groupId
    ensures r.Some? ==> exists i :: LatestOf(entries, groupId, i) && entries[i].messageId == r.value
  {
    if entries == [] then None
    else if entries[|entries| - 1].groupId == groupId then
      assert LatestOf(entries, groupId, |entries| - 1);
      Some(entries[|entries| - 1].messageId)
    else
      var r := CompletedId(entries[..|entries| - 1], groupId);
      assert forall i :: 0 <= i < |entries| - 1 ==> entries[..|entries| - 1][i] == entries[i];
      assert forall i :: LatestOf(entries[..|entries| - 1], groupId, i) ==> LatestOf(entries, groupId, i);
      r
  }

  function EntriesOf<T>(caches: map<string, seq<T>>, sourceId: string): seq<T> {
    if sourceId in caches then caches[sourceId] else []
  }

  class DeliveredMessageCache {
    var caches: map<string, seq<Delivered>>

    constructor ()
      ensures caches == map[]
    {
      caches := map[];
    }

    method IsDelivered(sourceId: string, messageId: string) returns (found: bool)
      ensures found <==> messageId in IdsOf(EntriesOf(caches, sourceId))
    {
      if sourceId !in caches {
        return false;
      }
      var entries := caches[sourceId];
      var i := |entries|;
      while i > 0
        invariant 0 <= i <= |entries|
        invariant forall j :: i <= j < |entries| ==> entries[j].messageId != messageId
      {
        i := i - 1;
        if entries[i].messageId == messageId {
          assert IdsOf(entries)[i] == messageId;
          return true;
        }
      }
      found := false;
    }

    method MarkDelivered(sourceId: string, messageId: string, now: int)
      modifies this
      ensures var entries := EntriesOf(old(caches), sourceId);
        caches == old(caches)[sourceId := Push(entries, Delivered(messageId, now), DELIVERED_CACHE_MAX)]
    {
      var entries := if sourceId in caches then caches[sourceId] else [];
      if |entries| >= DELIVERED_CACHE_MAX {
        entries := entries[1..];
      }
      caches := caches[sourceId := entries + [Delivered(messageId, now)]];
    }

    method ResetPeer(sourceId: string)
      modifies this
      ensures caches == old(caches) - {sourceId}
    {
      caches := caches - {sourceId};
    }
  }

  class CompletedGroupCache {
    var caches: map<string, seq<Completed>>

    constructor ()
      ensures caches == map[]
    {
      caches := map[];
    }

    method GetCompletedMessageId(sourceId: string, groupId: nat) returns (r: Option<string>)
      ensures r == CompletedId(EntriesOf(caches, sourceId), groupId)
    {
      if sourceId !in caches {
        return None;
      }
      var entries := caches[sourceId];
      var i := |entries|;
      assert entries[..i] == entries;
      while i > 0
        invariant 0 <= i <= |entries|
        invariant CompletedId(entries, groupId) == CompletedId(entries[..i], groupId)
      {
        i := i - 1;
        assert entries[..i + 1][..i] == entries[..i];
        if entries[i].groupId == groupId {
          return Some(entries[i].messageId);
        }
      }
      r := None;
    }

    method Store(sourceId: string, groupId: nat, messageId: string, now: int)
      modifies this
      ensures var entries := EntriesOf(old(caches), sourceId);
        caches == old(caches)[sourceId := Push(entries, Completed(groupId, messageId, now), COMPLETED_CACHE_MAX)]
    {
      var entries := if sourceId in caches then caches[sourceId] else [];
      if |entries| >= COMPLETED_CACHE_MAX {
        entries := entries[1..];
      }
      caches := caches[sourceId := entries + [Completed(groupId, messageId, now)]];
    }

    method ResetPeer(sourceId: string)
      modifies this
      ensures caches == old(caches) - {sourceId}
    {
      caches := caches - {sourceId};
    }
  }
}

/** The direct receive path of one peer: reassemble, deduplicate, hand over, acknowledge. */
module VoiceReceiver {
  import opened Wrappers
  import opened Bytes
  import opened Collections
  import opened FragmentCodec
  import opened Reassembler
  import opened ReceiverCaches
  import V6A = BinaryMessageCodec

  /** `heard` are the messages handed to speech, `acks` the ids acknowledged on the wire, oldest first. */
  datatype Receiver = Receiver(
    table: Table, delivered: seq<Delivered>, completed: seq<Completed>, heard: seq<V6A.ReceivedMessage>,
    acks: seq<string>)

  function Silent(): Receiver {
    Receiver(EMPTY_TABLE, [], [], [], [])
  }

  function Acked(r: Receiver, id: string): Receiver {
    r.(acks := r.acks + [id])
  }

  function Heard(r: Receiver, m: V6A.ReceivedMessage, now: int): Receiver {
    r.(delivered := Push(r.delivered, Delivered(m.messageId, now), DELIVERED_CACHE_MAX), heard := r.heard + [m])
  }

  function Finished(r: Receiver, groupId: nat, id: string, now: int): Receiver {
    r.(completed := Push(r.completed, Completed(groupId, id, now), COMPLETED_CACHE_MAX))
  }

  /** A complete packet: a known id is only acknowledged again. */
  function OnPacket(r: Receiver, packet: seq<byte>, group: Option<nat>, now: int): Receiver {
    match V6A.Decode(packet)
    case Err(_) => r
    case Ok(m) =>
      if m.messageId in IdsOf(r.delivered) then Acked(r, m.messageId)
      else
        var r1 := Heard(r, m, now);
        Acked(if group.Some? then Finished(r1, group.value, m.messageId, now) else r1, m.messageId)
  }

  /** A fragment of a group that is not known to be complete. */
  function OnFragment(r: Receiver, peer: string, h: FragmentHeader, chunk: seq<byte>, now: int): Receiver {
    var (t, answer) := AddFragmentTo(r.table, peer, h, chunk, now);
    var r1 := r.(table := t);
    if answer.Complete? then OnPacket(r1, answer.v6aPacket, Some(h.groupId), now) else r1
  }

  /** The payload of a data frame. */
  function OnData(r: Receiver, peer: string, payload: seq<byte>, now: int): Receiver {
    if payload != [] && payload[0] == V7_MARKER then
      match ParseHeader(payload)
      case Err(_) => r
      case Ok(h) =>
        var cached := CompletedId(r.completed, h.groupId);
        if cached.Some? && cached.value != "" then Acked(r, cached.value)
        else OnFragment(r, peer, h, payload[V7_HEADER_SIZE..], now)
    else OnPacket(r, payload, None, now)
  }

  /** Reassembly groups past their time are dropped. */
  function OnCleanup(r: Receiver, now: int): Receiver {
    r.(table := Restrict(r.table, Unexpired(r.table, now)))
  }

  class VoiceReceiver {
    const peer: string
    const reassembler: Reassembler
    const deliveredCache: DeliveredMessageCache
    const completedGroupCache: CompletedGroupCache
    var heard: seq<V6A.ReceivedMessage>
    var acks: seq<string>

    constructor (peer: string, reassembler: Reassembler, deliveredCache: DeliveredMessageCache,
          completedGroupCache: CompletedGroupCache)
      ensures this.peer == peer && this.reassembler == reassembler
      ensures this.deliveredCache == deliveredCache && this.completedGroupCache == completedGroupCache
      ensures heard == [] && acks == []
    {
      this.peer, this.reassembler := peer, reassembler;
      this.deliveredCache, this.completedGroupCache := deliveredCache, completedGroupCache;
      heard, acks := [], [];
    }

    ghost function Contents(): Receiver
      reads this, reassembler, deliveredCache, completedGroupCache
    {
      Receiver(reassembler.Contents(), EntriesOf(deliveredCache.caches, peer),
               EntriesOf(completedGroupCache.caches, peer), heard, acks)
    }

    method SendAck(messageId: string)
      modifies this`acks
      ensures Contents() == Acked(old(Contents()), messageId)
    {
      acks := acks + [messageId];
    }

    method AcceptPacket(packet: seq<byte>, groupId: Option<nat>, now: int)
      modifies this, deliveredCache, completedGroupCache
      ensures Contents() == OnPacket(old(Contents()), packet, groupId, now)
    {
      hide V6A.Decode, IdsOf, Push;
      var decoded := V6A.Decode(packet);
      if decoded.Err? {
        return;
      }
      var semanticMsg := decoded.value;
      var known := deliveredCache.IsDelivered(peer, semanticMsg.messageId);
      if !known {
        deliveredCache.MarkDelivered(peer, semanticMsg.messageId, now);
        if groupId.Some? {
          completedGroupCache.Store(peer, groupId.value, semanticMsg.messageId, now);
        }
        heard := heard + [semanticMsg];
      }
      SendAck(semanticMsg.messageId);
    }

    method ReceiveData(payload: seq<byte>, now: int)
      requires TableOK(reassembler.Contents())
      modifies this, reassembler, deliveredCache, completedGroupCache
      ensures Contents() == OnData(old(Contents()), peer, payload, now)
      ensures TableOK(reassembler.Contents())
    {
      if payload == [] || payload[0] != V7_MARKER {
        AcceptPacket(payload, None, now);
        return;
      }
      var parsed := ParseHeader(payload);
      if parsed.Err? {
        return;
      }
      var header := parsed.value;
      var cachedMsgId := completedGroupCache.GetCompletedMessageId(peer, header.groupId);
      if cachedMsgId.Some? && cachedMsgId.value != "" {
        SendAck(cachedMsgId.value);
        return;
      }
      var result := reassembler.AddFragment(peer, header, payload[V7_HEADER_SIZE..], now);
      if result.Complete? {
        AcceptPacket(result.v6aPacket, Some(header.groupId), now);
      }
    }
  }
}
