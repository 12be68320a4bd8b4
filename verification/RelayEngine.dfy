/** Which connected peers a packet is relayed to, in the order it is sent. */
module MeshRouter {
  import opened Wrappers
  import opened Collections

  datatype PeerState = DISCOVERED | CONNECTED | STALE

  datatype PeerInfo = PeerInfo(peerId: nat, state: PeerState)

  function Excluded(local: nat, incoming: Option<nat>): set<nat> {
    {local} + (if incoming.Some? then {incoming.value} else {})
  }

  ghost function Connected(peers: seq<PeerInfo>): set<nat> {
    set p | p in peers && p.state == CONNECTED :: p.peerId
  }

  /** The relay list of a node: its connected peers without itself and the incoming peer, ascending. */
  ghost predicate IsRelayList(r: seq<nat>, connected: set<nat>, local: nat, incoming: Option<nat>) {
    StrictlySorted(r) && forall x :: x in r <==> x in connected && x !in Excluded(local, incoming)
  }

  method GetRelayPeers(localNodeId: nat, peers: seq<PeerInfo>, incoming: Option<nat>) returns (r: seq<nat>)
    ensures IsRelayList(r, Connected(peers), localNodeId, incoming)
  {
    var excluded := Excluded(localNodeId, incoming);
    var eligible: set<nat> := {};
    var i := 0;
    while i < |peers|
      invariant 0 <= i <= |peers|
      invariant eligible == Connected(peers[..i]) - excluded
    {
      assert peers[..i + 1] == peers[..i] + [peers[i]];
      if peers[i].state == CONNECTED && peers[i].peerId !in excluded {
        eligible := eligible + {peers[i].peerId};
      }
      i := i + 1;
    }
    assert peers[..i] == peers;
    r := SortedListing(eligible);
  }
}

/** How a node treats a packet: deduplicate, deliver when addressed, flood with one hop less to live. */
module RelayEngine {
  import opened Wrappers
  import opened Bytes
  import opened Collections
  import opened MeshRouter
  import Dedup = DedupCache

  const PACKET_TYPE_DATA := 1
  const PACKET_TYPE_ANNOUNCE := 2
  const PACKET_TYPE_DISCOVERY := 3
  const NODE_ID_BROADCAST: nat := 0

  datatype Packet = Packet(
    version: nat, packetType: nat, ttl: int, source: nat, destination: nat, packetId: nat, flags: nat,
    payload: seq<byte>)

  /** What a node did: handed a packet to the application, or sent it to a peer. */
  datatype Action = Deliver(packet: Packet, from: Option<nat>) | SendTo(peer: nat, packet: Packet)

  datatype Reaction = Reaction(seen: seq<string>, deliver: bool, forward: bool)

  function KeyOf(p: Packet): string {
    Dedup.BuildKey(p.source, p.packetId)
  }

  predicate AddressedTo(p: Packet, node: nat) {
    p.destination == node || p.destination == NODE_ID_BROADCAST
  }

  /** The same packet with one hop less to live. */
  function Forwarded(p: Packet): Packet {
    p.(ttl := p.ttl - 1)
  }

  function OnReceive(local: nat, seen: seq<string>, n: nat, p: Packet): Reaction {
    if KeyOf(p) in seen then Reaction(seen, false, false)
    else Reaction(Dedup.Mark(seen, KeyOf(p), n), AddressedTo(p, local),
                  p.packetType != PACKET_TYPE_ANNOUNCE && p.ttl > 0)
  }

  function OnOriginate(seen: seq<string>, n: nat, p: Packet): Reaction {
    Reaction(if KeyOf(p) in seen then seen else Dedup.Mark(seen, KeyOf(p), n), false, p.ttl > 0)
  }

  /** One send to every listed peer, in order. */
  function Sends(peers: seq<nat>, p: Packet): (a: seq<Action>)
    ensures |a| == |peers|
    ensures forall i :: 0 <= i < |a| ==> a[i] == SendTo(peers[i], p)
  {
    seq(|peers|, i requires 0 <= i < |peers| => SendTo(peers[i], p))
  }

  function ActionsOf(r: Reaction, p: Packet, from: Option<nat>, relayPeers: seq<nat>): seq<Action> {
    (if r.deliver then [Deliver(p, from)] else []) + (if r.forward then Sends(relayPeers, Forwarded(p)) else [])
  }

  /** How many of the listed peers could be reached. */
  function Reached(peers: seq<nat>, failing: set<nat>): nat {
    if peers == [] then 0
    else Reached(peers[..|peers| - 1], failing) + if peers[|peers| - 1] in failing then 0 else 1
  }

  /** That is the size of a set: a relay list has each peer once. */
  lemma {:induction false} ReachedCount(peers: seq<nat>, failing: set<nat>)
    requires Distinct(peers)
    ensures Reached(peers, failing) == |Elements(peers) - failing|
  {
    if peers == [] {
      assert Elements(peers) - failing == {};
    } else {
      var init, last := peers[..|peers| - 1], peers[|peers| - 1];
      assert peers == init + [last];
      DistinctPush(init, last);
      ReachedCount(init, failing);
      assert Elements(peers) - failing == (Elements(init) - failing) + ({last} - failing);
    }
  }

  /** An originated packet is sent to all connected peers, and accepted by those whose send does not fail. */
  lemma OriginationReaches(r: seq<nat>, connected: set<nat>, local: nat, failing: set<nat>)
    requires IsRelayList(r, connected, local, None)
    ensures Reached(r, failing) == |connected - {local} - failing|
  {
    ReachedCount(r, failing);
    assert Elements(r) - failing == connected - {local} - failing;
  }

  /** Sends are attempted independently; `failing` are the peers whose send rejects. */
  class RelayEngine {
    const localNodeId: nat
    const dedupCache: Dedup.DedupCache
    var actions: seq<Action>

    constructor (localNodeId: nat, dedupCache: Dedup.DedupCache)
      ensures this.localNodeId == localNodeId && this.dedupCache == dedupCache && actions == []
    {
      this.localNodeId := localNodeId;
      this.dedupCache := dedupCache;
      actions := [];
    }

    method SendAll(relayPeers: seq<nat>, forwarded: Packet, failing: set<nat>) returns (forwardedCount: nat)
      modifies this
      ensures actions == old(actions) + Sends(relayPeers, forwarded)
      ensures forwardedCount == Reached(relayPeers, failing)
    {
      forwardedCount := 0;
      var i := 0;
      while i < |relayPeers|
        invariant 0 <= i <= |relayPeers|
        invariant actions == old(actions) + Sends(relayPeers, forwarded)[..i]
        invariant forwardedCount == Reached(relayPeers[..i], failing)
      {
        assert relayPeers[..i + 1][..i] == relayPeers[..i];
        actions := actions + [SendTo(relayPeers[i], forwarded)];
        if relayPeers[i] !in failing {
          forwardedCount := forwardedCount + 1;
        }
        i := i + 1;
      }
      assert relayPeers[..i] == relayPeers;
    }

    method Receive(p: Packet, from: Option<nat>, peers: seq<PeerInfo>, failing: set<nat>, now: int)
      returns (ghost relayPeers: seq<nat>)
      modifies this, dedupCache
      ensures IsRelayList(relayPeers, Connected(peers), localNodeId, from)
      ensures var r := OnReceive(localNodeId, old(dedupCache.Keys()), dedupCache.maxEntries, p);
        && dedupCache.Keys() == r.seen
        && actions == old(actions) + ActionsOf(r, p, from, relayPeers)
      ensures var first := KeyOf(p) !in old(dedupCache.Keys());
        actions == old(actions)
          + (if first && AddressedTo(p, localNodeId) then [Deliver(p, from)] else [])
          + (if first && p.packetType != PACKET_TYPE_ANNOUNCE && p.ttl > 0
             then Sends(relayPeers, p.(ttl := p.ttl - 1)) else [])
    {
      hide Dedup.BuildKey, Dedup.Mark, IsRelayList, Connected, Sends;
      var eligible := GetRelayPeers(localNodeId, peers, from);
      relayPeers := eligible;
      var isDuplicate := dedupCache.CheckAndMark(p.source, p.packetId, now);
      if isDuplicate {
        return;
      }
      if AddressedTo(p, localNodeId) {
        actions := actions + [Deliver(p, from)];
      }
      if p.packetType == PACKET_TYPE_ANNOUNCE || p.ttl <= 0 {
        return;
      }
      var _ := SendAll(eligible, Forwarded(p), failing);
    }

    /** Local delivery of originated packets is the caller's business. */
    method Originate(p: Packet, peers: seq<PeerInfo>, failing: set<nat>, now: int)
      returns (forwardedCount: nat, ghost relayPeers: seq<nat>)
      modifies this, dedupCache
      ensures IsRelayList(relayPeers, Connected(peers), localNodeId, None)
      ensures var r := OnOriginate(old(dedupCache.Keys()), dedupCache.maxEntries, p);
        && dedupCache.Keys() == r.seen
        && actions == old(actions) + ActionsOf(r, p, None, relayPeers)
      ensures actions == old(actions) + if p.ttl > 0 then Sends(relayPeers, p.(ttl := p.ttl - 1)) else []
      ensures forwardedCount == if p.ttl > 0 then |Connected(peers) - {localNodeId} - failing| else 0
    {
      hide Dedup.BuildKey, Dedup.Mark, IsRelayList, Connected, Sends, Reached;
      var eligible := GetRelayPeers(localNodeId, peers, None);
      relayPeers := eligible;
      var _ := dedupCache.CheckAndMark(p.source, p.packetId, now);
      if p.ttl <= 0 {
        return 0, relayPeers;
      }
      forwardedCount := SendAll(eligible, Forwarded(p), failing);
      OriginationReaches(eligible, Connected(peers), localNodeId, failing);
    }
  }
}
