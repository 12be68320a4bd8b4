/** The two-way map between BLE keys and node ids that the adapter keeps for direct connections. */
module PeerMap {
  import opened Wrappers
  import opened Bytes
  import opened Collections
  import opened MeshRouter
  import opened PeerRegistry

  const ANNOUNCE_PAYLOAD_SIZE := 9
  const ANNOUNCE_PROTOCOL_VERSION: byte := 1

  /** peerMappings, reverseMappings and the records of the peer registry. */
  datatype Adapter = Adapter(byBle: map<string, nat>, byNode: map<nat, string>, peers: Peers)

  function Register(s: Adapter, ble: string, node: nat, now: int): Adapter {
    var s1 :=
      if ble in s.byBle && s.byBle[ble] != node then
        s.(byNode := s.byNode - {s.byBle[ble]}, peers := Marked(s.peers, s.byBle[ble], DISCOVERED, now))
      else s;
    var s2 :=
      if node in s1.byNode && s1.byNode[node] != ble then
        s1.(byBle := s1.byBle - {s1.byNode[node]}, peers := Marked(s1.peers, node, DISCOVERED, now))
      else s1;
    Adapter(s2.byBle[ble := node], s2.byNode[node := ble], Marked(s2.peers, node, CONNECTED, now))
  }

  function Unregister(s: Adapter, ble: string, now: int): Adapter {
    if ble !in s.byBle then s
    else
      var node := s.byBle[ble];
      Adapter(s.byBle - {ble}, if node in s.byNode && s.byNode[node] == ble then s.byNode - {node} else s.byNode,
              Marked(s.peers, node, DISCOVERED, now))
  }

  function DecodeAnnounce(payload: seq<byte>): Option<nat> {
    if |payload| != ANNOUNCE_PAYLOAD_SIZE || payload[8] != ANNOUNCE_PROTOCOL_VERSION then None
    else Some(FromBE(payload[..8]))
  }

  /** What a received packet does to the map: only announcements change it. */
  function OnAnnounce(s: Adapter, ble: string, payload: seq<byte>, now: int): Adapter {
    match DecodeAnnounce(payload)
    case None => s
    case Some(node) => Register(s, ble, node, now)
  }

  function OnData(s: Adapter, ble: string, now: int): Adapter {
    if ble in s.byBle then s.(peers := Upserted(s.peers, s.byBle[ble], now)) else s
  }

  predicate IsDirectPeerReady(s: Adapter, ble: string) {
    && ble in s.byBle
    && s.byBle[ble] in s.byNode && s.byNode[s.byBle[ble]] == ble
    && s.byBle[ble] in s.peers && s.peers[s.byBle[ble]].state == CONNECTED
  }

  /** The two maps are each other's inverse. */
  ghost predicate Inverse(byBle: map<string, nat>, byNode: map<nat, string>) {
    && (forall b :: b in byBle ==> byBle[b] in byNode && byNode[byBle[b]] == b)
    && (forall n :: n in byNode ==> byNode[n] in byBle && byBle[byNode[n]] == n)
  }

  ghost predicate Bijective(s: Adapter) {
    Inverse(s.byBle, s.byNode) && ConnectedIds(s.peers) == s.byNode.Keys
  }

  /** ble is mapped to node, and no other key to node. */
  function WithKey(byBle: map<string, nat>, ble: string, node: nat): map<string, nat> {
    map b | b in byBle.Keys + {ble} && (b == ble || byBle[b] != node) :: (if b == ble then node else byBle[b])
  }

  /** node is mapped to ble, and no other node to ble. */
  function WithNode(byNode: map<nat, string>, ble: string, node: nat): map<nat, string> {
    map n | n in byNode.Keys + {node} && (n == node || byNode[n] != ble) :: (if n == node then ble else byNode[n])
  }

  /** Registering makes the pair current, forgets what either side was mapped to, and touches no other pair. */
  lemma RegisterMaps(s: Adapter, ble: string, node: nat, now: int)
    requires Inverse(s.byBle, s.byNode)
    ensures Register(s, ble, node, now).byBle == WithKey(s.byBle, ble, node)
    ensures Register(s, ble, node, now).byNode == WithNode(s.byNode, ble, node)
  {
    hide Marked;
  }

  lemma WithInverse(byBle: map<string, nat>, byNode: map<nat, string>, ble: string, node: nat)
    requires Inverse(byBle, byNode)
    ensures Inverse(WithKey(byBle, ble, node), WithNode(byNode, ble, node))
  {
  }

  lemma RegisterConnected(s: Adapter, ble: string, node: nat, now: int)
    requires Bijective(s)
    ensures ConnectedIds(Register(s, ble, node, now).peers) == Register(s, ble, node, now).byNode.Keys
  {
    hide ConnectedIds, Marked;
    var p1 := if ble in s.byBle && s.byBle[ble] != node
              then Marked(s.peers, s.byBle[ble], DISCOVERED, now) else s.peers;
    if ble in s.byBle {
      MarkedConnected(s.peers, s.byBle[ble], DISCOVERED, now);
    }
    MarkedConnected(p1, node, DISCOVERED, now);
    MarkedConnected(p1, node, CONNECTED, now);
    MarkedConnected(Marked(p1, node, DISCOVERED, now), node, CONNECTED, now);
  }

  lemma RegisterOK(s: Adapter, ble: string, node: nat, now: int)
    requires Bijective(s)
    ensures Bijective(Register(s, ble, node, now))
  {
    hide Inverse, Register, ConnectedIds, WithKey, WithNode;
    RegisterMaps(s, ble, node, now);
    WithInverse(s.byBle, s.byNode, ble, node);
    RegisterConnected(s, ble, node, now);
  }

  lemma UnregisterOK(s: Adapter, ble: string, now: int)
    requires Bijective(s)
    ensures Bijective(Unregister(s, ble, now)) && ble !in Unregister(s, ble, now).byBle
  {
    if ble in s.byBle {
      MarkedConnected(s.peers, s.byBle[ble], DISCOVERED, now);
    }
    hide ConnectedIds, Marked;
  }

  /** Unregistering forgets exactly the pair of the key; all others, and the records of other nodes, stay. */
  lemma UnregisterMaps(s: Adapter, ble: string, now: int)
    requires Bijective(s)
    ensures Unregister(s, ble, now).byBle == s.byBle - {ble}
    ensures var node := if ble in s.byBle then {s.byBle[ble]} else {};
      && Unregister(s, ble, now).byNode == s.byNode - node
      && ConnectedIds(Unregister(s, ble, now).peers) == ConnectedIds(s.peers) - node
      && forall n :: n in s.peers && n !in node ==>
           n in Unregister(s, ble, now).peers && Unregister(s, ble, now).peers[n] == s.peers[n]
  {
    if ble in s.byBle { MarkedConnected(s.peers, s.byBle[ble], DISCOVERED, now); }
    hide ConnectedIds;
  }

  /** Data from a mapped key only makes its node seen now. */
  lemma DataIsSeen(s: Adapter, ble: string, now: int)
    requires Bijective(s)
    ensures var s' := OnData(s, ble, now);
      && s'.byBle == s.byBle && s'.byNode == s.byNode
      && (ble !in s.byBle ==> s'.peers == s.peers)
      && (ble in s.byBle ==> s.byBle[ble] in s.peers && s'.peers.Keys == s.peers.Keys)
      && (forall n :: n in s.peers ==>
            s'.peers[n] == if ble in s.byBle && n == s.byBle[ble] then s.peers[n].(lastSeen := now) else s.peers[n])
  {
    if ble in s.byBle { assert s.byBle[ble] in ConnectedIds(s.peers); }
  }

  datatype Input =
    | Registers(ble: string, node: nat, now: int)
    | Unregisters(ble: string, now: int)
    | Announces(ble: string, payload: seq<byte>, now: int)
    | Data(ble: string, now: int)

  function Step(s: Adapter, e: Input): Adapter {
    match e
    case Registers(ble, node, now) => Register(s, ble, node, now)
    case Unregisters(ble, now) => Unregister(s, ble, now)
    case Announces(ble, payload, now) => OnAnnounce(s, ble, payload, now)
    case Data(ble, now) => OnData(s, ble, now)
  }

  function Run(inputs: seq<Input>): Adapter {
    if inputs == [] then Adapter(map[], map[], map[]) else Step(Run(inputs[..|inputs| - 1]), inputs[|inputs| - 1])
  }

  /**
   * After every sequence of operations the two maps are inverse to each other, and the connected
   * peers of the registry are exactly the mapped nodes.
   */
  lemma {:induction false} AlwaysBijective(inputs: seq<Input>)
    ensures Bijective(Run(inputs))
  {
    if inputs != [] {
      var s, e := Run(inputs[..|inputs| - 1]), inputs[|inputs| - 1];
      AlwaysBijective(inputs[..|inputs| - 1]);
      StepOK(s, e);
    }
    hide Step;
  }

  lemma StepOK(s: Adapter, e: Input)
    requires Bijective(s)
    ensures Bijective(Step(s, e))
  {
    hide Register, Unregister, FromBE, Inverse, ConnectedIds;
    match e
    case Registers(ble, node, now) => RegisterOK(s, ble, node, now);
    case Unregisters(ble, now) => UnregisterOK(s, ble, now);
    case Announces(ble, payload, now) =>
      if DecodeAnnounce(payload).Some? { RegisterOK(s, ble, DecodeAnnounce(payload).value, now); }
    case Data(ble, now) =>
      if ble in s.byBle { MarkedConnected(s.peers, s.byBle[ble], DISCOVERED, now); }
  }

  /** The operation registers this pair, directly or by an announcement. */
  predicate Pairs(e: Input, ble: string, node: nat) {
    || e == Registers(ble, node, e.now)
    || (e.Announces? && e.ble == ble && DecodeAnnounce(e.payload) == Some(node))
  }

  /** The operation disconnects the key, or pairs one of the two anew but not with the other. */
  ghost predicate Parts(e: Input, ble: string, node: nat) {
    || (e.Unregisters? && e.ble == ble)
    || (exists b, n :: Pairs(e, b, n) && ((b == ble) != (n == node)))
  }

  /** Operation k is the last that has to do with the pair: it registers it, and none after it parts it. */
  ghost predicate PairedSince(inputs: seq<Input>, ble: string, node: nat, k: nat) {
    k < |inputs| && Pairs(inputs[k], ble, node) && forall j :: k < j < |inputs| ==> !Parts(inputs[j], ble, node)
  }

  /** What one operation does to a pair. */
  lemma StepPairs(s: Adapter, e: Input, ble: string, node: nat)
    requires Bijective(s)
    ensures var s' := Step(s, e);
      ble in s'.byBle && s'.byBle[ble] == node <==>
        Pairs(e, ble, node) || (ble in s.byBle && s.byBle[ble] == node && !Parts(e, ble, node))
  {
    hide Register, Unregister, ConnectedIds, FromBE;
    match e
    case Registers(b, n, now) =>
      RegisterMaps(s, b, n, now);
      assert Pairs(e, b, n);
    case Unregisters(b, now) => UnregisterMaps(s, b, now);
    case Announces(b, payload, now) =>
      var n := DecodeAnnounce(payload);
      if n.Some? {
        RegisterMaps(s, b, n.value, now);
        assert Pairs(e, b, n.value);
      }
    case Data(_, _) =>
  }

  /** After every sequence of operations a key is mapped to a node exactly if they were paired and not parted since. */
  lemma {:induction false} MappedExactly(inputs: seq<Input>, ble: string, node: nat)
    ensures ble in Run(inputs).byBle && Run(inputs).byBle[ble] == node <==>
      exists k: nat :: PairedSince(inputs, ble, node, k)
  {
    hide Step, Pairs, Parts;
    if inputs != [] {
      var n := |inputs| - 1;
      MappedExactly(inputs[..n], ble, node);
      AlwaysBijective(inputs[..n]);
      StepPairs(Run(inputs[..n]), inputs[n], ble, node);
      hide Run, Bijective;
      assert forall j :: 0 <= j < n ==> inputs[..n][j] == inputs[j];
      forall k: nat | k < n
        ensures PairedSince(inputs, ble, node, k) <==>
          PairedSince(inputs[..n], ble, node, k) && !Parts(inputs[n], ble, node)
      {
      }
      assert PairedSince(inputs, ble, node, n) <==> Pairs(inputs[n], ble, node);
      RunLast(inputs);
    }
  }

  lemma RunLast(inputs: seq<Input>)
    requires inputs != []
    ensures Run(inputs) == Step(Run(inputs[..|inputs| - 1]), inputs[|inputs| - 1])
  {
    hide Step;
  }

  /** A BLE key has a ready route exactly when it is mapped. */
  lemma ReadyMeansMapped(inputs: seq<Input>, ble: string)
    ensures IsDirectPeerReady(Run(inputs), ble) <==> ble in Run(inputs).byBle
  {
    AlwaysBijective(inputs);
    var s := Run(inputs);
    assert ble in s.byBle ==> s.byBle[ble] in ConnectedIds(s.peers);
    hide Run;
  }

  /** The BLE keys to which a relay list is sent, in order. */
  function KeysFor(s: Adapter, list: seq<nat>): (keys: seq<string>)
    requires forall n :: n in list ==> n in s.byNode
    ensures |keys| == |list| && forall i :: 0 <= i < |keys| ==> keys[i] == s.byNode[list[i]]
  {
    seq(|list|, i requires 0 <= i < |list| => assert list[i] in list; s.byNode[list[i]])
  }

  lemma TargetsExact(s: Adapter, local: nat, list: seq<nat>, targets: seq<string>)
    requires Bijective(s) && IsRelayList(list, ConnectedIds(s.peers), local, None) && |targets| == |list|
    requires forall k :: 0 <= k < |list| ==> list[k] in s.byNode && targets[k] == s.byNode[list[k]]
    ensures Distinct(targets)
    ensures forall b :: b in targets <==> b in s.byBle && s.byBle[b] != local
  {
    hide ConnectedIds;
    assert forall i :: 0 <= i < |list| ==> list[i] in list && s.byBle[targets[i]] == list[i];
    forall b | b in s.byBle && s.byBle[b] != local
      ensures b in targets
    {
      assert s.byBle[b] in list;
      var i :| 0 <= i < |list| && list[i] == s.byBle[b];
      assert targets[i] == b;
    }
  }

  /**
   * Relaying never misses a mapping, and an origination reaches each registered BLE key exactly once,
   * except one that is mapped to the local node itself.
   */
  lemma EachKeyOnce(inputs: seq<Input>, local: nat, list: seq<nat>)
    requires IsRelayList(list, ConnectedIds(Run(inputs).peers), local, None)
    ensures var s := Run(inputs);
      && (forall n :: n in list ==> n in s.byNode)
      && Distinct(KeysFor(s, list))
      && (forall b :: b in KeysFor(s, list) <==> b in s.byBle && s.byBle[b] != local)
  {
    AlwaysBijective(inputs);
    var s := Run(inputs);
    hide Run, ConnectedIds;
    assert forall n :: n in list ==> n in s.byNode;
    assert forall k :: 0 <= k < |list| ==> list[k] in list;
    TargetsExact(s, local, list, KeysFor(s, list));
  }

  /** The announcement payload of a node. */
  function AnnounceBytes(node: nat): seq<byte> {
    ToBE(node, 8) + [ANNOUNCE_PROTOCOL_VERSION]
  }

  /** A node's own announcement registers exactly that node. */
  lemma AnnounceRoundTrip(node: nat)
    requires node < TWO_64
    ensures DecodeAnnounce(AnnounceBytes(node)) == Some(node)
  {
    Pow256Values();
    FromToBE(node, 8);
    assert AnnounceBytes(node)[..8] == ToBE(node, 8);
  }

  class BitChatBLEAdapter {
    const localNodeId: nat
    const peerRegistry: PeerRegistry
    var peerMappings: map<string, nat>
    var reverseMappings: map<nat, string>

    ghost function Contents(): Adapter
      reads this, peerRegistry
    {
      Adapter(peerMappings, reverseMappings, peerRegistry.peers)
    }

    constructor (localNodeId: nat, peerRegistry: PeerRegistry)
      requires peerRegistry.peers == map[]
      ensures this.localNodeId == localNodeId && this.peerRegistry == peerRegistry && Contents() == Run([])
    {
      this.localNodeId, this.peerRegistry := localNodeId, peerRegistry;
      peerMappings, reverseMappings := map[], map[];
    }

    method RegisterPeer(ble: string, node: nat, now: int)
      modifies this, peerRegistry
      ensures Contents() == Register(old(Contents()), ble, node, now)
    {
      if ble in peerMappings && peerMappings[ble] != node {
        var previous := peerMappings[ble];
        reverseMappings := reverseMappings - {previous};
        peerRegistry.MarkDisconnected(previous, now);
      }
      if node in reverseMappings && reverseMappings[node] != ble {
        peerMappings := peerMappings - {reverseMappings[node]};
        peerRegistry.MarkDisconnected(node, now);
      }
      peerMappings := peerMappings[ble := node];
      reverseMappings := reverseMappings[node := ble];
      peerRegistry.MarkConnected(node, now);
    }

    method UnregisterPeer(ble: string, now: int)
      modifies this, peerRegistry
      ensures Contents() == Unregister(old(Contents()), ble, now)
    {
      if ble in peerMappings {
        var node := peerMappings[ble];
        peerRegistry.MarkDisconnected(node, now);
        peerMappings := peerMappings - {ble};
        if node in reverseMappings && reverseMappings[node] == ble {
          reverseMappings := reverseMappings - {node};
        }
      }
    }

    method ProcessAnnounce(payload: seq<byte>, ble: string, now: int) returns (node: Option<nat>)
      modifies this, peerRegistry
      ensures node == DecodeAnnounce(payload) && Contents() == OnAnnounce(old(Contents()), ble, payload, now)
    {
      node := DecodeAnnounce(payload);
      if node.Some? {
        RegisterPeer(ble, node.value, now);
      }
    }

    method NoteData(ble: string, now: int)
      modifies this, peerRegistry
      ensures Contents() == OnData(old(Contents()), ble, now)
    {
      if ble in peerMappings {
        peerRegistry.UpsertPeer(peerMappings[ble], now);
      }
    }

    /** The BLE keys an origination goes to. */
    method OriginateTargets() returns (targets: seq<string>)
      requires Bijective(Contents())
      ensures Distinct(targets)
      ensures forall b :: b in targets <==> b in peerMappings && peerMappings[b] != localNodeId
    {
      var list := peerRegistry.GetPeers();
      var eligible := GetRelayPeers(localNodeId, list, None);
      targets := [];
      var i := 0;
      while i < |eligible|
        invariant 0 <= i <= |eligible| && |targets| == i
        invariant forall k :: 0 <= k < i ==>
          eligible[k] in reverseMappings && targets[k] == reverseMappings[eligible[k]]
      {
        assert eligible[i] in eligible;
        assert eligible[i] in ConnectedIds(peerRegistry.peers);
        targets := targets + [reverseMappings[eligible[i]]];
        i := i + 1;
      }
      TargetsExact(Contents(), localNodeId, eligible, targets);
    }
  }
}
