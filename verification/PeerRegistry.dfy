/** The records of known peers. */
module PeerRegistry {
  import opened MeshRouter

  datatype Record = Record(lastSeen: int, state: PeerState)

  type Peers = map<nat, Record>

  function Upserted(peers: Peers, id: nat, now: int): Peers {
    peers[id := if id in peers then peers[id].(lastSeen := now) else Record(now, DISCOVERED)]
  }

  function Marked(peers: Peers, id: nat, state: PeerState, now: int): Peers {
    peers[id := Record(now, state)]
  }

  function ConnectedIds(peers: Peers): set<nat> {
    set id | id in peers && peers[id].state == CONNECTED
  }

  /** What marking does to the set of connected peers. */
  lemma MarkedConnected(peers: Peers, id: nat, state: PeerState, now: int)
    ensures ConnectedIds(Marked(peers, id, state, now))
         == if state == CONNECTED then ConnectedIds(peers) + {id} else ConnectedIds(peers) - {id}
    ensures ConnectedIds(Upserted(peers, id, now)) == ConnectedIds(peers)
  {
  }

  class PeerRegistry {
    var peers: Peers

    constructor ()
      ensures peers == map[]
    {
      peers := map[];
    }

    method UpsertPeer(id: nat, now: int)
      modifies this
      ensures peers == old(peers)[id := Record(now, if id in old(peers) then old(peers)[id].state else DISCOVERED)]
    {
      if id in peers {
        peers := peers[id := peers[id].(lastSeen := now)];
        return;
      }
      peers := peers[id := Record(now, DISCOVERED)];
    }

    method MarkConnected(id: nat, now: int)
      modifies this
      ensures peers == old(peers)[id := Record(now, CONNECTED)]
    {
      UpsertPeer(id, now);
      peers := peers[id := peers[id].(state := CONNECTED)];
    }

    method MarkDisconnected(id: nat, now: int)
      modifies this
      ensures peers == old(peers)[id := Record(now, DISCOVERED)]
    {
      UpsertPeer(id, now);
      peers := peers[id := peers[id].(state := DISCOVERED)];
    }

    /** `Array.from(peers.values())`, in whatever order. */
    method GetPeers() returns (list: seq<PeerInfo>)
      ensures Connected(list) == ConnectedIds(peers)
    {
      list := [];
      var rest := peers.Keys;
      while rest != {}
        invariant rest <= peers.Keys
        invariant forall p :: p in list ==> p.peerId in peers && p.state == peers[p.peerId].state
        invariant forall id :: id in peers && id !in rest ==> PeerInfo(id, peers[id].state) in list
        decreases rest
      {
        var id :| id in rest;
        rest := rest - {id};
        list := list + [PeerInfo(id, peers[id].state)];
      }
      forall id | id in ConnectedIds(peers)
        ensures id in Connected(list)
      {
        assert PeerInfo(id, peers[id].state) in list;
      }
    }
  }
}
