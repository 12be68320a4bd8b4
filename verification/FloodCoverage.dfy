/** Flooding round by round: a packet with time to live T is delivered once at every addressed node within T hops. */
module FloodCoverage {
  import opened Wrappers
  import opened Collections
  import opened MeshRouter
  import opened RelayEngine
  import opened DedupCache
  import opened MeshNetwork

  /** Each node's connected peers. Links need not be symmetric. */
  type Graph = map<nat, set<nat>>

  ghost predicate GraphOK(g: Graph) {
    forall u :: u in g ==> g[u] <= g.Keys && u !in g[u]
  }

  ghost function Spread(g: Graph, s: set<nat>): set<nat> {
    set u, v | u in s && u in g && v in g[u] :: v
  }

  /** The nodes at most d hops away from o. */
  ghost function Reach(g: Graph, o: nat, d: nat): set<nat> {
    if d == 0 then {o} else Reach(g, o, d - 1) + Spread(g, Reach(g, o, d - 1))
  }

  ghost predicate AtDistance(g: Graph, o: nat, d: nat, v: nat) {
    v in Reach(g, o, d) && (d == 0 || v !in Reach(g, o, d - 1))
  }

  ghost predicate IsPath(g: Graph, path: seq<nat>) {
    path != [] && forall i :: 0 <= i < |path| - 1 ==> path[i] in g && path[i + 1] in g[path[i]]
  }

  ghost predicate PathWithin(g: Graph, path: seq<nat>, o: nat, v: nat, d: nat) {
    IsPath(g, path) && path[0] == o && path[|path| - 1] == v && |path| <= d + 1
  }

  /** Reach is distance: v is within d hops of o exactly when a path of at most d links leads there. */
  lemma {:induction false} ReachIsPaths(g: Graph, o: nat, d: nat, v: nat)
    ensures v in Reach(g, o, d) <==> exists path :: PathWithin(g, path, o, v, d)
  {
    if v in Reach(g, o, d) {
      var path := PathTo(g, o, d, v);
    }
    forall path | PathWithin(g, path, o, v, d)
      ensures v in Reach(g, o, d)
    {
      PathReaches(g, path, o, v, d);
    }
  }

  lemma {:induction false} PathTo(g: Graph, o: nat, d: nat, v: nat) returns (path: seq<nat>)
    requires v in Reach(g, o, d)
    ensures PathWithin(g, path, o, v, d)
  {
    if d == 0 {
      path := [o];
    } else if v in Reach(g, o, d - 1) {
      path := PathTo(g, o, d - 1, v);
    } else {
      var u :| u in Reach(g, o, d - 1) && u in g && v in g[u];
      path := PathTo(g, o, d - 1, u);
      path := path + [v];
    }
  }

  lemma {:induction false} PathReaches(g: Graph, path: seq<nat>, o: nat, v: nat, d: nat)
    requires PathWithin(g, path, o, v, d)
    ensures v in Reach(g, o, d)
  {
    var n := |path| - 1;
    if n == 0 {
      ReachGrows(g, o, 0, d);
    } else {
      assert path[n - 1] in g && path[n - 1 + 1] in g[path[n - 1]];
      PathReaches(g, path[..n], o, path[n - 1], d - 1);
    }
  }

  lemma {:induction false} ReachGrows(g: Graph, o: nat, d: nat, e: nat)
    requires d <= e
    ensures Reach(g, o, d) <= Reach(g, o, e)
  {
    if d < e {
      ReachGrows(g, o, d, e - 1);
    }
  }

  lemma {:induction false} ReachInside(g: Graph, o: nat, d: nat)
    requires GraphOK(g) && o in g
    ensures o in Reach(g, o, d) && Reach(g, o, d) <= g.Keys
  {
    if d > 0 {
      ReachInside(g, o, d - 1);
    }
  }

  // Rounds -----------------------------------------------------------------------------------------

  /** One round: the packets under way arrive in some order, each with the relay list of its receiver. */
  datatype Round = Round(batch: seq<Copy>, lists: seq<seq<nat>>)

  ghost predicate RoundOK(g: Graph, s: Network, r: Round) {
    && multiset(r.batch) == multiset(s.inFlight)
    && |r.lists| == |r.batch|
    && forall k :: 0 <= k < |r.batch| && r.batch[k].to in g ==>
         IsRelayList(r.lists[k], g[r.batch[k].to], r.batch[k].to, Some(r.batch[k].from))
  }

  /** The network after the first k arrivals of a round. */
  function Play(s: Network, r: Round, k: nat): Network
    requires k <= |r.batch| == |r.lists|
  {
    if k == 0 then s.(inFlight := []) else Arrive(Play(s, r, k - 1), r.batch[k - 1], r.lists[k - 1])
  }

  // What holds between and within rounds --------------------------------------------------------------

  ghost function Marked(g: Graph, s: Network, key: string): set<nat> {
    set v | v in g && key in At(s.seen, v)
  }

  ghost predicate OnLink(g: Graph, c: Copy, senders: set<nat>) {
    c.from in senders && c.from in g && c.to in g[c.from]
  }

  /** Packet p as it travels in round d. */
  function InRound(p: Packet, d: nat): Packet {
    p.(ttl := p.ttl - d)
  }

  /** The packets under way before round d come from nodes within d - 1 hops. */
  ghost predicate SentFrom(g: Graph, p: Packet, d: nat, senders: set<nat>, copies: seq<Copy>) {
    forall c :: c in copies ==> c.packet == InRound(p, d) && c.hops == d && OnLink(g, c, senders)
  }

  ghost predicate SomeCopyTo(copies: seq<Copy>, v: nat) {
    exists c :: c in copies && c.to == v
  }

  ghost predicate Covers(copies: seq<Copy>, targets: set<nat>) {
    forall v :: v in targets ==> SomeCopyTo(copies, v)
  }

  /** Packets under way before round d >= 1. */
  ghost predicate Ready(g: Graph, o: nat, p: Packet, d: nat, copies: seq<Copy>)
    requires d >= 1
  {
    SentFrom(g, p, d, Reach(g, o, d - 1), copies) && Covers(copies, Reach(g, o, d) - Reach(g, o, d - 1))
  }

  ghost predicate DeliveredAsSent(g: Graph, o: nat, p: Packet, d: Delivery) {
    d.hops >= 1 && AtDistance(g, o, d.hops, d.node) && d.packet == InRound(p, d.hops)
  }

  ghost predicate NodesDiffer(log: seq<Delivery>) {
    forall i, j :: 0 <= i < j < |log| ==> log[i].node != log[j].node
  }

  ghost predicate AllAsSent(g: Graph, o: nat, p: Packet, log: seq<Delivery>) {
    forall d :: d in log ==> DeliveredAsSent(g, o, p, d)
  }

  ghost function NodesOf(log: seq<Delivery>): set<nat> {
    set d | d in log :: d.node
  }

  /** The application has been handed p once at each of the given nodes that it is addressed to. */
  ghost predicate DeliveredAt(g: Graph, o: nat, p: Packet, log: seq<Delivery>, nodes: set<nat>) {
    && NodesDiffer(log) && AllAsSent(g, o, p, log)
    && NodesOf(log) == set v | v in nodes && v != o && AddressedTo(p, v)
  }

  ghost predicate AfterRound(g: Graph, o: nat, p: Packet, d: nat, s: Network) {
    && Marked(g, s, KeyOf(p)) == Reach(g, o, d)
    && DeliveredAt(g, o, p, s.delivered, Reach(g, o, d))
    && (if p.ttl > d then Ready(g, o, p, d + 1, s.inFlight) else s.inFlight == [])
  }

  /** The targets of the first k arrivals. */
  ghost function Hit(batch: seq<Copy>, k: nat): set<nat>
    requires k <= |batch|
  {
    set i: nat | i < k :: batch[i].to
  }

  lemma HitNext(batch: seq<Copy>, k: nat)
    requires k < |batch|
    ensures Hit(batch, k + 1) == Hit(batch, k) + {batch[k].to}
  {
  }

  /** Whom the nodes first reached by the given arrivals of round d owe a copy. */
  ghost function Targets(g: Graph, o: nat, p: Packet, d: nat, hit: set<nat>): set<nat>
    requires d >= 1
  {
    if p.ttl > d then Spread(g, hit - Reach(g, o, d - 1)) - Reach(g, o, d - 1) else {}
  }

  /** During round d, after k arrivals. */
  ghost predicate MidRound(g: Graph, o: nat, p: Packet, d: nat, r: Round, k: nat, s: Network)
    requires d >= 1 && k <= |r.batch|
  {
    && Marked(g, s, KeyOf(p)) == Reach(g, o, d - 1) + Hit(r.batch, k)
    && DeliveredAt(g, o, p, s.delivered, Reach(g, o, d - 1) + Hit(r.batch, k))
    && SentFrom(g, p, d + 1, Reach(g, o, d), s.inFlight)
    && Covers(s.inFlight, Targets(g, o, p, d, Hit(r.batch, k)))
    && (p.ttl <= d ==> s.inFlight == [])
  }

  lemma MarkContains(keys: seq<string>, key: string)
    ensures key in Mark(keys, key, DEDUP_MAX_ENTRIES)
  {
    var m := Mark(keys, key, DEDUP_MAX_ENTRIES);
    assert m[|m| - 1] == key;
  }

  lemma ArriveMarks(g: Graph, s: Network, c: Copy, list: seq<nat>, key: string)
    requires c.to in g && key == KeyOf(c.packet)
    ensures Marked(g, Arrive(s, c, list), key) == Marked(g, s, key) + {c.to}
  {
    MarkContains(At(s.seen, c.to), key);
  }

  lemma ArriveDelivers(g: Graph, o: nat, p: Packet, d: nat, s: Network, c: Copy, list: seq<nat>, nodes: set<nat>)
    requires d >= 1 && c.packet == InRound(p, d) && c.hops == d && c.to in g
    requires nodes == Marked(g, s, KeyOf(p)) && o in nodes && DeliveredAt(g, o, p, s.delivered, nodes)
    requires c.to !in nodes ==> AtDistance(g, o, d, c.to)
    ensures DeliveredAt(g, o, p, Arrive(s, c, list).delivered, nodes + {c.to})
  {
    var log, log' := s.delivered, Arrive(s, c, list).delivered;
    assert forall i :: 0 <= i < |log| ==> log[i] in log && log[i].node in NodesOf(log);
    if c.to in nodes || !AddressedTo(p, c.to) {
      assert log' == log;
    } else {
      var x := Delivery(c.to, c.packet, c.hops, |At(s.histories, c.to)|);
      assert log' == log + [x] && DeliveredAsSent(g, o, p, x);
      assert NodesOf(log') == NodesOf(log) + {c.to};
    }
    hide AtDistance, DeliveredAsSent;
  }

  lemma CopiesCover(list: seq<nat>, peers: set<nat>, v: nat, u: nat, p: Packet, hops: nat, targets: set<nat>)
    requires IsRelayList(list, peers, v, Some(u)) && targets <= peers && u !in targets && v !in targets
    ensures Covers(CopiesTo(list, v, p, hops), targets)
  {
    var copies := CopiesTo(list, v, p, hops);
    forall w | w in targets
      ensures SomeCopyTo(copies, w)
    {
      assert w in list;
      var i :| 0 <= i < |list| && list[i] == w;
      assert copies[i] in copies && copies[i].to == w;
    }
  }

  lemma CoversJoin(a: seq<Copy>, b: seq<Copy>, x: set<nat>, y: set<nat>)
    requires Covers(a, x) && Covers(b, y)
    ensures Covers(a + b, x + y)
  {
    forall v | v in x + y
      ensures SomeCopyTo(a + b, v)
    {
      if v in x {
        assert SomeCopyTo(a, v);
        var c :| c in a && c.to == v;
        assert c in a + b;
      } else {
        assert SomeCopyTo(b, v);
        var c :| c in b && c.to == v;
        assert c in a + b;
      }
    }
  }

  lemma CopiesSentFrom(g: Graph, p: Packet, d: nat, senders: set<nat>, list: seq<nat>, v: nat, u: nat)
    requires v in g && v in senders && IsRelayList(list, g[v], v, Some(u))
    ensures SentFrom(g, p, d, senders, CopiesTo(list, v, InRound(p, d), d))
  {
    var copies := CopiesTo(list, v, InRound(p, d), d);
    forall c | c in copies
      ensures c.packet == InRound(p, d) && c.hops == d && OnLink(g, c, senders)
    {
      var i :| 0 <= i < |copies| && copies[i] == c;
      assert list[i] in list;
    }
  }

  /** Whether v now forwards, and to whom its copies go. */
  lemma ArriveSends(g: Graph, p: Packet, d: nat, s: Network, c: Copy, list: seq<nat>)
    requires d >= 1 && c.packet == InRound(p, d) && c.hops == d && c.to in g && p.packetType != PACKET_TYPE_ANNOUNCE
    ensures Arrive(s, c, list).inFlight
         == if c.to in Marked(g, s, KeyOf(p)) || p.ttl <= d then s.inFlight
            else s.inFlight + CopiesTo(list, c.to, InRound(p, d + 1), d + 1)
  {
    assert KeyOf(c.packet) == KeyOf(p);
    assert Forwarded(InRound(p, d)) == InRound(p, d + 1);
  }

  lemma SpreadAdd(g: Graph, s: set<nat>, v: nat)
    requires v in g
    ensures Spread(g, s + {v}) == Spread(g, s) + g[v]
  {
  }

  lemma CoversLess(copies: seq<Copy>, x: set<nat>, y: set<nat>)
    requires Covers(copies, x) && y <= x
    ensures Covers(copies, y)
  {
  }

  /** A first arrival at v: its copies cover the neighbours that are not behind the round. */
  lemma ForwardCovers(g: Graph, p: Packet, d: nat, v: nat, u: nat, list: seq<nat>, before: set<nat>, hit: set<nat>,
        copies: seq<Copy>)
    requires GraphOK(g) && v in g && u in before && IsRelayList(list, g[v], v, Some(u))
    requires Covers(copies, Spread(g, hit) - before)
    ensures Covers(copies + CopiesTo(list, v, InRound(p, d + 1), d + 1), Spread(g, hit + {v}) - before)
  {
    CopiesCover(list, g[v], v, u, InRound(p, d + 1), d + 1, g[v] - before);
    CoversJoin(copies, CopiesTo(list, v, InRound(p, d + 1), d + 1), Spread(g, hit) - before, g[v] - before);
    SpreadAdd(g, hit, v);
    assert (Spread(g, hit) - before) + (g[v] - before) == Spread(g, hit + {v}) - before;
  }

  lemma ArriveCovers(g: Graph, o: nat, p: Packet, d: nat, s: Network, c: Copy, list: seq<nat>, hit: set<nat>)
    requires d >= 1 && c.packet == InRound(p, d) && c.hops == d && c.to in g && p.packetType != PACKET_TYPE_ANNOUNCE
    requires GraphOK(g) && c.from in Reach(g, o, d - 1) && IsRelayList(list, g[c.to], c.to, Some(c.from))
    requires Marked(g, s, KeyOf(p)) == Reach(g, o, d - 1) + hit
    requires Covers(s.inFlight, Targets(g, o, p, d, hit))
    ensures Covers(Arrive(s, c, list).inFlight, Targets(g, o, p, d, hit + {c.to}))
  {
    ArriveSends(g, p, d, s, c, list);
    var before := Reach(g, o, d - 1);
    hide Reach, Covers, Arrive, Marked, IsRelayList, GraphOK;
    if c.to in Marked(g, s, KeyOf(p)) {
      assert (hit + {c.to}) - before == hit - before;
    } else if p.ttl > d {
      ForwardCovers(g, p, d, c.to, c.from, list, before, hit - before, s.inFlight);
      assert (hit + {c.to}) - before == (hit - before) + {c.to};
    }
  }

  lemma ArriveSentFrom(g: Graph, o: nat, p: Packet, d: nat, s: Network, c: Copy, list: seq<nat>)
    requires d >= 1 && c.packet == InRound(p, d) && c.hops == d && c.to in g && p.packetType != PACKET_TYPE_ANNOUNCE
    requires c.to in Reach(g, o, d) && IsRelayList(list, g[c.to], c.to, Some(c.from))
    requires SentFrom(g, p, d + 1, Reach(g, o, d), s.inFlight)
    ensures SentFrom(g, p, d + 1, Reach(g, o, d), Arrive(s, c, list).inFlight)
  {
    ArriveSends(g, p, d, s, c, list);
    CopiesSentFrom(g, p, d + 1, Reach(g, o, d), list, c.to, c.from);
    hide Reach, Arrive, Marked, IsRelayList;
  }

  /** What is known of any packet that travels in round d. */
  lemma BatchMember(g: Graph, o: nat, p: Packet, d: nat, batch: seq<Copy>, c: Copy)
    requires GraphOK(g) && d >= 1 && SentFrom(g, p, d, Reach(g, o, d - 1), batch) && c in batch
    ensures c.packet == InRound(p, d) && c.hops == d && c.from in Reach(g, o, d - 1)
    ensures c.to in g && c.to in Reach(g, o, d)
    ensures c.to !in Reach(g, o, d - 1) ==> AtDistance(g, o, d, c.to)
  {
  }

  lemma MidStep(g: Graph, o: nat, p: Packet, d: nat, r: Round, k: nat, s: Network)
    requires GraphOK(g) && o in g && d >= 1 && p.packetType != PACKET_TYPE_ANNOUNCE
    requires k < |r.batch| == |r.lists| && MidRound(g, o, p, d, r, k, s)
    requires SentFrom(g, p, d, Reach(g, o, d - 1), r.batch)
    requires r.batch[k].to in g ==> IsRelayList(r.lists[k], g[r.batch[k].to], r.batch[k].to, Some(r.batch[k].from))
    ensures MidRound(g, o, p, d, r, k + 1, Arrive(s, r.batch[k], r.lists[k]))
  {
    hide Reach, Hit, Arrive, Marked, Covers, SentFrom, DeliveredAt, IsRelayList, GraphOK, Spread, Targets, AtDistance;
    var c, list := r.batch[k], r.lists[k];
    BatchMember(g, o, p, d, r.batch, c);
    HitNext(r.batch, k);
    ReachInside(g, o, d - 1);
    ArriveMarks(g, s, c, list, KeyOf(p));
    ArriveDelivers(g, o, p, d, s, c, list, Marked(g, s, KeyOf(p)));
    ArriveSentFrom(g, o, p, d, s, c, list);
    ArriveCovers(g, o, p, d, s, c, list, Hit(r.batch, k));
    ArriveSends(g, p, d, s, c, list);
    var before, hit := Reach(g, o, d - 1), Hit(r.batch, k);
    assert before + (hit + {c.to}) == before + hit + {c.to};
  }

  lemma MidStart(g: Graph, o: nat, p: Packet, d: nat, s: Network, r: Round)
    requires d >= 1 && AfterRound(g, o, p, d - 1, s)
    ensures MidRound(g, o, p, d, r, 0, s.(inFlight := []))
  {
    assert Hit(r.batch, 0) == {};
    assert Reach(g, o, d - 1) + {} == Reach(g, o, d - 1);
    assert Marked(g, s.(inFlight := []), KeyOf(p)) == Marked(g, s, KeyOf(p));
    assert Targets(g, o, p, d, {}) == {};
    hide Reach, Targets;
  }

  lemma {:induction false} PlayMid(g: Graph, o: nat, p: Packet, d: nat, s: Network, r: Round, k: nat)
    requires GraphOK(g) && o in g && d >= 1 && p.packetType != PACKET_TYPE_ANNOUNCE
    requires AfterRound(g, o, p, d - 1, s) && RoundOK(g, s, r) && k <= |r.batch|
    requires SentFrom(g, p, d, Reach(g, o, d - 1), r.batch)
    ensures MidRound(g, o, p, d, r, k, Play(s, r, k))
  {
    hide AfterRound, MidRound, SentFrom, Reach, Arrive, IsRelayList, GraphOK;
    if k == 0 {
      MidStart(g, o, p, d, s, r);
    } else {
      PlayMid(g, o, p, d, s, r, k - 1);
      MidStep(g, o, p, d, r, k - 1, Play(s, r, k - 1));
    }
  }

  lemma BatchReady(g: Graph, o: nat, p: Packet, d: nat, copies: seq<Copy>, batch: seq<Copy>)
    requires d >= 1 && Ready(g, o, p, d, copies) && multiset(batch) == multiset(copies)
    ensures Ready(g, o, p, d, batch)
  {
    assert forall c :: c in batch <==> c in multiset(batch);
    assert forall c :: c in copies <==> c in multiset(copies);
    forall v | v in Reach(g, o, d) - Reach(g, o, d - 1)
      ensures SomeCopyTo(batch, v)
    {
      assert SomeCopyTo(copies, v);
    }
  }

  lemma AllHit(g: Graph, o: nat, p: Packet, d: nat, batch: seq<Copy>)
    requires GraphOK(g) && d >= 1 && Ready(g, o, p, d, batch)
    ensures Reach(g, o, d - 1) + Hit(batch, |batch|) == Reach(g, o, d)
  {
    forall v | v in Hit(batch, |batch|)
      ensures v in Reach(g, o, d)
    {
      var i: nat :| i < |batch| && batch[i].to == v;
      BatchMember(g, o, p, d, batch, batch[i]);
    }
    forall v | v in Reach(g, o, d) && v !in Reach(g, o, d - 1)
      ensures v in Hit(batch, |batch|)
    {
      assert SomeCopyTo(batch, v);
      var c :| c in batch && c.to == v;
      var i :| 0 <= i < |batch| && batch[i] == c;
    }
  }

  /** Whoever is d + 1 hops away hears from a node that was first reached in round d. */
  lemma NextLayer(g: Graph, o: nat, p: Packet, d: nat, hit: set<nat>)
    requires d >= 1 && p.ttl > d && Reach(g, o, d - 1) + hit == Reach(g, o, d)
    ensures Reach(g, o, d + 1) - Reach(g, o, d) <= Targets(g, o, p, d, hit)
  {
    var before, now := Reach(g, o, d - 1), Reach(g, o, d);
    assert Reach(g, o, d + 1) == now + Spread(g, now) && now == before + Spread(g, before);
    hide Reach;
    forall w | w in Spread(g, now) && w !in now
      ensures w in Spread(g, hit - before) - before
    {
      var v :| v in now && v in g && w in g[v];
      assert v !in before;
    }
  }

  lemma RoundEnds(g: Graph, o: nat, p: Packet, d: nat, r: Round, s: Network)
    requires GraphOK(g) && d >= 1 && MidRound(g, o, p, d, r, |r.batch|, s) && Ready(g, o, p, d, r.batch)
    ensures AfterRound(g, o, p, d, s)
  {
    var hit := Hit(r.batch, |r.batch|);
    AllHit(g, o, p, d, r.batch);
    hide Reach, Hit, Covers, SentFrom, DeliveredAt, Marked, GraphOK, Targets;
    if p.ttl > d {
      NextLayer(g, o, p, d, hit);
      CoversLess(s.inFlight, Targets(g, o, p, d, hit), Reach(g, o, d + 1) - Reach(g, o, d));
    }
  }

  lemma OneRound(g: Graph, o: nat, p: Packet, d: nat, s: Network, r: Round)
    requires GraphOK(g) && o in g && 1 <= d <= p.ttl && p.packetType != PACKET_TYPE_ANNOUNCE
    requires AfterRound(g, o, p, d - 1, s) && RoundOK(g, s, r)
    ensures AfterRound(g, o, p, d, Play(s, r, |r.batch|))
  {
    BatchReady(g, o, p, d, s.inFlight, r.batch);
    hide AfterRound, MidRound, Covers, SentFrom, GraphOK, Play, Reach;
    PlayMid(g, o, p, d, s, r, |r.batch|);
    RoundEnds(g, o, p, d, r, Play(s, r, |r.batch|));
  }

  /** The origin's own step: o has sent a copy to each of its peers. */
  function Launch(s: Network, o: nat, p: Packet, list: seq<nat>): Network {
    Step(s, Originate(o, p, list))
  }

  lemma LaunchReady(g: Graph, o: nat, p: Packet, s: Network, list: seq<nat>)
    requires GraphOK(g) && o in g && p.ttl >= 0 && IsRelayList(list, g[o], o, None)
    requires s.inFlight == [] && s.delivered == [] && Marked(g, s, KeyOf(p)) == {}
    ensures AfterRound(g, o, p, 0, Launch(s, o, p, list))
  {
    var s1 := Launch(s, o, p, list);
    assert o !in Marked(g, s, KeyOf(p));
    MarkContains(At(s.seen, o), KeyOf(p));
    assert Marked(g, s1, KeyOf(p)) == {o};
    assert s1.delivered == [] && NodesOf(s1.delivered) == {};
    assert Forwarded(p) == InRound(p, 1);
    if p.ttl > 0 {
      assert s1.inFlight == CopiesTo(list, o, InRound(p, 1), 1);
      LaunchCopies(g, o, p, list);
    }
    hide Reach, GraphOK;
  }

  lemma LaunchCopies(g: Graph, o: nat, p: Packet, list: seq<nat>)
    requires GraphOK(g) && o in g && IsRelayList(list, g[o], o, None)
    ensures Ready(g, o, p, 1, CopiesTo(list, o, InRound(p, 1), 1))
  {
    var copies := CopiesTo(list, o, InRound(p, 1), 1);
    forall c | c in copies
      ensures OnLink(g, c, {o})
    {
      var i :| 0 <= i < |copies| && copies[i] == c;
      assert list[i] in list;
    }
    forall v | v in Reach(g, o, 1) - Reach(g, o, 0)
      ensures SomeCopyTo(copies, v)
    {
      var i :| 0 <= i < |list| && list[i] == v;
      assert copies[i] in copies && copies[i].to == v;
    }
  }

  /** o originates p into network `before`; rounds[d] takes nets[d] to nets[d + 1]. */
  datatype Flood = Flood(g: Graph, o: nat, p: Packet, before: Network, list: seq<nat>, nets: seq<Network>,
    rounds: seq<Round>)

  ghost predicate RoundPlayed(f: Flood, d: nat) {
    && d < |f.rounds| && |f.nets| == |f.rounds| + 1
    && RoundOK(f.g, f.nets[d], f.rounds[d])
    && f.nets[d + 1] == Play(f.nets[d], f.rounds[d], |f.rounds[d].batch|)
  }

  /** The rounds follow the origination into an idle network. */
  ghost predicate Unfolds(f: Flood) {
    && GraphOK(f.g) && f.o in f.g && f.p.packetType != PACKET_TYPE_ANNOUNCE
    && IsRelayList(f.list, f.g[f.o], f.o, None)
    && f.before.inFlight == [] && f.before.delivered == []
    && |f.nets| == |f.rounds| + 1 && |f.rounds| == f.p.ttl
    && f.nets[0] == Launch(f.before, f.o, f.p, f.list)
    && forall d: nat :: d < |f.rounds| ==> RoundPlayed(f, d)
  }

  ghost predicate IsFlood(f: Flood) {
    Unfolds(f) && Marked(f.g, f.before, KeyOf(f.p)) == {}
  }

  /**
   * After every round d the packet has been seen exactly by the nodes within d hops, and handed over
   * once at each of them that it is addressed to, except at its origin.
   */
  lemma {:induction false} RoundByRound(f: Flood, d: nat)
    requires IsFlood(f) && d <= |f.rounds|
    ensures AfterRound(f.g, f.o, f.p, d, f.nets[d])
  {
    hide AfterRound, RoundOK, Launch, Play, Reach, Marked, GraphOK, IsRelayList;
    if d == 0 {
      LaunchReady(f.g, f.o, f.p, f.before, f.list);
    } else {
      RoundByRound(f, d - 1);
      assert RoundPlayed(f, d - 1);
      OneRound(f.g, f.o, f.p, d, f.nets[d - 1], f.rounds[d - 1]);
    }
  }

  /**
   * The coverage theorem. Originated with time to live T into a network that has not seen it, a
   * broadcast is delivered exactly once at every node 1 to T hops away and never at its origin, a
   * unicast exactly once at its destination if that is within T hops; the copy delivered at distance
   * d is the one with time to live T - d; and after T rounds nothing is under way.
   */
  lemma FloodCovers(f: Flood)
    requires IsFlood(f)
    ensures var t, last := f.p.ttl, f.nets[|f.rounds|];
      && last.inFlight == []
      && (forall v :: v in NodesOf(last.delivered) <==> v in Reach(f.g, f.o, t) && v != f.o && AddressedTo(f.p, v))
      && NodesDiffer(last.delivered)
      && (forall d :: d in last.delivered ==>
          AtDistance(f.g, f.o, d.hops, d.node) && d.packet == f.p.(ttl := t - d.hops))
  {
    RoundByRound(f, |f.rounds|);
    hide IsFlood, Reach, Marked, AtDistance;
    assert AllAsSent(f.g, f.o, f.p, f.nets[|f.rounds|].delivered);
  }

  lemma {:induction false} NodesCount(log: seq<Delivery>)
    requires NodesDiffer(log)
    ensures |NodesOf(log)| == |log|
  {
    if log != [] {
      var init, last := log[..|log| - 1], log[|log| - 1];
      NodesCount(init);
      assert log == init + [last];
      assert NodesOf(log) == NodesOf(init) + {last.node};
      assert last.node !in NodesOf(init);
    }
  }

  /** A unicast within reach is delivered exactly once, at its destination; one out of reach nowhere. */
  lemma UnicastArrives(f: Flood)
    requires IsFlood(f) && f.p.destination != NODE_ID_BROADCAST && f.p.destination != f.o
    ensures var log := f.nets[|f.rounds|].delivered;
      if f.p.destination in Reach(f.g, f.o, f.p.ttl) then |log| == 1 && log[0].node == f.p.destination else log == []
  {
    hide Reach, AtDistance;
    FloodCovers(f);
    hide IsFlood;
    var log := f.nets[|f.rounds|].delivered;
    NodesCount(log);
    assert NodesOf(log) == if f.p.destination in Reach(f.g, f.o, f.p.ttl) then {f.p.destination} else {};
    assert log != [] ==> log[0] in log;
  }

  // Floods exist ---------------------------------------------------------------------------------------

  lemma {:induction false} ListsFor(g: Graph, batch: seq<Copy>) returns (lists: seq<seq<nat>>)
    ensures |lists| == |batch|
    ensures forall k :: 0 <= k < |batch| && batch[k].to in g ==>
      IsRelayList(lists[k], g[batch[k].to], batch[k].to, Some(batch[k].from))
  {
    lists := [];
    if batch != [] {
      var n := |batch| - 1;
      lists := ListsFor(g, batch[..n]);
      var c := batch[n];
      var list := ListingExists(if c.to in g then g[c.to] - Excluded(c.to, Some(c.from)) else {});
      lists := lists + [list];
    }
  }

  /** Any network has a next round. */
  lemma RoundFor(g: Graph, s: Network) returns (r: Round)
    ensures RoundOK(g, s, r)
  {
    var lists := ListsFor(g, s.inFlight);
    r := Round(s.inFlight, lists);
    hide IsRelayList;
  }

  /** From every idle network that has not seen it, a packet can be flooded. */
  lemma FloodExists(g: Graph, o: nat, p: Packet, before: Network) returns (f: Flood)
    requires GraphOK(g) && o in g && p.packetType != PACKET_TYPE_ANNOUNCE && p.ttl >= 0
    requires before.inFlight == [] && before.delivered == [] && Marked(g, before, KeyOf(p)) == {}
    ensures IsFlood(f) && f.g == g && f.o == o && f.p == p && f.before == before
  {
    var list := ListingExists(g[o] - Excluded(o, None));
    f := Flood(g, o, p, before, list, [Launch(before, o, p, list)], []);
    hide Launch, Play, RoundOK, Marked;
    while |f.rounds| < p.ttl
      invariant |f.rounds| <= p.ttl && |f.nets| == |f.rounds| + 1 && f.nets[0] == Launch(before, o, p, list)
      invariant f == Flood(g, o, p, before, list, f.nets, f.rounds)
      invariant forall d: nat :: d < |f.rounds| ==> RoundPlayed(f, d)
    {
      var n := |f.rounds|;
      var r := RoundFor(g, f.nets[n]);
      RoundLists(g, f.nets[n], r);
      var f' := f.(rounds := f.rounds + [r], nets := f.nets + [Play(f.nets[n], r, |r.batch|)]);
      forall d: nat | d < n + 1
        ensures RoundPlayed(f', d)
      {
        if d < n { assert RoundPlayed(f, d); }
      }
      f := f';
    }
  }

  lemma RoundLists(g: Graph, s: Network, r: Round)
    requires RoundOK(g, s, r)
    ensures |r.lists| == |r.batch|
  {
  }

  // Other packets ------------------------------------------------------------------------------------

  /** An arrival makes no node see any other packet. */
  lemma ArriveKeepsUnseen(g: Graph, s: Network, c: Copy, list: seq<nat>, key: string)
    requires KeyOf(c.packet) != key
    ensures Marked(g, Arrive(s, c, list), key) <= Marked(g, s, key)
  {
    MarkAddsOnly(At(s.seen, c.to), KeyOf(c.packet), key);
  }

  lemma SameSeen(g: Graph, s: Network, s': Network, key: string)
    requires s'.seen == s.seen
    ensures Marked(g, s', key) == Marked(g, s, key)
  {
  }

  lemma MarkAddsOnly(keys: seq<string>, key: string, other: string)
    requires other != key
    ensures other in Mark(keys, key, DEDUP_MAX_ENTRIES) ==> other in keys
  {
  }

  ghost predicate NoneOf(batch: seq<Copy>, key: string) {
    forall c :: c in batch ==> KeyOf(c.packet) != key
  }

  lemma {:induction false} PlayKeepsUnseen(g: Graph, s: Network, r: Round, k: nat, key: string)
    requires k <= |r.batch| == |r.lists| && NoneOf(r.batch, key)
    ensures Marked(g, Play(s, r, k), key) <= Marked(g, s, key)
  {
    hide Arrive, Marked;
    if k == 0 {
      SameSeen(g, s, s.(inFlight := []), key);
    } else {
      PlayKeepsUnseen(g, s, r, k - 1, key);
      assert r.batch[k - 1] in r.batch;
      ArriveKeepsUnseen(g, Play(s, r, k - 1), r.batch[k - 1], r.lists[k - 1], key);
    }
  }

  lemma BatchOfFlood(f: Flood, d: nat, key: string)
    requires IsFlood(f) && d < |f.rounds| && key != KeyOf(f.p)
    ensures NoneOf(f.rounds[d].batch, key)
  {
    RoundByRound(f, d);
    assert RoundPlayed(f, d);
    hide IsFlood, Reach, Play, Marked, DeliveredAt;
    BatchReady(f.g, f.o, f.p, d + 1, f.nets[d].inFlight, f.rounds[d].batch);
    forall c | c in f.rounds[d].batch
      ensures KeyOf(c.packet) != key
    {
      assert c.packet == InRound(f.p, d + 1);
    }
  }

  /** A flood makes no node see any packet but its own. */
  lemma {:induction false} FloodKeepsUnseen(f: Flood, d: nat, key: string)
    requires IsFlood(f) && d <= |f.rounds| && key != KeyOf(f.p)
    ensures Marked(f.g, f.nets[d], key) <= Marked(f.g, f.before, key)
  {
    hide Marked, Play, RoundOK;
    if d == 0 {
      LaunchKeepsUnseen(f.g, f.before, f.o, f.p, f.list, key);
    } else {
      FloodKeepsUnseen(f, d - 1, key);
      BatchOfFlood(f, d - 1, key);
      assert RoundPlayed(f, d - 1);
      RoundShape(f, d - 1);
      PlayKeepsUnseen(f.g, f.nets[d - 1], f.rounds[d - 1], |f.rounds[d - 1].batch|, key);
    }
  }

  lemma RoundShape(f: Flood, d: nat)
    requires RoundPlayed(f, d)
    ensures |f.rounds[d].batch| == |f.rounds[d].lists|
  {
  }

  lemma LaunchKeepsUnseen(g: Graph, s: Network, o: nat, p: Packet, list: seq<nat>, key: string)
    requires key != KeyOf(p)
    ensures Marked(g, Launch(s, o, p, list), key) <= Marked(g, s, key)
  {
    MarkAddsOnly(At(s.seen, o), KeyOf(p), key);
  }
}
