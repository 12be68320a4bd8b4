/**
 * A network of relaying nodes over a channel that loses, repeats and reorders packets, and whose
 * links may change at every step: what holds in every run, and why every flood ends.
 */
module MeshNetwork {
  import opened Wrappers
  import opened Bytes
  import opened Collections
  import opened MeshRouter
  import opened RelayEngine
  import opened DedupCache

  /** A packet under way to node `to`, after `hops` transmissions. */
  datatype Copy = Copy(to: nat, from: nat, packet: Packet, hops: nat)

  /** A hand-over to the application of `node`, made when its history had `position` entries. */
  datatype Delivery = Delivery(node: nat, packet: Packet, hops: nat, position: nat)

  /** `histories` are the keys each node saw for the first time, oldest first. */
  datatype Network = Network(
    seen: map<nat, seq<string>>, histories: map<nat, seq<string>>, inFlight: seq<Copy>,
    delivered: seq<Delivery>, originated: set<Packet>)

  /** relayPeers is the relay list that the node's router computes at that moment. */
  datatype Input =
    | Originate(node: nat, packet: Packet, relayPeers: seq<nat>)
    | Receive(index: nat, relayPeers: seq<nat>)
    | Lose(index: nat)
    | Repeat(index: nat)

  function EmptyNetwork(): Network {
    Network(map[], map[], [], [], {})
  }

  function At(m: map<nat, seq<string>>, node: nat): seq<string> {
    if node in m then m[node] else []
  }

  function CopiesTo(peers: seq<nat>, from: nat, packet: Packet, hops: nat): (c: seq<Copy>)
    ensures |c| == |peers|
    ensures forall i :: 0 <= i < |c| ==> c[i] == Copy(peers[i], from, packet, hops)
  {
    seq(|peers|, i requires 0 <= i < |peers| => Copy(peers[i], from, packet, hops))
  }

  /** What a reaction of `node` does to the rest of the network. */
  function Apply(s: Network, node: nat, p: Packet, hops: nat, r: Reaction, relayPeers: seq<nat>): Network {
    var history := At(s.histories, node);
    s.(seen := s.seen[node := r.seen],
       histories := if KeyOf(p) in At(s.seen, node) then s.histories else s.histories[node := history + [KeyOf(p)]],
       delivered := if r.deliver then s.delivered + [Delivery(node, p, hops, |history|)] else s.delivered,
       inFlight := if r.forward then s.inFlight + CopiesTo(relayPeers, node, Forwarded(p), hops + 1) else s.inFlight)
  }

  function Without(copies: seq<Copy>, i: nat): seq<Copy>
    requires i < |copies|
  {
    copies[..i] + copies[i + 1..]
  }

  function Arrive(s: Network, c: Copy, relayPeers: seq<nat>): Network {
    Apply(s, c.to, c.packet, c.hops, OnReceive(c.to, At(s.seen, c.to), DEDUP_MAX_ENTRIES, c.packet), relayPeers)
  }

  function Step(s: Network, e: Input): Network {
    match e
    case Originate(node, p, peers) =>
      Apply(s.(originated := s.originated + {p}), node, p, 0, OnOriginate(At(s.seen, node), DEDUP_MAX_ENTRIES, p),
        peers)
    case Receive(i, peers) =>
      if i < |s.inFlight| then Arrive(s.(inFlight := Without(s.inFlight, i)), s.inFlight[i], peers) else s
    case Lose(i) => if i < |s.inFlight| then s.(inFlight := Without(s.inFlight, i)) else s
    case Repeat(i) => if i < |s.inFlight| then s.(inFlight := s.inFlight + [s.inFlight[i]]) else s
  }

  /** A history of the network: inputs[k] takes states[k] to states[k + 1]. */
  datatype History = History(states: seq<Network>, inputs: seq<Input>)

  ghost predicate Moves(h: History, k: nat) {
    k < |h.inputs| && |h.states| == |h.inputs| + 1 && h.states[k + 1] == Step(h.states[k], h.inputs[k])
  }

  ghost predicate IsHistory(h: History) {
    |h.states| == |h.inputs| + 1 && forall k: nat :: k < |h.inputs| ==> Moves(h, k)
  }

  /** A history from the start. */
  ghost predicate IsRun(h: History) {
    IsHistory(h) && h.states[0] == EmptyNetwork()
  }

  // Safety -----------------------------------------------------------------------------------------

  /** The packet is an originated one, except that each hop has taken one from its time to live. */
  predicate Genuine(originated: set<Packet>, p: Packet, hops: nat) {
    p.(ttl := p.ttl + hops) in originated
  }

  ghost predicate CopiesOK(s: Network) {
    forall c :: c in s.inFlight ==> Genuine(s.originated, c.packet, c.hops) && c.packet.ttl >= 0 && c.hops >= 1
  }

  ghost predicate DeliveryOK(s: Network, d: Delivery) {
    && Genuine(s.originated, d.packet, d.hops)
    && AddressedTo(d.packet, d.node)
    && d.position < |At(s.histories, d.node)|
    && At(s.histories, d.node)[d.position] == KeyOf(d.packet)
  }

  ghost predicate DeliveriesOK(s: Network) {
    forall d :: d in s.delivered ==> DeliveryOK(s, d)
  }

  /** One hand-over at most for each first sighting. */
  ghost predicate PositionsOK(s: Network) {
    forall i, j :: 0 <= i < j < |s.delivered| && s.delivered[i].node == s.delivered[j].node ==>
      s.delivered[i].position < s.delivered[j].position
  }

  ghost predicate WindowsOK(s: Network) {
    forall node: nat :: IsWindow(At(s.seen, node), At(s.histories, node), DEDUP_MAX_ENTRIES)
  }

  ghost predicate Inv(s: Network) {
    CopiesOK(s) && DeliveriesOK(s) && PositionsOK(s) && WindowsOK(s)
  }

  lemma MarkedWindows(s: Network, node: nat, p: Packet, hops: nat, r: Reaction, relayPeers: seq<nat>)
    requires WindowsOK(s)
    requires r.seen == if KeyOf(p) in At(s.seen, node) then At(s.seen, node)
                       else Mark(At(s.seen, node), KeyOf(p), DEDUP_MAX_ENTRIES)
    ensures WindowsOK(Apply(s, node, p, hops, r, relayPeers))
  {
    var s' := Apply(s, node, p, hops, r, relayPeers);
    var keys, history := At(s.seen, node), At(s.histories, node);
    assert IsWindow(keys, history, DEDUP_MAX_ENTRIES);
    if KeyOf(p) !in keys {
      MarkKeepsWindow(keys, history, DEDUP_MAX_ENTRIES, KeyOf(p));
    }
    assert IsWindow(At(s'.seen, node), At(s'.histories, node), DEDUP_MAX_ENTRIES);
    hide IsWindow;
    forall n: nat
      ensures IsWindow(At(s'.seen, n), At(s'.histories, n), DEDUP_MAX_ENTRIES)
    {
      assert n != node ==> At(s'.seen, n) == At(s.seen, n) && At(s'.histories, n) == At(s.histories, n);
      assert IsWindow(At(s.seen, n), At(s.histories, n), DEDUP_MAX_ENTRIES);
    }
  }

  lemma AppliedCopies(s: Network, node: nat, p: Packet, hops: nat, r: Reaction, relayPeers: seq<nat>)
    requires CopiesOK(s) && Genuine(s.originated, p, hops) && (r.forward ==> p.ttl > 0)
    ensures CopiesOK(Apply(s, node, p, hops, r, relayPeers))
  {
    var s' := Apply(s, node, p, hops, r, relayPeers);
    var f := Forwarded(p);
    assert f.(ttl := f.ttl + (hops + 1)) == p.(ttl := p.ttl + hops);
    forall c | c in s'.inFlight
      ensures Genuine(s'.originated, c.packet, c.hops) && c.packet.ttl >= 0 && c.hops >= 1
    {
      assert c in s.inFlight || c in CopiesTo(relayPeers, node, f, hops + 1);
    }
  }

  lemma AppliedDeliveries(s: Network, node: nat, p: Packet, hops: nat, r: Reaction, relayPeers: seq<nat>)
    requires DeliveriesOK(s) && PositionsOK(s) && Genuine(s.originated, p, hops)
    requires r.deliver ==> AddressedTo(p, node) && KeyOf(p) !in At(s.seen, node)
    ensures DeliveriesOK(Apply(s, node, p, hops, r, relayPeers)) && PositionsOK(Apply(s, node, p, hops, r, relayPeers))
  {
    var s' := Apply(s, node, p, hops, r, relayPeers);
    forall d | d in s.delivered
      ensures DeliveryOK(s', d) && (d.node == node ==> d.position < |At(s.histories, node)|)
    {
      assert DeliveryOK(s, d);
      assert At(s.histories, d.node) <= At(s'.histories, d.node);
    }
    if r.deliver {
      assert DeliveryOK(s', Delivery(node, p, hops, |At(s.histories, node)|));
    }
    hide DeliveryOK;
    assert forall i :: 0 <= i < |s.delivered| ==> s.delivered[i] in s.delivered;
  }

  lemma ReduceOK(s: Network, copies: seq<Copy>, origin: set<Packet>)
    requires Inv(s) && (forall c :: c in copies ==> c in s.inFlight) && s.originated <= origin
    ensures Inv(s.(inFlight := copies, originated := origin))
  {
    var s' := s.(inFlight := copies, originated := origin);
    assert CopiesOK(s');
    assert forall d :: d in s.delivered ==> DeliveryOK(s, d) && DeliveryOK(s', d);
    assert WindowsOK(s') by { hide IsWindow; }
  }

  lemma StepInv(s: Network, e: Input)
    requires Inv(s)
    ensures Inv(Step(s, e))
  {
    match e
    case Originate(node, p, peers) =>
      var s1 := s.(originated := s.originated + {p});
      ReduceOK(s, s.inFlight, s.originated + {p});
      assert p.(ttl := p.ttl + 0) == p;
      ApplyInv(s1, node, p, 0, OnOriginate(At(s.seen, node), DEDUP_MAX_ENTRIES, p), peers);
    case Receive(i, peers) =>
      if i < |s.inFlight| {
        var c := s.inFlight[i];
        assert c in s.inFlight;
        ReduceOK(s, Without(s.inFlight, i), s.originated);
        var s1 := s.(inFlight := Without(s.inFlight, i), originated := s.originated);
        assert s1 == s.(inFlight := Without(s.inFlight, i));
        ApplyInv(s1, c.to, c.packet, c.hops, OnReceive(c.to, At(s.seen, c.to), DEDUP_MAX_ENTRIES, c.packet), peers);
      }
    case Lose(i) =>
      if i < |s.inFlight| { ReduceOK(s, Without(s.inFlight, i), s.originated); }
    case Repeat(i) =>
      if i < |s.inFlight| { ReduceOK(s, s.inFlight + [s.inFlight[i]], s.originated); }
  }

  lemma ApplyInv(s: Network, node: nat, p: Packet, hops: nat, r: Reaction, relayPeers: seq<nat>)
    requires Inv(s) && Genuine(s.originated, p, hops)
    requires r == OnReceive(node, At(s.seen, node), DEDUP_MAX_ENTRIES, p)
          || r == OnOriginate(At(s.seen, node), DEDUP_MAX_ENTRIES, p)
    ensures Inv(Apply(s, node, p, hops, r, relayPeers))
  {
    MarkedWindows(s, node, p, hops, r, relayPeers);
    AppliedCopies(s, node, p, hops, r, relayPeers);
    AppliedDeliveries(s, node, p, hops, r, relayPeers);
    hide CopiesOK, DeliveriesOK, PositionsOK, WindowsOK, Apply;
  }

  lemma {:induction false} RunInv(h: History, k: nat)
    requires IsRun(h) && k < |h.states|
    ensures Inv(h.states[k])
  {
    if k == 0 {
      assert Inv(EmptyNetwork());
    } else {
      RunInv(h, k - 1);
      assert Moves(h, k - 1);
      StepInv(h.states[k - 1], h.inputs[k - 1]);
    }
    hide Inv, Step;
  }

  /** Somewhere in the network there is packet p after the given number of hops. */
  ghost predicate Present(s: Network, p: Packet, hops: nat) {
    || (exists c :: c in s.inFlight && c.packet == p && c.hops == hops)
    || (exists d :: d in s.delivered && d.packet == p && d.hops == hops)
  }

  /**
   * At every point of every run, every copy under way and every delivered packet is an originated
   * packet in all but its time to live, and its hops and its remaining time to live add up to the
   * originating one.
   */
  lemma NothingForged(h: History, k: nat, p: Packet, hops: nat)
    requires IsRun(h) && k < |h.states| && Present(h.states[k], p, hops)
    ensures exists o :: o in h.states[k].originated && p == o.(ttl := p.ttl) && p.ttl + hops == o.ttl
  {
    RunInv(h, k);
    hide IsRun;
    GenuineOrigin(h.states[k], p, hops);
  }

  lemma GenuineOrigin(s: Network, p: Packet, hops: nat)
    requires Inv(s) && Present(s, p, hops)
    ensures exists o :: o in s.originated && p == o.(ttl := p.ttl) && p.ttl + hops == o.ttl
  {
    assert forall d :: d in s.delivered ==> DeliveryOK(s, d);
    var o := p.(ttl := p.ttl + hops);
    assert o in s.originated && p == o.(ttl := p.ttl);
  }

  /** Announcements under way or delivered have made one hop only. */
  ghost predicate AnnouncesNear(s: Network) {
    && (forall c :: c in s.inFlight && c.packet.packetType == PACKET_TYPE_ANNOUNCE ==> c.hops == 1)
    && (forall d :: d in s.delivered && d.packet.packetType == PACKET_TYPE_ANNOUNCE ==> d.hops == 1)
  }

  lemma StepAnnounces(s: Network, e: Input)
    requires AnnouncesNear(s)
    ensures AnnouncesNear(Step(s, e))
  {
    hide KeyOf, Mark;
    if e.Receive? && e.index < |s.inFlight| { assert s.inFlight[e.index] in s.inFlight; }
  }

  /** In every run announcements go to neighbours only: nobody relays them. */
  lemma {:induction false} AnnouncesStayLocal(h: History, k: nat)
    requires IsRun(h) && k < |h.states|
    ensures AnnouncesNear(h.states[k])
  {
    if k > 0 {
      AnnouncesStayLocal(h, k - 1);
      assert Moves(h, k - 1);
      hide Step;
      StepAnnounces(h.states[k - 1], h.inputs[k - 1]);
    }
  }

  /** A packet is handed over only where it is addressed to, so a unicast only at its destination. */
  lemma DeliveredWhereAddressed(h: History, k: nat, d: Delivery)
    requires IsRun(h) && k < |h.states| && d in h.states[k].delivered
    ensures AddressedTo(d.packet, d.node)
  {
    RunInv(h, k);
    assert DeliveryOK(h.states[k], d);
  }

  /**
   * Two deliveries of one (source, packet id) at one node: at least 256 other first sightings lie
   * between them, and the 256 right after the first are all different from it and from each other.
   */
  lemma DeliveriesFarApart(h: History, k: nat, i: nat, j: nat)
    requires IsRun(h) && k < |h.states| && i < j < |h.states[k].delivered|
    requires var d := h.states[k].delivered; d[i].node == d[j].node && KeyOf(d[i].packet) == KeyOf(d[j].packet)
    ensures var s := h.states[k];
      var seen, a, b := At(s.histories, s.delivered[i].node), s.delivered[i].position, s.delivered[j].position;
      && a + DEDUP_MAX_ENTRIES < b < |seen|
      && KeyOf(s.delivered[i].packet) !in seen[a + 1..a + 1 + DEDUP_MAX_ENTRIES]
      && Distinct(seen[a + 1..a + 1 + DEDUP_MAX_ENTRIES])
  {
    RunInv(h, k);
    var s := h.states[k];
    var d, e := s.delivered[i], s.delivered[j];
    assert DeliveryOK(s, d) && DeliveryOK(s, e);
    var seen, a := At(s.histories, d.node), d.position;
    assert IsWindow(At(s.seen, d.node), seen, DEDUP_MAX_ENTRIES);
    assert seen[a] == seen[e.position];
    hide IsRun, Inv;
    SpacedStretch(seen, DEDUP_MAX_ENTRIES, a);
  }

  // Termination --------------------------------------------------------------------------------------

  function Pow(base: nat, e: int): (p: nat)
    ensures base > 0 ==> p > 0
  {
    if e <= 0 then 1 else base * Pow(base, e - 1)
  }

  /** The sum of n^ttl over the packets under way. */
  function Fuel(copies: seq<Copy>, n: nat): nat {
    if copies == [] then 0 else Fuel(copies[..|copies| - 1], n) + Pow(n, copies[|copies| - 1].packet.ttl)
  }

  lemma {:induction false} FuelJoin(a: seq<Copy>, b: seq<Copy>, n: nat)
    ensures Fuel(a + b, n) == Fuel(a, n) + Fuel(b, n)
  {
    if b == [] {
      assert a + b == a;
    } else {
      FuelJoin(a, b[..|b| - 1], n);
      assert (a + b)[..|a + b| - 1] == a + b[..|b| - 1];
    }
  }

  lemma FuelWithout(copies: seq<Copy>, i: nat, n: nat)
    requires i < |copies|
    ensures Fuel(copies, n) == Fuel(Without(copies, i), n) + Pow(n, copies[i].packet.ttl)
  {
    assert copies == copies[..i] + ([copies[i]] + copies[i + 1..]);
    FuelJoin(copies[..i], [copies[i]] + copies[i + 1..], n);
    FuelJoin([copies[i]], copies[i + 1..], n);
    FuelJoin(copies[..i], copies[i + 1..], n);
    assert [copies[i]][..0] == [];
  }

  lemma {:induction false} FuelOfSends(peers: seq<nat>, from: nat, p: Packet, hops: nat, n: nat)
    ensures Fuel(CopiesTo(peers, from, p, hops), n) == |peers| * Pow(n, p.ttl)
  {
    if peers != [] {
      var rest := peers[..|peers| - 1];
      FuelOfSends(rest, from, p, hops, n);
      var c := CopiesTo(peers, from, p, hops);
      assert c[..|c| - 1] == CopiesTo(rest, from, p, hops);
      assert |peers| * Pow(n, p.ttl) == |rest| * Pow(n, p.ttl) + Pow(n, p.ttl);
    }
  }

  lemma FewerThan(k: nat, n: nat, x: nat)
    requires k < n && x > 0
    ensures k * x < n * x
  {
    assert n * x == k * x + (n - k) * x;
    MulMono(1, n - k, x);
  }

  /** In an n-node network a node relays to fewer than n peers, so every arrival burns fuel. */
  lemma ArrivalBurnsFuel(s: Network, i: nat, relayPeers: seq<nat>, n: nat)
    requires i < |s.inFlight| && |relayPeers| < n
    ensures Fuel(Step(s, Receive(i, relayPeers)).inFlight, n) < Fuel(s.inFlight, n)
  {
    var c, rest := s.inFlight[i], Without(s.inFlight, i);
    FuelWithout(s.inFlight, i, n);
    var f := Forwarded(c.packet);
    var sends := CopiesTo(relayPeers, c.to, f, c.hops + 1);
    var s' := Step(s, Receive(i, relayPeers));
    assert s'.inFlight == rest || (c.packet.ttl > 0 && s'.inFlight == rest + sends);
    hide Step, Fuel;
    if s'.inFlight != rest {
      FuelJoin(rest, sends, n);
      FuelOfSends(relayPeers, c.to, f, c.hops + 1, n);
      FewerThan(|relayPeers|, n, Pow(n, f.ttl));
    }
  }

  lemma LossBurnsFuel(s: Network, i: nat, n: nat)
    requires i < |s.inFlight| && n > 0
    ensures Fuel(Step(s, Lose(i)).inFlight, n) < Fuel(s.inFlight, n)
  {
    FuelWithout(s.inFlight, i, n);
  }

  /** The input takes a packet off the air: an arrival in an n-node network, or a loss. */
  predicate TakesOff(s: Network, e: Input, n: nat) {
    match e
    case Receive(i, peers) => i < |s.inFlight| && |peers| < n
    case Lose(i) => i < |s.inFlight|
    case _ => false
  }

  lemma TakingOffBurnsFuel(s: Network, e: Input, n: nat)
    requires n > 0 && TakesOff(s, e, n)
    ensures Fuel(Step(s, e).inFlight, n) < Fuel(s.inFlight, n)
  {
    if e.Receive? {
      ArrivalBurnsFuel(s, e.index, e.relayPeers, n);
    } else {
      LossBurnsFuel(s, e.index, n);
    }
    hide Step, Fuel;
  }

  /**
   * Every flood ends, whatever the caches have evicted and however the links change: between any
   * two points of a history, a stretch of arrivals and losses is no longer than the fuel it burns.
   */
  lemma {:induction false} FloodsEnd(h: History, j: nat, k: nat, n: nat)
    requires IsHistory(h) && j <= k < |h.states| && n > 0
    requires forall i: nat :: j <= i < k ==> TakesOff(h.states[i], h.inputs[i], n)
    ensures k - j + Fuel(h.states[k].inFlight, n) <= Fuel(h.states[j].inFlight, n)
  {
    if j < k {
      FloodsEnd(h, j, k - 1, n);
      assert Moves(h, k - 1);
      TakingOffBurnsFuel(h.states[k - 1], h.inputs[k - 1], n);
    }
    hide Fuel, Step, TakesOff;
  }

  /** A relay list inside an n-node network has fewer than n entries: the node itself is not on it. */
  lemma RelayListSize(r: seq<nat>, nodes: set<nat>, local: nat, incoming: Option<nat>)
    requires IsRelayList(r, nodes, local, incoming) && local in nodes
    ensures |r| < |nodes|
  {
    SortedSize(r);
    SubsetSize(Elements(r), nodes - {local});
  }

  lemma {:induction false} SortedSize(r: seq<nat>)
    requires StrictlySorted(r)
    ensures |Elements(r)| == |r|
  {
    if r != [] {
      var init, last := r[..|r| - 1], r[|r| - 1];
      SortedSize(init);
      assert r == init + [last];
      assert Elements(r) == Elements(init) + {last};
    }
  }
}
