/**
 * Flooding in any order: copies are repeated, delayed and overtaken among any other traffic, but not
 * lost. Which nodes a packet gets to depends on the order; the outcomes are exactly the stalled trees
 * of first copies.
 */
module AnyOrderFlood {
  import opened Wrappers
  import opened Collections
  import opened MeshRouter
  import opened RelayEngine
  import opened DedupCache
  import opened MeshNetwork
  import opened FloodCoverage

  /** The flood of p from o over the links g. */
  datatype Origin = Origin(g: Graph, o: nat, p: Packet)

  ghost predicate OriginOK(f: Origin) {
    GraphOK(f.g) && f.o in f.g && f.p.packetType != PACKET_TYPE_ANNOUNCE && f.p.ttl >= 0
  }

  /** How many hops the copy had behind it that each node has seen first. */
  type Depths = map<nat, nat>

  ghost predicate HasParent(g: Graph, a: Depths, u: nat) {
    u in a && exists p :: p in a && p in g && u in g[p] && a[p] + 1 == a[u]
  }

  /** First copies come from nodes one hop nearer, and over at most t hops. */
  ghost predicate Layered(g: Graph, o: nat, t: int, a: Depths) {
    && o in a && a[o] == 0 && a.Keys <= g.Keys
    && forall u :: u in a ==> a[u] <= t && (u == o || HasParent(g, a, u))
  }

  /** And nobody is left whom any of these nodes would have passed the packet on to. */
  ghost predicate Stalled(g: Graph, o: nat, t: int, a: Depths) {
    Layered(g, o, t, a) && forall u :: u in a && a[u] < t ==> g[u] <= a.Keys
  }

  /** The nodes that have ever seen the packet. */
  ghost function Sighted(f: Origin, s: Network): set<nat> {
    set v | v in f.g && KeyOf(f.p) in At(s.histories, v)
  }

  /** The copies of other packets may be treated anyhow; those of p are not lost, and relayed along the links. */
  ghost predicate Kept(f: Origin, s: Network, e: Input) {
    match e
    case Originate(node, q, peers) => KeyOf(q) != KeyOf(f.p)
    case Receive(i, peers) =>
      i < |s.inFlight| && KeyOf(s.inFlight[i].packet) == KeyOf(f.p) && s.inFlight[i].to in f.g ==>
        IsRelayList(peers, f.g[s.inFlight[i].to], s.inFlight[i].to, Some(s.inFlight[i].from))
    case Lose(i) => i < |s.inFlight| ==> KeyOf(s.inFlight[i].packet) != KeyOf(f.p)
    case Repeat(i) => true
  }

  /** Whoever has ever seen p still knows it. */
  ghost predicate Remembered(f: Origin, s: Network) {
    forall v: nat :: KeyOf(f.p) in At(s.seen, v) <==> KeyOf(f.p) in At(s.histories, v)
  }

  // What holds while the flood is on ---------------------------------------------------------------------

  /** The copy came along a link from a node that has seen p, one hop earlier. */
  ghost predicate OnItsWay(f: Origin, c: Copy, a: Depths) {
    && c.packet == InRound(f.p, c.hops) && 1 <= c.hops <= f.p.ttl
    && c.from in a && a[c.from] + 1 == c.hops && c.from in f.g && c.to in f.g[c.from]
  }

  ghost predicate CopiesOnTheirWay(f: Origin, copies: seq<Copy>, a: Depths) {
    forall c :: c in copies && KeyOf(c.packet) == KeyOf(f.p) ==> OnItsWay(f, c, a)
  }

  ghost predicate CopyFor(f: Origin, copies: seq<Copy>, u: nat, w: nat) {
    exists c :: c in copies && KeyOf(c.packet) == KeyOf(f.p) && c.from == u && c.to == w
  }

  /** Whoever is next to a node that may pass p on has seen it too, or the node's copy is on its way there. */
  ghost predicate Owed(f: Origin, copies: seq<Copy>, a: Depths) {
    forall u, w :: u in a && u in f.g && a[u] < f.p.ttl && w in f.g[u] ==> w in a || CopyFor(f, copies, u, w)
  }

  /** The copies of p that were handed to v. */
  function Got(key: string, log: seq<Delivery>, v: nat): seq<Packet> {
    if log == [] then []
    else
      var d := log[|log| - 1];
      Got(key, log[..|log| - 1], v) + if d.node == v && KeyOf(d.packet) == key then [d.packet] else []
  }

  ghost predicate GetsIt(f: Origin, nodes: set<nat>, v: nat) {
    v in nodes && v != f.o && AddressedTo(f.p, v)
  }

  /** Exactly the addressed ones of the nodes other than the origin are handed p, once and unchanged. */
  ghost predicate HandedRight(f: Origin, log: seq<Delivery>, nodes: set<nat>, v: nat) {
    var ps := Got(KeyOf(f.p), log, v);
    if GetsIt(f, nodes, v) then |ps| == 1 && ps[0] == f.p.(ttl := ps[0].ttl) else ps == []
  }

  ghost predicate Flooding(f: Origin, s: Network, a: Depths) {
    && Sighted(f, s) == a.Keys && Layered(f.g, f.o, f.p.ttl, a)
    && CopiesOnTheirWay(f, s.inFlight, a) && Owed(f, s.inFlight, a)
    && forall v: nat :: HandedRight(f, s.delivered, a.Keys, v)
  }

  lemma GotPush(key: string, log: seq<Delivery>, d: Delivery, v: nat)
    ensures Got(key, log + [d], v)
            == Got(key, log, v) + if d.node == v && KeyOf(d.packet) == key then [d.packet] else []
  {
    assert (log + [d])[..|log|] == log;
  }

  /** Events of other packets change nothing. */
  lemma OthersDoNotMatter(f: Origin, s: Network, a: Depths, node: nat, q: Packet, hops: nat, r: Reaction,
      peers: seq<nat>)
    requires Flooding(f, s, a) && KeyOf(q) != KeyOf(f.p)
    ensures Flooding(f, Apply(s, node, q, hops, r, peers), a)
  {
    hide KeyOf, Layered, OnItsWay, Got;
    assert KeyOf(Forwarded(q)) == KeyOf(q) by { ForwardedKey(q); }
    var s' := Apply(s, node, q, hops, r, peers);
    assert Sighted(f, s') == Sighted(f, s);
    forall c | c in s'.inFlight && KeyOf(c.packet) == KeyOf(f.p)
      ensures c in s.inFlight
    {
      assert c in CopiesTo(peers, node, Forwarded(q), hops + 1) ==> c.packet == Forwarded(q);
    }
    assert forall u, w :: CopyFor(f, s.inFlight, u, w) ==> CopyFor(f, s'.inFlight, u, w);
    forall v: nat
      ensures HandedRight(f, s'.delivered, a.Keys, v)
    {
      assert HandedRight(f, s.delivered, a.Keys, v);
      GotPush(KeyOf(f.p), s.delivered, Delivery(node, q, hops, |At(s.histories, node)|), v);
    }
  }

  lemma ForwardedKey(q: Packet)
    ensures KeyOf(Forwarded(q)) == KeyOf(q)
  {
  }

  lemma CopiesChange(f: Origin, s: Network, a: Depths, copies: seq<Copy>)
    requires Flooding(f, s, a)
    requires forall c :: c in copies && KeyOf(c.packet) == KeyOf(f.p) ==> c in s.inFlight
    requires forall c :: c in s.inFlight && KeyOf(c.packet) == KeyOf(f.p) && c.to !in a ==> c in copies
    ensures Flooding(f, s.(inFlight := copies), a)
  {
    hide KeyOf, Layered, OnItsWay, HandedRight;
    var s' := s.(inFlight := copies);
    assert Sighted(f, s') == Sighted(f, s);
    forall u, w | CopyFor(f, s.inFlight, u, w) && w !in a
      ensures CopyFor(f, copies, u, w)
    {
    }
  }

  /** A copy of p reaches a node that has seen it. */
  lemma SeenAgain(f: Origin, s: Network, a: Depths, i: nat, peers: seq<nat>)
    requires Flooding(f, s, a) && i < |s.inFlight| && KeyOf(s.inFlight[i].packet) == KeyOf(f.p)
    requires s.inFlight[i].to in a && Remembered(f, s)
    ensures Flooding(f, Step(s, Receive(i, peers)), a)
    ensures Step(s, Receive(i, peers)).inFlight == Without(s.inFlight, i)
  {
    var c, rest := s.inFlight[i], Without(s.inFlight, i);
    var s1 := s.(inFlight := rest);
    assert c.to in Sighted(f, s);
    CopiesChange(f, s, a, rest) by { WithoutKeeps(s.inFlight, i); }
    var s' := Step(s, Receive(i, peers));
    assert s' == s1.(seen := s.seen[c.to := At(s.seen, c.to)]);
    SeenDoesNotMatter(f, s1, a, s'.seen);
    hide Flooding;
  }

  lemma WithoutKeeps(copies: seq<Copy>, i: nat)
    requires i < |copies|
    ensures forall c :: c in Without(copies, i) ==> c in copies
    ensures forall c :: c in copies && c != copies[i] ==> c in Without(copies, i)
  {
  }

  lemma SeenDoesNotMatter(f: Origin, s: Network, a: Depths, seen: map<nat, seq<string>>)
    requires Flooding(f, s, a)
    ensures Flooding(f, s.(seen := seen), a)
  {
    assert Sighted(f, s.(seen := seen)) == Sighted(f, s);
    hide KeyOf, Layered, HandedRight, CopiesOnTheirWay, Owed;
  }

  lemma LayeredMore(g: Graph, o: nat, t: int, a: Depths, p: nat, u: nat)
    requires Layered(g, o, t, a) && u !in a && p in a && p in g && u in g[p] && a[p] + 1 <= t && u in g
    ensures Layered(g, o, t, a[u := a[p] + 1])
  {
    var a' := a[u := a[p] + 1];
    forall x | x in a'
      ensures a'[x] <= t && (x == o || HasParent(g, a', x))
    {
      if x != o && x != u {
        assert HasParent(g, a, x);
        var q :| q in a && q in g && x in g[q] && a[q] + 1 == a[x];
        assert a'[q] + 1 == a'[x];
      } else if x == u {
        assert a'[p] + 1 == a'[u];
      }
    }
  }

  /** A node that has seen the copy c first passes it on to all its other neighbours, if it may. */
  lemma PassedOn(f: Origin, c: Copy, rest: seq<Copy>, list: seq<nat>, a: Depths, more: seq<Copy>)
    requires OriginOK(f) && OnItsWay(f, c, a) && c.to !in a && IsRelayList(list, f.g[c.to], c.to, Some(c.from))
    requires Owed(f, rest + [c], a) && KeyOf(c.packet) == KeyOf(f.p)
    requires more == if c.packet.ttl > 0 then CopiesTo(list, c.to, Forwarded(c.packet), c.hops + 1) else []
    ensures Owed(f, rest + more, a[c.to := c.hops])
  {
    hide KeyOf;
    assert KeyOf(Forwarded(c.packet)) == KeyOf(f.p) by { ForwardedKey(c.packet); }
    var a' := a[c.to := c.hops];
    forall u, w | u in a' && u in f.g && a'[u] < f.p.ttl && w in f.g[u] && w !in a'
      ensures CopyFor(f, rest + more, u, w)
    {
      if u != c.to {
        assert CopyFor(f, rest + [c], u, w);
      } else {
        assert w in list;
        var k :| 0 <= k < |list| && list[k] == w;
        assert more[k] in rest + more && more[k].to == w && more[k].from == u;
      }
    }
  }

  lemma PassedOnRight(f: Origin, c: Copy, list: seq<nat>, a: Depths)
    requires OriginOK(f) && OnItsWay(f, c, a) && c.to !in a && c.packet.ttl > 0
    requires IsRelayList(list, f.g[c.to], c.to, Some(c.from))
    ensures CopiesOnTheirWay(f, CopiesTo(list, c.to, Forwarded(c.packet), c.hops + 1), a[c.to := c.hops])
  {
    hide KeyOf;
    assert Forwarded(c.packet) == InRound(f.p, c.hops + 1);
    var more := CopiesTo(list, c.to, Forwarded(c.packet), c.hops + 1);
    forall x | x in more
      ensures OnItsWay(f, x, a[c.to := c.hops])
    {
      var k :| 0 <= k < |more| && more[k] == x;
      assert list[k] in list;
    }
  }

  lemma OnTheirWayMore(f: Origin, copies: seq<Copy>, a: Depths, v: nat, d: nat)
    requires CopiesOnTheirWay(f, copies, a) && v !in a
    ensures CopiesOnTheirWay(f, copies, a[v := d])
  {
    hide KeyOf, InRound;
  }

  lemma InRoundKey(p: Packet, d: nat)
    ensures KeyOf(InRound(p, d)) == KeyOf(p)
  {
  }

  lemma HandedFirstAt(f: Origin, log: seq<Delivery>, d: Delivery, nodes: set<nat>, v: nat)
    requires f.o in nodes && d.node !in nodes && d.packet == InRound(f.p, d.hops) && HandedRight(f, log, nodes, v)
    ensures HandedRight(f, if AddressedTo(d.packet, d.node) then log + [d] else log, nodes + {d.node}, v)
  {
    hide Got, KeyOf;
    InRoundKey(f.p, d.hops);
    GotPush(KeyOf(f.p), log, d, v);
  }

  lemma HandedFirst(f: Origin, log: seq<Delivery>, d: Delivery, nodes: set<nat>, log': seq<Delivery>)
    requires f.o in nodes && d.node !in nodes && d.packet == InRound(f.p, d.hops)
    requires log' == if AddressedTo(d.packet, d.node) then log + [d] else log
    requires forall v: nat :: HandedRight(f, log, nodes, v)
    ensures forall v: nat :: HandedRight(f, log', nodes + {d.node}, v)
  {
    hide HandedRight, KeyOf, InRound, AddressedTo;
    forall v: nat
      ensures HandedRight(f, log', nodes + {d.node}, v)
    {
      HandedFirstAt(f, log, d, nodes, v);
    }
  }

  /** The copies under way after node c.to has seen p for the first time. */
  lemma FirstCopies(f: Origin, c: Copy, rest: seq<Copy>, peers: seq<nat>, a: Depths)
    requires OriginOK(f) && OnItsWay(f, c, a) && c.to !in a && Layered(f.g, f.o, f.p.ttl, a)
    requires KeyOf(c.packet) == KeyOf(f.p) && CopiesOnTheirWay(f, rest, a)
    requires IsRelayList(peers, f.g[c.to], c.to, Some(c.from)) && Owed(f, rest + [c], a)
    ensures var more := if c.packet.ttl > 0 then CopiesTo(peers, c.to, Forwarded(c.packet), c.hops + 1) else [];
      var a' := a[c.to := c.hops];
      CopiesOnTheirWay(f, rest + more, a') && Owed(f, rest + more, a') && Layered(f.g, f.o, f.p.ttl, a')
  {
    LayeredMore(f.g, f.o, f.p.ttl, a, c.from, c.to);
    hide KeyOf, IsRelayList, Layered;
    OnTheirWayMore(f, rest, a, c.to, c.hops);
    if c.packet.ttl > 0 { PassedOnRight(f, c, peers, a); }
    PassedOn(f, c, rest, peers, a,
      if c.packet.ttl > 0 then CopiesTo(peers, c.to, Forwarded(c.packet), c.hops + 1) else []);
    hide OnItsWay, Owed;
  }

  lemma OwedPermuted(f: Origin, copies: seq<Copy>, i: nat, a: Depths)
    requires i < |copies| && Owed(f, copies, a)
    ensures Owed(f, Without(copies, i) + [copies[i]], a)
  {
    var rest := Without(copies, i) + [copies[i]];
    assert forall x :: x in copies ==> x in rest;
    forall u, w | CopyFor(f, copies, u, w)
      ensures CopyFor(f, rest, u, w)
    {
    }
    hide KeyOf;
  }

  /** A copy of p reaches a node that has not seen it. */
  lemma SeenFirst(f: Origin, s: Network, a: Depths, i: nat, peers: seq<nat>)
    requires OriginOK(f) && Flooding(f, s, a) && i < |s.inFlight| && KeyOf(s.inFlight[i].packet) == KeyOf(f.p)
    requires s.inFlight[i].to !in a && Remembered(f, s) && Kept(f, s, Receive(i, peers))
    ensures Flooding(f, Step(s, Receive(i, peers)), a[s.inFlight[i].to := s.inFlight[i].hops])
    ensures var c, s' := s.inFlight[i], Step(s, Receive(i, peers));
      s'.inFlight == Without(s.inFlight, i)
        + if c.packet.ttl > 0 then CopiesTo(peers, c.to, Forwarded(c.packet), c.hops + 1) else []
  {
    hide Step, KeyOf, IsRelayList, Remembered, HandedRight, Owed, OnItsWay, Sighted, CopiesOnTheirWay;
    hide Flooding, Without, Layered;
    var c, rest := s.inFlight[i], Without(s.inFlight, i);
    ArrivingFacts(f, s, a, i);
    var s' := Step(s, Receive(i, peers));
    FirstEffect(f, s, i, peers);
    HandedFirst(f, s.delivered, Delivery(c.to, c.packet, c.hops, |At(s.histories, c.to)|), a.Keys, s'.delivered);
    OwedPermuted(f, s.inFlight, i, a);
    FirstCopies(f, c, rest, peers, a);
    assert a[c.to := c.hops].Keys == a.Keys + {c.to};
    FloodingIs(f, s', a[c.to := c.hops]);
  }

  lemma FloodingIs(f: Origin, s: Network, a: Depths)
    requires a.Keys == Sighted(f, s) && Layered(f.g, f.o, f.p.ttl, a)
    requires CopiesOnTheirWay(f, s.inFlight, a) && Owed(f, s.inFlight, a)
    requires forall v: nat :: HandedRight(f, s.delivered, a.Keys, v)
    ensures Flooding(f, s, a)
  {
  }

  lemma ArrivingFacts(f: Origin, s: Network, a: Depths, i: nat)
    requires OriginOK(f) && Flooding(f, s, a) && i < |s.inFlight| && KeyOf(s.inFlight[i].packet) == KeyOf(f.p)
    ensures var c := s.inFlight[i];
      && OnItsWay(f, c, a) && c.to in f.g && c.packet == InRound(f.p, c.hops)
      && f.o in a && Layered(f.g, f.o, f.p.ttl, a) && Sighted(f, s) == a.Keys
      && CopiesOnTheirWay(f, Without(s.inFlight, i), a) && Owed(f, s.inFlight, a)
      && forall v: nat :: HandedRight(f, s.delivered, a.Keys, v)
  {
    var c := s.inFlight[i];
    assert c in s.inFlight && OnItsWay(f, c, a);
    WithoutKeeps(s.inFlight, i);
    hide KeyOf, Owed, HandedRight;
  }

  lemma FirstEffect(f: Origin, s: Network, i: nat, peers: seq<nat>)
    requires i < |s.inFlight| && KeyOf(s.inFlight[i].packet) == KeyOf(f.p) && s.inFlight[i].to in f.g
    requires s.inFlight[i].to !in Sighted(f, s) && Remembered(f, s) && f.p.packetType != PACKET_TYPE_ANNOUNCE
    requires s.inFlight[i].packet == InRound(f.p, s.inFlight[i].hops)
    ensures var c, rest, s' := s.inFlight[i], Without(s.inFlight, i), Step(s, Receive(i, peers));
      && Sighted(f, s') == Sighted(f, s) + {c.to}
      && s'.inFlight == rest + (if c.packet.ttl > 0 then CopiesTo(peers, c.to, Forwarded(c.packet), c.hops + 1) else [])
      && s'.delivered == if AddressedTo(c.packet, c.to)
                         then s.delivered + [Delivery(c.to, c.packet, c.hops, |At(s.histories, c.to)|)] else s.delivered
  {
    hide KeyOf;
    var c := s.inFlight[i];
    assert KeyOf(f.p) !in At(s.seen, c.to);
    var s' := Step(s, Receive(i, peers));
    assert At(s'.histories, c.to) == At(s.histories, c.to) + [KeyOf(c.packet)];
    assert Without(s.inFlight, i) + [] == Without(s.inFlight, i);
  }

  /** The depths after a step: a first copy may have arrived. */
  ghost function Deeper(f: Origin, s: Network, e: Input, a: Depths): Depths {
    if e.Receive? && e.index < |s.inFlight| && KeyOf(s.inFlight[e.index].packet) == KeyOf(f.p)
      && s.inFlight[e.index].to !in a
    then a[s.inFlight[e.index].to := s.inFlight[e.index].hops] else a
  }

  lemma FloodingStep(f: Origin, s: Network, e: Input, a: Depths)
    requires OriginOK(f) && Flooding(f, s, a) && Remembered(f, s) && Kept(f, s, e)
    ensures Flooding(f, Step(s, e), Deeper(f, s, e, a))
  {
    hide Flooding, KeyOf, Remembered;
    match e
    case Originate(node, q, peers) =>
      var s1 := s.(originated := s.originated + {q});
      OriginatedDoesNotMatter(f, s, a, s.originated + {q});
      OthersDoNotMatter(f, s1, a, node, q, 0, OnOriginate(At(s.seen, node), DEDUP_MAX_ENTRIES, q), peers);
    case Receive(i, peers) =>
      if i < |s.inFlight| {
        var c := s.inFlight[i];
        if KeyOf(c.packet) != KeyOf(f.p) {
          WithoutKeeps(s.inFlight, i);
          CopiesChange(f, s, a, Without(s.inFlight, i));
          var s1 := s.(inFlight := Without(s.inFlight, i));
          var r := OnReceive(c.to, At(s.seen, c.to), DEDUP_MAX_ENTRIES, c.packet);
          OthersDoNotMatter(f, s1, a, c.to, c.packet, c.hops, r, peers);
        } else if c.to in a {
          SeenAgain(f, s, a, i, peers);
        } else {
          SeenFirst(f, s, a, i, peers);
        }
      }
    case Lose(i) =>
      if i < |s.inFlight| {
        WithoutKeeps(s.inFlight, i);
        CopiesChange(f, s, a, Without(s.inFlight, i));
      }
    case Repeat(i) =>
      if i < |s.inFlight| { CopiesChange(f, s, a, s.inFlight + [s.inFlight[i]]); }
  }

  lemma OriginatedDoesNotMatter(f: Origin, s: Network, a: Depths, originated: set<Packet>)
    requires Flooding(f, s, a)
    ensures Flooding(f, s.(originated := originated), a)
  {
    assert Sighted(f, s.(originated := originated)) == Sighted(f, s);
    hide KeyOf, Layered, HandedRight, CopiesOnTheirWay, Owed;
  }

  // Caches that are large enough -------------------------------------------------------------------------------

  ghost function KeysOfAll(packets: set<Packet>): set<string> {
    set q | q in packets :: KeyOf(q)
  }

  /** Nodes see originated packets only. */
  ghost predicate KnownAt(s: Network, v: nat) {
    forall key :: key in At(s.histories, v) ==> key in KeysOfAll(s.originated)
  }

  lemma AppliedKnown(s: Network, node: nat, p: Packet, hops: nat, r: Reaction, peers: seq<nat>, v: nat)
    requires KnownAt(s, v) && KeyOf(p) in KeysOfAll(s.originated)
    ensures KnownAt(Apply(s, node, p, hops, r, peers), v)
  {
  }

  lemma StepKnown(s: Network, e: Input, v: nat)
    requires KnownAt(s, v) && CopiesOK(s)
    ensures KnownAt(Step(s, e), v)
  {
    hide KeyOf;
    match e
    case Originate(node, p, peers) =>
      var s1 := s.(originated := s.originated + {p});
      assert p in s1.originated;
      assert KnownAt(s1, v);
      AppliedKnown(s1, node, p, 0, OnOriginate(At(s.seen, node), DEDUP_MAX_ENTRIES, p), peers, v);
    case Receive(i, peers) =>
      if i < |s.inFlight| {
        var c := s.inFlight[i];
        assert c in s.inFlight;
        OriginKey(c.packet, c.hops);
        var s1 := s.(inFlight := Without(s.inFlight, i));
        AppliedKnown(s1, c.to, c.packet, c.hops, OnReceive(c.to, At(s.seen, c.to), DEDUP_MAX_ENTRIES, c.packet),
          peers, v);
      }
    case Lose(i) =>
    case Repeat(i) =>
  }

  lemma OriginKey(p: Packet, hops: nat)
    ensures KeyOf(p.(ttl := p.ttl + hops)) == KeyOf(p)
  {
  }

  lemma {:induction false} RunKnown(h: History, k: nat, v: nat)
    requires IsRun(h) && k < |h.states|
    ensures KnownAt(h.states[k], v)
  {
    hide Step, KnownAt, IsRun;
    if k == 0 {
      StartKnown(h, v);
    } else {
      RunKnown(h, k - 1, v);
      RunInv(h, k - 1);
      RunMoves(h, k - 1);
      StepKnown(h.states[k - 1], h.inputs[k - 1], v);
    }
  }

  lemma StartKnown(h: History, v: nat)
    requires IsRun(h)
    ensures KnownAt(h.states[0], v)
  {
  }

  lemma RunMoves(h: History, k: nat)
    requires IsRun(h) && k + 1 < |h.states|
    ensures Moves(h, k) && |h.states| == |h.inputs| + 1
  {
  }

  lemma {:induction false} DistinctSize(s: seq<string>, all: set<string>)
    requires Distinct(s) && forall x :: x in s ==> x in all
    ensures |s| <= |all|
    decreases |s|
  {
    if s != [] {
      var init, x := s[..|s| - 1], s[|s| - 1];
      assert s == init + [x];
      DistinctPush(init, x);
      DistinctSize(init, all - {x});
      assert |all - {x}| == |all| - 1;
    }
  }

  lemma {:induction false} KeysSize(packets: set<Packet>)
    ensures |KeysOfAll(packets)| <= |packets|
    decreases |packets|
  {
    hide KeyOf;
    if packets != {} {
      var q :| q in packets;
      KeysSize(packets - {q});
      assert KeysOfAll(packets) == KeysOfAll(packets - {q}) + {KeyOf(q)};
    }
  }

  lemma StepHistory(s: Network, e: Input, v: nat)
    ensures At(s.histories, v) <= At(Step(s, e).histories, v)
    ensures |At(Step(s, e).histories, v)| <= |At(s.histories, v)| + 1
    ensures s.originated <= Step(s, e).originated
  {
    hide KeyOf;
  }

  lemma ShortHistory(s: Network, v: nat)
    requires WindowsOK(s) && KnownAt(s, v) && |At(s.histories, v)| <= DEDUP_MAX_ENTRIES + 1
    requires |s.originated| <= DEDUP_MAX_ENTRIES
    ensures |At(s.histories, v)| <= DEDUP_MAX_ENTRIES
  {
    assert IsWindow(At(s.seen, v), At(s.histories, v), DEDUP_MAX_ENTRIES);
    DistinctSize(At(s.histories, v), KeysOfAll(s.originated));
    KeysSize(s.originated);
  }

  lemma {:induction false} FewPackets(h: History, k: nat, v: nat)
    requires IsRun(h) && k < |h.states| && |h.states[k].originated| <= DEDUP_MAX_ENTRIES
    ensures |At(h.states[k].histories, v)| <= DEDUP_MAX_ENTRIES
  {
    hide Step, IsRun, KnownAt, KeyOf;
    RunKnown(h, k, v);
    RunInv(h, k);
    if k > 0 {
      RunMoves(h, k - 1);
      var s, e := h.states[k - 1], h.inputs[k - 1];
      StepHistory(s, e, v);
      SubsetSize(s.originated, h.states[k].originated);
      FewPackets(h, k - 1, v);
    } else {
      StartEmpty(h);
    }
    ShortHistory(h.states[k], v);
  }

  lemma StartEmpty(h: History)
    requires IsRun(h)
    ensures h.states[0] == EmptyNetwork()
  {
  }

  /** No node has forgotten anything yet. */
  ghost predicate NothingForgotten(s: Network) {
    forall v: nat :: At(s.seen, v) == At(s.histories, v)
  }

  /** While at most 256 packets have been originated, no node forgets any. */
  lemma NothingForgottenYet(h: History, k: nat)
    requires IsRun(h) && k < |h.states| && |h.states[k].originated| <= DEDUP_MAX_ENTRIES
    ensures NothingForgotten(h.states[k])
  {
    RunInv(h, k);
    hide IsRun;
    var s := h.states[k];
    forall v: nat
      ensures At(s.seen, v) == At(s.histories, v)
    {
      FewPackets(h, k, v);
      assert IsWindow(At(s.seen, v), At(s.histories, v), DEDUP_MAX_ENTRIES);
    }
  }

  /** At most 256 packets have been seen first at any node since it first saw p, p among them. */
  ghost predicate Recent(f: Origin, s: Network) {
    forall v: nat, i: nat :: i < |At(s.histories, v)| && At(s.histories, v)[i] == KeyOf(f.p) ==>
      |At(s.histories, v)| - i <= DEDUP_MAX_ENTRIES
  }

  /** That is so for all packets while no more than 256 have been originated. */
  lemma FewAreRecent(f: Origin, h: History, k: nat)
    requires IsRun(h) && k < |h.states| && |h.states[k].originated| <= DEDUP_MAX_ENTRIES
    ensures Recent(f, h.states[k])
  {
    hide IsRun, KeyOf;
    forall v: nat
      ensures |At(h.states[k].histories, v)| <= DEDUP_MAX_ENTRIES
    {
      FewPackets(h, k, v);
    }
  }

  /** A packet seen recently is remembered. */
  lemma RecentIsRemembered(f: Origin, h: History, k: nat)
    requires IsRun(h) && k < |h.states| && Recent(f, h.states[k])
    ensures Remembered(f, h.states[k])
  {
    RunInv(h, k);
    hide IsRun, KeyOf;
    var s := h.states[k];
    forall v: nat
      ensures KeyOf(f.p) in At(s.seen, v) <==> KeyOf(f.p) in At(s.histories, v)
    {
      assert IsWindow(At(s.seen, v), At(s.histories, v), DEDUP_MAX_ENTRIES);
      hide Spaced;
    }
  }

  lemma RecentBefore(f: Origin, s: Network, e: Input)
    requires Recent(f, Step(s, e))
    ensures Recent(f, s)
  {
    hide Step, KeyOf;
    forall v: nat, i: nat | i < |At(s.histories, v)| && At(s.histories, v)[i] == KeyOf(f.p)
      ensures |At(s.histories, v)| - i <= DEDUP_MAX_ENTRIES
    {
      StepHistory(s, e, v);
      assert At(Step(s, e).histories, v)[i] == KeyOf(f.p);
    }
  }

  // The theorem ------------------------------------------------------------------------------------------------

  ghost predicate KeptAt(f: Origin, h: History, j: nat) {
    j < |h.inputs| && |h.states| == |h.inputs| + 1 && Kept(f, h.states[j], h.inputs[j])
  }

  /** Step t of the run originates p, and no other step originates a packet with its key or loses a copy. */
  ghost predicate Lossless(f: Origin, h: History, t: nat) {
    && IsRun(h) && f.o in f.g && t < |h.inputs|
    && h.inputs[t].Originate? && h.inputs[t].node == f.o && h.inputs[t].packet == f.p
    && IsRelayList(h.inputs[t].relayPeers, f.g[f.o], f.o, None)
    && forall j: nat :: j < |h.inputs| && j != t ==> KeptAt(f, h, j)
  }

  ghost predicate IsFlooded(f: Origin, h: History, t: nat) {
    OriginOK(f) && Lossless(f, h, t)
  }

  /** Nobody knows of p. */
  ghost predicate Unheard(f: Origin, s: Network) {
    && KeyOf(f.p) !in KeysOfAll(s.originated) && Sighted(f, s) == {}
    && (forall c :: c in s.inFlight ==> KeyOf(c.packet) != KeyOf(f.p))
    && (forall v: nat :: Got(KeyOf(f.p), s.delivered, v) == [])
  }

  lemma {:induction false} NotOriginated(f: Origin, h: History, t: nat, k: nat)
    requires IsFlooded(f, h, t) && k <= t
    ensures k < |h.states| && KeyOf(f.p) !in KeysOfAll(h.states[k].originated)
  {
    hide KeyOf, Step, OriginOK;
    if k == 0 {
      StartEmpty(h);
    } else {
      NotOriginated(f, h, t, k - 1);
      assert KeptAt(f, h, k - 1);
      assert |h.states| == |h.inputs| + 1;
      RunMoves(h, k - 1);
      StepOriginated(h.states[k - 1], h.inputs[k - 1]);
    }
  }

  lemma StepOriginated(s: Network, e: Input)
    ensures Step(s, e).originated == if e.Originate? then s.originated + {e.packet} else s.originated
  {
    hide KeyOf;
  }

  lemma {:induction false} GotNothing(key: string, log: seq<Delivery>, v: nat)
    requires forall d :: d in log ==> KeyOf(d.packet) != key
    ensures Got(key, log, v) == []
  {
    if log != [] {
      assert log[|log| - 1] in log;
      GotNothing(key, log[..|log| - 1], v);
    }
  }

  lemma UnheardBefore(f: Origin, h: History, t: nat)
    requires IsFlooded(f, h, t)
    ensures t < |h.states| && Unheard(f, h.states[t])
  {
    NotOriginated(f, h, t, t);
    RunInv(h, t);
    var s := h.states[t];
    hide KeyOf, IsFlooded, IsRun;
    forall v: nat
      ensures KnownAt(s, v)
    {
      Knows(f, h, t, v);
    }
    forall c | c in s.inFlight
      ensures KeyOf(c.packet) != KeyOf(f.p)
    {
      OriginKey(c.packet, c.hops);
    }
    forall d | d in s.delivered
      ensures KeyOf(d.packet) != KeyOf(f.p)
    {
      assert DeliveryOK(s, d);
      OriginKey(d.packet, d.hops);
    }
    forall v: nat
      ensures Got(KeyOf(f.p), s.delivered, v) == []
    {
      GotNothing(KeyOf(f.p), s.delivered, v);
    }
    forall v | v in f.g
      ensures KeyOf(f.p) !in At(s.histories, v)
    {
      assert KnownAt(s, v);
    }
  }

  lemma Knows(f: Origin, h: History, t: nat, v: nat)
    requires IsFlooded(f, h, t)
    ensures t < |h.states| && KnownAt(h.states[t], v)
  {
    RunKnown(h, t, v);
  }

  /** The origin has seen its packet, and a copy is on its way to each of its peers. */
  lemma FloodingStarts(f: Origin, s: Network, list: seq<nat>)
    requires OriginOK(f) && Unheard(f, s) && Remembered(f, s) && IsRelayList(list, f.g[f.o], f.o, None)
    ensures Flooding(f, Step(s, Originate(f.o, f.p, list)), map[f.o := 0])
    ensures Step(s, Originate(f.o, f.p, list)).inFlight
         == s.inFlight + if f.p.ttl > 0 then CopiesTo(list, f.o, Forwarded(f.p), 1) else []
  {
    var s' := Step(s, Originate(f.o, f.p, list));
    StartEffect(f, s, list);
    hide Step, KeyOf;
    if f.p.ttl > 0 { StartCopies(f, s.inFlight, list); }
    hide IsRelayList;
    FloodingIs(f, s', map[f.o := 0]);
  }

  lemma StartEffect(f: Origin, s: Network, list: seq<nat>)
    requires OriginOK(f) && Unheard(f, s) && Remembered(f, s)
    ensures var s' := Step(s, Originate(f.o, f.p, list));
      && Sighted(f, s') == {f.o} && s'.delivered == s.delivered
      && s'.inFlight == s.inFlight + if f.p.ttl > 0 then CopiesTo(list, f.o, Forwarded(f.p), 1) else []
  {
    hide KeyOf;
    assert f.o !in Sighted(f, s);
    assert KeyOf(f.p) !in At(s.seen, f.o);
    var s' := Step(s, Originate(f.o, f.p, list));
    assert At(s'.histories, f.o) == At(s.histories, f.o) + [KeyOf(f.p)];
    assert s.inFlight + [] == s.inFlight;
  }

  lemma StartCopies(f: Origin, others: seq<Copy>, list: seq<nat>)
    requires OriginOK(f) && f.p.ttl > 0 && IsRelayList(list, f.g[f.o], f.o, None)
    requires forall c :: c in others ==> KeyOf(c.packet) != KeyOf(f.p)
    ensures var copies := others + CopiesTo(list, f.o, Forwarded(f.p), 1);
      CopiesOnTheirWay(f, copies, map[f.o := 0]) && Owed(f, copies, map[f.o := 0])
  {
    var more := CopiesTo(list, f.o, Forwarded(f.p), 1);
    ForwardedKey(f.p);
    assert Forwarded(f.p) == InRound(f.p, 1);
    forall x | x in more
      ensures OnItsWay(f, x, map[f.o := 0])
    {
      var k :| 0 <= k < |more| && more[k] == x;
      assert list[k] in list;
    }
    hide KeyOf, OnItsWay;
    forall w | w in f.g[f.o]
      ensures CopyFor(f, others + more, f.o, w)
    {
      assert w in list;
      var k :| 0 <= k < |list| && list[k] == w;
      assert more[k] in others + more && more[k].to == w && more[k].from == f.o;
    }
  }

  lemma {:induction false} KeepsFlooding(f: Origin, h: History, t: nat, k: nat) returns (a: Depths)
    requires IsFlooded(f, h, t) && t < k < |h.states| && Recent(f, h.states[k])
    ensures Flooding(f, h.states[k], a)
  {
    hide KeyOf, Step, Flooding, IsRelayList, Remembered, Recent, Deeper;
    RunMoves(h, k - 1);
    RecentBefore(f, h.states[k - 1], h.inputs[k - 1]);
    RecentIsRemembered(f, h, k - 1);
    if k == t + 1 {
      UnheardBefore(f, h, t);
      FloodingStarts(f, h.states[t], h.inputs[t].relayPeers);
      a := map[f.o := 0];
    } else {
      a := KeepsFlooding(f, h, t, k - 1);
      assert KeptAt(f, h, k - 1);
      FloodingStep(f, h.states[k - 1], h.inputs[k - 1], a);
      a := Deeper(f, h.states[k - 1], h.inputs[k - 1], a);
    }
  }

  /** No copy of p is under way. */
  ghost predicate Settled(f: Origin, s: Network) {
    forall c :: c in s.inFlight ==> KeyOf(c.packet) != KeyOf(f.p)
  }

  /** The flood of step t is over at point k, and no node has seen too much since to know p. */
  ghost predicate IsOver(f: Origin, h: History, t: nat, k: nat) {
    IsFlooded(f, h, t) && t < k < |h.states| && Recent(f, h.states[k]) && Settled(f, h.states[k])
  }

  /** p has been handed to the addressed ones of the given nodes, and to nobody else. */
  ghost predicate GotBy(f: Origin, s: Network, nodes: set<nat>) {
    forall v: nat :: HandedRight(f, s.delivered, nodes, v)
  }

  /**
   * However the copies of p are repeated, delayed and overtaken, as long as none is lost: the nodes
   * that have got it when no copy is under way any more are those of a stalled tree of first copies.
   */
  lemma OutcomeIsStalled(f: Origin, h: History, t: nat, k: nat) returns (a: Depths)
    requires IsOver(f, h, t, k)
    ensures Stalled(f.g, f.o, f.p.ttl, a) && GotBy(f, h.states[k], a.Keys)
  {
    a := KeepsFlooding(f, h, t, k);
    hide IsFlooded, KeyOf, HandedRight, Recent;
    forall u | u in a && a[u] < f.p.ttl
      ensures f.g[u] <= a.Keys
    {
      assert forall w :: w in f.g[u] ==> w in a || CopyFor(f, h.states[k].inFlight, u, w);
    }
  }
}
