/** What floods come to in any order: every stalled tree is an outcome, and the sure nodes are in all. */
module FloodOutcomes {
  import opened Wrappers
  import opened Collections
  import opened MeshRouter
  import opened RelayEngine
  import opened DedupCache
  import opened MeshNetwork
  import opened FloodCoverage
  import opened AnyOrderFlood
  import opened FloodGrowth

  // Who is sure to get it -----------------------------------------------------------------------------------------

  function EmptyRun(): History {
    History([EmptyNetwork()], [])
  }

  /** Every stalled tree is the outcome of a flood: of one in a network with no other traffic at all. */
  lemma StalledIsOutcome(f: Origin, a: Depths) returns (h: History, t: nat, k: nat)
    requires OriginOK(f) && Stalled(f.g, f.o, f.p.ttl, a)
    ensures IsOver(f, h, t, k) && GotBy(f, h.states[k], a.Keys)
  {
    hide KeyOf, Stalled, GotBy, Growing, IsFlooded, Recent;
    assert IsRun(EmptyRun());
    h := FloodFollows(f, EmptyRun(), a);
    t, k := 0, |h.states| - 1;
  }

  /** Node v is in every stalled tree. */
  ghost predicate Sure(g: Graph, o: nat, t: int, v: nat) {
    forall a: Depths :: Stalled(g, o, t, a) ==> v in a
  }

  /** Every stalled tree has all nodes within t hops. */
  ghost predicate Covered(g: Graph, o: nat, t: nat) {
    forall a: Depths :: Stalled(g, o, t, a) ==> Reach(g, o, t) <= a.Keys
  }

  /** In every flood that is over, v has got p once. */
  ghost predicate AlwaysGets(f: Origin, v: nat) {
    forall h: History, t: nat, k: nat :: IsOver(f, h, t, k) ==> |Got(KeyOf(f.p), h.states[k].delivered, v)| == 1
  }

  /** In every flood that is over, exactly the addressed nodes within reach have got p. */
  ghost predicate AlwaysCovers(f: Origin)
    requires f.p.ttl >= 0
  {
    forall h: History, t: nat, k: nat :: IsOver(f, h, t, k) ==> GotBy(f, h.states[k], Reach(f.g, f.o, f.p.ttl))
  }

  lemma HandedOnce(f: Origin, s: Network, nodes: set<nat>, v: nat)
    requires GotBy(f, s, nodes) && v != f.o && AddressedTo(f.p, v)
    ensures |Got(KeyOf(f.p), s.delivered, v)| == 1 <==> v in nodes
  {
    assert HandedRight(f, s.delivered, nodes, v);
    hide KeyOf, Got;
  }

  /** An addressed node gets the packet in every flood without losses exactly if it is in every stalled tree. */
  lemma GetsExactly(f: Origin, v: nat)
    requires OriginOK(f) && v != f.o && AddressedTo(f.p, v)
    ensures AlwaysGets(f, v) <==> Sure(f.g, f.o, f.p.ttl, v)
  {
    hide KeyOf, Stalled, GotBy, IsOver, OriginOK;
    if Sure(f.g, f.o, f.p.ttl, v) {
      forall h: History, t: nat, k: nat | IsOver(f, h, t, k)
        ensures k < |h.states| && |Got(KeyOf(f.p), h.states[k].delivered, v)| == 1
      {
        OverLength(f, h, t, k);
        var a := OutcomeIsStalled(f, h, t, k);
        HandedOnce(f, h.states[k], a.Keys, v);
      }
    } else {
      var a: Depths :| Stalled(f.g, f.o, f.p.ttl, a) && v !in a;
      var h, t, k := StalledIsOutcome(f, a);
      OverLength(f, h, t, k);
      HandedOnce(f, h.states[k], a.Keys, v);
    }
  }

  lemma OverLength(f: Origin, h: History, t: nat, k: nat)
    requires IsOver(f, h, t, k)
    ensures k < |h.states|
  {
  }

  lemma {:induction false} LayeredReach(g: Graph, o: nat, t: int, a: Depths, u: nat)
    requires Layered(g, o, t, a) && u in a
    ensures u in Reach(g, o, a[u])
    decreases a[u]
  {
    if u != o {
      var q := Parent(g, o, t, a, u);
      LayeredReach(g, o, t, a, q);
      assert u in Spread(g, Reach(g, o, a[q]));
      assert Reach(g, o, a[q] + 1) == Reach(g, o, a[q]) + Spread(g, Reach(g, o, a[q]));
    }
    hide Layered;
  }

  lemma StalledInReach(g: Graph, o: nat, t: nat, a: Depths)
    requires Stalled(g, o, t, a)
    ensures a.Keys <= Reach(g, o, t)
  {
    forall u | u in a
      ensures u in Reach(g, o, t)
    {
      LayeredReach(g, o, t, a, u);
      ReachGrows(g, o, a[u], t);
    }
    hide Reach;
  }

  /**
   * A broadcast gets to all nodes within reach, in whatever order its copies arrive, exactly if the
   * network is covered.
   */
  lemma CoversExactly(f: Origin)
    requires OriginOK(f) && f.p.destination == NODE_ID_BROADCAST
    ensures AlwaysCovers(f) <==> Covered(f.g, f.o, f.p.ttl)
  {
    hide KeyOf, Stalled, GotBy, IsOver, OriginOK, Reach;
    TtlOK(f);
    if Covered(f.g, f.o, f.p.ttl) {
      forall h: History, t: nat, k: nat | IsOver(f, h, t, k)
        ensures k < |h.states| && GotBy(f, h.states[k], Reach(f.g, f.o, f.p.ttl))
      {
        AnyOrderCovers(f, h, t, k);
      }
    } else {
      var a: Depths :| Stalled(f.g, f.o, f.p.ttl, a) && !(Reach(f.g, f.o, f.p.ttl) <= a.Keys);
      var v :| v in Reach(f.g, f.o, f.p.ttl) && v !in a;
      var h, t, k := StalledIsOutcome(f, a);
      OverLength(f, h, t, k);
      assert f.o in a by { OriginInside(f.g, f.o, f.p.ttl, a); }
      HandedOnce(f, h.states[k], a.Keys, v);
      if GotBy(f, h.states[k], Reach(f.g, f.o, f.p.ttl)) {
        HandedOnce(f, h.states[k], Reach(f.g, f.o, f.p.ttl), v);
      }
    }
  }

  lemma TtlOK(f: Origin)
    requires OriginOK(f)
    ensures f.p.ttl >= 0
  {
  }

  lemma OriginInside(g: Graph, o: nat, t: int, a: Depths)
    requires Stalled(g, o, t, a)
    ensures o in a
  {
  }

  /** In a covered network every packet gets to exactly the addressed nodes within reach. */
  lemma AnyOrderCovers(f: Origin, h: History, t: nat, k: nat)
    requires IsOver(f, h, t, k) && f.p.ttl >= 0 && Covered(f.g, f.o, f.p.ttl)
    ensures k < |h.states| && GotBy(f, h.states[k], Reach(f.g, f.o, f.p.ttl))
  {
    hide KeyOf, Stalled, GotBy, IsOver, Reach;
    OverLength(f, h, t, k);
    var a := OutcomeIsStalled(f, h, t, k);
    StalledInReach(f.g, f.o, f.p.ttl, a);
    assert a.Keys == Reach(f.g, f.o, f.p.ttl);
  }

  // There is always an outcome -------------------------------------------------------------------------------------

  /** Every first copy has come the shortest way. */
  ghost predicate ByDistance(g: Graph, o: nat, a: Depths) {
    forall u :: u in a ==> AtDistance(g, o, a[u], u)
  }

  ghost function WithNext(g: Graph, o: nat, d: nat, a: Depths): Depths {
    map u | u in Reach(g, o, d + 1) :: if u in a then a[u] else d + 1
  }

  lemma NextStep(g: Graph, o: nat, d: nat, q: nat, u: nat)
    requires q in Reach(g, o, d) && q in g && u in g[q]
    ensures u in Reach(g, o, d + 1)
  {
    assert u in Spread(g, Reach(g, o, d));
  }

  lemma FromNeighbour(g: Graph, o: nat, d: nat, u: nat) returns (q: nat)
    requires u in Reach(g, o, d + 1) && u !in Reach(g, o, d)
    ensures q in Reach(g, o, d) && q in g && u in g[q]
  {
    q :| q in Reach(g, o, d) && q in g && u in g[q];
  }

  /** Whoever is d + 1 hops away has a neighbour d hops away. */
  lemma NewParent(g: Graph, o: nat, d: nat, a: Depths, u: nat) returns (q: nat)
    requires a.Keys == Reach(g, o, d) && ByDistance(g, o, a) && u in Reach(g, o, d + 1) && u !in a
    requires forall x :: x in a ==> a[x] <= d
    ensures q in a && q in g && u in g[q] && a[q] == d
  {
    hide Reach;
    q := FromNeighbour(g, o, d, u);
    assert AtDistance(g, o, a[q], q);
    if a[q] < d {
      NextStep(g, o, a[q], q, u);
      ReachGrows(g, o, a[q] + 1, d);
    }
  }

  lemma NextParent(g: Graph, o: nat, d: nat, a: Depths, u: nat)
    requires Layered(g, o, d, a) && a.Keys == Reach(g, o, d) && ByDistance(g, o, a) && u in Reach(g, o, d + 1) && u != o
    ensures HasParent(g, WithNext(g, o, d, a), u)
  {
    var a' := WithNext(g, o, d, a);
    assert a.Keys <= a'.Keys by { ReachGrows(g, o, d, d + 1); }
    var q: nat;
    if u in a {
      q := Parent(g, o, d, a, u);
    } else {
      DepthsBelow(g, o, d, a);
      q := NewParent(g, o, d, a, u);
    }
    assert q in a' && a'[q] + 1 == a'[u];
    hide Reach, Layered, ByDistance;
  }

  lemma DepthsBelow(g: Graph, o: nat, t: int, a: Depths)
    requires Layered(g, o, t, a)
    ensures o in a && a[o] == 0 && forall x :: x in a ==> a[x] <= t
  {
  }

  lemma NextDepths(g: Graph, o: nat, d: nat, a: Depths)
    requires forall x :: x in a ==> a[x] <= d
    ensures forall x :: x in WithNext(g, o, d, a) ==> WithNext(g, o, d, a)[x] <= d + 1
  {
    hide Reach;
  }

  lemma NextDistance(g: Graph, o: nat, d: nat, a: Depths, u: nat)
    requires a.Keys == Reach(g, o, d) && ByDistance(g, o, a) && u in Reach(g, o, d + 1)
    ensures AtDistance(g, o, WithNext(g, o, d, a)[u], u)
  {
    if u in a { assert AtDistance(g, o, a[u], u); }
    hide Reach, ByDistance;
  }

  lemma NextLayer(g: Graph, o: nat, d: nat, a: Depths)
    requires GraphOK(g) && o in g && Layered(g, o, d, a) && a.Keys == Reach(g, o, d) && ByDistance(g, o, a)
    ensures var a' := WithNext(g, o, d, a);
      Layered(g, o, d + 1, a') && a'.Keys == Reach(g, o, d + 1) && ByDistance(g, o, a')
  {
    hide Layered, ByDistance, AtDistance, HasParent, Reach, GraphOK;
    var a' := WithNext(g, o, d, a);
    ReachInside(g, o, d + 1);
    DepthsBelow(g, o, d, a);
    ReachGrows(g, o, d, d + 1);
    assert a'.Keys == Reach(g, o, d + 1) && o in a' && a'[o] == 0;
    NextDepths(g, o, d, a);
    hide WithNext;
    forall u | u in a'
      ensures AtDistance(g, o, a'[u], u)
    {
      NextDistance(g, o, d, a, u);
    }
    AreByDistance(g, o, a');
    forall u | u in a'
      ensures u == o || HasParent(g, a', u)
    {
      if u != o { NextParent(g, o, d, a, u); }
    }
    AreLayered(g, o, d + 1, a');
  }

  lemma AreByDistance(g: Graph, o: nat, a: Depths)
    requires forall u :: u in a ==> AtDistance(g, o, a[u], u)
    ensures ByDistance(g, o, a)
  {
  }

  lemma AreLayered(g: Graph, o: nat, t: int, a: Depths)
    requires o in a && a[o] == 0 && a.Keys <= g.Keys
    requires forall u :: u in a ==> a[u] <= t && (u == o || HasParent(g, a, u))
    ensures Layered(g, o, t, a)
  {
  }

  lemma FirstLayer(g: Graph, o: nat)
    requires o in g
    ensures Layered(g, o, 0, map[o := 0]) && map[o := 0].Keys == Reach(g, o, 0) && ByDistance(g, o, map[o := 0])
  {
    hide Spread;
  }

  lemma {:induction false} Layers(g: Graph, o: nat, d: nat) returns (a: Depths)
    requires GraphOK(g) && o in g
    ensures Layered(g, o, d, a) && a.Keys == Reach(g, o, d) && ByDistance(g, o, a)
  {
    hide GraphOK, ByDistance, Layered, Reach, WithNext;
    if d == 0 {
      FirstLayer(g, o);
      a := map[o := 0];
    } else {
      a := Layers(g, o, d - 1);
      NextLayer(g, o, d - 1, a);
      a := WithNext(g, o, d - 1, a);
    }
  }

  /** When every first copy comes the shortest way, all nodes within reach get the packet. */
  lemma ShortestWays(g: Graph, o: nat, t: nat) returns (a: Depths)
    requires GraphOK(g) && o in g
    ensures Stalled(g, o, t, a) && a.Keys == Reach(g, o, t)
  {
    a := Layers(g, o, t);
    hide Reach;
    forall u, w | u in a && a[u] < t && w in g[u]
      ensures w in a
    {
      assert AtDistance(g, o, a[u], u);
      NextStep(g, o, a[u], u, w);
      ReachGrows(g, o, a[u] + 1, t);
    }
    hide HasParent;
  }

  // Covered networks ------------------------------------------------------------------------------------------------

  /** Nobody within reach is more than one hop away. */
  lemma NearIsCovered(g: Graph, o: nat, t: nat)
    requires GraphOK(g) && o in g && Reach(g, o, t) <= {o} + g[o] && (t == 0 ==> Reach(g, o, t) == {o})
    ensures Covered(g, o, t)
  {
    forall a: Depths | Stalled(g, o, t, a)
      ensures Reach(g, o, t) <= a.Keys
    {
      if t > 0 { assert g[o] <= a.Keys; }
    }
    hide Reach;
  }

  /** So a time to live of at most 1 always suffices for the nodes it is meant to reach. */
  lemma ShortIsCovered(g: Graph, o: nat, t: nat)
    requires GraphOK(g) && o in g && t <= 1
    ensures Covered(g, o, t)
  {
    assert Reach(g, o, 0) == {o};
    if t == 1 {
      assert Reach(g, o, 1) == {o} + Spread(g, {o});
      assert Spread(g, {o}) == g[o];
    }
    NearIsCovered(g, o, t);
  }

  /** A node at depth d has d others before it. */
  lemma {:induction false} Ancestors(g: Graph, o: nat, t: int, a: Depths, u: nat) returns (s: set<nat>)
    requires Layered(g, o, t, a) && u in a
    ensures s <= a.Keys && |s| == a[u] + 1 && forall x :: x in s ==> a[x] <= a[u]
    decreases a[u]
  {
    if u == o {
      s := {o};
    } else {
      var q := Parent(g, o, t, a, u);
      var s0 := Ancestors(g, o, t, a, q);
      s := s0 + {u};
      assert u !in s0;
    }
    hide Layered;
  }

  lemma {:induction false} ClosedReaches(g: Graph, o: nat, d: nat, nodes: set<nat>)
    requires GraphOK(g) && o in nodes && nodes <= g.Keys && forall u :: u in nodes ==> g[u] <= nodes
    ensures Reach(g, o, d) <= nodes
  {
    if d > 0 { ClosedReaches(g, o, d - 1, nodes); }
  }

  /** A time to live of at least the number of other nodes suffices. */
  lemma LongIsCovered(g: Graph, o: nat, t: nat)
    requires GraphOK(g) && o in g && t >= |g| - 1
    ensures Covered(g, o, t)
  {
    forall a: Depths | Stalled(g, o, t, a)
      ensures Reach(g, o, t) <= a.Keys
    {
      if u :| u in a && a[u] == t {
        var s := Ancestors(g, o, t, a, u);
        SubsetSize(s, a.Keys);
        SubsetSize(a.Keys, g.Keys);
        assert |g.Keys| == |g|;
        ReachInside(g, o, t);
      } else {
        ClosedReaches(g, o, t, a.Keys);
      }
    }
    hide Reach;
  }

  /** All links of the tree lead from a node to its parent or from a parent to its child. */
  ghost predicate IsTree(g: Graph, o: nat, parent: map<nat, nat>, depth: map<nat, nat>) {
    && o in g && depth.Keys == g.Keys && depth[o] == 0 && parent.Keys == g.Keys - {o}
    && forall u, w :: u in g && w in g[u] ==>
         && w in g
         && ((w != o && parent[w] == u && depth[w] == depth[u] + 1)
           || (u != o && parent[u] == w && depth[u] == depth[w] + 1))
  }

  lemma TreeLink(g: Graph, o: nat, parent: map<nat, nat>, depth: map<nat, nat>, u: nat, w: nat)
    requires IsTree(g, o, parent, depth) && u in g && w in g[u]
    ensures w in g && u in depth && w in depth && depth[o] == 0
    ensures (w in parent && parent[w] == u && depth[w] == depth[u] + 1)
      || (u in parent && parent[u] == w && depth[u] == depth[w] + 1)
  {
  }

  lemma TreeRoot(g: Graph, o: nat, parent: map<nat, nat>, depth: map<nat, nat>)
    requires IsTree(g, o, parent, depth)
    ensures o in g && depth.Keys == g.Keys && depth[o] == 0 && o !in parent
  {
  }

  lemma {:induction false} TreeDepth(g: Graph, o: nat, t: int, parent: map<nat, nat>, depth: map<nat, nat>, a: Depths,
        u: nat)
    requires IsTree(g, o, parent, depth) && Layered(g, o, t, a) && u in a
    ensures u in depth && a[u] == depth[u]
    decreases a[u]
  {
    TreeRoot(g, o, parent, depth);
    hide IsTree;
    if u != o {
      var q := Parent(g, o, t, a, u);
      TreeLink(g, o, parent, depth, q, u);
      TreeDepth(g, o, t, parent, depth, a, q);
      if depth[u] != depth[q] + 1 {
        // u is the parent of q, and q has not got the packet from its parent
        var r := Parent(g, o, t, a, q);
        TreeLink(g, o, parent, depth, r, q);
        TreeDepth(g, o, t, parent, depth, a, r);
        assert false;
      }
    }
    hide Layered;
  }

  lemma {:induction false} ReachDepth(g: Graph, o: nat, parent: map<nat, nat>, depth: map<nat, nat>, d: nat, v: nat)
    requires IsTree(g, o, parent, depth) && v in Reach(g, o, d)
    ensures v in g && v in depth && depth[v] <= d
  {
    TreeRoot(g, o, parent, depth);
    hide IsTree;
    if d > 0 {
      if v in Reach(g, o, d - 1) {
        ReachDepth(g, o, parent, depth, d - 1, v);
      } else {
        var u :| u in Reach(g, o, d - 1) && u in g && v in g[u];
        ReachDepth(g, o, parent, depth, d - 1, u);
        TreeLink(g, o, parent, depth, u, v);
      }
    }
  }

  lemma TreeStep(g: Graph, o: nat, t: nat, parent: map<nat, nat>, depth: map<nat, nat>, a: Depths, d: nat, u: nat)
    requires IsTree(g, o, parent, depth) && Stalled(g, o, t, a) && d < t && u in a && u in Reach(g, o, d)
    ensures u in g && g[u] <= a.Keys
  {
    TreeDepth(g, o, t, parent, depth, a, u);
    ReachDepth(g, o, parent, depth, d, u);
    hide IsTree, Reach;
  }

  lemma {:induction false} TreeReaches(g: Graph, o: nat, t: nat, parent: map<nat, nat>, depth: map<nat, nat>, a: Depths,
        d: nat)
    requires IsTree(g, o, parent, depth) && Stalled(g, o, t, a) && d <= t
    ensures Reach(g, o, d) <= a.Keys
  {
    hide IsTree;
    if d == 0 {
      OriginInside(g, o, t, a);
    } else {
      hide Stalled;
      TreeReaches(g, o, t, parent, depth, a, d - 1);
      forall v | v in Reach(g, o, d)
        ensures v in a
      {
        if v !in Reach(g, o, d - 1) {
          var u :| u in Reach(g, o, d - 1) && u in g && v in g[u];
          TreeStep(g, o, t, parent, depth, a, d - 1, u);
        }
      }
    }
  }

  /** In a tree there is one way to everybody, so the order does not matter. */
  lemma TreeIsCovered(g: Graph, o: nat, t: nat, parent: map<nat, nat>, depth: map<nat, nat>)
    requires IsTree(g, o, parent, depth)
    ensures Covered(g, o, t)
  {
    hide Stalled, IsTree, Reach;
    forall a: Depths | Stalled(g, o, t, a)
      ensures Reach(g, o, t) <= a.Keys
    {
      TreeReaches(g, o, t, parent, depth, a, t);
    }
  }

  // A network that is not covered -------------------------------------------------------------------------------------

  /** The time to live that the application sends with. */
  const DEFAULT_TTL := 5

  /** Nodes 1 to 6 in a ring, and node 7 beside node 6. */
  function Ring(): Graph {
    map[1 := {2, 6}, 2 := {1, 3}, 3 := {2, 4}, 4 := {3, 5}, 5 := {4, 6}, 6 := {1, 5, 7}, 7 := {6}]
  }

  /** The copy that has come all the way round reaches node 6 first. */
  function Round(): Depths {
    map[1 := 0, 2 := 1, 3 := 2, 4 := 3, 5 := 4, 6 := 5]
  }

  lemma RingIsGraph()
    ensures GraphOK(Ring()) && forall u, w :: u in Ring() && w in Ring()[u] ==> w in Ring() && u in Ring()[w]
  {
  }

  lemma RoundIsLayered()
    ensures Layered(Ring(), 1, DEFAULT_TTL, Round())
  {
    var g, a := Ring(), Round();
    assert 2 in g[1] && a[1] + 1 == a[2];
    assert 3 in g[2] && a[2] + 1 == a[3];
    assert 4 in g[3] && a[3] + 1 == a[4];
    assert 5 in g[4] && a[4] + 1 == a[5];
    assert 6 in g[5] && a[5] + 1 == a[6];
    assert HasParent(g, a, 2) && HasParent(g, a, 3) && HasParent(g, a, 4) && HasParent(g, a, 5) && HasParent(g, a, 6);
    hide HasParent;
  }

  lemma RoundIsStalled()
    ensures Stalled(Ring(), 1, DEFAULT_TTL, Round()) && 7 !in Round()
  {
    RoundIsLayered();
    hide Layered;
  }

  lemma SevenIsNear()
    ensures 7 in Reach(Ring(), 1, 2)
  {
    var g := Ring();
    assert 6 in g[1] && 7 in g[6];
    assert Reach(g, 1, 0) == {1};
    assert 6 in Spread(g, {1});
    assert 6 in Reach(g, 1, 1);
    assert 7 in Spread(g, Reach(g, 1, 1));
  }

  /** A packet sent with the default time to live from node 1 may never get to node 7, two hops away. */
  lemma StopsShort(p: Packet) returns (h: History, t: nat, k: nat)
    requires p.ttl == DEFAULT_TTL && p.packetType != PACKET_TYPE_ANNOUNCE
    ensures IsOver(Origin(Ring(), 1, p), h, t, k) && 7 in Reach(Ring(), 1, 2)
    ensures Got(KeyOf(p), h.states[k].delivered, 7) == []
  {
    hide KeyOf, Stalled, IsOver, Reach;
    var f := Origin(Ring(), 1, p);
    RingIsGraph();
    RoundIsStalled();
    SevenIsNear();
    h, t, k := StalledIsOutcome(f, Round());
    OverLength(f, h, t, k);
    assert HandedRight(f, h.states[k].delivered, Round().Keys, 7);
  }
}
