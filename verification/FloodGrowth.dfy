/**
 * Runs that are continued with the flood of one packet. The copies that are to be the first at their
 * nodes are delivered in the order of their hops, then all others, which find the packet known; so the
 * flood stalls in whichever tree of first copies is wanted.
 */
module FloodGrowth {
  import opened Wrappers
  import opened Collections
  import opened MeshRouter
  import opened RelayEngine
  import opened DedupCache
  import opened MeshNetwork
  import opened FloodCoverage
  import opened AnyOrderFlood

  // Growing a run ------------------------------------------------------------------------------------------

  function LastState(h: History): Network
    requires h.states != []
  {
    h.states[|h.states| - 1]
  }

  ghost predicate Extends(h0: History, h: History) {
    && |h0.inputs| <= |h.inputs| && h.inputs[..|h0.inputs|] == h0.inputs
    && |h0.states| <= |h.states| && h.states[..|h0.states|] == h0.states
  }

  lemma Goes(h: History, e: Input) returns (h': History)
    requires IsRun(h)
    ensures IsRun(h') && h' == History(h.states + [Step(LastState(h), e)], h.inputs + [e])
  {
    hide Step;
    h' := History(h.states + [Step(LastState(h), e)], h.inputs + [e]);
    forall k: nat | k < |h'.inputs|
      ensures Moves(h', k)
    {
      assert k < |h.inputs| ==> Moves(h, k);
    }
  }

  /** The first copies of the nodes in b. */
  ghost function Only(a: Depths, b: set<nat>): Depths {
    map u | u in a && u in b :: a[u]
  }

  ghost predicate AllOf(key: string, copies: seq<Copy>) {
    forall c :: c in copies ==> KeyOf(c.packet) == key
  }

  /** What was handed to anybody of other packets. */
  ghost predicate OthersAsBefore(key: string, log0: seq<Delivery>, log: seq<Delivery>) {
    forall other: string, v: nat :: other != key ==> Got(other, log, v) == Got(other, log0, v)
  }

  /** Step j of the run takes a copy of p to a node, which relays along the links. */
  ghost predicate TakesCopy(f: Origin, h: History, j: nat) {
    && KeptAt(f, h, j) && h.inputs[j].Receive? && h.inputs[j].index < |h.states[j].inFlight|
    && KeyOf(h.states[j].inFlight[h.inputs[j].index].packet) == KeyOf(f.p)
  }

  /** Run h continues run h0 with the flood of p and nothing else; the nodes in b have got p by now. */
  ghost predicate Growing(f: Origin, h0: History, h: History, a: Depths, b: set<nat>) {
    var t := |h0.inputs|;
    && IsRun(h0) && IsRun(h) && Extends(h0, h) && t < |h.inputs| && f.o in f.g
    && h.inputs[t].Originate? && h.inputs[t].node == f.o && h.inputs[t].packet == f.p
    && IsRelayList(h.inputs[t].relayPeers, f.g[f.o], f.o, None)
    && (forall j: nat :: t < j < |h.inputs| ==> TakesCopy(f, h, j))
    && b <= a.Keys && Flooding(f, LastState(h), Only(a, b))
    && AllOf(KeyOf(f.p), LastState(h).inFlight) && LastState(h).originated == LastState(h0).originated + {f.p}
    && OthersAsBefore(KeyOf(f.p), LastState(h0).delivered, LastState(h).delivered)
  }

  lemma LogChange(key: string, log0: seq<Delivery>, log: seq<Delivery>, d: Delivery)
    requires OthersAsBefore(key, log0, log) && KeyOf(d.packet) == key
    ensures OthersAsBefore(key, log0, log + [d])
  {
    hide KeyOf;
    forall other: string, v: nat | other != key
      ensures Got(other, log + [d], v) == Got(other, log0, v)
    {
      GotPush(other, log, d, v);
    }
    hide Got;
  }

  /** What the receipt of a copy of p does to the rest. */
  lemma ReceiptEffect(f: Origin, s: Network, i: nat, list: seq<nat>, log0: seq<Delivery>)
    requires i < |s.inFlight| && AllOf(KeyOf(f.p), s.inFlight) && OthersAsBefore(KeyOf(f.p), log0, s.delivered)
    ensures var s' := Step(s, Receive(i, list));
      && AllOf(KeyOf(f.p), s'.inFlight) && s'.originated == s.originated
      && OthersAsBefore(KeyOf(f.p), log0, s'.delivered)
  {
    hide KeyOf, Got, OthersAsBefore;
    var c := s.inFlight[i];
    var s' := Step(s, Receive(i, list));
    ForwardedKey(c.packet);
    WithoutKeeps(s.inFlight, i);
    var more := CopiesTo(list, c.to, Forwarded(c.packet), c.hops + 1);
    forall x | x in s'.inFlight
      ensures KeyOf(x.packet) == KeyOf(f.p)
    {
      assert x in s.inFlight || x in more;
      if x !in s.inFlight {
        var k :| 0 <= k < |more| && more[k] == x;
      }
    }
    if s'.delivered != s.delivered {
      LogChange(KeyOf(f.p), log0, s.delivered, Delivery(c.to, c.packet, c.hops, |At(s.histories, c.to)|));
    }
  }

  lemma RememberedNow(f: Origin, h: History)
    requires IsRun(h) && |LastState(h).originated| <= DEDUP_MAX_ENTRIES
    ensures Remembered(f, LastState(h))
  {
    FewAreRecent(f, h, |h.states| - 1);
    RecentIsRemembered(f, h, |h.states| - 1);
    hide IsRun, Remembered, Recent;
  }

  lemma Received(f: Origin, h0: History, h: History, a: Depths, b: set<nat>, i: nat, list: seq<nat>, b': set<nat>)
      returns (h': History)
    requires Growing(f, h0, h, a, b) && i < |LastState(h).inFlight| && b' <= a.Keys
    requires Kept(f, LastState(h), Receive(i, list))
    requires Flooding(f, Step(LastState(h), Receive(i, list)), Only(a, b'))
    ensures Growing(f, h0, h', a, b') && LastState(h') == Step(LastState(h), Receive(i, list))
  {
    hide KeyOf, Kept, Flooding, Step, OthersAsBefore, IsRelayList, Only;
    var s := LastState(h);
    h' := Goes(h, Receive(i, list));
    assert h'.states[..|h.states|] == h.states && h'.inputs[..|h.inputs|] == h.inputs;
    assert Extends(h0, h');
    ReceiptEffect(f, s, i, list, LastState(h0).delivered);
    forall j: nat | |h0.inputs| < j < |h'.inputs|
      ensures TakesCopy(f, h', j)
    {
      if j < |h.inputs| {
        assert TakesCopy(f, h, j);
        assert h'.states[j] == h.states[j] && h'.inputs[j] == h.inputs[j];
      } else {
        assert s.inFlight[i] in s.inFlight;
      }
    }
  }

  /** The copy from q for u, whom q has not reached yet. */
  lemma CopyInFlight(f: Origin, s: Network, a: Depths, q: nat, u: nat) returns (i: nat)
    requires Flooding(f, s, a) && q in a && q in f.g && a[q] < f.p.ttl && u in f.g[q] && u !in a
    ensures i < |s.inFlight| && KeyOf(s.inFlight[i].packet) == KeyOf(f.p)
    ensures s.inFlight[i].to == u && s.inFlight[i].from == q && s.inFlight[i].hops == a[q] + 1
  {
    hide KeyOf, Layered, HandedRight;
    assert CopyFor(f, s.inFlight, q, u);
    var c :| c in s.inFlight && KeyOf(c.packet) == KeyOf(f.p) && c.from == q && c.to == u;
    assert OnItsWay(f, c, a);
    i :| 0 <= i < |s.inFlight| && s.inFlight[i] == c;
  }

  lemma RelayListFor(g: Graph, u: nat, q: nat) returns (list: seq<nat>)
    requires u in g
    ensures IsRelayList(list, g[u], u, Some(q))
  {
    list := ListingExists(g[u] - Excluded(u, Some(q)));
  }

  lemma Parent(g: Graph, o: nat, t: int, a: Depths, u: nat) returns (q: nat)
    requires Layered(g, o, t, a) && u in a && u != o
    ensures q in a && q in g && u in g[q] && a[q] + 1 == a[u] <= t
  {
    assert HasParent(g, a, u);
    q :| q in a && q in g && u in g[q] && a[q] + 1 == a[u];
  }

  lemma GrowingInside(f: Origin, h0: History, h: History, a: Depths, b: set<nat>)
    requires Growing(f, h0, h, a, b)
    ensures b <= a.Keys && IsRun(h) && h.states != [] && Flooding(f, LastState(h), Only(a, b))
  {
  }

  /** The node u gets p from its parent in the tree. */
  lemma GrowOne(f: Origin, h0: History, h: History, a: Depths, b: set<nat>, u: nat) returns (h': History)
    requires OriginOK(f) && Growing(f, h0, h, a, b) && Layered(f.g, f.o, f.p.ttl, a) && u in a && u !in b && f.o in b
    requires forall x :: x in a && a[x] < a[u] ==> x in b
    requires |LastState(h).originated| <= DEDUP_MAX_ENTRIES
    ensures Growing(f, h0, h', a, b + {u}) && LastState(h').originated == LastState(h).originated
  {
    hide Growing, KeyOf, Flooding, Step, IsRelayList, Remembered, IsRun, Layered;
    GrowingInside(f, h0, h, a, b);
    var q := Parent(f.g, f.o, f.p.ttl, a, u);
    var i := CopyInFlight(f, LastState(h), Only(a, b), q, u);
    InGraph(f, a, u);
    var list := RelayListFor(f.g, u, q);
    RememberedNow(f, h);
    SeenFirst(f, LastState(h), Only(a, b), i, list);
    assert Only(a, b)[u := a[u]] == Only(a, b + {u});
    h' := Received(f, h0, h, a, b, i, list, b + {u});
    OriginatedKept(LastState(h), i, list);
  }

  lemma InGraph(f: Origin, a: Depths, u: nat)
    requires Layered(f.g, f.o, f.p.ttl, a) && u in a
    ensures u in f.g
  {
  }

  lemma OriginatedKept(s: Network, i: nat, list: seq<nat>)
    ensures Step(s, Receive(i, list)).originated == s.originated
  {
    hide KeyOf;
  }

  /** A node of least depth outside b. */
  lemma {:induction false} Nearest(a: Depths, rest: set<nat>) returns (u: nat)
    requires rest <= a.Keys && rest != {}
    ensures u in rest && forall x :: x in rest ==> a[u] <= a[x]
    decreases |rest|
  {
    u :| u in rest;
    if rest != {u} {
      var w := Nearest(a, rest - {u});
      if a[w] < a[u] { u := w; }
    }
  }

  lemma {:induction false} GrowAll(f: Origin, h0: History, h: History, a: Depths, b: set<nat>) returns (h': History)
    requires OriginOK(f) && Growing(f, h0, h, a, b) && Layered(f.g, f.o, f.p.ttl, a) && f.o in b
    requires |LastState(h).originated| <= DEDUP_MAX_ENTRIES
    ensures Growing(f, h0, h', a, a.Keys) && LastState(h').originated == LastState(h).originated
    decreases |a.Keys - b|
  {
    hide Growing, OriginOK, Layered, Flooding, IsRun;
    GrowingInside(f, h0, h, a, b);
    h' := h;
    if a.Keys - b == {} {
      assert a.Keys <= (a.Keys - b) + b;
      assert b == a.Keys;
    } else {
      var u := Nearest(a, a.Keys - b);
      h' := GrowOne(f, h0, h, a, b, u);
      assert a.Keys - (b + {u}) == (a.Keys - b) - {u};
      h' := GrowAll(f, h0, h', a, b + {u});
    }
  }

  /** When all nodes of a stalled tree have got p, the copies still under way find it known. */
  lemma {:induction false} Drain(f: Origin, h0: History, h: History, a: Depths) returns (h': History)
    requires OriginOK(f) && Growing(f, h0, h, a, a.Keys) && Stalled(f.g, f.o, f.p.ttl, a)
    requires |LastState(h).originated| <= DEDUP_MAX_ENTRIES
    ensures Growing(f, h0, h', a, a.Keys) && LastState(h').inFlight == []
    ensures LastState(h').originated == LastState(h).originated
    decreases |LastState(h).inFlight|
  {
    h' := h;
    assert Only(a, a.Keys) == a;
    if LastState(h).inFlight != [] {
      hide KeyOf, Step, IsRelayList, Remembered, OthersAsBefore, TakesCopy, HandedRight, IsRun;
      var s, c := LastState(h), LastState(h).inFlight[0];
      assert c in s.inFlight && OnItsWay(f, c, a);
      var list := RelayListFor(f.g, c.to, c.from);
      RememberedNow(f, h);
      hide Flooding, OnItsWay;
      SeenAgain(f, s, a, 0, list);
      h' := Received(f, h0, h, a, a.Keys, 0, list, a.Keys);
      h' := Drain(f, h0, h', a);
    }
  }

  // A flood at the end of a run --------------------------------------------------------------------------------

  /** Nobody has ever heard of a packet that has not been originated. */
  lemma UnoriginatedIsUnheard(f: Origin, h: History, k: nat)
    requires IsRun(h) && k < |h.states| && KeyOf(f.p) !in KeysOfAll(h.states[k].originated)
    ensures Unheard(f, h.states[k])
  {
    RunInv(h, k);
    var s := h.states[k];
    hide KeyOf, IsRun;
    forall c | c in s.inFlight
      ensures KeyOf(c.packet) != KeyOf(f.p)
    {
      OriginKey(c.packet, c.hops);
    }
    forall d | d in s.delivered
      ensures KeyOf(d.packet) != KeyOf(f.p)
    {
      assert DeliveryOK(s, d);
      OriginKey(d.packet, d.hops);
    }
    forall v: nat
      ensures Got(KeyOf(f.p), s.delivered, v) == []
    {
      GotNothing(KeyOf(f.p), s.delivered, v);
    }
    forall v: nat
      ensures KnownAt(s, v)
    {
      RunKnown(h, k, v);
    }
    forall v | v in f.g
      ensures KeyOf(f.p) !in At(s.histories, v)
    {
      assert KnownAt(s, v);
    }
  }

  lemma {:induction false} OriginatedGrows(h: History, j: nat, k: nat)
    requires IsRun(h) && j <= k < |h.states|
    ensures h.states[j].originated <= h.states[k].originated
    decreases k - j
  {
    hide IsRun, Step;
    if j < k {
      OriginatedGrows(h, j, k - 1);
      RunMoves(h, k - 1);
      StepHistory(h.states[k - 1], h.inputs[k - 1], 0);
    }
  }

  /** So no step of the run so far touches it. */
  lemma UnheardIsKept(f: Origin, h: History, j: nat)
    requires IsRun(h) && j < |h.inputs| && KeyOf(f.p) !in KeysOfAll(LastState(h).originated)
    ensures KeptAt(f, h, j)
  {
    var k := |h.states| - 1;
    OriginatedGrows(h, j, k);
    OriginatedGrows(h, j + 1, k);
    RunMoves(h, j);
    StepOriginated(h.states[j], h.inputs[j]);
    assert KeyOf(f.p) !in KeysOfAll(h.states[j].originated);
    UnoriginatedIsUnheard(f, h, j);
    hide KeyOf, IsRun, Step, IsRelayList;
  }

  lemma FloodBegins(f: Origin, h0: History, a: Depths) returns (h: History)
    requires OriginOK(f) && IsRun(h0) && KeyOf(f.p) !in KeysOfAll(LastState(h0).originated)
    requires LastState(h0).inFlight == [] && |LastState(h0).originated| < DEDUP_MAX_ENTRIES
    requires Layered(f.g, f.o, f.p.ttl, a)
    ensures Growing(f, h0, h, a, {f.o})
  {
    hide KeyOf, Step, IsRelayList, Remembered, Flooding, Unheard;
    var list := ListingExists(f.g[f.o] - Excluded(f.o, None));
    assert IsRelayList(list, f.g[f.o], f.o, None) by { RelayListIs(f.g[f.o], f.o, list); }
    RememberedNow(f, h0);
    UnoriginatedIsUnheard(f, h0, |h0.states| - 1);
    var s := LastState(h0);
    FloodingStarts(f, s, list);
    h := Goes(h0, Originate(f.o, f.p, list));
    assert Only(a, {f.o}) == map[f.o := 0];
    StepOriginated(s, Originate(f.o, f.p, list));
    assert h.states[..|h0.states|] == h0.states && h.inputs[..|h0.inputs|] == h0.inputs;
    FirstAllOf(f, list);
    StartDelivers(f, s, list);
  }

  lemma RelayListIs(peers: set<nat>, o: nat, list: seq<nat>)
    requires StrictlySorted(list) && forall x :: x in list <==> x in peers - Excluded(o, None)
    ensures IsRelayList(list, peers, o, None)
  {
  }

  lemma FirstAllOf(f: Origin, list: seq<nat>)
    ensures AllOf(KeyOf(f.p), [] + if f.p.ttl > 0 then CopiesTo(list, f.o, Forwarded(f.p), 1) else [])
  {
    hide KeyOf;
    ForwardedKey(f.p);
  }

  lemma StartDelivers(f: Origin, s: Network, list: seq<nat>)
    ensures Step(s, Originate(f.o, f.p, list)).delivered == s.delivered
  {
    hide KeyOf;
  }

  /**
   * A run whose packets have all come to rest can be continued with a flood of p that stalls in the
   * given tree, and leaves everything else as it was.
   */
  lemma FloodFollows(f: Origin, h0: History, a: Depths) returns (h: History)
    requires OriginOK(f) && IsRun(h0) && KeyOf(f.p) !in KeysOfAll(LastState(h0).originated)
    requires LastState(h0).inFlight == [] && |LastState(h0).originated| < DEDUP_MAX_ENTRIES
    requires Stalled(f.g, f.o, f.p.ttl, a)
    ensures Growing(f, h0, h, a, a.Keys) && LastState(h).inFlight == []
    ensures IsOver(f, h, |h0.inputs|, |h.states| - 1) && GotBy(f, LastState(h), a.Keys)
  {
    hide Growing, KeyOf, Step, Flooding, HandedRight, IsRun, Recent;
    h := FloodBegins(f, h0, a);
    BeginsSmall(f, h0, h, a, {f.o});
    h := GrowAll(f, h0, h, a, {f.o});
    h := Drain(f, h0, h, a);
    BeginsSmall(f, h0, h, a, a.Keys);
    GrownIsFlooded(f, h0, h, a);
    GrowingInside(f, h0, h, a, a.Keys);
    assert Only(a, a.Keys) == a;
    FewAreRecent(f, h, |h.states| - 1);
    assert GotBy(f, LastState(h), a.Keys) by { FloodingHands(f, LastState(h), a); }
  }

  lemma FloodingHands(f: Origin, s: Network, a: Depths)
    requires Flooding(f, s, a)
    ensures GotBy(f, s, a.Keys)
  {
  }

  lemma BeginsSmall(f: Origin, h0: History, h: History, a: Depths, b: set<nat>)
    requires Growing(f, h0, h, a, b) && |LastState(h0).originated| < DEDUP_MAX_ENTRIES
    ensures |LastState(h).originated| <= DEDUP_MAX_ENTRIES
  {
  }

  lemma GrownIsFlooded(f: Origin, h0: History, h: History, a: Depths)
    requires OriginOK(f) && Growing(f, h0, h, a, a.Keys) && KeyOf(f.p) !in KeysOfAll(LastState(h0).originated)
    ensures IsFlooded(f, h, |h0.inputs|) && |h0.inputs| < |h.states| - 1
  {
    hide KeyOf, Step, Flooding, IsRelayList, OthersAsBefore, Kept;
    forall j: nat | j < |h.inputs| && j != |h0.inputs|
      ensures KeptAt(f, h, j)
    {
      if j < |h0.inputs| {
        UnheardIsKept(f, h0, j);
        assert h.states[j] == h0.states[j] && h.inputs[j] == h0.inputs[j];
      } else {
        assert TakesCopy(f, h, j);
      }
    }
  }

  // Other floods ------------------------------------------------------------------------------------------------

  lemma ExtendedAt(h0: History, h: History, k: nat)
    requires Extends(h0, h)
    ensures k < |h0.states| ==> k < |h.states| && h.states[k] == h0.states[k]
    ensures k < |h0.inputs| ==> k < |h.inputs| && h.inputs[k] == h0.inputs[k]
  {
  }

  /** A flood that was over stays over, and what it has come to stays. */
  lemma StaysOver(f: Origin, h0: History, h: History, a: Depths, b: set<nat>, f': Origin, t: nat)
    requires Growing(f, h0, h, a, b) && IsOver(f', h0, t, |h0.states| - 1) && KeyOf(f'.p) != KeyOf(f.p)
    requires LastState(h).inFlight == [] && |LastState(h).originated| <= DEDUP_MAX_ENTRIES
    ensures IsOver(f', h, t, |h.states| - 1)
    ensures forall nodes :: GotBy(f', LastState(h0), nodes) ==> GotBy(f', LastState(h), nodes)
  {
    hide KeyOf, Step, Flooding, IsRelayList, HandedRight, Recent, Got, GraphOK;
    FewAreRecent(f', h, |h.states| - 1);
    ExtendedAt(h0, h, t);
    forall j: nat | j < |h.inputs| && j != t
      ensures KeptAt(f', h, j)
    {
      if j < |h0.inputs| {
        assert KeptAt(f', h0, j);
        ExtendedAt(h0, h, j);
      } else if j > |h0.inputs| {
        assert TakesCopy(f, h, j);
      }
    }
    forall nodes, v: nat | HandedRight(f', LastState(h0).delivered, nodes, v)
      ensures HandedRight(f', LastState(h).delivered, nodes, v)
    {
      assert Got(KeyOf(f'.p), LastState(h).delivered, v) == Got(KeyOf(f'.p), LastState(h0).delivered, v);
      SameHanded(f', LastState(h0).delivered, LastState(h).delivered, nodes, v);
    }
  }

  lemma SameHanded(f: Origin, log0: seq<Delivery>, log: seq<Delivery>, nodes: set<nat>, v: nat)
    requires Got(KeyOf(f.p), log, v) == Got(KeyOf(f.p), log0, v) && HandedRight(f, log0, nodes, v)
    ensures HandedRight(f, log, nodes, v)
  {
  }
}
