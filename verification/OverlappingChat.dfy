/** A chat message whose packets are flooded all at once: exactly the nodes sure of every packet always recover it. */
module OverlappingChat {
  import opened Bytes
  import opened Collections
  import opened AnyOrderFlood
  import opened FloodGrowth
  import opened FloodOutcomes
  import opened MeshService
  import BitChatPacket
  import Engine = RelayEngine
  import Net = MeshNetwork
  import Flood = FloodCoverage
  import Service = ChatMessageService
  import Stack = ChatStack
  import Store = ChatMessageStore
  import V6A = BinaryMessageCodec

  /** The flood of the i-th origination. */
  function FloodOf(c: Sending, i: nat): Origin
    requires i < |c.plan| && BitChatPacket.IsPrefixedHex(c.plan[i].packetId)
  {
    Origin(c.g, c.o, MeshPacket(c, c.plan[i]))
  }

  function PlanKey(c: Sending, i: nat): string
    requires i < |c.plan|
  {
    if BitChatPacket.IsPrefixedHex(c.plan[i].packetId) then Engine.KeyOf(MeshPacket(c, c.plan[i])) else ""
  }

  /** Step ts[i] of the run originates packet i, none of its copies is lost, and at point k its flood is over. */
  ghost predicate FloodedBy(c: Sending, h: Net.History, ts: seq<nat>, k: nat, i: nat) {
    && i < |c.plan| == |ts| && BitChatPacket.IsPrefixedHex(c.plan[i].packetId)
    && IsOver(FloodOf(c, i), h, ts[i], k)
  }

  /** All packets of the message have been flooded so. */
  ghost predicate AllFlooded(c: Sending, h: Net.History, ts: seq<nat>, k: nat) {
    IsSending(c) && k < |h.states| && forall i: nat :: i < |c.plan| ==> FloodedBy(c, h, ts, k, i)
  }

  /** An addressed node that is sure to get every packet. */
  ghost predicate Certain(c: Sending, v: nat) {
    v != c.o && (c.destination == v || c.destination == Engine.NODE_ID_BROADCAST) && Sure(c.g, c.o, c.ttl, v)
  }

  ghost function PlanKeys(c: Sending): set<string> {
    set i | 0 <= i < |c.plan| :: PlanKey(c, i)
  }

  /** The packets with one of the keys that were handed to v, in order. */
  ghost function Chosen(keys: set<string>, log: seq<Net.Delivery>, v: nat): seq<Engine.Packet> {
    if log == [] then []
    else
      var d := log[|log| - 1];
      Chosen(keys, log[..|log| - 1], v) + if d.node == v && Engine.KeyOf(d.packet) in keys then [d.packet] else []
  }

  function WithKey(key: string, ps: seq<Engine.Packet>): seq<Engine.Packet> {
    if ps == [] then []
    else WithKey(key, ps[..|ps| - 1]) + if Engine.KeyOf(ps[|ps| - 1]) == key then [ps[|ps| - 1]] else []
  }

  lemma WithKeyPush(key: string, ps: seq<Engine.Packet>, p: Engine.Packet)
    ensures WithKey(key, ps + [p]) == WithKey(key, ps) + if Engine.KeyOf(p) == key then [p] else []
  {
    assert (ps + [p])[..|ps|] == ps;
  }

  lemma {:induction false} ChosenWithKey(keys: set<string>, key: string, log: seq<Net.Delivery>, v: nat)
    requires key in keys
    ensures WithKey(key, Chosen(keys, log, v)) == Got(key, log, v)
  {
    hide Engine.KeyOf;
    if log != [] {
      var init, d := log[..|log| - 1], log[|log| - 1];
      ChosenWithKey(keys, key, init, v);
      WithKeyPush(key, Chosen(keys, init, v), d.packet);
      assert Chosen(keys, init, v) + [] == Chosen(keys, init, v);
    }
    hide WithKey;
  }

  lemma {:induction false} ChosenKeys(keys: set<string>, log: seq<Net.Delivery>, v: nat)
    ensures forall p :: p in Chosen(keys, log, v) ==> Engine.KeyOf(p) in keys
  {
    hide Engine.KeyOf;
    if log != [] { ChosenKeys(keys, log[..|log| - 1], v); }
  }

  lemma {:induction false} WithKeyMember(key: string, ps: seq<Engine.Packet>, p: Engine.Packet)
    ensures p in WithKey(key, ps) <==> p in ps && Engine.KeyOf(p) == key
  {
    hide Engine.KeyOf;
    if ps != [] {
      var init, last := ps[..|ps| - 1], ps[|ps| - 1];
      assert ps == init + [last];
      WithKeyMember(key, init, p);
    }
  }

  /** Two packets with one key count twice. */
  lemma {:induction false} WithKeyTwice(key: string, ps: seq<Engine.Packet>, i: nat, j: nat)
    requires i < j < |ps| && Engine.KeyOf(ps[i]) == key && Engine.KeyOf(ps[j]) == key
    ensures |WithKey(key, ps)| >= 2
    decreases |ps|
  {
    hide Engine.KeyOf;
    var init := ps[..|ps| - 1];
    if j < |init| {
      WithKeyTwice(key, init, i, j);
    } else {
      WithKeyMember(key, init, ps[i]);
      assert init[i] == ps[i];
    }
  }

  /** Whatever was handed to v of the message, in any order. */
  ghost function Handed(c: Sending, s: Net.Network, v: nat): seq<Engine.Packet> {
    Chosen(PlanKeys(c), s.delivered, v)
  }

  /** Of each packet a node is handed at most one copy, the certain ones are handed one, and those out of reach none. */
  lemma HandedOf(c: Sending, h: Net.History, ts: seq<nat>, k: nat, v: nat, i: nat)
    requires AllFlooded(c, h, ts, k) && i < |c.plan|
    ensures var ps := WithKey(PlanKey(c, i), Handed(c, h.states[k], v));
      && |ps| <= 1 && (ps != [] ==> ps[0].source == c.o && ps[0].payload == c.plan[i].payload)
      && (Certain(c, v) ==> |ps| == 1) && (!InReach(c, v) ==> ps == [])
  {
    assert FloodedBy(c, h, ts, k, i);
    var f := FloodOf(c, i);
    hide IsOver, Engine.KeyOf, WithKey, IsSending, Flood.Reach, Stalled;
    OverLength(f, h, ts[i], k);
    var a := OutcomeIsStalled(f, h, ts[i], k);
    StalledInReach(c.g, c.o, c.ttl, a);
    assert HandedRight(f, h.states[k].delivered, a.Keys, v);
    assert PlanKey(c, i) in PlanKeys(c);
    ChosenWithKey(PlanKeys(c), PlanKey(c, i), h.states[k].delivered, v);
    hide Chosen;
  }

  /** The index of a packet of the message. */
  ghost function IndexOf(c: Sending, p: Engine.Packet): nat {
    if i: nat :| i < |c.plan| && PlanKey(c, i) == Engine.KeyOf(p) then i else 0
  }

  ghost function IndicesOfAll(c: Sending, ps: seq<Engine.Packet>): (js: seq<nat>)
    ensures |js| == |ps| && forall j :: 0 <= j < |ps| ==> js[j] == IndexOf(c, ps[j])
  {
    seq(|ps|, j requires 0 <= j < |ps| => IndexOf(c, ps[j]))
  }

  lemma IndexMeaning(c: Sending, p: Engine.Packet)
    requires Engine.KeyOf(p) in PlanKeys(c)
    ensures IndexOf(c, p) < |c.plan| && PlanKey(c, IndexOf(c, p)) == Engine.KeyOf(p)
  {
    hide Engine.KeyOf, PlanKey;
    var i :| 0 <= i < |c.plan| && PlanKey(c, i) == Engine.KeyOf(p);
  }

  lemma PlanKeysUnique(c: Sending, i: nat, j: nat)
    requires IsSending(c) && i < |c.plan| && j < |c.plan| && PlanKey(c, i) == PlanKey(c, j)
    ensures i == j
  {
    assert Originates(c, i);
    hide Originates, Engine.KeyOf, BitChatPacket.IdValue;
    if i != j { PlanKeysDiffer(c, i, j); }
  }

  lemma SendingOf(c: Sending, h: Net.History, ts: seq<nat>, k: nat)
    requires AllFlooded(c, h, ts, k)
    ensures IsSending(c)
  {
  }

  /** The packets that a node was handed carry different payloads of the message. */
  lemma HandedDiffer(c: Sending, h: Net.History, ts: seq<nat>, k: nat, v: nat)
    requires AllFlooded(c, h, ts, k)
    ensures var ps := Handed(c, h.states[k], v); Carry(c, IndicesOfAll(c, ps), ps)
  {
    hide AllFlooded, InReach, Certain, Engine.KeyOf, WithKey, PlanKey;
    KInRange(c, h, ts, k);
    var ps := Handed(c, h.states[k], v);
    ChosenKeys(PlanKeys(c), h.states[k].delivered, v);
    var js := IndicesOfAll(c, ps);
    forall j | 0 <= j < |ps|
      ensures js[j] < |c.plan| && PlanKey(c, js[j]) == Engine.KeyOf(ps[j])
      ensures ps[j].source == c.o && ps[j].payload == c.plan[js[j]].payload
    {
      assert ps[j] in ps;
      IndexMeaning(c, ps[j]);
      HandedOf(c, h, ts, k, v, js[j]);
      WithKeyMember(PlanKey(c, js[j]), ps, ps[j]);
    }
    forall i, j | 0 <= i < j < |js|
      ensures js[i] != js[j]
    {
      if js[i] == js[j] {
        HandedOf(c, h, ts, k, v, js[i]);
        WithKeyTwice(PlanKey(c, js[i]), ps, i, j);
      }
    }
    hide Handed, IndexOf, PlanKeys;
  }

  lemma KInRange(c: Sending, h: Net.History, ts: seq<nat>, k: nat)
    requires AllFlooded(c, h, ts, k)
    ensures k < |h.states|
  {
  }

  /** At a certain node they are all of them. */
  lemma HandedAll(c: Sending, h: Net.History, ts: seq<nat>, k: nat, v: nat)
    requires AllFlooded(c, h, ts, k) && Certain(c, v)
    ensures |Handed(c, h.states[k], v)| == |c.plan|
  {
    KInRange(c, h, ts, k);
    SendingOf(c, h, ts, k);
    HandedDiffer(c, h, ts, k, v);
    var ps := Handed(c, h.states[k], v);
    ChosenKeys(PlanKeys(c), h.states[k].delivered, v);
    hide AllFlooded, InReach, Certain, Engine.KeyOf, WithKey, PlanKey, Handed, IsSending;
    var js := IndicesOfAll(c, ps);
    forall i: nat | i < |c.plan|
      ensures i in Elements(js)
    {
      HandedOf(c, h, ts, k, v, i);
      var p := WithKey(PlanKey(c, i), ps)[0];
      WithKeyMember(PlanKey(c, i), ps, p);
      var j :| 0 <= j < |ps| && ps[j] == p;
      assert PlanKey(c, i) in PlanKeys(c);
      IndexMeaning(c, p);
      PlanKeysUnique(c, i, IndexOf(c, p));
      assert js[j] == i;
    }
    hide IndexOf, PlanKeys;
    AllHeard(c, js, |js|);
    assert js[..|js|] == js;
    assert Elements(js) == Below(|c.plan|);
  }

  lemma HandedNothing(c: Sending, h: Net.History, ts: seq<nat>, k: nat, v: nat)
    requires AllFlooded(c, h, ts, k) && !InReach(c, v)
    ensures Handed(c, h.states[k], v) == []
  {
    KInRange(c, h, ts, k);
    hide AllFlooded, InReach, Certain, Engine.KeyOf, WithKey, PlanKey;
    var ps := Handed(c, h.states[k], v);
    ChosenKeys(PlanKeys(c), h.states[k].delivered, v);
    if ps != [] {
      assert ps[0] in ps;
      IndexMeaning(c, ps[0]);
      HandedOf(c, h, ts, k, v, IndexOf(c, ps[0]));
      WithKeyMember(PlanKey(c, IndexOf(c, ps[0])), ps, ps[0]);
    }
  }

  /**
   * The packets of a message may be under way together, and reach a node in any order: once their
   * floods are over, the chat service of every certain node has recovered the message exactly once,
   * with its text and hashed id; no other service has recovered it twice or something else; and those
   * out of reach have been handed nothing of it.
   */
  lemma ChatReachesEveryoneAnyhow(c: Sending, h: Net.History, ts: seq<nat>, k: nat, now: nat -> int, v: nat)
    requires AllFlooded(c, h, ts, k)
    ensures var ps := Handed(c, h.states[k], v);
      && (Certain(c, v) ==> Serving(ps, now).recovered == [V6A.AsReceived(c.message)])
      && (Serving(ps, now).recovered == [] || Serving(ps, now).recovered == [V6A.AsReceived(c.message)])
      && (!InReach(c, v) ==> ps == [])
  {
    KInRange(c, h, ts, k);
    SendingOf(c, h, ts, k);
    hide AllFlooded, IsSending, InReach, Certain, Handed, V6A.AsReceived;
    HandedDiffer(c, h, ts, k, v);
    var ps := Handed(c, h.states[k], v);
    ServingRecovers(c, IndicesOfAll(c, ps), ps, now);
    if Certain(c, v) { HandedAll(c, h, ts, k, v); }
    if !InReach(c, v) { HandedNothing(c, h, ts, k, v); }
  }

  /** And its store shows the message exactly once. */
  lemma ShownOnceAnyhow(c: Sending, h: Net.History, ts: seq<nat>, k: nat, now: nat -> int, v: nat,
        store: seq<Store.ChatMessage>)
    requires AllFlooded(c, h, ts, k) && Certain(c, v) && Store.IncomingOnce(store)
    ensures var shown := Shown(c.o, c.destination, Serving(Handed(c, h.states[k], v), now).recovered);
      && shown == [Delivered(c)] && Store.Occurrences(Stack.StoreAfter(store, shown), Delivered(c)) == 1
  {
    KInRange(c, h, ts, k);
    hide AllFlooded, Certain, Handed, Serving, Store.IncomingOnce, Store.Occurrences, Stack.StoreAfter, Shown,
         V6A.AsReceived;
    ChatReachesEveryoneAnyhow(c, h, ts, k, now, v);
    RecoveredIsShown(c, store);
  }

  // Such runs exist ---------------------------------------------------------------------------------------------

  ghost function FirstPackets(c: Sending, n: nat): set<Engine.Packet>
    requires n <= |c.plan|
  {
    set i | 0 <= i < n && BitChatPacket.IsPrefixedHex(c.plan[i].packetId) :: MeshPacket(c, c.plan[i])
  }

  /** In run h the first n packets have been flooded one by one, each to exactly the nodes of the tree. */
  ghost predicate FloodedUpTo(c: Sending, h: Net.History, ts: seq<nat>, a: Depths, n: nat) {
    && n <= |c.plan| && |ts| == n && Net.IsRun(h)
    && LastState(h).inFlight == [] && LastState(h).originated == FirstPackets(c, n)
    && forall i: nat :: i < n ==> FloodedTo(c, h, ts, a, i)
  }

  ghost predicate FloodedTo(c: Sending, h: Net.History, ts: seq<nat>, a: Depths, i: nat) {
    && i < |ts| <= |c.plan| && h.states != [] && BitChatPacket.IsPrefixedHex(c.plan[i].packetId)
    && IsOver(FloodOf(c, i), h, ts[i], |h.states| - 1) && GotBy(FloodOf(c, i), LastState(h), a.Keys)
  }

  ghost predicate Floodable(c: Sending) {
    IsSending(c) && Flood.GraphOK(c.g) && c.o in c.g
  }

  lemma {:induction false} FirstPacketsSize(c: Sending, n: nat)
    requires n <= |c.plan|
    ensures |FirstPackets(c, n)| <= n
  {
    if n > 0 {
      FirstPacketsSize(c, n - 1);
      assert FirstPackets(c, n) <= FirstPackets(c, n - 1)
        + if BitChatPacket.IsPrefixedHex(c.plan[n - 1].packetId) then {MeshPacket(c, c.plan[n - 1])} else {};
      SubsetSize(FirstPackets(c, n), FirstPackets(c, n - 1)
        + if BitChatPacket.IsPrefixedHex(c.plan[n - 1].packetId) then {MeshPacket(c, c.plan[n - 1])} else {});
    }
    hide BitChatPacket.IsPrefixedHex;
  }

  lemma PlanSize(c: Sending)
    requires IsSending(c)
    ensures |c.plan| < Engine.Dedup.DEDUP_MAX_ENTRIES
    ensures forall i: nat :: i < |c.plan| ==> BitChatPacket.IsPrefixedHex(c.plan[i].packetId)
  {
    assert Originates(c, 0);
    hide V6A.PacketOf, V6A.HashMessageId, V6A.ValidateMessage, BitChatPacket.IdValue;
    Service.SendPlanFits(c.packet, V6A.HashMessageId(c.message.messageId), c.groupId, c.plan);
    forall i: nat | i < |c.plan|
      ensures BitChatPacket.IsPrefixedHex(c.plan[i].packetId)
    {
      BitChatPacket.ReadThenFormat(c.plan[i].packetId);
    }
  }

  lemma NotYet(c: Sending, n: nat)
    requires IsSending(c) && n < |c.plan| && BitChatPacket.IsPrefixedHex(c.plan[n].packetId)
    ensures Engine.KeyOf(MeshPacket(c, c.plan[n])) !in KeysOfAll(FirstPackets(c, n))
  {
    hide Originates, Engine.KeyOf, BitChatPacket.IdValue, BitChatPacket.IsPrefixedHex;
    assert Originates(c, n);
    forall i: nat | i < n
      ensures BitChatPacket.IsPrefixedHex(c.plan[i].packetId)
      ensures Engine.KeyOf(MeshPacket(c, c.plan[i])) != Engine.KeyOf(MeshPacket(c, c.plan[n]))
    {
      PlanKeysDiffer(c, n, i);
    }
  }

  lemma NextPacket(c: Sending, n: nat)
    requires n < |c.plan| && BitChatPacket.IsPrefixedHex(c.plan[n].packetId)
    ensures FirstPackets(c, n + 1) == FirstPackets(c, n) + {MeshPacket(c, c.plan[n])}
  {
    hide BitChatPacket.IsPrefixedHex;
  }

  lemma FloodOneMore(c: Sending, h: Net.History, ts: seq<nat>, a: Depths, n: nat)
      returns (h': Net.History, ts': seq<nat>)
    requires Floodable(c) && Stalled(c.g, c.o, c.ttl, a) && n < |c.plan| && FloodedUpTo(c, h, ts, a, n)
    ensures FloodedUpTo(c, h', ts', a, n + 1)
  {
    hide Engine.KeyOf, Stalled, IsOver, GotBy, IsSending, Net.IsRun, BitChatPacket.IsPrefixedHex,
         BitChatPacket.IdValue, Growing;
    PlanSize(c);
    FirstPacketsSize(c, n);
    NotYet(c, n);
    NextPacket(c, n);
    FirstPacketsSize(c, n + 1);
    var f := FloodOf(c, n);
    h' := FloodFollows(f, h, a);
    ts' := ts + [|h.inputs|];
    GrownOriginates(f, h, h', a);
    forall i: nat | i < n + 1
      ensures FloodedTo(c, h', ts', a, i)
    {
      if i < n {
        assert FloodedTo(c, h, ts, a, i);
        PlanKeysApart(c, i, n);
        StaysOver(f, h, h', a, a.Keys, FloodOf(c, i), ts[i]);
      }
    }
  }

  lemma PlanKeysApart(c: Sending, i: nat, j: nat)
    requires IsSending(c) && i < |c.plan| && j < |c.plan| && i != j
    ensures BitChatPacket.IsPrefixedHex(c.plan[i].packetId) && BitChatPacket.IsPrefixedHex(c.plan[j].packetId)
    ensures Engine.KeyOf(MeshPacket(c, c.plan[i])) != Engine.KeyOf(MeshPacket(c, c.plan[j]))
  {
    assert Originates(c, i);
    hide Originates, Engine.KeyOf, BitChatPacket.IdValue;
    PlanKeysDiffer(c, i, j);
  }

  lemma GrownOriginates(f: Origin, h0: Net.History, h: Net.History, a: Depths)
    requires Growing(f, h0, h, a, a.Keys)
    ensures Net.IsRun(h) && h.states != [] && h0.states != []
    ensures LastState(h).originated == LastState(h0).originated + {f.p}
  {
  }

  lemma {:induction false} FloodFirst(c: Sending, a: Depths, n: nat) returns (h: Net.History, ts: seq<nat>)
    requires Floodable(c) && Stalled(c.g, c.o, c.ttl, a) && n <= |c.plan|
    ensures FloodedUpTo(c, h, ts, a, n)
  {
    if n == 0 {
      h, ts := EmptyRun(), [];
      assert FirstPackets(c, 0) == {};
    } else {
      hide FloodedUpTo, Stalled;
      h, ts := FloodFirst(c, a, n - 1);
      h, ts := FloodOneMore(c, h, ts, a, n - 1);
    }
  }

  /** Every message can be flooded so that its packets get to exactly the nodes of a stalled tree. */
  lemma FloodsExist(c: Sending, a: Depths) returns (h: Net.History, ts: seq<nat>, k: nat)
    requires Floodable(c) && Stalled(c.g, c.o, c.ttl, a)
    ensures AllFlooded(c, h, ts, k)
    ensures forall v: nat :: v !in a ==> Handed(c, h.states[k], v) == []
  {
    h, ts := FloodFirst(c, a, |c.plan|);
    k := |h.states| - 1;
    hide IsOver, GotBy, IsSending, Net.IsRun, BitChatPacket.IsPrefixedHex, Stalled, Engine.KeyOf;
    forall i: nat | i < |c.plan|
      ensures FloodedBy(c, h, ts, k, i)
    {
      assert FloodedTo(c, h, ts, a, i);
    }
    forall v: nat | v !in a
      ensures Handed(c, h.states[k], v) == []
    {
      OutsideNothing(c, h, ts, a, v);
    }
  }

  /** In particular such runs exist for every message and network. */
  lemma SomeFloodsExist(c: Sending) returns (h: Net.History, ts: seq<nat>, k: nat)
    requires Floodable(c)
    ensures AllFlooded(c, h, ts, k)
  {
    var a := ShortestWays(c.g, c.o, c.ttl);
    h, ts, k := FloodsExist(c, a);
    hide AllFlooded, Stalled;
  }

  lemma OutsideNothing(c: Sending, h: Net.History, ts: seq<nat>, a: Depths, v: nat)
    requires FloodedUpTo(c, h, ts, a, |c.plan|) && v !in a
    ensures Handed(c, LastState(h), v) == []
  {
    hide Engine.KeyOf, IsOver;
    var ps := Handed(c, LastState(h), v);
    ChosenKeys(PlanKeys(c), LastState(h).delivered, v);
    if ps != [] {
      assert ps[0] in ps;
      IndexMeaning(c, ps[0]);
      var i := IndexOf(c, ps[0]);
      assert FloodedTo(c, h, ts, a, i);
      assert PlanKey(c, i) in PlanKeys(c);
      hide IndexOf, BitChatPacket.IsPrefixedHex;
      assert HandedRight(FloodOf(c, i), LastState(h).delivered, a.Keys, v);
      ChosenWithKey(PlanKeys(c), PlanKey(c, i), LastState(h).delivered, v);
      WithKeyMember(PlanKey(c, i), ps, ps[0]);
    }
  }

  /** The service of v has recovered the message once after every such run. */
  ghost predicate AlwaysRecovers(c: Sending, now: nat -> int, v: nat) {
    forall h: Net.History, ts: seq<nat>, k: nat :: AllFlooded(c, h, ts, k) ==>
      Serving(Handed(c, h.states[k], v), now).recovered == [V6A.AsReceived(c.message)]
  }

  /** Certainty is exactly what it takes: for any other addressed node there is a run in which it recovers nothing. */
  lemma RecoversExactly(c: Sending, now: nat -> int, v: nat)
    requires Floodable(c) && v != c.o && (c.destination == v || c.destination == Engine.NODE_ID_BROADCAST)
    ensures AlwaysRecovers(c, now, v) <==> Certain(c, v)
  {
    hide AllFlooded, Stalled, Handed, V6A.AsReceived, Floodable, InReach;
    if Certain(c, v) {
      forall h: Net.History, ts: seq<nat>, k: nat | AllFlooded(c, h, ts, k)
        ensures k < |h.states| && Serving(Handed(c, h.states[k], v), now).recovered == [V6A.AsReceived(c.message)]
      {
        KInRange(c, h, ts, k);
        ChatReachesEveryoneAnyhow(c, h, ts, k, now, v);
      }
    } else {
      var a: Depths :| Stalled(c.g, c.o, c.ttl, a) && v !in a;
      var h, ts, k := FloodsExist(c, a);
      KInRange(c, h, ts, k);
      assert Serving([], now).recovered == [];
    }
  }
}
