/** A chat message whose packets are flooded one after another: every addressed node in reach recovers it once. */
module MeshChat {
  import opened Bytes
  import opened FloodCoverage
  import opened MeshService
  import opened ChatMessageService
  import Utf8
  import Engine = RelayEngine
  import Net = MeshNetwork
  import Stack = ChatStack
  import Store = ChatMessageStore
  import BitChatPacket
  import V6A = BinaryMessageCodec

  /** A message sent through the mesh: floods[i] is the flood of its i-th origination. */
  datatype Campaign = Campaign(s: Sending, floods: seq<Flood>)

  /** The network at the end of a flood. */
  function LastNet(f: Flood): Net.Network {
    if f.nets == [] then f.before else f.nets[|f.nets| - 1]
  }

  /** The network once the application has taken what was delivered. */
  function Drained(s: Net.Network): Net.Network {
    s.(delivered := [])
  }

  ghost predicate Launches(c: Campaign, i: nat) {
    && i < |c.s.plan| == |c.floods| && BitChatPacket.IsPrefixedHex(c.s.plan[i].packetId)
    && c.floods[i].g == c.s.g && c.floods[i].o == c.s.o && c.floods[i].p == MeshPacket(c.s, c.s.plan[i])
    && Unfolds(c.floods[i])
    && (i > 0 ==> c.floods[i].before == Drained(LastNet(c.floods[i - 1])))
  }

  /** No node has seen packet i before the first flood. */
  ghost predicate UnseenAtFirst(c: Campaign, i: nat) {
    i < |c.s.plan| == |c.floods| && Marked(c.s.g, c.floods[0].before, Engine.KeyOf(c.floods[i].p)) == {}
  }

  ghost predicate IsCampaign(c: Campaign) {
    && IsSending(c.s) && |c.s.plan| == |c.floods|
    && (forall i: nat :: i < |c.s.plan| ==> Launches(c, i))
    && (forall i: nat :: i < |c.s.plan| ==> UnseenAtFirst(c, i))
  }

  lemma KeysDiffer(c: Campaign, i: nat, j: nat)
    requires IsCampaign(c) && i < |c.s.plan| && j < |c.s.plan| && i != j
    ensures Engine.KeyOf(c.floods[i].p) != Engine.KeyOf(c.floods[j].p)
  {
    hide Originates, Unfolds, BitChatPacket.IdValue, Engine.KeyOf;
    assert Originates(c.s, i) && Launches(c, i) && Launches(c, j);
    PlanKeysDiffer(c.s, i, j);
  }

  /** Before flood i nobody has seen packets i, i + 1, ...: each flood finds a network that does not know its packet. */
  lemma {:induction false} CampaignIsFloods(c: Campaign, i: nat, j: nat)
    requires IsCampaign(c) && i <= j < |c.s.plan|
    ensures Marked(c.s.g, c.floods[i].before, Engine.KeyOf(c.floods[j].p)) == {}
    ensures IsFlood(c.floods[i])
    decreases i
  {
    hide Marked, Unfolds, Originates, Engine.KeyOf;
    if i == 0 {
      assert UnseenAtFirst(c, j) && UnseenAtFirst(c, 0) && Launches(c, 0);
    } else {
      CampaignIsFloods(c, i - 1, j);
      CampaignIsFloods(c, i - 1, i);
      StillUnseen(c, i, j);
      StillUnseen(c, i, i);
      assert Launches(c, i);
    }
  }

  lemma StillUnseen(c: Campaign, i: nat, j: nat)
    requires IsCampaign(c) && 0 < i <= j < |c.s.plan| && IsFlood(c.floods[i - 1])
    requires Marked(c.s.g, c.floods[i - 1].before, Engine.KeyOf(c.floods[j].p)) == {}
    ensures Marked(c.s.g, c.floods[i].before, Engine.KeyOf(c.floods[j].p)) == {}
  {
    hide Marked, Unfolds, Originates, Engine.KeyOf;
    var f, key := c.floods[i - 1], Engine.KeyOf(c.floods[j].p);
    assert Launches(c, i) && Launches(c, i - 1);
    KeysDiffer(c, i - 1, j);
    NetsCount(f);
    FloodKeepsUnseen(f, |f.rounds|, key);
    SameSeen(c.s.g, LastNet(f), Drained(LastNet(f)), key);
  }

  lemma NetsCount(f: Flood)
    requires Unfolds(f)
    ensures |f.nets| == |f.rounds| + 1 && LastNet(f) == f.nets[|f.rounds|]
  {
  }

  /** What a log hands to node v, in order. */
  function HandedTo(log: seq<Net.Delivery>, v: nat): seq<Engine.Packet> {
    if log == [] then []
    else HandedTo(log[..|log| - 1], v) + if log[|log| - 1].node == v then [log[|log| - 1].packet] else []
  }

  /** What the first k floods hand to node v, in order. */
  function Handed(c: Campaign, v: nat, k: nat): seq<Engine.Packet>
    requires k <= |c.floods|
  {
    if k == 0 then [] else Handed(c, v, k - 1) + HandedTo(LastNet(c.floods[k - 1]).delivered, v)
  }

  lemma {:induction false} HandedNothing(log: seq<Net.Delivery>, v: nat)
    requires v !in NodesOf(log)
    ensures HandedTo(log, v) == []
  {
    if log != [] {
      var init, last := log[..|log| - 1], log[|log| - 1];
      assert last in log && forall d :: d in init ==> d in log;
      HandedNothing(init, v);
    }
  }

  lemma {:induction false} HandedOnce(log: seq<Net.Delivery>, v: nat) returns (d: Net.Delivery)
    requires NodesDiffer(log) && v in NodesOf(log)
    ensures d in log && d.node == v && HandedTo(log, v) == [d.packet]
  {
    var init, last := log[..|log| - 1], log[|log| - 1];
    assert log == init + [last];
    if last.node == v {
      d := last;
      assert v !in NodesOf(init);
      HandedNothing(init, v);
    } else {
      d := HandedOnce(init, v);
    }
  }

  /** The i-th flood hands payload i, as sent by the origin, once to every node in reach, and nothing to any other. */
  lemma FloodHands(c: Campaign, i: nat, v: nat)
    requires IsCampaign(c) && i < |c.s.plan|
    ensures var ps := HandedTo(LastNet(c.floods[i]).delivered, v);
      if InReach(c.s, v) then |ps| == 1 && ps[0].source == c.s.o && ps[0].payload == c.s.plan[i].payload else ps == []
  {
    hide Originates, Reach, AtDistance, HandedTo;
    CampaignIsFloods(c, i, i);
    assert Launches(c, i);
    var f := c.floods[i];
    FloodCovers(f);
    NetsCount(f);
    hide IsFlood, Unfolds, IsCampaign;
    var log := LastNet(f).delivered;
    if InReach(c.s, v) {
      var d := HandedOnce(log, v);
    } else {
      HandedNothing(log, v);
    }
  }

  /** The first k payloads, in order. */
  function FirstIndices(k: nat): (js: seq<nat>)
    ensures |js| == k && forall i :: 0 <= i < k ==> js[i] == i
  {
    seq(k, i requires 0 <= i => i)
  }

  /** So the first k floods hand the first k payloads, in order, to every node in reach, and nothing to any other. */
  lemma {:induction false} EveryPayloadArrives(c: Campaign, v: nat, k: nat)
    requires IsCampaign(c) && k <= |c.floods|
    ensures if InReach(c.s, v) then Carry(c.s, FirstIndices(k), Handed(c, v, k)) else Handed(c, v, k) == []
  {
    CampaignLength(c);
    hide IsCampaign, InReach, HandedTo;
    if k > 0 {
      EveryPayloadArrives(c, v, k - 1);
      FloodHands(c, k - 1, v);
    }
  }

  lemma CampaignLength(c: Campaign)
    requires IsCampaign(c)
    ensures |c.s.plan| == |c.floods| && IsSending(c.s)
  {
  }

  // Campaigns exist -----------------------------------------------------------------------------------------

  /** No node has seen packet i of the plan. */
  ghost predicate Unseen(c: Sending, s: Net.Network, i: nat) {
    && i < |c.plan| && BitChatPacket.IsPrefixedHex(c.plan[i].packetId)
    && Marked(c.g, s, Engine.KeyOf(MeshPacket(c, c.plan[i]))) == {}
  }

  /**
   * Flood i sends packet i of the plan, the first into the given network, each later one into what the
   * one before left.
   */
  ghost predicate Follows(c: Sending, before: Net.Network, floods: seq<Flood>, i: nat) {
    && i < |floods| <= |c.plan| && BitChatPacket.IsPrefixedHex(c.plan[i].packetId)
    && floods[i].g == c.g && floods[i].o == c.o && floods[i].p == MeshPacket(c, c.plan[i]) && IsFlood(floods[i])
    && floods[i].before == if i == 0 then before else Drained(LastNet(floods[i - 1]))
  }

  /** A flood leaves an idle network in which the other packets are as unseen as before. */
  lemma FloodLeaves(c: Sending, f: Flood, i: nat, j: nat)
    requires c.o < TWO_64 && Originates(c, i) && i != j && Unseen(c, f.before, j)
    requires IsFlood(f) && f.g == c.g && BitChatPacket.IsPrefixedHex(c.plan[i].packetId)
      && f.p == MeshPacket(c, c.plan[i])
    ensures Unseen(c, Drained(LastNet(f)), j)
  {
    hide Marked, Unfolds, Originates, Engine.KeyOf, BitChatPacket.IdValue;
    var key := Engine.KeyOf(MeshPacket(c, c.plan[j]));
    PlanKeysDiffer(c, i, j);
    NetsCount(f);
    FloodKeepsUnseen(f, |f.rounds|, key);
    SameSeen(c.g, LastNet(f), Drained(LastNet(f)), key);
  }

  lemma FloodEnds(f: Flood)
    requires IsFlood(f)
    ensures Drained(LastNet(f)).inFlight == [] && Drained(LastNet(f)).delivered == []
  {
    hide Unfolds, Reach, AtDistance, Marked;
    NetsCount(f);
    FloodCovers(f);
  }

  /** The state before flood n. */
  function Stage(before: Net.Network, floods: seq<Flood>): Net.Network {
    if floods == [] then before else Drained(LastNet(floods[|floods| - 1]))
  }

  lemma {:induction false} FloodsFor(c: Sending, before: Net.Network, n: nat) returns (floods: seq<Flood>)
    requires GraphOK(c.g) && c.o in c.g && c.o < TWO_64 && c.ttl >= 0 && n <= |c.plan|
    requires before.inFlight == [] && before.delivered == []
    requires forall i: nat :: i < |c.plan| ==> Originates(c, i) && Unseen(c, before, i)
    ensures |floods| == n && forall i: nat :: i < n ==> Follows(c, before, floods, i)
    ensures var s := Stage(before, floods);
      s.inFlight == [] && s.delivered == [] && forall j: nat :: n <= j < |c.plan| ==> Unseen(c, s, j)
  {
    hide GraphOK, Originates, Unseen, IsFlood, Engine.KeyOf, BitChatPacket.IdValue;
    if n == 0 {
      floods := [];
    } else {
      var init := FloodsFor(c, before, n - 1);
      var s := Stage(before, init);
      assert Originates(c, n - 1) && Unseen(c, s, n - 1);
      var f := NextFlood(c, s, n - 1);
      FloodEnds(f);
      floods := init + [f];
      forall i: nat | i < n
        ensures Follows(c, before, floods, i)
      {
        if i < n - 1 {
          assert Follows(c, before, init, i);
        } else if i > 0 {
          assert Follows(c, before, init, i - 1);
        }
      }
      forall j: nat | n <= j < |c.plan|
        ensures Unseen(c, Stage(before, floods), j)
      {
        FloodLeaves(c, f, n - 1, j);
      }
    }
  }

  lemma NextFlood(c: Sending, s: Net.Network, i: nat) returns (f: Flood)
    requires GraphOK(c.g) && c.o in c.g && c.ttl >= 0 && Unseen(c, s, i) && s.inFlight == [] && s.delivered == []
    ensures BitChatPacket.IsPrefixedHex(c.plan[i].packetId)
    ensures IsFlood(f) && f.g == c.g && f.o == c.o && f.p == MeshPacket(c, c.plan[i]) && f.before == s
  {
    hide Marked, GraphOK, Engine.KeyOf;
    f := FloodExists(c.g, c.o, MeshPacket(c, c.plan[i]), s);
    hide IsFlood;
  }

  /**
   * Whatever the network, its nodes and the message: what sendChatMessage plans can be flooded into
   * any idle network that has seen none of its packets.
   */
  lemma CampaignExists(s: Sending, before: Net.Network) returns (c: Campaign)
    requires IsSending(s) && GraphOK(s.g) && s.o in s.g && s.ttl >= 0
    requires before.inFlight == [] && before.delivered == []
    requires forall i: nat :: i < |s.plan| ==> Unseen(s, before, i)
    ensures IsCampaign(c) && c.s == s && c.floods[0].before == before
  {
    var floods := FloodsFor(s, before, |s.plan|);
    c := Campaign(s, floods);
    hide GraphOK, Unfolds, Marked, Engine.KeyOf, BitChatPacket.IdValue;
    assert Follows(s, before, floods, 0);
    forall i: nat | i < |s.plan|
      ensures Launches(c, i) && UnseenAtFirst(c, i)
    {
      assert Originates(s, i) && Unseen(s, before, i) && Follows(s, before, floods, i);
    }
  }

  // The application at a node in reach -------------------------------------------------------------------

  /**
   * From sendChatMessage to the other end of the mesh: whatever the message, if its packet fits 128
   * fragments, the chat service of every addressed node within ttl hops of the origin recovers it,
   * with its text and hashed id, exactly once, and with the last packet handed to that node. The
   * services of all other nodes are handed nothing.
   */
  lemma ChatReachesEveryone(c: Campaign, now: nat -> int, v: nat, k: nat)
    requires IsCampaign(c) && k <= |c.floods|
    ensures Handed(c, v, k) == [] || InReach(c.s, v)
    ensures Serving(Handed(c, v, k), now).recovered
         == if InReach(c.s, v) && k == |c.floods| then [V6A.AsReceived(c.s.message)] else []
  {
    CampaignLength(c);
    hide IsCampaign, IsSending, V6A.AsReceived, InReach, Handed;
    EveryPayloadArrives(c, v, k);
    if InReach(c.s, v) { ServingRecovers(c.s, FirstIndices(k), Handed(c, v, k), now); }
  }

  /** And the stores of these nodes show it exactly once. */
  lemma ShownOnce(c: Campaign, now: nat -> int, v: nat, store: seq<Store.ChatMessage>)
    requires IsCampaign(c) && InReach(c.s, v) && Store.IncomingOnce(store)
    ensures var shown := Shown(c.s.o, c.s.destination, Serving(Handed(c, v, |c.floods|), now).recovered);
      && shown == [Delivered(c.s)] && Store.Occurrences(Stack.StoreAfter(store, shown), Delivered(c.s)) == 1
  {
    hide IsCampaign, InReach, Handed, Serving, Store.IncomingOnce, Store.Occurrences, Stack.StoreAfter, Shown,
         V6A.AsReceived;
    ChatReachesEveryone(c, now, v, |c.floods|);
    RecoveredIsShown(c.s, store);
  }

  /** So what is typed at one end is shown at the other, without its outer blanks. */
  lemma TypedIsShown(c: Campaign, messageId: seq<Utf8.unit>, text: seq<Utf8.unit>, now: nat -> int,
        v: nat, store: seq<Store.ChatMessage>)
    requires IsCampaign(c) && InReach(c.s, v) && Store.IncomingOnce(store)
    requires c.s.message == MessageFor(messageId, Trimmed(text))
    ensures var shown := Shown(c.s.o, c.s.destination, Serving(Handed(c, v, |c.floods|), now).recovered);
      |shown| == 1 && IsTrimOf(text, shown[0].text) && (Tight(text) ==> shown[0].text == text)
  {
    hide IsCampaign, InReach, Handed, Serving, Store.IncomingOnce, Store.Occurrences, Stack.StoreAfter, Shown, Trimmed,
         IsTrimOf;
    ShownOnce(c, now, v, store);
    TrimmedIsTrim(text);
    if Tight(text) { TightIsTrimmed(text); }
  }
}
