/**
 * What the memory of the last 64 deliveries is worth: exactly the ids among them are not spoken again,
 * and acknowledging one again does not make it any younger.
 *
 * To show that 64 is exact, messages with ids of their own are needed: the hashes of one-character ids
 * differ.
 */
module SpeechWindow {
  import opened Wrappers
  import opened Bytes
  import opened Collections
  import opened ReceiverCaches
  import opened VoiceReceiver
  import opened ReliableLink
  import opened ReliableLinkRuns
  import BitChatPacket
  import Utf8
  import V6A = BinaryMessageCodec
  import R = ReliabilityManager
  import P = ReliabilityProofs

  /** A packet is handed over exactly if its id is not among the last 64 handed over, and acknowledged in any case. */
  lemma HandedOverExactly(r: Receiver, packet: seq<byte>, group: Option<nat>, now: int, m: V6A.ReceivedMessage)
    requires ReceiverOK(r) && V6A.Decode(packet) == Ok(m)
    ensures var r' := OnPacket(r, packet, group, now);
      && r'.heard == (if m.messageId in Last(HeardIds(r), DELIVERED_CACHE_MAX) then r.heard else r.heard + [m])
      && r'.acks == r.acks + [m.messageId]
  {
    hide V6A.Decode, Push, Last, IdsOf;
  }

  /** A valid message whose packet fits one frame. */
  predicate Short(o: Outgoing) {
    Sendable(o) && !Fragmented(o)
  }

  function WireIds(os: seq<Outgoing>): (ids: seq<string>)
    ensures |ids| == |os| && forall i :: 0 <= i < |ids| ==> ids[i] == WireId(os[i])
  {
    seq(|os|, i requires 0 <= i < |os| => WireId(os[i]))
  }

  /** The receiver after the frames of the given short messages, one after another. */
  function Takes(peer: string, os: seq<Outgoing>, now: int): Receiver {
    if os == [] then Silent()
    else OnData(Takes(peer, os[..|os| - 1], now), peer, PacketFor(os[|os| - 1]), now)
  }

  lemma ShortArrives(r: Receiver, peer: string, o: Outgoing, now: int)
    requires ReceiverOK(r) && Short(o)
    ensures var r' := OnData(r, peer, PacketFor(o), now);
      && ReceiverOK(r') && r'.acks == r.acks + [WireId(o)]
      && HeardIds(r') == HeardIds(r)
         + if WireId(o) in Last(HeardIds(r), DELIVERED_CACHE_MAX) then [] else [WireId(o)]
  {
    PacketDecodes(o);
    OnPacketOK(r, PacketFor(o), None, now);
    HandedOverExactly(r, PacketFor(o), None, now, V6A.AsReceived(o.message));
    ReceivedUnderWireId(o);
    OneMore(r, OnPacket(r, PacketFor(o), None, now), V6A.AsReceived(o.message));
    hide OnPacket, ReceiverOK, WireId, PacketFor, Last, V6A.Decode, V6A.AsReceived, HeardIds, Fragmented;
  }

  /** It speaks the messages that a window of 64 admits, and acknowledges all. */
  lemma {:induction false} TakesIsSift(peer: string, os: seq<Outgoing>, now: int)
    requires forall o :: o in os ==> Short(o)
    ensures var r := Takes(peer, os, now);
      ReceiverOK(r) && HeardIds(r) == Sift(WireIds(os), DELIVERED_CACHE_MAX) && r.acks == WireIds(os)
  {
    hide OnData, Short, ReceiverOK, WireId, PacketFor, Last, HeardIds, Silent, Sift;
    SilentOK();
    if os == [] {
      assert WireIds(os) == [];
      SiftNothing();
    } else {
      var init, o := os[..|os| - 1], os[|os| - 1];
      TakesIsSift(peer, init, now);
      ShortArrives(Takes(peer, init, now), peer, o, now);
      assert WireIds(os) == WireIds(init) + [WireId(o)];
      SiftPush(WireIds(init), DELIVERED_CACHE_MAX, WireId(o));
    }
  }

  lemma SiftNothing()
    ensures Sift<string>([], DELIVERED_CACHE_MAX) == []
  {
  }

  lemma SilentOK()
    ensures ReceiverOK(Silent()) && HeardIds(Silent()) == [] && Silent().acks == []
  {
  }

  lemma OneMore(r: Receiver, r': Receiver, m: V6A.ReceivedMessage)
    ensures r'.heard == r.heard ==> HeardIds(r') == HeardIds(r)
    ensures r'.heard == r.heard + [m] ==> HeardIds(r') == HeardIds(r) + [m.messageId]
  {
  }

  // Messages with ids of their own --------------------------------------------------------------------------

  lemma XorHalf(a: nat, b: nat)
    ensures V6A.Xor(a, b) / 2 == V6A.Xor(a / 2, b / 2)
  {
  }

  lemma XorSixteenth(a: nat, b: nat)
    ensures V6A.Xor(a, b) / 16 == V6A.Xor(a / 16, b / 16)
  {
    hide V6A.Xor;
    XorHalf(a, b);
    XorHalf(a / 2, b / 2);
    XorHalf(a / 2 / 2, b / 2 / 2);
    XorHalf(a / 2 / 2 / 2, b / 2 / 2 / 2);
    assert a / 2 / 2 / 2 / 2 == a / 16 && b / 2 / 2 / 2 / 2 == b / 16;
  }

  /** Only the low byte changes. */
  lemma XorLow(a: nat, b: byte)
    ensures V6A.Xor(a, b) / 256 == a / 256
  {
    hide V6A.Xor;
    XorSixteenth(a, b);
    XorSixteenth(a / 16, b / 16);
    V6A.XorZero(a / 256);
    assert a / 16 / 16 == a / 256 && b as int / 16 / 16 == 0;
  }

  lemma {:induction false} XorCancels(a: nat, b: nat, c: nat)
    requires V6A.Xor(a, b) == V6A.Xor(a, c)
    ensures b == c
    decreases a + b + c
  {
    XorHalf(a, b);
    XorHalf(a, c);
    if a + b + c > 0 { XorCancels(a / 2, b / 2, c / 2); }
  }

  /** Multiplying by the prime keeps numbers apart that differ in the low byte only. */
  lemma PrimeKeepsApart(x: nat, y: nat)
    requires x < y && x / 256 == y / 256
    ensures x * V6A.FNV_PRIME % TWO_64 != y * V6A.FNV_PRIME % TWO_64
  {
    var d := y - x;
    var a, c := x * V6A.FNV_PRIME, d * V6A.FNV_PRIME;
    assert y * V6A.FNV_PRIME == a + c && 0 < c < TWO_64;
    AddedMod(a, c);
  }

  lemma AddedMod(a: nat, c: nat)
    requires 0 < c < TWO_64
    ensures (a + c) % TWO_64 != a % TWO_64
  {
  }

  lemma HashOfOne(b: byte)
    ensures V6A.Fnv1a64([b]) == V6A.Xor(V6A.FNV_OFFSET_BASIS, b) * V6A.FNV_PRIME % TWO_64
  {
    assert [b][..0] == [];
    hide V6A.Xor;
  }

  /** One-byte strings have different hashes. */
  lemma HashesDiffer(b: byte, c: byte)
    requires b != c
    ensures V6A.Fnv1a64([b]) != V6A.Fnv1a64([c])
  {
    hide V6A.Xor, V6A.Fnv1a64;
    var x, y := V6A.Xor(V6A.FNV_OFFSET_BASIS, b), V6A.Xor(V6A.FNV_OFFSET_BASIS, c);
    XorLow(V6A.FNV_OFFSET_BASIS, b);
    XorLow(V6A.FNV_OFFSET_BASIS, c);
    HashOfOne(b);
    HashOfOne(c);
    if x == y {
      XorCancels(V6A.FNV_OFFSET_BASIS, b, c);
    } else if x < y {
      PrimeKeepsApart(x, y);
    } else {
      PrimeKeepsApart(y, x);
    }
  }

  /** The same words under the id of one character. */
  function Numbered(k: nat): Outgoing
    requires k < 0x80
  {
    Outgoing(V6A.SemanticMessage([k], [0x68, 0x69], "en", "neutral", 0, "default"), 0)
  }

  lemma NumberedIsShort(k: nat)
    requires k < 0x80
    ensures Short(Numbered(k)) && WireId(Numbered(k)) == BitChatPacket.FormatId(V6A.Fnv1a64([k]))
  {
    EncodesToItself(k);
    EncodesToItself(0x69);
    assert Utf8.Encoding([0x68, 0x69]) == [0x68, 0x69] by { assert [0x68, 0x69][1..] == [0x69]; }
    hide V6A.Fnv1a64, Utf8.Encoding;
  }

  lemma EncodesToItself(k: nat)
    requires k < 0x80
    ensures Utf8.Encoding([k]) == [k]
  {
    assert Utf8.Encoding([k]) == Utf8.EncodeCode(k) + Utf8.Encoding([]);
  }

  lemma NumberedDiffer(i: nat, j: nat)
    requires i < j < 0x80
    ensures WireId(Numbered(i)) != WireId(Numbered(j))
  {
    NumberedIsShort(i);
    NumberedIsShort(j);
    HashesDiffer(i, j);
    BitChatPacket.FormatThenRead(V6A.Fnv1a64([i]));
    BitChatPacket.FormatThenRead(V6A.Fnv1a64([j]));
    hide V6A.Fnv1a64;
  }

  // A run that says the same again ---------------------------------------------------------------------------

  function LastLink(h: History): Link
    requires h.links != []
  {
    h.links[|h.links| - 1]
  }

  lemma RunLength(h: History)
    requires IsRun(h)
    ensures |h.links| == |h.inputs| + 1
  {
  }

  lemma Goes(h: History, e: LinkInput) returns (h': History)
    requires IsRun(h)
    ensures R.InRange(LastLink(h).sender, LastLink(h).sender.active)
      && R.InRange(LastLink(h).sender, LastLink(h).sender.queued)
    ensures IsRun(h') && h'.peer == h.peer && LastLink(h') == LinkStep(h.peer, LastLink(h), e)
  {
    hide IsRun, EmptyLink, LinkStep, R.InRange;
    RunLength(h);
    h' := RunsGoOn(h, e);
    assert h'.links[|h.inputs|] == h.links[|h.inputs|];
  }

  lemma {:induction false} SendsAll(peer: string, os: seq<Outgoing>) returns (h: History)
    requires forall o :: o in os ==> Short(o)
    ensures IsRun(h) && h.peer == peer && LastLink(h).sends == os && LastLink(h).receiver == Silent()
  {
    hide IsRun, R.Step, Short, FramesOf, WireId, R.InRange;
    if os == [] {
      h := History(peer, [EmptyLink()], []);
      assert IsRun(h) by { EmptyIsRun(peer); }
    } else {
      var init, o := os[..|os| - 1], os[|os| - 1];
      h := SendsAll(peer, init);
      RunLength(h);
      var l := LastLink(h);
      h := Goes(h, SendMessage(o));
      assert Short(o);
      ShortIsSent(peer, l, o);
      assert init + [o] == os;
    }
  }

  lemma EmptyIsRun(peer: string)
    ensures IsRun(History(peer, [EmptyLink()], []))
  {
  }

  lemma ShortIsSent(peer: string, l: Link, o: Outgoing)
    requires Short(o) && R.InRange(l.sender, l.sender.active) && R.InRange(l.sender, l.sender.queued)
    ensures var l' := LinkStep(peer, l, SendMessage(o));
      l'.sends == l.sends + [o] && l'.receiver == l.receiver
  {
    hide R.Step, Sendable, FramesOf, WireId;
  }

  /** The frame of a short message is transmitted once more, and arrives. */
  lemma TakesOne(h: History, i: nat, now: int) returns (h': History)
    requires IsRun(h) && i < |LastLink(h).sends| && Short(LastLink(h).sends[i])
    ensures IsRun(h') && h'.peer == h.peer && LastLink(h').sends == LastLink(h).sends
    ensures LastLink(h').receiver == OnData(LastLink(h).receiver, h.peer, PacketFor(LastLink(h).sends[i]), now)
  {
    var l := LastLink(h);
    RunOK(h, |h.inputs|);
    FrameOfShort(h.peer, l, i);
    h' := Goes(h, Transmit(i, 0));
    h' := Goes(h', FrameArrives(i, 0, now));
    hide LinkOK, OnData, PacketFor, Short;
  }

  lemma FrameOfShort(peer: string, l: Link, i: nat)
    requires LinkOK(peer, l) && i < |l.sends| && Short(l.sends[i])
    ensures i < |l.sender.messages| && l.sender.messages[i].frames == [PacketFor(l.sends[i])]
  {
    assert BookedAt(l, i);
    hide P.Inv, ReceiverOK, PlanMatches, PacketFor;
  }

  function Chosen(os: seq<Outgoing>, js: seq<nat>): (r: seq<Outgoing>)
    requires forall k :: 0 <= k < |js| ==> js[k] < |os|
    ensures |r| == |js| && forall k :: 0 <= k < |js| ==> r[k] == os[js[k]]
  {
    seq(|js|, k requires 0 <= k < |js| => os[js[k]])
  }

  lemma {:induction false} TakesChosen(peer: string, os: seq<Outgoing>, js: seq<nat>, now: int) returns (h: History)
    requires (forall o :: o in os ==> Short(o)) && (forall k :: 0 <= k < |js| ==> js[k] < |os|)
    ensures IsRun(h) && h.peer == peer && LastLink(h).sends == os
    ensures LastLink(h).receiver == Takes(peer, Chosen(os, js), now)
    decreases |js|
  {
    hide IsRun, OnData, PacketFor, Short, Silent;
    if js == [] {
      h := SendsAll(peer, os);
    } else {
      var init, j := js[..|js| - 1], js[|js| - 1];
      h := TakesChosen(peer, os, init, now);
      h := TakesOne(h, j, now);
      assert Chosen(os, js)[..|init|] == Chosen(os, init);
    }
  }

  function From(i: nat, n: nat): (js: seq<nat>)
    ensures |js| == n && forall k :: 0 <= k < n ==> js[k] == i + k
  {
    seq(n, k requires 0 <= k => i + k)
  }

  function Words(): (os: seq<Outgoing>)
    ensures |os| == DELIVERED_CACHE_MAX + 1
  {
    seq(DELIVERED_CACHE_MAX + 1, i requires 0 <= i < DELIVERED_CACHE_MAX + 1 => Numbered(i))
  }

  lemma WordsDiffer()
    ensures (forall o :: o in Words() ==> Short(o)) && Distinct(WireIds(Words()))
  {
    forall i | 0 <= i < |Words()|
      ensures Short(Words()[i])
    {
      NumberedIsShort(i);
    }
    forall i, j | 0 <= i < j < |Words()|
      ensures WireIds(Words())[i] != WireIds(Words())[j]
    {
      NumberedDiffer(i, j);
    }
    hide Short, WireId;
  }

  /** The first of all ids once more after k others, and again at the end. */
  function Repeated<T>(all: seq<T>, k: nat): seq<T>
    requires k < |all|
  {
    [all[0]] + all[1..k + 1] + [all[0]] + all[k + 1..] + [all[0]]
  }

  lemma RepeatedIds(os: seq<Outgoing>, js: seq<nat>, k: nat)
    requires k < |os| && js == Repeated(From(0, |os|), k)
    ensures forall i :: 0 <= i < |js| ==> js[i] < |os|
    ensures WireIds(Chosen(os, js)) == Repeated(WireIds(os), k)
  {
    hide WireId;
  }

  lemma RepeatedSift(all: seq<string>, k: nat)
    requires |all| == DELIVERED_CACHE_MAX + 1 && k < DELIVERED_CACHE_MAX && Distinct(all)
    ensures Sift(Repeated(all, k), DELIVERED_CACHE_MAX) == all + [all[0]]
  {
    assert [all[0]] + all[1..k + 1] + all[k + 1..] == all;
    hide Sift, Distinct;
    SiftTight(all[0], all[1..k + 1], all[k + 1..], DELIVERED_CACHE_MAX);
  }

  /**
   * 64 is exact, and acknowledging again does not refresh: there are runs in which a message is
   * spoken, found known and acknowledged again after k < 64 others, and spoken a second time once
   * exactly 64 others have followed the first.
   */
  lemma SpokenAgainAfter64(peer: string, k: nat, now: int) returns (h: History, all: seq<string>)
    requires k < DELIVERED_CACHE_MAX
    ensures IsRun(h) && |all| == DELIVERED_CACHE_MAX + 1 && Distinct(all)
    ensures HeardIds(LastLink(h).receiver) == all + [all[0]]
    ensures LastLink(h).receiver.acks == Repeated(all, k)
  {
    hide IsRun, Short, WireIds, WireId, Takes, Sift, Distinct, Repeated, Words, From, ReceiverOK, HeardIds;
    all := WireIds(Words());
    WordsDiffer();
    var js := Repeated(From(0, |Words()|), k);
    RepeatedIds(Words(), js, k);
    RepeatedSift(all, k);
    h := TakesChosen(peer, Words(), js, now);
    ChosenAreShort(Words(), js);
    TakesIsSift(peer, Chosen(Words(), js), now);
  }

  lemma ChosenAreShort(os: seq<Outgoing>, js: seq<nat>)
    requires (forall o :: o in os ==> Short(o)) && (forall k :: 0 <= k < |js| ==> js[k] < |os|)
    ensures forall o :: o in Chosen(os, js) ==> Short(o)
  {
    hide Short;
  }
}
