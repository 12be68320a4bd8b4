/** What the memory of completed groups is worth: frames that come again are acknowledged, and nothing else happens. */
module LinkMemory {
  import opened Wrappers
  import opened Bytes
  import opened FragmentCodec
  import opened Reassembler
  import opened Reassembly
  import opened ReceiverCaches
  import opened VoiceReceiver
  import opened ReliableLink
  import opened ReliableLinkRuns
  import opened LinkProgress
  import V6A = BinaryMessageCodec
  import R = ReliabilityManager
  import P = ReliabilityProofs

  /** Step i brings a frame of the fragmented message m, and the message is handed over. */
  ghost predicate HandsOver(h: History, i: nat, m: nat) {
    && i < |h.inputs| && |h.links| == |h.inputs| + 1
    && h.inputs[i].FrameArrives? && h.inputs[i].message == m
    && m < |h.links[i].sends| && Fragmented(h.links[i].sends[m])
    && |h.links[i + 1].receiver.heard| > |h.links[i].receiver.heard|
  }

  /** At step i a fragmented message is handed over. */
  ghost predicate Completes(h: History, i: nat) {
    i < |h.inputs| && h.inputs[i].FrameArrives? && HandsOver(h, i, h.inputs[i].message)
  }

  /** The number of groups completed between two points of the run. */
  ghost function Completions(h: History, a: nat, b: nat): nat
    decreases b
  {
    if b <= a then 0 else Completions(h, a, b - 1) + if Completes(h, b - 1) then 1 else 0
  }

  /** The group is among the entries, with at most n younger ones. */
  ghost predicate HeldWithin(entries: seq<Completed>, groupId: nat, n: nat) {
    exists i :: 0 <= i < |entries| && |entries| - 1 - n <= i && entries[i].groupId == groupId
  }

  lemma PushHolds(entries: seq<Completed>, c: Completed)
    ensures HeldWithin(Push(entries, c, COMPLETED_CACHE_MAX), c.groupId, 0)
  {
    var after := Push(entries, c, COMPLETED_CACHE_MAX);
    assert after[|after| - 1] == c;
  }

  lemma PushKeeps(entries: seq<Completed>, c: Completed, groupId: nat, n: nat)
    requires HeldWithin(entries, groupId, n) && n + 1 < COMPLETED_CACHE_MAX
    ensures HeldWithin(Push(entries, c, COMPLETED_CACHE_MAX), groupId, n + 1)
  {
    var i :| 0 <= i < |entries| && |entries| - 1 - n <= i && entries[i].groupId == groupId;
    var after := Push(entries, c, COMPLETED_CACHE_MAX);
    if |entries| >= COMPLETED_CACHE_MAX {
      assert after[i - 1] == entries[i];
    } else {
      assert after[i] == entries[i];
    }
  }

  /** A packet is remembered under its group exactly when it is handed over. */
  lemma PacketRemembered(r: Receiver, packet: seq<byte>, group: nat, now: int)
    ensures var r' := OnPacket(r, packet, Some(group), now);
      if |r'.heard| > |r.heard|
      then exists id :: r'.completed == Push(r.completed, Completed(group, id, now), COMPLETED_CACHE_MAX)
      else r'.completed == r.completed
  {
    hide V6A.Decode, Push;
    var r' := OnPacket(r, packet, Some(group), now);
    if |r'.heard| > |r.heard| {
      var m := V6A.Decode(packet).value;
      assert r'.completed == Push(r.completed, Completed(group, m.messageId, now), COMPLETED_CACHE_MAX);
    }
  }

  ghost predicate Grown(l: Link, e: LinkInput, l': Link) {
    && e.FrameArrives? && e.message < |l.sends| && Fragmented(l.sends[e.message])
    && |l'.receiver.heard| > |l.receiver.heard|
  }

  /** The memory of completed groups has taken in the group of message m. */
  ghost predicate Takes(l: Link, m: nat, l': Link)
    requires m < |l.sends|
  {
    exists c: Completed :: c.groupId == l.sends[m].groupId
      && l'.receiver.completed == Push(l.receiver.completed, c, COMPLETED_CACHE_MAX)
  }

  lemma FrameRemembers(peer: string, l: Link, m: nat, k: nat, now: int)
    requires LinkOK(peer, l) && m < |l.sender.messages| && k < |l.sender.messages[m].frames| && m < |l.sends|
    ensures var l' := l.(receiver := OnData(l.receiver, peer, l.sender.messages[m].frames[k], now));
      if Fragmented(l.sends[m]) && |l'.receiver.heard| > |l.receiver.heard| then Takes(l, m, l')
      else l'.receiver.completed == l.receiver.completed
  {
    assert BookedAt(l, m);
    var o := l.sends[m];
    if Fragmented(o) {
      hide P.Inv, BookOK, Genuine, Fragmented, PacketFor, WireId, OnPacket, OnData, ReceiverOK, Sendable, FramesOf;
      hide Fits, PlanOK, Wire, RealStep, KeyOf, CompletedId, Push;
      var a := Arrival(peer, o.groupId, k, now);
      PlanIsOK(peer, l);
      FrameIsWire(peer, l, m, k, now);
      FragmentEffect(l.plan, l.receiver, a);
      var (t, answer) := RealStep(l.plan, l.receiver.table, a);
      PacketRemembered(l.receiver.(table := t), l.plan[KeyOf(a)].packet, o.groupId, now);
      var l' := l.(receiver := OnData(l.receiver, peer, l.sender.messages[m].frames[k], now));
      if |l'.receiver.heard| > |l.receiver.heard| {
        var id :| l'.receiver.completed
                  == Push(l.receiver.completed, Completed(o.groupId, id, now), COMPLETED_CACHE_MAX);
        assert Completed(o.groupId, id, now).groupId == o.groupId;
      }
    } else {
      hide P.Inv, BookOK, PlanMatches, Genuine, V6A.Decode, PacketFor, ReceiverOK, Sendable;
      PacketDecodes(o);
    }
  }

  lemma StepRemembers(peer: string, l: Link, e: LinkInput)
    requires LinkOK(peer, l) && R.InRange(l.sender, l.sender.active) && R.InRange(l.sender, l.sender.queued)
    ensures var l' := LinkStep(peer, l, e);
      if Grown(l, e, l') then Takes(l, e.message, l') else l'.receiver.completed == l.receiver.completed
    ensures |LinkStep(peer, l, e).sends| >= |l.sends|
    ensures forall m :: 0 <= m < |l.sends| ==> LinkStep(peer, l, e).sends[m] == l.sends[m]
  {
    hide OnData, R.Step, R.InRange, Fragmented, Takes, Sendable, FreshGroup;
    if e.FrameArrives? && e.message < |l.sender.messages| && e.index < |l.sender.messages[e.message].frames| {
      assert e.message < |l.sends| by { SameNumber(peer, l); }
      hide LinkOK;
      FrameRemembers(peer, l, e.message, e.index, e.now);
    }
  }

  lemma SameNumber(peer: string, l: Link)
    requires LinkOK(peer, l)
    ensures |l.sender.messages| == |l.sends|
  {
  }

  /** A group stays remembered while fewer than 64 others are completed. */
  lemma {:induction false} StaysHeld(h: History, j: nat, k: nat, m: nat)
    requires IsRun(h) && HandsOver(h, j, m) && j < k < |h.links| && Completions(h, j + 1, k) < COMPLETED_CACHE_MAX
    ensures m < |h.links[k].sends| && h.links[k].sends[m] == h.links[j].sends[m]
    ensures HeldWithin(h.links[k].receiver.completed, h.links[j].sends[m].groupId, Completions(h, j + 1, k))
    decreases k
  {
    hide LinkOK, LinkStep, R.InRange, CompletedOK, Fragmented, HeldWithin, Push;
    var l, e, l' := h.links[k - 1], h.inputs[k - 1], h.links[k];
    var group := h.links[j].sends[m].groupId;
    LastMove(h, k - 1);
    hide IsRun;
    StepRemembers(h.peer, l, e);
    if k == j + 1 {
      var c: Completed :| c.groupId == group
        && l'.receiver.completed == Push(l.receiver.completed, c, COMPLETED_CACHE_MAX);
      PushHolds(l.receiver.completed, c);
    } else {
      StaysHeld(h, j, k - 1, m);
      assert Completes(h, k - 1) <==> Grown(l, e, l');
      if Grown(l, e, l') {
        var c: Completed :| c.groupId == l.sends[e.message].groupId
          && l'.receiver.completed == Push(l.receiver.completed, c, COMPLETED_CACHE_MAX);
        PushKeeps(l.receiver.completed, c, group, Completions(h, j + 1, k - 1));
      }
    }
  }

  /** What a receiver that remembers the group does with a frame of it. */
  lemma HeldIsAcked(peer: string, l: Link, m: nat, k: nat, now: int, n: nat)
    requires LinkOK(peer, l) && CompletedOK(peer, l) && m < |l.sends| && Fragmented(l.sends[m])
    requires HeldWithin(l.receiver.completed, l.sends[m].groupId, n)
    requires m < |l.sender.messages| && k < |l.sender.messages[m].frames|
    ensures OnData(l.receiver, peer, l.sender.messages[m].frames[k], now) == Acked(l.receiver, WireId(l.sends[m]))
  {
    assert BookedAt(l, m);
    hide P.Inv, BookOK, PlanMatches, Genuine, Fragmented, PacketFor, WireId, OnPacket, OnData, ReceiverOK, Sendable,
         FramesOf, Fits, PlanOK, Wire, RealStep, KeyOf, CompletedOK;
    var o := l.sends[m];
    PlanIsOK(peer, l);
    FrameIsWire(peer, l, m, k, now);
    FragmentEffect(l.plan, l.receiver, Arrival(peer, o.groupId, k, now));
    assert CompletedId(l.receiver.completed, o.groupId).Some?;
    hide CompletedId;
    CachedIsDone(peer, l, o, m);
    WireIdNotEmpty(o);
  }

  /**
   * After a fragmented message has been handed over, and while fewer than 64 other groups have been
   * completed since, each of its frames that comes again is answered with the message's id, and
   * touches neither the reassembler nor what has been heard.
   */
  lemma AnsweredFromMemory(h: History, j: nat, k: nat, m: nat)
    requires IsRun(h) && HandsOver(h, j, m) && j < k < |h.inputs| && Completions(h, j + 1, k) < COMPLETED_CACHE_MAX
    requires h.inputs[k].FrameArrives? && Brings(h.links[k], h.inputs[k], m, h.inputs[k].index)
    ensures m < |h.links[k].sends| && h.links[k].sends[m] == h.links[j].sends[m]
    ensures h.links[k + 1].receiver == Acked(h.links[k].receiver, WireId(h.links[k].sends[m]))
  {
    hide LinkOK, R.InRange, CompletedOK, Fragmented, HeldWithin, OnData, WireId;
    StaysHeld(h, j, k, m);
    LastMove(h, k);
    hide IsRun;
    HeldIsAcked(h.peer, h.links[k], m, h.inputs[k].index, h.inputs[k].now, Completions(h, j + 1, k));
  }
}
