/**
 * What a retry amounts to: a round that sends every frame of the message, in order, each once, and the
 * count of retries after which a message is given up.
 *
 * A round is known by the generation of its loop. What it has sent is read off the outputs of the run.
 */
module ReliabilityRounds {
  import opened Wrappers
  import opened ReliabilityManager
  import opened ReliabilityProofs
  import opened ReliabilityRuns

  // What a step starts ---------------------------------------------------------------------------------------

  /** The sends that the outputs start under generation g. */
  function StartedIn(outs: seq<Output>, g: nat): seq<Output> {
    if outs == [] then []
    else
      var init, o := outs[..|outs| - 1], outs[|outs| - 1];
      StartedIn(init, g) + if o.FrameStarted? && o.generation == g then [o] else []
  }

  lemma {:induction false} StartedJoin(a: seq<Output>, b: seq<Output>, g: nat)
    ensures StartedIn(a + b, g) == StartedIn(a, g) + StartedIn(b, g)
  {
    if b == [] {
      assert a + b == a;
    } else {
      StartedJoin(a, b[..|b| - 1], g);
      assert (a + b)[..|a + b| - 1] == a + b[..|b| - 1];
    }
  }

  lemma StartedOne(o: Output, g: nat)
    ensures StartedIn([o], g) == if o.FrameStarted? && o.generation == g then [o] else []
  {
    assert [o][..0] == [];
  }

  /** Frame i of the message exists and fits a transport frame. */
  predicate Sends(m: Pending, i: nat) {
    i < |m.frames| && |m.frames[i]| <= V6B_MAX_PAYLOAD_SIZE
  }

  /** The outputs start exactly this one send, or none. */
  ghost predicate StartsOnly(outs: seq<Output>, o: Option<Output>) {
    && (o.Some? ==> o.value.FrameStarted?)
    && forall g: nat :: StartedIn(outs, g) == if o.Some? && o.value.generation == g then [o.value] else []
  }

  /** After its successful send, loop i sends the next frame, unless it is stale, acknowledged, done or unencodable. */
  predicate GoesOn(s: State, i: nat)
    requires Suspended(s, i)
  {
    var l, m := s.loops[i], s.messages[s.loops[i].message];
    l.generation == s.generation && !m.acked && Sends(m, l.next + 1)
  }

  /** The loop that a pending send belongs to moves on or ends. */
  ghost predicate LoopMoves(s: State, i: nat, ok: bool, s': State, outs: seq<Output>)
    requires Suspended(s, i)
  {
    var l := s.loops[i];
    if ok && GoesOn(s, i) then
      && s'.loops == s.loops[i := l.(next := l.next + 1)]
      && StartsOnly(outs, Some(FrameStarted(l.message, l.next + 1, l.generation)))
    else
      && s'.loops == s.loops[i := l.(next := if ok then l.next + 1 else l.next, ended := true)]
      && StartsOnly(outs, None)
  }

  /** A new loop has been opened for the active message; it sends frame 0 if there is one to send. */
  ghost predicate LoopOpens(s: State, s': State, outs: seq<Output>) {
    && s.active.Some? && s.active.value < |s.messages|
    && var m, g := s.active.value, s.generation + 1;
       && s'.loops == s.loops + [Loop(m, g, 0, !Sends(s.messages[m], 0))] && s'.generation == g
       && StartsOnly(outs, if Sends(s.messages[m], 0) then Some(FrameStarted(m, 0, g)) else None)
  }

  /** The input asks for a retry of the active message. */
  predicate AsksForRetry(s: State, e: Input) {
    && s.active.Some? && s.active.value < |s.messages|
    && (|| (e.TimerFires? && s.retryTimer.Armed?) || e.HandleTimeout?
        || (&& e.HandleNack? && e.nackedGroup in s.groupIds && s.groupIds[e.nackedGroup] != ""
            && s.groupIds[e.nackedGroup] == s.messages[s.active.value].messageId))
  }

  /** And there are a send function, no round going on, and retries left. */
  predicate RetryIsDue(s: State, e: Input) {
    && AsksForRetry(s, e) && s.canSend && !s.retransmitting
    && s.messages[s.active.value].retryCount < MAX_RETRIES
  }

  /** How the loops and the sends of a step go together. */
  ghost predicate RoundStep(s: State, e: Input, s': State, outs: seq<Output>) {
    if e.Resume? && Suspended(s, e.loop) then LoopMoves(s, e.loop, e.succeeded, s', outs)
    else if RetryIsDue(s, e) then LoopOpens(s, s', outs)
    else s'.loops == s.loops && StartsOnly(outs, None)
  }

  lemma NothingStarts(outs: seq<Output>)
    requires forall o :: o in outs ==> !o.FrameStarted?
    ensures StartsOnly(outs, None)
  {
    forall g: nat
      ensures StartedIn(outs, g) == []
    {
      NoneStarted(outs, g);
    }
  }

  lemma {:induction false} NoneStarted(outs: seq<Output>, g: nat)
    requires forall o :: o in outs ==> !o.FrameStarted?
    ensures StartedIn(outs, g) == []
  {
    if outs != [] { NoneStarted(outs[..|outs| - 1], g); }
  }

  lemma OneStarts(o: Output)
    requires o.FrameStarted?
    ensures StartsOnly([o], Some(o))
  {
    forall g: nat
      ensures StartedIn([o], g) == if o.generation == g then [o] else []
    {
      StartedOne(o, g);
    }
  }

  lemma NotifyStartsNothing(o: Output, outs: seq<Output>, started: Option<Output>)
    requires !o.FrameStarted? && StartsOnly(outs, started)
    ensures StartsOnly([o] + outs, started)
  {
    forall g: nat
      ensures StartedIn([o] + outs, g) == StartedIn(outs, g)
    {
      StartedJoin([o], outs, g);
      StartedOne(o, g);
    }
  }

  lemma FinishStarts(s: State, i: nat)
    requires i < |s.loops| && s.loops[i].message < |s.messages| && InRange(s, s.active) && InRange(s, s.queued)
    ensures StartsOnly(Finish(s, i).1, None)
    ensures Finish(s, i).0.loops == s.loops[i := s.loops[i].(ended := true)]
    ensures Finish(s, i).0.generation == s.generation
  {
    NothingStarts(Finish(s, i).1);
  }

  lemma ContinueRound(s: State, i: nat)
    requires i < |s.loops| && s.loops[i].message < |s.messages| && InRange(s, s.active) && InRange(s, s.queued)
    ensures var l, m := s.loops[i], s.messages[s.loops[i].message];
      var goes := l.generation == s.generation && !m.acked && Sends(m, l.next);
      && Continue(s, i).0.loops == (if goes then s.loops else s.loops[i := l.(ended := true)])
      && StartsOnly(Continue(s, i).1, if goes then Some(FrameStarted(l.message, l.next, l.generation)) else None)
      && Continue(s, i).0.generation == s.generation
  {
    FinishStarts(s, i);
    var l := s.loops[i];
    OneStarts(FrameStarted(l.message, l.next, l.generation));
    hide StartsOnly, Finish;
  }

  lemma ResumeRound(s: State, i: nat, ok: bool)
    requires InRange(s, s.active) && InRange(s, s.queued) && Suspended(s, i)
    ensures LoopMoves(s, i, ok, Resumed(s, i, ok).0, Resumed(s, i, ok).1)
  {
    hide StartsOnly, Continue, Finish;
    if ok {
      ContinueRound(s.(loops := s.loops[i := s.loops[i].(next := s.loops[i].next + 1)]), i);
    } else {
      FinishStarts(s, i);
    }
  }

  lemma RetryRound(s: State, t: Timer, kind: EventKind)
    requires Inv(s) && s.active.Some? && s.active.value < |s.messages| && InRange(s, s.queued)
    ensures var (s', outs) := Retry(Bump(s).(retryTimer := t), kind);
      if s.canSend && !s.retransmitting && s.messages[s.active.value].retryCount < MAX_RETRIES
      then LoopOpens(s, s', outs) else s'.loops == s.loops && StartsOnly(outs, None)
  {
    var b, m := Bump(s).(retryTimer := t), s.messages[s.active.value];
    assert !s.retransmitting ==> !m.acked;
    hide StartsOnly, Inv, Retransmit, GiveUp, LoopOpens;
    if m.retryCount >= MAX_RETRIES {
      GiveUpRound(b);
    } else if s.canSend && !s.retransmitting {
      LaunchRound(s, t, kind);
    } else {
      assert Retransmit(b) == (b, []) by { IdleRetransmit(b); }
      NothingStarts([]);
      NotifyStartsNothing(Notify(kind, m.messageId), [], None);
    }
  }

  lemma IdleRetransmit(s: State)
    requires InRange(s, s.active) && InRange(s, s.queued) && (!s.canSend || s.retransmitting)
    ensures Retransmit(s) == (s, [])
  {
  }

  lemma GiveUpRound(s: State)
    requires s.active.Some? && InRange(s, s.active) && InRange(s, s.queued)
    ensures GiveUp(s).0.loops == s.loops && StartsOnly(GiveUp(s).1, None)
  {
    hide StartsOnly;
    NothingStarts(Advance(Exhausted(s)).1);
    NotifyStartsNothing(Notify(MAX_RETRIES_REACHED, s.messages[s.active.value].messageId),
                        Advance(Exhausted(s)).1, None);
  }

  lemma LaunchRound(s: State, t: Timer, kind: EventKind)
    requires s.active.Some? && InRange(s, s.active) && InRange(s, s.queued) && s.canSend && !s.retransmitting
    requires !s.messages[s.active.value].acked
    ensures var m, (s', outs) := s.messages[s.active.value], Retransmit(Bump(s).(retryTimer := t));
      LoopOpens(s, s', [Notify(kind, m.messageId)] + outs)
  {
    hide StartsOnly, Continue;
    var b, m := Bump(s).(retryTimer := t), s.messages[s.active.value];
    ContinueRound(Launched(b), |s.loops|);
    var started := if Sends(m, 0) then Some(FrameStarted(s.active.value, 0, s.generation + 1)) else None;
    NotifyStartsNothing(Notify(kind, m.messageId), Continue(Launched(b), |s.loops|).1, started);
  }

  lemma StepRound(s: State, e: Input)
    requires Inv(s)
    ensures InRange(s, s.active) && InRange(s, s.queued) && RoundStep(s, e, Step(s, e).0, Step(s, e).1)
  {
    InvInRange(s);
    hide Inv, StartsOnly, LoopMoves, LoopOpens, Retry, Bump, Resumed;
    match e
    case Resume(i, ok) =>
      if Suspended(s, i) { ResumeRound(s, i, ok); }
      NothingStarts([]);
    case HandleNack(g) =>
      if s.active.Some? { RetryRound(s, NoTimer, NACK_RECEIVED); }
      NothingStarts([]);
    case TimerFires =>
      if s.active.Some? {
        RetryRound(s, Spent, TIMEOUT_RETRY);
        BumpTimer(s, Spent);
      }
      NothingStarts([]);
    case HandleTimeout =>
      if s.active.Some? {
        RetryRound(s, s.retryTimer, TIMEOUT_RETRY);
        BumpTimer(s, s.retryTimer);
      }
      NothingStarts([]);
    case _ => OtherRound(s, e);
  }

  lemma OtherRound(s: State, e: Input)
    requires Inv(s) && (e.Send? || e.RegisterGroupId? || e.OnFrameSent? || e.HandleAck? || e.Cancel?)
    ensures InRange(s, s.active) && InRange(s, s.queued)
    ensures Step(s, e).0.loops == s.loops && StartsOnly(Step(s, e).1, None)
  {
    OthersStartNothing(s, e);
    NothingStarts(Step(s, e).1);
    hide StartsOnly;
  }

  // Rounds over a run --------------------------------------------------------------------------------------------

  /** What has been started under generation g up to point k of the run, oldest first. */
  function StartedBy(h: History, k: nat, g: nat): seq<Output>
    requires k <= |h.outputs|
  {
    if k == 0 then [] else StartedBy(h, k - 1, g) + StartedIn(h.outputs[k - 1], g)
  }

  /** The first n frames of message m, in order. */
  function FirstFrames(m: nat, g: nat, n: nat): (outs: seq<Output>)
    ensures |outs| == n && forall j :: 0 <= j < n ==> outs[j] == FrameStarted(m, j, g)
  {
    seq(n, j requires 0 <= j < n => FrameStarted(m, j, g))
  }

  /** Loop i has started its first frames: those before `next`, and that one too while its send is pending. */
  ghost predicate SentInOrder(h: History, k: nat, i: nat)
    requires k <= |h.outputs| && k < |h.states| && i < |h.states[k].loops|
  {
    var l := h.states[k].loops[i];
    var sent := StartedBy(h, k, l.generation);
    && sent == FirstFrames(l.message, l.generation, |sent|)
    && l.next <= |sent| <= l.next + 1 && (!l.ended ==> |sent| == l.next + 1)
    && l.message < |h.states[k].messages| && |sent| <= |h.states[k].messages[l.message].frames|
  }

  ghost predicate AllInOrder(h: History, k: nat)
    requires k <= |h.outputs| && k < |h.states|
  {
    && (forall i: nat :: i < |h.states[k].loops| ==> SentInOrder(h, k, i))
    && forall g: nat :: StartedBy(h, k, g) != [] ==> HasLoop(h.states[k], g)
  }

  predicate HasLoop(s: State, g: nat) {
    exists i :: 0 <= i < |s.loops| && s.loops[i].generation == g
  }

  /** A further send extends what a round has sent. */
  lemma OneMoreFrame(m: nat, g: nat, n: nat)
    ensures FirstFrames(m, g, n + 1) == FirstFrames(m, g, n) + [FrameStarted(m, n, g)]
  {
  }

  lemma {:induction false} InOrder(h: History, canSend: bool, k: nat)
    requires IsRun(h, canSend) && k < |h.states|
    ensures AllInOrder(h, k)
  {
    hide Step, Inv, RoundStep, SentInOrder;
    if k == 0 {
    } else {
      InOrder(h, canSend, k - 1);
      var s, e := h.states[k - 1], h.inputs[k - 1];
      LastMove(h, canSend, k - 1);
      StepRound(s, e);
      BookStays(h, canSend, k - 1);
      hide IsRun, AllInOrder;
      NextInOrder(h, k);
    }
  }

  /** Step k left the loops with distinct generations and the messages with their frames. */
  ghost predicate KeepsFrames(h: History, k: nat) {
    && k + 1 < |h.states| && LoopsOK(h.states[k])
    && |h.states[k].messages| <= |h.states[k + 1].messages|
    && forall m :: 0 <= m < |h.states[k].messages| ==>
         h.states[k + 1].messages[m].frames == h.states[k].messages[m].frames
  }

  lemma BookStays(h: History, canSend: bool, k: nat)
    requires IsRun(h, canSend) && k + 1 < |h.states|
    ensures KeepsFrames(h, k)
  {
    LastMove(h, canSend, k);
    EveryStepConserves(h, canSend, k);
    hide IsRun, Step;
  }

  /** The outputs of step k - 1 are the next to be counted. */
  lemma CountedNow(h: History, k: nat, g: nat)
    requires 0 < k <= |h.outputs|
    ensures StartedBy(h, k, g) == StartedBy(h, k - 1, g) + StartedIn(h.outputs[k - 1], g)
  {
  }

  lemma LoopKept(h: History, k: nat, i: nat)
    requires 0 < k <= |h.outputs| && k < |h.states| && KeepsFrames(h, k - 1)
    requires i < |h.states[k - 1].loops| && i < |h.states[k].loops| && h.states[k].loops[i] == h.states[k - 1].loops[i]
    requires SentInOrder(h, k - 1, i) && StartedIn(h.outputs[k - 1], h.states[k].loops[i].generation) == []
    ensures SentInOrder(h, k, i)
  {
    CountedNow(h, k, h.states[k].loops[i].generation);
    hide StartedBy, LoopsOK;
  }

  lemma LoopMoved(h: History, k: nat, i: nat, ok: bool)
    requires 0 < k <= |h.outputs| && k < |h.states| && KeepsFrames(h, k - 1)
    requires Suspended(h.states[k - 1], i) && SentInOrder(h, k - 1, i)
    requires LoopMoves(h.states[k - 1], i, ok, h.states[k], h.outputs[k - 1])
    ensures SentInOrder(h, k, i)
  {
    var l := h.states[k - 1].loops[i];
    CountedNow(h, k, l.generation);
    OneMoreFrame(l.message, l.generation, l.next + 1);
    hide StartedBy, LoopsOK, StartedIn;
  }

  lemma LoopOpened(h: History, k: nat)
    requires 0 < k <= |h.outputs| && k < |h.states| && KeepsFrames(h, k - 1)
    requires LoopOpens(h.states[k - 1], h.states[k], h.outputs[k - 1])
    requires StartedBy(h, k - 1, h.states[k - 1].generation + 1) == []
    ensures SentInOrder(h, k, |h.states[k - 1].loops|)
  {
    CountedNow(h, k, h.states[k - 1].generation + 1);
    OneMoreFrame(h.states[k - 1].active.value, h.states[k - 1].generation + 1, 0);
    hide StartedBy, LoopsOK, StartedIn;
  }

  /** A step starts frames only under the generation of the loop that it moves or opens. */
  lemma OthersStay(h: History, k: nat, i: nat)
    requires 0 < k <= |h.outputs| && k < |h.states| && k <= |h.inputs| && KeepsFrames(h, k - 1)
    requires RoundStep(h.states[k - 1], h.inputs[k - 1], h.states[k], h.outputs[k - 1])
    requires i < |h.states[k - 1].loops|
    ensures i < |h.states[k].loops| && h.states[k].loops[i].generation == h.states[k - 1].loops[i].generation
    ensures !(h.inputs[k - 1].Resume? && h.inputs[k - 1].loop == i && Suspended(h.states[k - 1], i)) ==>
      h.states[k].loops[i] == h.states[k - 1].loops[i]
      && StartedIn(h.outputs[k - 1], h.states[k].loops[i].generation) == []
  {
    hide StartedIn, AsksForRetry, Sends;
  }

  lemma NextInOrder(h: History, k: nat)
    requires 0 < k <= |h.outputs| && k < |h.states| && k <= |h.inputs| && KeepsFrames(h, k - 1) && AllInOrder(h, k - 1)
    requires RoundStep(h.states[k - 1], h.inputs[k - 1], h.states[k], h.outputs[k - 1])
    ensures AllInOrder(h, k)
  {
    hide SentInOrder, KeepsFrames, StartedIn, StartedBy, LoopMoves, LoopOpens, StartsOnly, RetryIsDue;
    var s, e, s' := h.states[k - 1], h.inputs[k - 1], h.states[k];
    forall i: nat | i < |s'.loops|
      ensures SentInOrder(h, k, i)
    {
      LoopsCount(s, e, s', h.outputs[k - 1]);
      if i == |s.loops| {
        NoLoopYet(h, k - 1);
        LoopOpened(h, k);
      } else {
        assert SentInOrder(h, k - 1, i);
        OthersStay(h, k, i);
        if e.Resume? && e.loop == i && Suspended(s, i) { LoopMoved(h, k, i, e.succeeded); } else { LoopKept(h, k, i); }
      }
    }
    forall g: nat | StartedBy(h, k, g) != []
      ensures HasLoop(s', g)
    {
      CountedNow(h, k, g);
      if StartedBy(h, k - 1, g) != [] {
        var i :| 0 <= i < |s.loops| && s.loops[i].generation == g;
        OthersStay(h, k, i);
      } else {
        StartedHasLoop(s, e, s', h.outputs[k - 1], g);
      }
    }
  }

  lemma LoopsCount(s: State, e: Input, s': State, outs: seq<Output>)
    requires RoundStep(s, e, s', outs)
    ensures |s.loops| <= |s'.loops| <= |s.loops| + 1
    ensures |s'.loops| > |s.loops| ==> LoopOpens(s, s', outs)
  {
    hide StartsOnly, RetryIsDue;
  }

  lemma NoLoopYet(h: History, k: nat)
    requires k <= |h.outputs| && KeepsFrames(h, k) && AllInOrder(h, k)
    ensures StartedBy(h, k, h.states[k].generation + 1) == []
  {
    hide StartedBy, SentInOrder;
  }

  lemma StartedHasLoop(s: State, e: Input, s': State, outs: seq<Output>, g: nat)
    requires RoundStep(s, e, s', outs) && StartedIn(outs, g) != []
    ensures HasLoop(s', g)
  {
    hide StartedIn, Sends, RetryIsDue;
    if e.Resume? && Suspended(s, e.loop) {
      assert s'.loops[e.loop].generation == g;
    } else {
      assert s'.loops[|s.loops|].generation == g;
    }
  }

  // What rounds come to --------------------------------------------------------------------------------------------

  /** In every run each round has sent an initial part of its message's frames: in order, and each of them once. */
  lemma RoundInOrder(h: History, canSend: bool, k: nat, i: nat)
    requires IsRun(h, canSend) && k < |h.states| && i < |h.states[k].loops|
    ensures var l := h.states[k].loops[i];
      var sent := StartedBy(h, k, l.generation);
      && sent == FirstFrames(l.message, l.generation, |sent|)
      && l.message < |h.states[k].messages| && |sent| <= |h.states[k].messages[l.message].frames|
  {
    InOrder(h, canSend, k);
    assert SentInOrder(h, k, i);
    hide IsRun;
  }

  /**
   * A retry that is due starts a round of the active message: from the first frame, with a loop that is
   * then the live one.
   */
  lemma RetryStartsRound(h: History, canSend: bool, k: nat)
    requires IsRun(h, canSend) && k < |h.inputs| && RetryIsDue(h.states[k], h.inputs[k])
    requires Sends(h.states[k].messages[h.states[k].active.value], 0)
    ensures var s, s', g := h.states[k], h.states[k + 1], h.states[k].generation + 1;
      && StartedIn(h.outputs[k], g) == [FrameStarted(s.active.value, 0, g)]
      && s'.loops == s.loops + [Loop(s.active.value, g, 0, false)] && IsLive(s', |s.loops|)
  {
    LastMove(h, canSend, k);
    StepRound(h.states[k], h.inputs[k]);
    hide IsRun, Step, Inv, StartedIn;
  }

  /** While it is live, and its message not acknowledged, each successful send is followed by that of the next frame. */
  lemma NextFrameFollows(h: History, canSend: bool, k: nat, i: nat)
    requires IsRun(h, canSend) && k < |h.inputs| && h.inputs[k] == Resume(i, true)
    requires IsLive(h.states[k], i) && h.states[k].loops[i].message < |h.states[k].messages|
    requires var l := h.states[k].loops[i];
      !h.states[k].messages[l.message].acked && Sends(h.states[k].messages[l.message], l.next + 1)
    ensures var l := h.states[k].loops[i];
      && StartedIn(h.outputs[k], l.generation) == [FrameStarted(l.message, l.next + 1, l.generation)]
      && h.states[k + 1].loops == h.states[k].loops[i := l.(next := l.next + 1)]
  {
    LastMove(h, canSend, k);
    StepRound(h.states[k], h.inputs[k]);
    hide IsRun, Step, Inv, StartedIn;
  }

  predicate AllFit(m: Pending) {
    forall i :: 0 <= i < |m.frames| ==> |m.frames[i]| <= V6B_MAX_PAYLOAD_SIZE
  }

  /**
   * So a live round that ends after a successful send, with the message not acknowledged, has sent all
   * its frames, each once and in order, and the timer runs again.
   */
  lemma RoundIsComplete(h: History, canSend: bool, k: nat, i: nat)
    requires IsRun(h, canSend) && k < |h.inputs| && h.inputs[k] == Resume(i, true)
    requires IsLive(h.states[k], i) && h.states[k].loops[i].message < |h.states[k].messages|
    requires var m := h.states[k].messages[h.states[k].loops[i].message]; !m.acked && AllFit(m)
    requires i < |h.states[k + 1].loops| && h.states[k + 1].loops[i].ended
    ensures var l := h.states[k].loops[i];
      StartedBy(h, k + 1, l.generation)
      == FirstFrames(l.message, l.generation, |h.states[k].messages[l.message].frames|)
    ensures h.states[k + 1].retryTimer.Armed?
  {
    hide Step, Inv, StartedIn, SentInOrder, AllInOrder;
    LastMove(h, canSend, k);
    InOrder(h, canSend, k);
    hide IsRun;
    StepRound(h.states[k], h.inputs[k]);
    assert SentInOrder(h, k, i) by { Unordered(h, k, i); }
    assert LoopMoves(h.states[k], i, true, h.states[k + 1], h.outputs[k]) && !GoesOn(h.states[k], i);
    CompleteNow(h, k, i);
    EndArms(h.states[k], i);
  }

  lemma Unordered(h: History, k: nat, i: nat)
    requires k <= |h.outputs| && k < |h.states| && AllInOrder(h, k) && i < |h.states[k].loops|
    ensures SentInOrder(h, k, i)
  {
  }

  lemma CompleteNow(h: History, k: nat, i: nat)
    requires k < |h.outputs| && k + 1 < |h.states| && Suspended(h.states[k], i) && SentInOrder(h, k, i)
    requires LoopMoves(h.states[k], i, true, h.states[k + 1], h.outputs[k]) && !GoesOn(h.states[k], i)
    requires var m := h.states[k].messages[h.states[k].loops[i].message]; !m.acked && AllFit(m)
    requires h.states[k].loops[i].generation == h.states[k].generation
    ensures var l := h.states[k].loops[i];
      StartedBy(h, k + 1, l.generation)
      == FirstFrames(l.message, l.generation, |h.states[k].messages[l.message].frames|)
  {
  }

  /** The live loop of an unacknowledged message arms the timer when it ends. */
  lemma EndArms(s: State, i: nat)
    requires Inv(s) && IsLive(s, i) && Suspended(s, i) && !s.messages[s.loops[i].message].acked && !GoesOn(s, i)
    ensures InRange(s, s.active) && InRange(s, s.queued) && Step(s, Resume(i, true)).0.retryTimer.Armed?
  {
    OnlyLastIsLive(s, i);
  }

  // The timer --------------------------------------------------------------------------------------------------------

  /** The round of a retry ends at once, as there is no frame to send. */
  predicate RoundIsEmpty(s: State, e: Input) {
    RetryIsDue(s, e) && !Sends(s.messages[s.active.value], 0)
  }

  /** The live round, of a message that has not been acknowledged, ends with this input. */
  predicate LiveRoundEnds(s: State, e: Input) {
    && e.Resume? && Suspended(s, e.loop) && s.loops[e.loop].generation == s.generation
    && !s.messages[s.loops[e.loop].message].acked && !(e.succeeded && GoesOn(s, e.loop))
  }

  /** The timer has just fired, or is stopped: by the answer to the active message, or by a cancellation. */
  predicate TimerStops(s: State, e: Input) {
    || e.TimerFires? || e.Cancel? || (e.HandleNack? && AsksForRetry(s, e))
    || (&& e.HandleAck? && s.active.Some? && s.active.value < |s.messages|
        && s.messages[s.active.value].messageId == e.ackedId)
  }

  /** After a step the timer runs exactly if onFrameSent or the end of a round has started it, or it was left running. */
  ghost predicate TimerMoves(s: State, e: Input, s': State) {
    s'.retryTimer.Armed? <==>
      || (e.OnFrameSent? && s.active.Some?) || RoundIsEmpty(s, e) || LiveRoundEnds(s, e)
      || (s.retryTimer.Armed? && !TimerStops(s, e))
  }

  lemma FinishTimer(s: State, i: nat)
    requires Inv(s) && InRange(s, s.active) && InRange(s, s.queued) && Suspended(s, i)
    ensures Finish(s, i).0.retryTimer
         == if IsLive(s, i) && !s.messages[s.loops[i].message].acked then Armed else s.retryTimer
  {
    if IsLive(s, i) { OnlyLastIsLive(s, i); }
  }

  lemma ContinueTimer(s: State, i: nat)
    requires Inv(s) && InRange(s, s.active) && InRange(s, s.queued) && Suspended(s, i)
    ensures var l, m := s.loops[i], s.messages[s.loops[i].message];
      Continue(s, i).0.retryTimer
      == if IsLive(s, i) && !m.acked && !Sends(m, l.next) then Armed else s.retryTimer
  {
    FinishTimer(s, i);
    hide Finish, Inv;
  }

  lemma ResumeTimer(s: State, i: nat, ok: bool)
    requires Inv(s) && InRange(s, s.active) && InRange(s, s.queued)
    ensures TimerMoves(s, Resume(i, ok), Resumed(s, i, ok).0)
  {
    if Suspended(s, i) {
      var s1 := s.(loops := s.loops[i := s.loops[i].(next := s.loops[i].next + 1)]);
      LoopUpdateOK(s, i, s1.loops[i]);
      assert Inv(s1);
      FinishTimer(s, i);
      ContinueTimer(s1, i);
    }
    hide Finish, Continue, Inv, RoundIsEmpty;
  }

  lemma RetryTimer(s: State, t: Timer, kind: EventKind)
    requires Inv(s) && s.active.Some? && s.active.value < |s.messages| && InRange(s, s.queued)
    ensures var m := s.messages[s.active.value];
      Retry(Bump(s).(retryTimer := t), kind).0.retryTimer
      == if s.canSend && !s.retransmitting && m.retryCount < MAX_RETRIES && !Sends(m, 0) then Armed else t
  {
    var b := Bump(s).(retryTimer := t);
    AdvanceSilent(Exhausted(b));
    if s.canSend && !s.retransmitting && s.messages[s.active.value].retryCount < MAX_RETRIES {
      BumpCounted(s, t);
      LaunchedInv(b);
      ContinueTimer(Launched(b), |s.loops|);
    }
    hide Inv, Counted, Continue, Advance;
  }

  lemma AckTimer(s: State, id: string)
    requires InRange(s, s.active) && InRange(s, s.queued)
    ensures TimerMoves(s, HandleAck(id), Acknowledge(s, id).0)
  {
    if s.active.Some? { AdvanceSilent(MarkedAcked(s)); }
    hide Advance;
  }

  lemma StepTimer(s: State, e: Input)
    requires Inv(s)
    ensures InRange(s, s.active) && InRange(s, s.queued) && TimerMoves(s, e, Step(s, e).0)
  {
    InvInRange(s);
    hide Inv, Retry, Bump, Resumed, Acknowledge, ForgetBoth;
    match e
    case HandleAck(id) => AckTimer(s, id);
    case HandleNack(g) => if s.active.Some? { RetryTimer(s, NoTimer, NACK_RECEIVED); }
    case TimerFires =>
      if s.active.Some? {
        RetryTimer(s, Spent, TIMEOUT_RETRY);
        BumpTimer(s, Spent);
      }
    case HandleTimeout =>
      if s.active.Some? {
        RetryTimer(s, s.retryTimer, TIMEOUT_RETRY);
        BumpTimer(s, s.retryTimer);
      }
    case Resume(i, ok) => ResumeTimer(s, i, ok);
    case _ =>
  }

  /** In every run, after every step, the timer runs exactly when it should. */
  lemma TimerRunsExactly(h: History, canSend: bool, k: nat)
    requires IsRun(h, canSend) && k < |h.inputs|
    ensures TimerMoves(h.states[k], h.inputs[k], h.states[k + 1])
  {
    LastMove(h, canSend, k);
    StepTimer(h.states[k], h.inputs[k]);
    hide IsRun, Step, Inv, TimerMoves;
  }
}
