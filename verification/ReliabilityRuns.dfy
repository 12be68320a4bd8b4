/** What holds at every point of every run of the reliable sender. */
module ReliabilityRuns {
  import opened Wrappers
  import opened ReliabilityManager
  import opened ReliabilityProofs

  /** A history of the manager: inputs[k] takes states[k] to states[k + 1] and puts out outputs[k]. */
  datatype History = History(states: seq<State>, inputs: seq<Input>, outputs: seq<seq<Output>>)

  ghost predicate Moves(h: History, k: nat) {
    && k < |h.inputs| == |h.outputs| && |h.states| == |h.inputs| + 1
    && InRange(h.states[k], h.states[k].active) && InRange(h.states[k], h.states[k].queued)
    && (h.states[k + 1], h.outputs[k]) == Step(h.states[k], h.inputs[k])
  }

  ghost predicate IsRun(h: History, canSend: bool) {
    && |h.inputs| == |h.outputs| && |h.states| == |h.inputs| + 1
    && h.states[0] == Init(canSend)
    && forall k: nat :: k < |h.inputs| ==> Moves(h, k)
  }

  lemma {:induction false} RunInv(h: History, canSend: bool, k: nat)
    requires IsRun(h, canSend) && k < |h.states|
    ensures Inv(h.states[k])
  {
    if k > 0 {
      RunInv(h, canSend, k - 1);
      assert Moves(h, k - 1);
      StepInv(h.states[k - 1], h.inputs[k - 1]);
    }
    hide Inv, Step;
  }

  /** Every state can be continued by every input, so runs of all inputs exist. */
  lemma RunsGoOn(h: History, canSend: bool, e: Input) returns (h': History)
    requires IsRun(h, canSend)
    ensures IsRun(h', canSend) && h'.inputs == h.inputs + [e] && h'.states[..|h.states|] == h.states
  {
    var n := |h.inputs|;
    RunInv(h, canSend, n);
    StepInv(h.states[n], e);
    var (s, outs) := Step(h.states[n], e);
    h' := History(h.states + [s], h.inputs + [e], h.outputs + [outs]);
    hide Inv, Step;
    forall k: nat | k < n + 1
      ensures Moves(h', k)
    {
      if k < n { assert Moves(h, k); }
    }
  }

  /**
   * At every point of every run `retransmitting` holds exactly when one unfinished loop carries the
   * current generation; there is never a second one, and its message is the active message.
   */
  lemma OneLiveLoop(h: History, canSend: bool, k: nat)
    requires IsRun(h, canSend) && k < |h.states|
    ensures var s := h.states[k];
      && (s.retransmitting <==> exists i :: IsLive(s, i))
      && (forall i, j :: IsLive(s, i) && IsLive(s, j) ==> i == j)
      && (forall i: nat :: IsLive(s, i) ==> s.active == Some(s.loops[i].message))
  {
    RunInv(h, canSend, k);
    var s := h.states[k];
    forall i: nat | IsLive(s, i)
      ensures i == |s.loops| - 1 && s.retransmitting && s.active == Some(s.loops[i].message)
    {
      OnlyLastIsLive(s, i);
    }
    if s.retransmitting {
      assert IsLive(s, |s.loops| - 1);
    }
    hide IsRun, Inv;
  }

  /**
   * However many stale loops are suspended, every frame that a step of a run starts to send is a
   * frame of the active, unacknowledged message, started by the one live loop in order.
   */
  lemma OnlyActiveFrames(h: History, canSend: bool, k: nat)
    requires IsRun(h, canSend) && k < |h.inputs|
    ensures StartsActive(h.states[k + 1], h.outputs[k])
  {
    hide Inv, Step, StartsActive, InRange;
    RunInv(h, canSend, k);
    assert Moves(h, k);
    StepStartsActive(h.states[k], h.inputs[k]);
  }

  /** No message is ever transmitted again more than three rounds. */
  lemma AtMostThreeRounds(h: History, canSend: bool, k: nat, m: nat)
    requires IsRun(h, canSend) && k < |h.states|
    ensures Rounds(h.states[k].loops, m) <= MAX_RETRIES
  {
    RunInv(h, canSend, k);
  }

  /**
   * With a send function set: once onFrameSent has confirmed the active message, and for as long as
   * that message stays active, either the retry timer is armed or a live loop is retransmitting it.
   */
  lemma NeverStuck(h: History, canSend: bool, k: nat)
    requires IsRun(h, canSend) && k < |h.states|
    ensures var s := h.states[k];
      s.active.Some? && s.confirmed && s.canSend ==>
        s.retryTimer.Armed? || (Live(s) && s.active == Some(s.loops[|s.loops| - 1].message))
  {
    RunInv(h, canSend, k);
  }

  /** Each step of a run moves messages between active, queued and retired only as Conserves says. */
  lemma EveryStepConserves(h: History, canSend: bool, k: nat)
    requires IsRun(h, canSend) && k < |h.inputs|
    ensures Conserves(h.states[k], h.inputs[k], h.states[k + 1], h.outputs[k])
  {
    hide Inv, Step, Conserves, InRange;
    RunInv(h, canSend, k);
    assert Moves(h, k);
    StepConserves(h.states[k], h.inputs[k]);
  }

  /** Each step of a run reports exactly what happened to the active message. */
  lemma EveryStepReports(h: History, canSend: bool, k: nat)
    requires IsRun(h, canSend) && k < |h.inputs|
    ensures Reports(h.states[k], h.inputs[k], h.states[k + 1], h.outputs[k])
  {
    hide Inv, Step, Reports, InRange;
    RunInv(h, canSend, k);
    assert Moves(h, k);
    StepReports(h.states[k], h.inputs[k]);
  }

  /** At every point each registered message is in exactly one place, and queued implies active. */
  lemma ExactlyOnePlace(h: History, canSend: bool, k: nat, m: nat)
    requires IsRun(h, canSend) && k < |h.states| && m < |h.states[k].messages|
    ensures var s := h.states[k];
      && (if s.active == Some(m) then s.queued != Some(m) && !Retired(s, m)
          else if s.queued == Some(m) then s.active.Some? && !Retired(s, m)
          else Retired(s, m))
  {
    RunInv(h, canSend, k);
  }

  /** A retired message is never active or queued again, so it starts no further frame. */
  lemma {:induction false} RetiredForever(h: History, canSend: bool, j: nat, k: nat, m: nat)
    requires IsRun(h, canSend) && j <= k < |h.states| && Retired(h.states[j], m)
    ensures Retired(h.states[k], m)
  {
    if j < k {
      RetiredForever(h, canSend, j, k - 1, m);
      EveryStepConserves(h, canSend, k - 1);
    }
    hide IsRun;
  }

  /** An active message that has been acknowledged waits for the one live loop, which is suspended in a send. */
  ghost predicate AwaitsItsLoop(s: State, m: nat) {
    && s.active == Some(m) && m < |s.messages| && s.messages[m].acked
    && s.loops != [] && IsLive(s, |s.loops| - 1) && s.loops[|s.loops| - 1].message == m
  }

  /**
   * Once acknowledged, the active message is retired, or waits for its loop, at every later point of
   * the run, whatever happens in between.
   */
  lemma {:induction false} AckedWaitsOrIsRetired(h: History, canSend: bool, j: nat, k: nat, m: nat)
    requires IsRun(h, canSend) && j <= k < |h.states|
    requires m < |h.states[j].messages| && h.states[j].active == Some(m) && h.states[j].messages[m].acked
    ensures AwaitsItsLoop(h.states[k], m) || Retired(h.states[k], m)
    decreases k
  {
    hide Step, IsRun, Inv;
    if j < k {
      AckedWaitsOrIsRetired(h, canSend, j, k - 1, m);
      var s := h.states[k - 1];
      LastMove(h, canSend, k - 1);
      StepConserves(s, h.inputs[k - 1]);
      StepAcks(s, h.inputs[k - 1]);
      CancelEmpties(s);
      SlotsDiffer(s);
    }
    RunInv(h, canSend, k);
    if h.states[k].active == Some(m) { ActiveAckedIsLive(h.states[k], m); }
  }

  lemma CancelEmpties(s: State)
    requires Inv(s)
    ensures InRange(s, s.active) && InRange(s, s.queued)
    ensures Step(s, Cancel).0.active == None && Step(s, Cancel).0.queued == None
  {
  }

  lemma SlotsDiffer(s: State)
    requires Inv(s)
    ensures s.queued.Some? ==> s.active.Some? && s.active != s.queued
  {
  }

  lemma LastMove(h: History, canSend: bool, k: nat)
    requires IsRun(h, canSend) && k + 1 < |h.states|
    ensures Moves(h, k) && Inv(h.states[k])
  {
    RunInv(h, canSend, k);
    hide Inv, Step;
  }

  lemma ActiveAckedIsLive(s: State, m: nat)
    requires Inv(s) && s.active == Some(m) && m < |s.messages| && s.messages[m].acked
    ensures AwaitsItsLoop(s, m)
  {
  }

  /** And however the pending send of that loop settles, the message is retired then and the queued one promoted. */
  lemma LoopRetires(h: History, canSend: bool, k: nat, m: nat, ok: bool)
    requires IsRun(h, canSend) && k < |h.inputs| && AwaitsItsLoop(h.states[k], m)
    requires h.inputs[k] == Resume(|h.states[k].loops| - 1, ok)
    ensures k + 1 < |h.states| && Retired(h.states[k + 1], m)
    ensures h.states[k + 1].active == h.states[k].queued && !h.states[k + 1].retransmitting
    ensures k < |h.outputs| && PromotedIn(h.outputs[k]) ==
      if h.states[k].queued.Some? then [h.states[k].queued.value] else []
  {
    LastMove(h, canSend, k);
    AckedLoopRetires(h.states[k], |h.states[k].loops| - 1, ok);
    hide IsRun, Inv, Step;
  }

  /** Step i, taken while message m is active, reports the end of a message with its id. */
  ghost predicate ToldAt(h: History, i: nat, m: nat) {
    && i < |h.outputs| && i < |h.states| && h.states[i].active == Some(m) && m < |h.states[i].messages|
    && Told(h.outputs[i], h.states[i].messages[m].messageId)
  }

  /** Before point k of the run the end of message m has been reported. */
  ghost predicate ToldBy(h: History, k: nat, m: nat) {
    exists i: nat :: i < k && ToldAt(h, i, m)
  }

  lemma IdStays(h: History, canSend: bool, k: nat, m: nat)
    requires IsRun(h, canSend) && k + 1 < |h.states| && m < |h.states[k].messages|
    ensures m < |h.states[k + 1].messages| && h.states[k + 1].messages[m].messageId == h.states[k].messages[m].messageId
  {
    EveryStepConserves(h, canSend, k);
    hide IsRun;
  }

  /** The acknowledgement of an active message has been reported. */
  lemma {:induction false} AckWasTold(h: History, canSend: bool, k: nat, m: nat)
    requires IsRun(h, canSend) && k < |h.states| && m < |h.states[k].messages|
    requires h.states[k].active == Some(m) && h.states[k].messages[m].acked
    ensures ToldBy(h, k, m)
  {
    hide Step, Inv, Told;
    StartsEmpty(h, canSend);
    var s, e := h.states[k - 1], h.inputs[k - 1];
    LastMove(h, canSend, k - 1);
    StartsUnacked(s, e);
    assert s.active == Some(m);
    ActiveInside(s);
    IdStays(h, canSend, k - 1, m);
    hide IsRun;
    if s.messages[m].acked {
      AckWasTold(h, canSend, k - 1, m);
    } else {
      AckTold(s, e);
      assert ToldAt(h, k - 1, m);
    }
  }

  lemma StartsEmpty(h: History, canSend: bool)
    requires IsRun(h, canSend)
    ensures h.states[0].active == None && h.states[0].messages == []
  {
  }

  lemma ActiveInside(s: State)
    requires Inv(s) && s.active.Some?
    ensures s.active.value < |s.messages|
  {
  }

  /**
   * Nothing is lost in silence: when a message that was active has been retired, its acknowledgement,
   * the end of its retries or its cancellation has been reported.
   */
  lemma {:induction false} NoSilentLoss(h: History, canSend: bool, j: nat, k: nat, m: nat)
    requires IsRun(h, canSend) && j <= k < |h.states| && m < |h.states[j].messages| && h.states[j].active == Some(m)
    ensures m < |h.states[k].messages|
    ensures h.states[k].active == Some(m) || (Retired(h.states[k], m) && ToldBy(h, k, m))
    decreases k
  {
    hide Step, Inv, Told, Conserves;
    if j < k {
      NoSilentLoss(h, canSend, j, k - 1, m);
      var s, e := h.states[k - 1], h.inputs[k - 1];
      IdStays(h, canSend, k - 1, m);
      LastMove(h, canSend, k - 1);
      ActiveOrRetired(h, canSend, k - 1, m);
      hide IsRun;
      if s.active != Some(m) {
        var i: nat :| i < k - 1 && ToldAt(h, i, m);
      } else if s.messages[m].acked {
        AckWasTold(h, canSend, k - 1, m);
        var i: nat :| i < k - 1 && ToldAt(h, i, m);
      } else {
        LeavesTold(s, e);
        if h.states[k].active != Some(m) { assert ToldAt(h, k - 1, m); }
      }
    }
  }

  lemma ActiveOrRetired(h: History, canSend: bool, k: nat, m: nat)
    requires IsRun(h, canSend) && k + 1 < |h.states| && m < |h.states[k].messages|
    requires h.states[k].active == Some(m) || Retired(h.states[k], m)
    ensures h.states[k + 1].active == Some(m) || Retired(h.states[k + 1], m)
  {
    hide Step, Inv;
    var s := h.states[k];
    LastMove(h, canSend, k);
    EveryStepConserves(h, canSend, k);
    CancelEmpties(s);
    SlotsDiffer(s);
    hide IsRun;
  }
}
