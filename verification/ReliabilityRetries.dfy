/** How many retries a message has, which message a NACK is for, and what an ACK of the queued message does. */
module ReliabilityRetries {
  import opened Wrappers
  import opened ReliabilityManager
  import opened ReliabilityProofs
  import opened ReliabilityRuns
  import opened ReliabilityRounds

  // The count of retries -----------------------------------------------------------------------------------------

  /** A retry of a message with this id has been reported. */
  predicate Retried(outs: seq<Output>, id: string) {
    Notify(NACK_RECEIVED, id) in outs || Notify(TIMEOUT_RETRY, id) in outs
  }

  /** Step i, taken while message m is active, reports a retry of it. */
  predicate RetriedAt(h: History, i: nat, m: nat) {
    && i < |h.outputs| && i < |h.states| && h.states[i].active == Some(m) && m < |h.states[i].messages|
    && Retried(h.outputs[i], h.states[i].messages[m].messageId)
  }

  /** The number of retries of message m reported before point k of the run. */
  function RetriesOf(h: History, k: nat, m: nat): nat {
    if k == 0 then 0 else RetriesOf(h, k - 1, m) + if RetriedAt(h, k - 1, m) then 1 else 0
  }

  lemma SilentIsNoRetry(outs: seq<Output>, id: string)
    requires Silent(outs)
    ensures !Retried(outs, id)
  {
  }

  lemma OtherReportIsNoRetry(outs: seq<Output>, kind: EventKind, id: string)
    requires OnlyReports(outs, kind, id) && kind != NACK_RECEIVED && kind != TIMEOUT_RETRY
    ensures !Retried(outs, id)
  {
  }

  /** A retry is reported exactly if one is asked for and the message has retries left. */
  lemma RetriedExactly(s: State, e: Input)
    requires Inv(s) && s.active.Some? && s.active.value < |s.messages|
    ensures InRange(s, s.active) && InRange(s, s.queued)
    ensures var m := s.messages[s.active.value];
      Retried(Step(s, e).1, m.messageId) <==> AsksForRetry(s, e) && m.retryCount < MAX_RETRIES
  {
    StepReports(s, e);
    var outs, id := Step(s, e).1, s.messages[s.active.value].messageId;
    hide Step, Inv, Silent, OnlyReports, GroupGone;
    if Silent(outs) { SilentIsNoRetry(outs, id); }
    forall kind | OnlyReports(outs, kind, id) && kind != NACK_RECEIVED && kind != TIMEOUT_RETRY
      ensures !Retried(outs, id)
    {
      OtherReportIsNoRetry(outs, kind, id);
    }
    hide Retried;
  }

  /** If m is active and stays so, its retry count has grown by n. */
  ghost predicate Counts(s: State, m: nat, s': State, n: nat)
    requires m < |s.messages|
  {
    s'.active == Some(m) ==> m < |s'.messages| && s'.messages[m].retryCount == s.messages[m].retryCount + n
  }

  lemma FinishCounts(s: State, i: nat, m: nat)
    requires i < |s.loops| && s.loops[i].message < |s.messages| && InRange(s, s.active) && InRange(s, s.queued)
    requires m < |s.messages| && s.queued != Some(m)
    ensures Counts(s, m, Finish(s, i).0, 0) && Counts(s, m, Continue(s, i).0, 0)
  {
  }

  lemma RetryCounts(s: State, t: Timer, kind: EventKind)
    requires Inv(s) && s.active.Some? && s.active.value < |s.messages| && InRange(s, s.queued)
    ensures var m, s' := s.active.value, Retry(Bump(s).(retryTimer := t), kind).0;
      if s.messages[m].retryCount < MAX_RETRIES then Counts(s, m, s', 1) else s'.active != Some(m)
  {
    var b, m := Bump(s).(retryTimer := t), s.active.value;
    assert s.queued != Some(m);
    hide Inv, Finish, Continue;
    if s.canSend && !s.retransmitting { FinishCounts(Launched(b), |s.loops|, m); }
  }

  /** The retry count of the active message after a step at which it stays active. */
  lemma CountMoves(s: State, e: Input)
    requires Inv(s) && s.active.Some? && s.active.value < |s.messages|
    ensures InRange(s, s.active) && InRange(s, s.queued)
    ensures var m := s.active.value;
      Counts(s, m, Step(s, e).0, if AsksForRetry(s, e) && s.messages[m].retryCount < MAX_RETRIES then 1 else 0)
  {
    InvInRange(s);
    var m := s.active.value;
    assert s.queued != Some(m);
    hide Inv, Retry, Bump, Resumed, Acknowledge, Cancelled, Counts;
    match e
    case HandleNack(g) =>
      RetryCounts(s, NoTimer, NACK_RECEIVED);
      StayCounts(s, m);
    case TimerFires =>
      RetryCounts(s, Spent, TIMEOUT_RETRY);
      BumpTimer(s, Spent);
      StayCounts(s, m);
    case HandleTimeout =>
      RetryCounts(s, s.retryTimer, TIMEOUT_RETRY);
      BumpTimer(s, s.retryTimer);
    case Resume(i, ok) => ResumeCounts(s, i, ok, m);
    case HandleAck(id) => AckCounts(s, id, m);
    case _ => OtherCounts(s, e, m);
  }

  lemma StayCounts(s: State, m: nat)
    requires m < |s.messages|
    ensures Counts(s, m, s, 0)
  {
  }

  lemma ResumeCounts(s: State, i: nat, ok: bool, m: nat)
    requires InRange(s, s.active) && InRange(s, s.queued) && m < |s.messages| && s.queued != Some(m)
    ensures Counts(s, m, Resumed(s, i, ok).0, 0)
  {
    hide Continue, Finish;
    if Suspended(s, i) {
      FinishCounts(s, i, m);
      FinishCounts(s.(loops := s.loops[i := s.loops[i].(next := s.loops[i].next + 1)]), i, m);
    }
  }

  lemma AckCounts(s: State, id: string, m: nat)
    requires InRange(s, s.active) && InRange(s, s.queued) && s.active == Some(m) && s.queued != Some(m)
    ensures Counts(s, m, Acknowledge(s, id).0, 0)
  {
  }

  lemma OtherCounts(s: State, e: Input, m: nat)
    requires InRange(s, s.active) && InRange(s, s.queued) && m < |s.messages| && s.active == Some(m)
    requires e.Send? || e.RegisterGroupId? || e.OnFrameSent? || e.Cancel?
    ensures Counts(s, m, Step(s, e).0, 0)
  {
    hide ForgetBoth;
  }

  /** If m is active now, it has not been retried yet. */
  predicate Unretried(s: State, m: nat) {
    s.active == Some(m) ==> m < |s.messages| && s.messages[m].retryCount == 0
  }

  lemma AdvanceUnretried(s: State, m: nat)
    requires InRange(s, s.queued)
    ensures Unretried(Advance(s).0, m)
  {
  }

  lemma FinishUnretried(s: State, i: nat, m: nat)
    requires i < |s.loops| && s.loops[i].message < |s.messages| && InRange(s, s.active) && InRange(s, s.queued)
    requires s.active != Some(m)
    ensures Unretried(Finish(s, i).0, m) && Unretried(Continue(s, i).0, m)
  {
    AdvanceUnretried(s.(loops := s.loops[i := s.loops[i].(ended := true)], retransmitting := false), m);
    hide Advance;
  }

  lemma RetryUnretried(s: State, kind: EventKind, m: nat)
    requires s.active.Some? && s.active != Some(m) && InRange(s, s.active) && InRange(s, s.queued)
    ensures Unretried(Retry(s, kind).0, m)
  {
    AdvanceUnretried(Exhausted(s), m);
    hide Advance, Finish, Continue;
    if s.canSend && !s.retransmitting { FinishUnretried(Launched(s), |s.loops|, m); }
  }

  lemma AckUnretried(s: State, id: string, m: nat)
    requires s.active != Some(m) && InRange(s, s.active) && InRange(s, s.queued)
    ensures Unretried(Acknowledge(s, id).0, m)
  {
    if s.active.Some? && s.messages[s.active.value].messageId == id { AdvanceUnretried(MarkedAcked(s), m); }
    hide Advance;
  }

  /** A message starts its time as the active one without a retry. */
  lemma StartsUncounted(s: State, e: Input, m: nat)
    requires Inv(s) && s.active != Some(m)
    ensures InRange(s, s.active) && InRange(s, s.queued) && Unretried(Step(s, e).0, m)
  {
    InvInRange(s);
    hide Inv, Retry, Continue, Finish, Acknowledge;
    match e
    case HandleAck(id) => AckUnretried(s, id, m);
    case HandleNack(g) => if s.active.Some? { RetryUnretried(Bump(s).(retryTimer := NoTimer), NACK_RECEIVED, m); }
    case TimerFires => if s.active.Some? { RetryUnretried(Bump(s.(retryTimer := Spent)), TIMEOUT_RETRY, m); }
    case HandleTimeout => if s.active.Some? { RetryUnretried(Bump(s), TIMEOUT_RETRY, m); }
    case Resume(i, _) =>
      if Suspended(s, i) {
        FinishUnretried(s, i, m);
        FinishUnretried(s.(loops := s.loops[i := s.loops[i].(next := s.loops[i].next + 1)]), i, m);
      }
    case _ =>
  }

  // Over runs ------------------------------------------------------------------------------------------------------

  /** What becomes active has not been active before. */
  lemma {:induction false} NeverRetriedBefore(h: History, canSend: bool, j: nat, k: nat, m: nat)
    requires IsRun(h, canSend) && j <= k && k + 1 < |h.states|
    requires h.states[k].active != Some(m) && h.states[k + 1].active == Some(m)
    ensures RetriesOf(h, j, m) == 0
  {
    if j > 0 {
      NeverRetriedBefore(h, canSend, j - 1, k, m);
      if RetriedAt(h, j - 1, m) {
        NoSilentLoss(h, canSend, j - 1, k, m);
        RetiredForever(h, canSend, k, k + 1, m);
      }
    }
    hide IsRun, RetriedAt;
  }

  /** In every run the retry count of the active message is the number of its retries that have been reported. */
  lemma {:induction false} CountsRetries(h: History, canSend: bool, k: nat, m: nat)
    requires IsRun(h, canSend) && k < |h.states| && h.states[k].active == Some(m)
    ensures m < |h.states[k].messages| && h.states[k].messages[m].retryCount == RetriesOf(h, k, m)
  {
    hide Step, Inv, AsksForRetry, Retried;
    StartsEmpty(h, canSend);
    var s, e := h.states[k - 1], h.inputs[k - 1];
    LastMove(h, canSend, k - 1);
    if s.active == Some(m) {
      CountsRetries(h, canSend, k - 1, m);
      hide IsRun;
      CountMoves(s, e);
      RetriedExactly(s, e);
    } else {
      NeverRetriedBefore(h, canSend, k - 1, k - 1, m);
      hide IsRun;
      StartsUncounted(s, e, m);
    }
  }

  /** And it is given up exactly at the request for a retry that comes after three of them. */
  lemma GivesUpAfterThree(h: History, canSend: bool, k: nat, m: nat)
    requires IsRun(h, canSend) && k < |h.inputs| && h.states[k].active == Some(m)
    ensures m < |h.states[k].messages|
    ensures Notify(MAX_RETRIES_REACHED, h.states[k].messages[m].messageId) in h.outputs[k] <==>
      AsksForRetry(h.states[k], h.inputs[k]) && RetriesOf(h, k, m) == MAX_RETRIES
  {
    CountsRetries(h, canSend, k, m);
    LastMove(h, canSend, k);
    EveryStepReports(h, canSend, k);
    hide IsRun, Step;
    AtMostThree(h.states[k]);
    EndedExactly(h.states[k], h.inputs[k], h.states[k + 1], h.outputs[k]);
  }

  lemma AtMostThree(s: State)
    requires Inv(s) && s.active.Some?
    ensures s.active.value < |s.messages| && s.messages[s.active.value].retryCount <= MAX_RETRIES
  {
  }

  lemma EndedExactly(s: State, e: Input, s': State, outs: seq<Output>)
    requires s.active.Some? && s.active.value < |s.messages| && InRange(s, s.active) && Reports(s, e, s', outs)
    requires s.messages[s.active.value].retryCount <= MAX_RETRIES
    ensures var m := s.messages[s.active.value];
      Notify(MAX_RETRIES_REACHED, m.messageId) in outs <==> AsksForRetry(s, e) && m.retryCount == MAX_RETRIES
  {
  }

  // Which message a NACK is for --------------------------------------------------------------------------------------

  predicate InSlot(s: State, m: nat) {
    m < |s.messages| && (s.active == Some(m) || s.queued == Some(m))
  }

  /** No message of group g leaves its slot or is acknowledged, and the group is not registered anew. */
  ghost predicate GroupGoesOn(s: State, e: Input, s': State, g: nat) {
    && (e.RegisterGroupId? ==> e.group != g)
    && forall m: nat :: InSlot(s, m) && s.messages[m].groupId == g ==> InSlot(s', m) && !s'.messages[m].acked
  }

  lemma FinishGroups(s: State, i: nat)
    requires i < |s.loops| && s.loops[i].message < |s.messages| && InRange(s, s.active) && InRange(s, s.queued)
    ensures Finish(s, i).0.groupIds == s.groupIds && Continue(s, i).0.groupIds == s.groupIds
  {
  }

  lemma RetryGroups(s: State, kind: EventKind)
    requires s.active.Some? && InRange(s, s.active) && InRange(s, s.queued) && s.queued != s.active
    ensures var m, s' := s.messages[s.active.value], Retry(s, kind).0;
      if m.retryCount > MAX_RETRIES
      then s'.active != s.active && s'.queued == None && s'.groupIds == ForgetGroup(s, m.groupId).groupIds
      else s'.groupIds == s.groupIds
  {
    hide Finish, Continue;
    if s.canSend && !s.retransmitting { FinishGroups(Launched(s), |s.loops|); }
  }

  lemma AckGroups(s: State, id: string, g: nat)
    requires Inv(s) && InRange(s, s.active) && InRange(s, s.queued) && g in s.groupIds
    requires GroupGoesOn(s, HandleAck(id), Acknowledge(s, id).0, g)
    ensures var s' := Acknowledge(s, id).0; g in s'.groupIds && s'.groupIds[g] == s.groupIds[g]
  {
    assert s.active.Some? ==> InSlot(s, s.active.value);
    assert s.queued.Some? ==> InSlot(s, s.queued.value);
  }

  lemma CountedGroups(s: State, t: Timer, kind: EventKind, g: nat)
    requires s.active.Some? && InRange(s, s.active) && InRange(s, s.queued) && s.queued != s.active && g in s.groupIds
    ensures var s' := Retry(Bump(s).(retryTimer := t), kind).0;
      (s.messages[s.active.value].groupId == g ==> InSlot(s', s.active.value)) ==>
        g in s'.groupIds && s'.groupIds[g] == s.groupIds[g]
  {
    RetryGroups(Bump(s).(retryTimer := t), kind);
    hide Retry;
  }

  lemma CancelGroups(s: State, g: nat)
    requires InRange(s, s.active) && InRange(s, s.queued) && g in s.groupIds
    requires GroupGoesOn(s, Cancel, Cancelled(s).0, g)
    requires (s.active.Some? ==> InSlot(s, s.active.value)) && (s.queued.Some? ==> InSlot(s, s.queued.value))
    ensures g in Cancelled(s).0.groupIds && Cancelled(s).0.groupIds[g] == s.groupIds[g]
  {
  }

  /** A registration lasts as long as the messages of the group are waiting. */
  lemma StepGroups(s: State, e: Input, g: nat)
    requires Inv(s) && g in s.groupIds
    requires InRange(s, s.active) && InRange(s, s.queued) && GroupGoesOn(s, e, Step(s, e).0, g)
    ensures var s' := Step(s, e).0; g in s'.groupIds && s'.groupIds[g] == s.groupIds[g]
  {
    hide Retry, Bump, Continue, Finish, Acknowledge, Cancelled;
    assert s.active.Some? ==> InSlot(s, s.active.value);
    assert s.queued.Some? ==> InSlot(s, s.queued.value) && s.queued != s.active;
    hide Inv;
    match e
    case HandleAck(id) => AckGroups(s, id, g);
    case HandleNack(_) => if s.active.Some? { CountedGroups(s, NoTimer, NACK_RECEIVED, g); }
    case TimerFires =>
      if s.active.Some? {
        CountedGroups(s, Spent, TIMEOUT_RETRY, g);
        BumpTimer(s, Spent);
      }
    case HandleTimeout =>
      if s.active.Some? {
        CountedGroups(s, s.retryTimer, TIMEOUT_RETRY, g);
        BumpTimer(s, s.retryTimer);
      }
    case Resume(i, _) =>
      if Suspended(s, i) {
        FinishGroups(s, i);
        FinishGroups(s.(loops := s.loops[i := s.loops[i].(next := s.loops[i].next + 1)]), i);
      }
    case Cancel => CancelGroups(s, g);
    case _ =>
  }

  ghost predicate GroupGoesOnAt(h: History, i: nat, g: nat) {
    i < |h.inputs| && i + 1 < |h.states| && GroupGoesOn(h.states[i], h.inputs[i], h.states[i + 1], g)
  }

  lemma {:induction false} StaysRegistered(h: History, canSend: bool, j: nat, k: nat, g: nat, id: string)
    requires IsRun(h, canSend) && j < k < |h.states| && h.inputs[j] == RegisterGroupId(g, id)
    requires forall i: nat :: j < i < k ==> GroupGoesOnAt(h, i, g)
    ensures g in h.states[k].groupIds && h.states[k].groupIds[g] == id
  {
    hide Inv, GroupGoesOn;
    LastMove(h, canSend, k - 1);
    if j < k - 1 {
      StaysRegistered(h, canSend, j, k - 1, g, id);
      assert GroupGoesOnAt(h, k - 1, g);
      hide IsRun, Step;
      StepGroups(h.states[k - 1], h.inputs[k - 1], g);
    }
  }

  /**
   * While the messages of a group are waiting, a NACK of that group asks for a retry of the active
   * message if the group has been registered under its id: the retry is reported, or the message's end.
   */
  lemma NackIsHeard(h: History, canSend: bool, j: nat, k: nat, g: nat, m: nat)
    requires IsRun(h, canSend) && j < k < |h.inputs| && h.states[k].active == Some(m) && m < |h.states[k].messages|
    requires h.inputs[j] == RegisterGroupId(g, h.states[k].messages[m].messageId)
    requires h.states[k].messages[m].messageId != "" && h.inputs[k] == HandleNack(g)
    requires forall i: nat :: j < i < k ==> GroupGoesOnAt(h, i, g)
    ensures RetriedAt(h, k, m) || Notify(MAX_RETRIES_REACHED, h.states[k].messages[m].messageId) in h.outputs[k]
  {
    hide GroupGoesOnAt;
    StaysRegistered(h, canSend, j, k, g, h.states[k].messages[m].messageId);
    CountsRetries(h, canSend, k, m);
    GivesUpAfterThree(h, canSend, k, m);
    LastMove(h, canSend, k);
    AtMostThree(h.states[k]);
    RetriedExactly(h.states[k], h.inputs[k]);
    hide IsRun, Step, Inv, Retried;
  }

  /** A cancellation forgets the groups of both messages and leaves neither. */
  lemma CancelForgetsBoth(s: State, m: nat)
    requires Inv(s) && InSlot(s, m)
    ensures InRange(s, s.active) && InRange(s, s.queued)
    ensures var s' := Step(s, Cancel).0;
      GroupGone(s', s.messages[m].groupId) && Retired(s', m) && s'.retryTimer == NoTimer && !s'.retransmitting
  {
  }

  // The queued message ---------------------------------------------------------------------------------

  /** An acknowledgement of the queued message retires it, without a word and without touching the active one. */
  lemma QueuedAckRetires(s: State, id: string, q: nat)
    requires Inv(s) && s.queued == Some(q) && q < |s.messages| && s.messages[q].messageId == id
    requires s.active.Some? && s.active.value < |s.messages| && s.messages[s.active.value].messageId != id
    ensures InRange(s, s.active) && InRange(s, s.queued)
    ensures var (s', outs) := Step(s, HandleAck(id));
      && Retired(s', q) && s'.messages[q].acked && GroupGone(s', s.messages[q].groupId) && outs == []
      && s'.active == s.active && s'.retryTimer == s.retryTimer && s'.loops == s.loops && s'.generation == s.generation
  {
  }
}
