/**
 * The per-peer reliable sender: one active message, one queued message, a retry timer and
 * asynchronous retransmission loops. Every await is a step boundary, so any number of stale loops
 * may be suspended at once; `Resume` continues one of them when its pending send settles.
 *
 * References to PendingMessage objects are indices into `messages`, in order of registration.
 */
module ReliabilityManager {
  import opened Wrappers
  import opened Bytes

  const MAX_RETRIES := 3
  const V6B_MAX_PAYLOAD_SIZE := 499

  /** `frames` are the payloads of one transmission round: the packet itself, or its fragments. */
  datatype Pending = Pending(messageId: string, groupId: nat, frames: seq<seq<byte>>, acked: bool, retryCount: nat)

  /** The handle in retryTimer: none, a pending timeout, or one that has already fired. */
  datatype Timer = NoTimer | Armed | Spent

  /** A retransmission loop whose send of frame `next` is pending, or that has ended. */
  datatype Loop = Loop(message: nat, generation: nat, next: nat, ended: bool)

  datatype EventKind = ACK_RECEIVED | NACK_RECEIVED | MAX_RETRIES_REACHED | TIMEOUT_RETRY | CANCELLED

  datatype Output =
    | Notify(kind: EventKind, messageId: string)
    | Promoted(message: nat)
    | FrameStarted(message: nat, index: nat, generation: nat)

  /** `confirmed` says whether onFrameSent has been called since the active message became active. */
  datatype State = State(
    messages: seq<Pending>, active: Option<nat>, queued: Option<nat>, retryTimer: Timer,
    retransmitting: bool, generation: nat, groupIds: map<nat, string>, loops: seq<Loop>,
    canSend: bool, confirmed: bool)

  datatype Input =
    | Send(messageId: string, groupId: nat, frames: seq<seq<byte>>)
    | RegisterGroupId(group: nat, id: string)
    | OnFrameSent
    | HandleAck(ackedId: string)
    | HandleNack(nackedGroup: nat)
    | TimerFires
    | HandleTimeout
    | Resume(loop: nat, succeeded: bool)
    | Cancel

  function Init(canSend: bool): State {
    State([], None, None, NoTimer, false, 0, map[], [], canSend, false)
  }

  predicate InRange(s: State, m: Option<nat>) {
    m.Some? ==> m.value < |s.messages|
  }

  function ForgetGroup(s: State, groupId: nat): State {
    if groupId != 0 then s.(groupIds := s.groupIds - {groupId}) else s
  }

  function RegisterMessage(s: State, p: Pending): State {
    var i := |s.messages|;
    var s1 := s.(messages := s.messages + [p]);
    if s.active.None? then s1.(active := Some(i), confirmed := false) else s1.(queued := Some(i))
  }

  /** promoteQueued */
  function Promote(s: State): (State, seq<Output>)
    requires InRange(s, s.queued)
  {
    if s.queued.None? then (s, [])
    else
      var q := s.queued.value;
      (s.(active := Some(q), queued := None, confirmed := false,
          messages := s.messages[q := s.messages[q].(retryCount := 0)]), [Promoted(q)])
  }

  /** The active message leaves its slot and the queued one takes it. */
  function Advance(s: State): (State, seq<Output>)
    requires InRange(s, s.queued)
  {
    Promote(s.(active := None, confirmed := false))
  }

  /** The end of a loop: only the loop of the current generation touches the manager. */
  function Finish(s: State, i: nat): (State, seq<Output>)
    requires i < |s.loops| && s.loops[i].message < |s.messages| && InRange(s, s.active) && InRange(s, s.queued)
  {
    var l := s.loops[i];
    var s1 := s.(loops := s.loops[i := l.(ended := true)]);
    if s.generation != l.generation then (s1, [])
    else
      var s2 := s1.(retransmitting := false);
      if s.messages[l.message].acked then Advance(s2)
      else if s.active.Some? && s.messages[s.active.value].messageId == s.messages[l.message].messageId then
        (s2.(retryTimer := Armed), [])
      else (s2, [])
  }

  /** Runs loop i up to its next await: it starts sending one more frame, or ends. */
  function Continue(s: State, i: nat): (State, seq<Output>)
    requires i < |s.loops| && s.loops[i].message < |s.messages| && InRange(s, s.active) && InRange(s, s.queued)
  {
    var l := s.loops[i];
    var m := s.messages[l.message];
    if l.next < |m.frames| && s.generation == l.generation && !m.acked
      && |m.frames[l.next]| <= V6B_MAX_PAYLOAD_SIZE then
      (s, [FrameStarted(l.message, l.next, l.generation)])
    else Finish(s, i)
  }

  /** retransmit */
  function Retransmit(s: State): (State, seq<Output>)
    requires InRange(s, s.active) && InRange(s, s.queued)
  {
    if s.active.None? || !s.canSend || s.retransmitting then (s, [])
    else
      var s1 := s.(retransmitting := true, generation := s.generation + 1,
                   loops := s.loops + [Loop(s.active.value, s.generation + 1, 0, false)]);
      Continue(s1, |s.loops|)
  }

  /** Retry count of the active message plus one. */
  function Bump(s: State): State
    requires s.active.Some? && InRange(s, s.active)
  {
    var a := s.active.value;
    s.(messages := s.messages[a := s.messages[a].(retryCount := s.messages[a].retryCount + 1)])
  }

  /** Retries exhausted: stale the running loop, report the failure, move on. */
  function GiveUp(s: State): (State, seq<Output>)
    requires s.active.Some? && InRange(s, s.active) && InRange(s, s.queued)
  {
    var m := s.messages[s.active.value];
    var s1 := ForgetGroup(s.(generation := s.generation + 1, retransmitting := false), m.groupId);
    var (s2, outs) := Advance(s1);
    (s2, [Notify(MAX_RETRIES_REACHED, m.messageId)] + outs)
  }

  /** What handleNack and handleTimeout do once the retry is counted. */
  function Retry(s: State, kind: EventKind): (State, seq<Output>)
    requires s.active.Some? && InRange(s, s.active) && InRange(s, s.queued)
  {
    var m := s.messages[s.active.value];
    if m.retryCount > MAX_RETRIES then GiveUp(s)
    else
      var (s1, outs) := Retransmit(s);
      (s1, [Notify(kind, m.messageId)] + outs)
  }

  function Acknowledge(s: State, id: string): (State, seq<Output>)
    requires InRange(s, s.active) && InRange(s, s.queued)
  {
    if s.active.Some? && s.messages[s.active.value].messageId == id then
      var a := s.active.value;
      var s1 := ForgetGroup(s.(retryTimer := NoTimer, messages := s.messages[a := s.messages[a].(acked := true)]),
                            s.messages[a].groupId);
      if s.retransmitting then (s1, [Notify(ACK_RECEIVED, id)])
      else
        var (s2, outs) := Advance(s1);
        (s2, [Notify(ACK_RECEIVED, id)] + outs)
    else if s.queued.Some? && s.messages[s.queued.value].messageId == id then
      var q := s.queued.value;
      (ForgetGroup(s.(messages := s.messages[q := s.messages[q].(acked := true)], queued := None),
                   s.messages[q].groupId), [])
    else (s, [])
  }

  function Nacked(s: State, groupId: nat): (State, seq<Output>)
    requires InRange(s, s.active) && InRange(s, s.queued)
  {
    if groupId !in s.groupIds || s.groupIds[groupId] == "" then (s, [])
    else if s.active.None? || s.messages[s.active.value].messageId != s.groupIds[groupId] then (s, [])
    else Retry(Bump(s).(retryTimer := NoTimer), NACK_RECEIVED)
  }

  function TimedOut(s: State): (State, seq<Output>)
    requires InRange(s, s.active) && InRange(s, s.queued)
  {
    if s.active.None? then (s, []) else Retry(Bump(s), TIMEOUT_RETRY)
  }

  /** The groups of both slots are forgotten. */
  function ForgetBoth(s: State): State
    requires InRange(s, s.active) && InRange(s, s.queued)
  {
    var s1 := if s.active.Some? then ForgetGroup(s, s.messages[s.active.value].groupId) else s;
    if s.queued.Some? then ForgetGroup(s1, s.messages[s.queued.value].groupId) else s1
  }

  function Cancelled(s: State): (State, seq<Output>)
    requires InRange(s, s.active) && InRange(s, s.queued)
  {
    (ForgetBoth(s).(retryTimer := NoTimer, generation := s.generation + 1, retransmitting := false,
         active := None, queued := None, confirmed := false),
     if s.active.Some? then [Notify(CANCELLED, s.messages[s.active.value].messageId)] else [])
  }

  predicate Suspended(s: State, i: nat) {
    i < |s.loops| && s.loops[i].message < |s.messages| && !s.loops[i].ended
  }

  function Resumed(s: State, i: nat, succeeded: bool): (State, seq<Output>)
    requires InRange(s, s.active) && InRange(s, s.queued)
  {
    if !Suspended(s, i) then (s, [])
    else if succeeded then Continue(s.(loops := s.loops[i := s.loops[i].(next := s.loops[i].next + 1)]), i)
    else Finish(s, i)
  }

  /** One atomic step of the manager. An input that is not possible in s leaves s alone. */
  function Step(s: State, e: Input): (State, seq<Output>)
    requires InRange(s, s.active) && InRange(s, s.queued)
  {
    match e
    case Send(id, g, frames) => (RegisterMessage(s, Pending(id, g, frames, false, 0)), [])
    case RegisterGroupId(g, id) => (s.(groupIds := s.groupIds[g := id]), [])
    case OnFrameSent => (if s.active.Some? then s.(retryTimer := Armed, confirmed := true) else s, [])
    case HandleAck(id) => Acknowledge(s, id)
    case HandleNack(g) => Nacked(s, g)
    case TimerFires => if s.retryTimer.Armed? then TimedOut(s.(retryTimer := Spent)) else (s, [])
    case HandleTimeout => TimedOut(s)
    case Resume(i, ok) => Resumed(s, i, ok)
    case Cancel => Cancelled(s)
  }

  // The class ------------------------------------------------------------------------------------

  /** Callbacks (onEvent, onPromote) and started sends are recorded in `outputs`, oldest first. */
  class ReliabilityManager {
    var messages: seq<Pending>
    var active: Option<nat>
    var queued: Option<nat>
    var retryTimer: Timer
    var retransmitting: bool
    var retransmitGeneration: nat
    var groupIdToMessageId: map<nat, string>
    var loops: seq<Loop>
    var outputs: seq<Output>
    const canSend: bool
    ghost var confirmed: bool

    ghost function Contents(): State
      reads this
    {
      State(messages, active, queued, retryTimer, retransmitting, retransmitGeneration, groupIdToMessageId, loops,
            canSend, confirmed)
    }

    ghost predicate Valid()
      reads this
    {
      InRange(Contents(), active) && InRange(Contents(), queued)
    }

    constructor (canSend: bool)
      ensures Contents() == Init(canSend) && outputs == []
    {
      messages, active, queued, retryTimer := [], None, None, NoTimer;
      retransmitting, retransmitGeneration, groupIdToMessageId, loops := false, 0, map[], [];
      outputs := [];
      this.canSend := canSend;
      confirmed := false;
    }

    method Emit(o: Output)
      modifies this`outputs
      ensures outputs == old(outputs) + [o]
    {
      outputs := outputs + [o];
    }

    /** Registers a message; the result says whether it became the active one. */
    method Send(messageId: string, groupId: nat, frames: seq<seq<byte>>) returns (isActive: bool)
      requires Valid()
      modifies this
      ensures Contents() == RegisterMessage(old(Contents()), Pending(messageId, groupId, frames, false, 0))
      ensures Valid() && outputs == old(outputs) && isActive == old(active).None?
    {
      var msg := |messages|;
      messages := messages + [Pending(messageId, groupId, frames, false, 0)];
      if active.None? {
        active := Some(msg);
        confirmed := false;
        return true;
      }
      queued := Some(msg);
      isActive := false;
    }

    method OnFrameSent()
      requires Valid()
      modifies this
      ensures (Contents(), []) == Step(old(Contents()), Input.OnFrameSent)
      ensures Valid() && outputs == old(outputs)
    {
      if active.Some? {
        retryTimer := Armed;
        confirmed := true;
      }
    }

    method ForgetGroupId(groupId: nat)
      modifies this`groupIdToMessageId
      ensures Contents() == ForgetGroup(old(Contents()), groupId)
    {
      if groupId != 0 {
        groupIdToMessageId := groupIdToMessageId - {groupId};
      }
    }

    method PromoteQueued()
      requires Valid()
      modifies this
      ensures Contents() == Promote(old(Contents())).0 && outputs == old(outputs) + Promote(old(Contents())).1
      ensures Valid()
    {
      if queued.Some? {
        var q := queued.value;
        active := queued;
        queued := None;
        confirmed := false;
        messages := messages[q := messages[q].(retryCount := 0)];
        Emit(Promoted(q));
      }
    }

    method HandleAck(messageId: string)
      requires Valid()
      modifies this
      ensures Contents() == Acknowledge(old(Contents()), messageId).0
      ensures outputs == old(outputs) + Acknowledge(old(Contents()), messageId).1
      ensures Valid()
    {
      if active.Some? && messages[active.value].messageId == messageId {
        AckActive();
      } else if queued.Some? && messages[queued.value].messageId == messageId {
        AckQueued();
      }
    }

    /** An acknowledgement during retransmission defers the promotion to the end of the loop. */
    method AckActive()
      requires Valid() && active.Some?
      modifies this
      ensures Contents() == Acknowledge(old(Contents()), old(messages[active.value].messageId)).0
      ensures outputs == old(outputs) + Acknowledge(old(Contents()), old(messages[active.value].messageId)).1
      ensures Valid()
    {
      var a := active.value;
      retryTimer := NoTimer;
      messages := messages[a := messages[a].(acked := true)];
      ForgetGroupId(messages[a].groupId);
      Emit(Notify(ACK_RECEIVED, messages[a].messageId));
      if !retransmitting {
        active := None;
        confirmed := false;
        PromoteQueued();
      }
    }

    method AckQueued()
      requires Valid() && queued.Some?
      requires active.Some? ==> messages[active.value].messageId != messages[queued.value].messageId
      modifies this
      ensures (Contents(), []) == Acknowledge(old(Contents()), old(messages[queued.value].messageId))
      ensures Valid() && outputs == old(outputs)
    {
      var q := queued.value;
      messages := messages[q := messages[q].(acked := true)];
      ForgetGroupId(messages[q].groupId);
      queued := None;
    }

    /** Counts a retry of the active message. */
    method CountRetry()
      requires Valid() && active.Some?
      modifies this`messages
      ensures Contents() == Bump(old(Contents())) && Valid()
    {
      var a := active.value;
      messages := messages[a := messages[a].(retryCount := messages[a].retryCount + 1)];
    }

    method AbandonActive()
      requires Valid() && active.Some?
      modifies this
      ensures Contents() == GiveUp(old(Contents())).0 && outputs == old(outputs) + GiveUp(old(Contents())).1
      ensures Valid()
    {
      hide Promote;
      var msg := messages[active.value];
      retransmitGeneration := retransmitGeneration + 1;
      retransmitting := false;
      ForgetGroupId(msg.groupId);
      active := None;
      confirmed := false;
      Emit(Notify(MAX_RETRIES_REACHED, msg.messageId));
      PromoteQueued();
    }

    method HandleNack(groupId: nat)
      requires Valid()
      modifies this
      ensures Contents() == Nacked(old(Contents()), groupId).0
      ensures outputs == old(outputs) + Nacked(old(Contents()), groupId).1
      ensures Valid()
    {
      if groupId !in groupIdToMessageId || groupIdToMessageId[groupId] == "" {
        return;
      }
      var messageId := groupIdToMessageId[groupId];
      if active.None? || messages[active.value].messageId != messageId {
        return;
      }
      CountRetry();
      retryTimer := NoTimer;
      if messages[active.value].retryCount > MAX_RETRIES {
        AbandonActive();
        return;
      }
      Emit(Notify(NACK_RECEIVED, messageId));
      StartRetransmission();
    }

    method HandleTimeout()
      requires Valid()
      modifies this
      ensures Contents() == TimedOut(old(Contents())).0 && outputs == old(outputs) + TimedOut(old(Contents())).1
      ensures Valid()
    {
      if active.None? {
        return;
      }
      CountRetry();
      if messages[active.value].retryCount > MAX_RETRIES {
        AbandonActive();
        return;
      }
      Emit(Notify(TIMEOUT_RETRY, messages[active.value].messageId));
      StartRetransmission();
    }

    /** retransmit: opens a new loop and runs it up to its first await. */
    method StartRetransmission()
      requires Valid()
      modifies this
      ensures Contents() == Retransmit(old(Contents())).0 && outputs == old(outputs) + Retransmit(old(Contents())).1
      ensures Valid()
    {
      if active.None? || !canSend || retransmitting {
        return;
      }
      retransmitting := true;
      retransmitGeneration := retransmitGeneration + 1;
      loops := loops + [Loop(active.value, retransmitGeneration, 0, false)];
      RunLoop(|loops| - 1);
    }

    /** The head of the loop: send the next frame unless stale, acknowledged, done or unencodable. */
    method RunLoop(i: nat)
      requires Valid() && i < |loops| && loops[i].message < |messages|
      modifies this
      ensures Contents() == Continue(old(Contents()), i).0 && outputs == old(outputs) + Continue(old(Contents()), i).1
      ensures Valid()
    {
      var loop := loops[i];
      var msg := messages[loop.message];
      if loop.next < |msg.frames| && retransmitGeneration == loop.generation && !msg.acked {
        if |msg.frames[loop.next]| <= V6B_MAX_PAYLOAD_SIZE {
          Emit(FrameStarted(loop.message, loop.next, loop.generation));
          return;
        }
      }
      EndLoop(i);
    }

    /** What follows the loop. */
    method EndLoop(i: nat)
      requires Valid() && i < |loops| && loops[i].message < |messages|
      modifies this
      ensures Contents() == Finish(old(Contents()), i).0 && outputs == old(outputs) + Finish(old(Contents()), i).1
      ensures Valid()
    {
      var loop := loops[i];
      var msg := messages[loop.message];
      loops := loops[i := loop.(ended := true)];
      if retransmitGeneration == loop.generation {
        retransmitting := false;
        if msg.acked {
          active := None;
          confirmed := false;
          PromoteQueued();
        } else if active.Some? && messages[active.value].messageId == msg.messageId {
          retryTimer := Armed;
        }
      }
    }

    /** The send that loop i is waiting for has settled. */
    method ResumeLoop(i: nat, succeeded: bool)
      requires Valid() && Suspended(Contents(), i)
      modifies this
      ensures Contents() == Resumed(old(Contents()), i, succeeded).0
      ensures outputs == old(outputs) + Resumed(old(Contents()), i, succeeded).1
      ensures Valid()
    {
      if succeeded {
        loops := loops[i := loops[i].(next := loops[i].next + 1)];
        RunLoop(i);
      } else {
        EndLoop(i);
      }
    }

    method ForgetSlots()
      requires Valid()
      modifies this`groupIdToMessageId
      ensures Contents() == ForgetBoth(old(Contents())) && Valid()
    {
      if active.Some? {
        ForgetGroupId(messages[active.value].groupId);
      }
      if queued.Some? {
        ForgetGroupId(messages[queued.value].groupId);
      }
    }

    method Cancel()
      requires Valid()
      modifies this
      ensures Contents() == Cancelled(old(Contents())).0 && outputs == old(outputs) + Cancelled(old(Contents())).1
      ensures Valid()
    {
      ForgetSlots();
      retryTimer := NoTimer;
      retransmitGeneration := retransmitGeneration + 1;
      retransmitting := false;
      var activeMsg := active;
      active := None;
      queued := None;
      confirmed := false;
      if activeMsg.Some? {
        Emit(Notify(CANCELLED, messages[activeMsg.value].messageId));
      }
    }
  }
}

/** What every interleaving of sends, acknowledgements, timeouts and loop resumptions keeps. */
module ReliabilityProofs {
  import opened Wrappers
  import opened Bytes
  import opened ReliabilityManager

  /** The number of retransmission loops ever started for message m. */
  function Rounds(loops: seq<Loop>, m: nat): nat {
    if loops == [] then 0
    else Rounds(loops[..|loops| - 1], m) + (if loops[|loops| - 1].message == m then 1 else 0)
  }

  ghost predicate LoopsOK(s: State) {
    && (forall i :: 0 <= i < |s.loops| ==> s.loops[i].message < |s.messages| && s.loops[i].generation <= s.generation)
    && (forall i, j :: 0 <= i < j < |s.loops| ==> s.loops[i].generation < s.loops[j].generation)
  }

  /** The latest loop has not ended and still carries the current generation. */
  predicate Live(s: State) {
    s.loops != [] && !s.loops[|s.loops| - 1].ended && s.loops[|s.loops| - 1].generation == s.generation
  }

  ghost predicate BudgetOK(s: State) {
    forall m: nat :: Rounds(s.loops, m) <= MAX_RETRIES
  }

  /** The queued message has not been acknowledged nor transmitted. */
  ghost predicate QueueOK(s: State) {
    s.queued.Some? ==>
      s.queued.value < |s.messages| && !s.messages[s.queued.value].acked && Rounds(s.loops, s.queued.value) == 0
  }

  ghost predicate ActiveOK(s: State) {
    s.active.Some? ==>
      && s.active.value < |s.messages|
      && Rounds(s.loops, s.active.value) <= s.messages[s.active.value].retryCount <= MAX_RETRIES
      && (s.messages[s.active.value].acked ==> s.retransmitting)
  }

  ghost predicate SlotsOK(s: State) {
    s.queued.Some? ==> s.active.Some? && s.active != s.queued
  }

  ghost predicate LiveOK(s: State) {
    && (s.retransmitting <==> Live(s))
    && (s.retransmitting ==> s.active == Some(s.loops[|s.loops| - 1].message))
  }

  ghost predicate TimerOK(s: State) {
    s.confirmed ==> s.active.Some? && (s.canSend ==> s.retryTimer.Armed? || s.retransmitting)
  }

  ghost predicate Inv(s: State) {
    LoopsOK(s) && BudgetOK(s) && QueueOK(s) && ActiveOK(s) && SlotsOK(s) && LiveOK(s) && TimerOK(s)
  }

  /** Nothing is live: the active slot may be vacated. */
  ghost predicate Idle(s: State) {
    LoopsOK(s) && BudgetOK(s) && QueueOK(s) && !s.retransmitting && !Live(s)
  }

  lemma AdvanceInv(s: State)
    requires Idle(s)
    ensures Inv(Advance(s).0)
  {
  }

  lemma {:induction false} RoundsUpdate(loops: seq<Loop>, i: nat, l: Loop, m: nat)
    requires i < |loops| && l.message == loops[i].message
    ensures Rounds(loops[i := l], m) == Rounds(loops, m)
  {
    var n := |loops| - 1;
    if i < n {
      RoundsUpdate(loops[..n], i, l, m);
      assert loops[i := l][..n] == loops[..n][i := l];
    } else {
      assert loops[i := l][..n] == loops[..n];
    }
  }

  lemma RoundsPush(loops: seq<Loop>, l: Loop, m: nat)
    ensures Rounds(loops + [l], m) == Rounds(loops, m) + if l.message == m then 1 else 0
  {
    assert (loops + [l])[..|loops|] == loops;
  }

  /** Changing a loop's progress keeps the counting facts. */
  lemma LoopUpdateOK(s: State, i: nat, l: Loop)
    requires LoopsOK(s) && BudgetOK(s) && i < |s.loops|
    requires l.message == s.loops[i].message && l.generation == s.loops[i].generation
    ensures LoopsOK(s.(loops := s.loops[i := l])) && BudgetOK(s.(loops := s.loops[i := l]))
    ensures forall m :: Rounds(s.loops[i := l], m) == Rounds(s.loops, m)
  {
    var s' := s.(loops := s.loops[i := l]);
    forall m: nat
      ensures Rounds(s'.loops, m) == Rounds(s.loops, m) && Rounds(s'.loops, m) <= MAX_RETRIES
    {
      RoundsUpdate(s.loops, i, l, m);
    }
  }

  /** Ending a loop hands over to the queued message or restarts the timer, or does nothing when stale. */
  lemma FinishInv(s: State, i: nat)
    requires Inv(s) && i < |s.loops| && !s.loops[i].ended
    ensures Inv(Finish(s, i).0)
  {
    var l := s.loops[i];
    LoopUpdateOK(s, i, l.(ended := true));
    var s1 := s.(loops := s.loops[i := l.(ended := true)]);
    var last := |s.loops| - 1;
    assert i < last ==> l.generation < s.loops[last].generation <= s.generation;
    assert i < last ==> s1.loops[last] == s.loops[last];
    if s.generation == l.generation {
      assert Live(s) && s.active == Some(l.message);
      var s2 := s1.(retransmitting := false);
      if s.messages[l.message].acked {
        assert Idle(s2);
        AdvanceInv(s2);
      }
    } else {
      assert Live(s1) <==> Live(s);
    }
  }

  lemma ContinueInv(s: State, i: nat)
    requires Inv(s) && i < |s.loops| && !s.loops[i].ended
    ensures Inv(Continue(s, i).0)
  {
    FinishInv(s, i);
  }

  /** A retry has been counted but not yet acted upon. */
  ghost predicate Counted(s: State) {
    && LoopsOK(s) && BudgetOK(s) && QueueOK(s) && SlotsOK(s) && LiveOK(s)
    && s.active.Some? && s.active.value < |s.messages|
    && Rounds(s.loops, s.active.value) < s.messages[s.active.value].retryCount <= MAX_RETRIES + 1
    && (s.messages[s.active.value].acked ==> s.retransmitting)
  }

  lemma BumpCounted(s: State, t: Timer)
    requires Inv(s) && s.active.Some?
    ensures Counted(Bump(s).(retryTimer := t))
  {
  }

  /** The state in which retransmit has set up its new loop. */
  function Launched(s: State): State
    requires s.active.Some?
  {
    s.(retransmitting := true, generation := s.generation + 1,
       loops := s.loops + [Loop(s.active.value, s.generation + 1, 0, false)])
  }

  lemma LaunchedInv(s: State)
    requires Counted(s) && !s.retransmitting && s.messages[s.active.value].retryCount <= MAX_RETRIES
    ensures Inv(Launched(s))
  {
    var s1, a := Launched(s), s.active.value;
    forall m: nat
      ensures Rounds(s1.loops, m) == Rounds(s.loops, m) + (if m == a then 1 else 0)
      ensures Rounds(s1.loops, m) <= MAX_RETRIES
    {
      RoundsPush(s.loops, Loop(a, s.generation + 1, 0, false), m);
    }
  }

  lemma RetransmitInv(s: State)
    requires Counted(s) && s.messages[s.active.value].retryCount <= MAX_RETRIES
    ensures Inv(Retransmit(s).0)
  {
    if s.canSend && !s.retransmitting {
      LaunchedInv(s);
      ContinueInv(Launched(s), |s.loops|);
    }
  }

  /** The state in which the retries of the active message are known to be exhausted. */
  function Exhausted(s: State): State
    requires s.active.Some? && InRange(s, s.active)
  {
    ForgetGroup(s.(generation := s.generation + 1, retransmitting := false), s.messages[s.active.value].groupId)
  }

  lemma ExhaustedIdle(s: State)
    requires Counted(s)
    ensures Idle(Exhausted(s))
  {
  }

  lemma GiveUpInv(s: State)
    requires Counted(s)
    ensures Inv(GiveUp(s).0)
  {
    ExhaustedIdle(s);
    AdvanceInv(Exhausted(s));
    hide Idle, Inv, Advance, ForgetGroup;
  }

  lemma RetryInv(s: State, kind: EventKind)
    requires Counted(s)
    ensures Inv(Retry(s, kind).0)
  {
    if s.messages[s.active.value].retryCount > MAX_RETRIES {
      GiveUpInv(s);
    } else {
      RetransmitInv(s);
    }
  }

  lemma RegisterInv(s: State, p: Pending)
    requires Inv(s) && !p.acked && p.retryCount == 0
    ensures Inv(RegisterMessage(s, p))
  {
    NoRounds(s.loops, |s.messages|);
  }

  lemma {:induction false} NoRounds(loops: seq<Loop>, m: nat)
    requires forall i :: 0 <= i < |loops| ==> loops[i].message < m
    ensures Rounds(loops, m) == 0
  {
    if loops != [] {
      NoRounds(loops[..|loops| - 1], m);
    }
  }

  /** The active message is marked acknowledged and its timer cleared. */
  function MarkedAcked(s: State): State
    requires s.active.Some? && InRange(s, s.active)
  {
    var a := s.active.value;
    ForgetGroup(s.(retryTimer := NoTimer, messages := s.messages[a := s.messages[a].(acked := true)]),
      s.messages[a].groupId)
  }

  lemma MarkedAckedInv(s: State)
    requires Inv(s) && s.active.Some? && s.retransmitting
    ensures Inv(MarkedAcked(s))
  {
  }

  lemma MarkedAckedIdle(s: State)
    requires Inv(s) && s.active.Some? && !s.retransmitting
    ensures Idle(MarkedAcked(s))
  {
  }

  lemma QueuedAckedInv(s: State)
    requires Inv(s) && s.queued.Some?
    ensures Inv(s.(messages := s.messages[s.queued.value := s.messages[s.queued.value].(acked := true)],
                   queued := None))
  {
  }

  lemma ForgetGroupInv(s: State, g: nat)
    requires Inv(s)
    ensures Inv(ForgetGroup(s, g))
  {
  }

  lemma AcknowledgeInv(s: State, id: string)
    requires Inv(s)
    ensures Inv(Acknowledge(s, id).0)
  {
    if s.active.Some? && s.messages[s.active.value].messageId == id {
      hide Inv, Idle, ForgetGroup, Advance;
      if s.retransmitting {
        MarkedAckedInv(s);
      } else {
        MarkedAckedIdle(s);
        AdvanceInv(MarkedAcked(s));
      }
    } else if s.queued.Some? && s.messages[s.queued.value].messageId == id {
      var q := s.queued.value;
      QueuedAckedInv(s);
      ForgetGroupInv(s.(messages := s.messages[q := s.messages[q].(acked := true)], queued := None),
        s.messages[q].groupId);
    }
  }

  lemma ResumedInv(s: State, i: nat, ok: bool)
    requires Inv(s)
    ensures Inv(Resumed(s, i, ok).0)
  {
    if Suspended(s, i) {
      if ok {
        var l := s.loops[i].(next := s.loops[i].next + 1);
        LoopUpdateOK(s, i, l);
        var s1 := s.(loops := s.loops[i := l]);
        assert Inv(s1);
        ContinueInv(s1, i);
      } else {
        FinishInv(s, i);
      }
    }
  }

  lemma CancelledInv(s: State)
    requires Inv(s)
    ensures Inv(Cancelled(s).0)
  {
    var c := Cancelled(s).0;
    assert c.loops == s.loops && c.messages == s.messages && c.generation == s.generation + 1;
    hide Cancelled;
  }

  lemma MinorInv(s: State, g: nat, id: string)
    requires Inv(s)
    ensures Inv(s.(groupIds := s.groupIds[g := id]))
    ensures s.active.Some? ==> Inv(s.(retryTimer := Armed, confirmed := true))
  {
  }

  lemma NackedInv(s: State, g: nat)
    requires Inv(s)
    ensures Inv(Nacked(s, g).0)
  {
    if s.active.Some? {
      BumpCounted(s, NoTimer);
      RetryInv(Bump(s).(retryTimer := NoTimer), NACK_RECEIVED);
    }
  }

  lemma TimedOutInv(s: State, t: Timer)
    requires Inv(s)
    ensures s.active.Some? ==> Inv(TimedOut(s.(retryTimer := t)).0)
  {
    if s.active.Some? {
      BumpCounted(s, t);
      assert Bump(s.(retryTimer := t)) == Bump(s).(retryTimer := t);
      RetryInv(Bump(s).(retryTimer := t), TIMEOUT_RETRY);
    }
  }

  lemma SpentInv(s: State)
    requires Inv(s) && s.active.None?
    ensures Inv(s.(retryTimer := Spent))
  {
  }

  lemma InvInRange(s: State)
    requires Inv(s)
    ensures InRange(s, s.active) && InRange(s, s.queued)
  {
  }

  /** Every input, in every state that satisfies the invariant, keeps it. */
  lemma StepInv(s: State, e: Input)
    requires Inv(s)
    ensures InRange(s, s.active) && InRange(s, s.queued) && Inv(Step(s, e).0)
  {
    InvInRange(s);
    hide Inv, InRange, Retry, RegisterMessage, Acknowledge, Nacked, Resumed, Cancelled;
    match e
    case Send(id, g, frames) => RegisterInv(s, Pending(id, g, frames, false, 0));
    case RegisterGroupId(g, id) => MinorInv(s, g, id);
    case OnFrameSent => MinorInv(s, 0, "");
    case HandleAck(id) => AcknowledgeInv(s, id);
    case HandleNack(g) => NackedInv(s, g);
    case TimerFires =>
      if s.active.None? { SpentInv(s); }
      TimedOutInv(s, Spent);
    case HandleTimeout =>
      TimedOutInv(s, s.retryTimer);
      assert s.(retryTimer := s.retryTimer) == s;
    case Resume(i, ok) => ResumedInv(s, i, ok);
    case Cancel => CancelledInv(s);
  }

  /** Loop i has not ended and carries the current generation. */
  predicate IsLive(s: State, i: nat) {
    i < |s.loops| && !s.loops[i].ended && s.loops[i].generation == s.generation
  }

  lemma OnlyLastIsLive(s: State, i: nat)
    requires Inv(s) && IsLive(s, i)
    ensures i == |s.loops| - 1 && s.retransmitting && s.active == Some(s.loops[i].message)
  {
    var last := |s.loops| - 1;
    assert s.loops[last].generation <= s.generation;
  }

  // What a single step can do ------------------------------------------------------------------------

  /** Every frame a step starts sending belongs to the active, unacknowledged message of the live loop. */
  ghost predicate StartsActive(s': State, outs: seq<Output>) {
    forall k :: 0 <= k < |outs| && outs[k].FrameStarted? ==>
      && s'.active == Some(outs[k].message)
      && outs[k].message < |s'.messages| && !s'.messages[outs[k].message].acked
      && outs[k].index < |s'.messages[outs[k].message].frames|
      && s'.retransmitting && outs[k].generation == s'.generation
      && s'.loops != [] && s'.loops[|s'.loops| - 1].next == outs[k].index
  }

  lemma ContinueStarts(s: State, i: nat)
    requires Inv(s) && i < |s.loops| && !s.loops[i].ended
    ensures StartsActive(Continue(s, i).0, Continue(s, i).1)
  {
    if s.generation == s.loops[i].generation {
      OnlyLastIsLive(s, i);
    }
  }

  lemma RetryStarts(s: State, kind: EventKind)
    requires Counted(s)
    ensures StartsActive(Retry(s, kind).0, Retry(s, kind).1)
  {
    if s.messages[s.active.value].retryCount > MAX_RETRIES {
    } else if s.canSend && !s.retransmitting {
      LaunchedInv(s);
      ContinueStarts(Launched(s), |s.loops|);
      hide Counted, Inv, Continue;
    }
  }

  lemma ResumedStarts(s: State, i: nat, ok: bool)
    requires Inv(s)
    ensures StartsActive(Resumed(s, i, ok).0, Resumed(s, i, ok).1)
  {
    if Suspended(s, i) && ok {
      var l := s.loops[i].(next := s.loops[i].next + 1);
      LoopUpdateOK(s, i, l);
      assert Inv(s.(loops := s.loops[i := l]));
      ContinueStarts(s.(loops := s.loops[i := l]), i);
    }
  }

  lemma OthersStartNothing(s: State, e: Input)
    requires Inv(s) && (e.Send? || e.RegisterGroupId? || e.OnFrameSent? || e.HandleAck? || e.Cancel?)
    ensures InRange(s, s.active) && InRange(s, s.queued)
    ensures forall k :: 0 <= k < |Step(s, e).1| ==> !Step(s, e).1[k].FrameStarted?
  {
  }

  /** However many stale loops are suspended, a step only starts frames of the active message. */
  lemma StepStartsActive(s: State, e: Input)
    requires Inv(s)
    ensures InRange(s, s.active) && InRange(s, s.queued) && StartsActive(Step(s, e).0, Step(s, e).1)
  {
    InvInRange(s);
    match e
    case HandleNack(g) =>
      if s.active.Some? {
        BumpCounted(s, NoTimer);
        RetryStarts(Bump(s).(retryTimer := NoTimer), NACK_RECEIVED);
      }
    case TimerFires =>
      if s.active.Some? {
        BumpCounted(s, Spent);
        assert Bump(s.(retryTimer := Spent)) == Bump(s).(retryTimer := Spent);
        RetryStarts(Bump(s).(retryTimer := Spent), TIMEOUT_RETRY);
      }
    case HandleTimeout =>
      if s.active.Some? {
        BumpCounted(s, s.retryTimer);
        assert Bump(s).(retryTimer := s.retryTimer) == Bump(s);
        RetryStarts(Bump(s), TIMEOUT_RETRY);
      }
    case Resume(i, ok) => ResumedStarts(s, i, ok);
    case _ => OthersStartNothing(s, e);
  }

  // Conservation -----------------------------------------------------------------------------------

  /** The messages handed to onPromote, in order. */
  function PromotedIn(outs: seq<Output>): seq<nat> {
    if outs == [] then []
    else PromotedIn(outs[..|outs| - 1])
         + (if outs[|outs| - 1].Promoted? then [outs[|outs| - 1].message] else [])
  }

  lemma PromotedAfter(o: Output, outs: seq<Output>)
    requires !o.Promoted? && |outs| <= 1
    ensures PromotedIn([o] + outs) == PromotedIn(outs)
  {
    if outs != [] {
      assert ([o] + outs)[..1] == [o];
      assert PromotedIn([o]) == PromotedIn([o][..0]);
    } else {
      assert [o] + outs == [o];
    }
  }

  /** Registered messages keep their identity and content. */
  ghost predicate KeepsBook(s: State, s': State) {
    && |s'.messages| >= |s.messages|
    && forall m :: 0 <= m < |s.messages| ==>
         s'.messages[m].messageId == s.messages[m].messageId && s'.messages[m].frames == s.messages[m].frames
  }

  ghost predicate SameBook(s: State, s': State) {
    KeepsBook(s, s') && |s'.messages| == |s.messages|
  }

  ghost predicate Kept(s: State, s': State, outs: seq<Output>) {
    s'.active == s.active && s'.queued == s.queued && PromotedIn(outs) == []
  }

  /** The active slot was vacated: the queued message took it with exactly one promotion. */
  ghost predicate Handover(s: State, s': State, outs: seq<Output>) {
    && s'.active == s.queued && s'.queued == None
    && PromotedIn(outs) == if s.queued.Some? then [s.queued.value] else []
  }

  /** Why a message may leave the active slot other than by cancel. */
  predicate Settled(s: State, m: Option<nat>) {
    m.Some? && m.value < |s.messages|
    && (s.messages[m.value].acked || s.messages[m.value].retryCount > MAX_RETRIES)
  }

  ghost predicate Effect(s: State, s': State, outs: seq<Output>) {
    SameBook(s, s') && |outs| <= 2 && (Kept(s, s', outs) || (Handover(s, s', outs) && Settled(s', s.active)))
  }

  lemma AdvanceEffect(s: State, a: nat)
    requires InRange(s, s.queued) && a < |s.messages| && s.queued != Some(a)
    ensures var (s', outs) := Advance(s);
      SameBook(s, s') && |outs| <= 1 && Handover(s, s', outs) && s'.messages[a] == s.messages[a]
  {
  }

  lemma FinishEffect(s: State, i: nat)
    requires Inv(s) && i < |s.loops| && !s.loops[i].ended
    ensures Effect(s, Finish(s, i).0, Finish(s, i).1) && |Finish(s, i).1| <= 1
  {
    var l := s.loops[i];
    if s.generation == l.generation && s.messages[l.message].acked {
      OnlyLastIsLive(s, i);
      var s2 := s.(loops := s.loops[i := l.(ended := true)], retransmitting := false);
      AdvanceEffect(s2, l.message);
    }
  }

  lemma ContinueEffect(s: State, i: nat)
    requires Inv(s) && i < |s.loops| && !s.loops[i].ended
    ensures Effect(s, Continue(s, i).0, Continue(s, i).1) && |Continue(s, i).1| <= 1
  {
    FinishEffect(s, i);
  }

  lemma RetransmitEffect(s: State)
    requires Counted(s) && s.messages[s.active.value].retryCount <= MAX_RETRIES
    ensures Effect(s, Retransmit(s).0, Retransmit(s).1) && |Retransmit(s).1| <= 1
  {
    if s.canSend && !s.retransmitting {
      LaunchedInv(s);
      ContinueEffect(Launched(s), |s.loops|);
      hide Inv, Counted, Continue;
    }
  }

  /** A settled active message leaves, after one notification. */
  lemma LeaveEffect(s: State, s1: State, o: Output)
    requires SameBook(s, s1) && s1.queued == s.queued && InRange(s1, s1.queued) && s.active != s.queued
    requires Settled(s1, s.active) && !o.Promoted?
    ensures Effect(s, Advance(s1).0, [o] + Advance(s1).1)
  {
    AdvanceEffect(s1, s.active.value);
    PromotedAfter(o, Advance(s1).1);
    hide Advance, PromotedIn;
  }

  lemma GiveUpEffect(s: State)
    requires Counted(s) && s.messages[s.active.value].retryCount > MAX_RETRIES
    ensures Effect(s, GiveUp(s).0, GiveUp(s).1)
  {
    LeaveEffect(s, Exhausted(s), Notify(MAX_RETRIES_REACHED, s.messages[s.active.value].messageId));
    hide Counted, Advance, Effect;
  }

  lemma RetryEffect(s: State, kind: EventKind)
    requires Counted(s)
    ensures Effect(s, Retry(s, kind).0, Retry(s, kind).1)
  {
    if s.messages[s.active.value].retryCount > MAX_RETRIES {
      GiveUpEffect(s);
    } else {
      RetransmitEffect(s);
      PromotedAfter(Notify(kind, s.messages[s.active.value].messageId), Retransmit(s).1);
    }
  }

  lemma ResumedEffect(s: State, i: nat, ok: bool)
    requires Inv(s)
    ensures Effect(s, Resumed(s, i, ok).0, Resumed(s, i, ok).1)
  {
    if Suspended(s, i) {
      if ok {
        var l := s.loops[i].(next := s.loops[i].next + 1);
        LoopUpdateOK(s, i, l);
        assert Inv(s.(loops := s.loops[i := l]));
        ContinueEffect(s.(loops := s.loops[i := l]), i);
      } else {
        FinishEffect(s, i);
      }
    }
  }

  lemma MarkedAckedBook(s: State)
    requires s.active.Some? && InRange(s, s.active)
    ensures SameBook(s, MarkedAcked(s)) && Settled(MarkedAcked(s), s.active)
    ensures MarkedAcked(s).queued == s.queued && MarkedAcked(s).active == s.active
  {
  }

  /** An acknowledgement retires the active message at once, unless it is being retransmitted. */
  lemma AckActiveEffect(s: State, id: string)
    requires Inv(s) && s.active.Some? && s.messages[s.active.value].messageId == id
    ensures Effect(s, Acknowledge(s, id).0, Acknowledge(s, id).1)
    ensures s.retransmitting ==> Kept(s, Acknowledge(s, id).0, Acknowledge(s, id).1)
  {
    MarkedAckedBook(s);
    var o := Notify(ACK_RECEIVED, id);
    if s.retransmitting {
      PromotedAfter(o, []);
      assert [o] + [] == [o];
      hide MarkedAcked, ForgetGroup, Inv;
    } else {
      LeaveEffect(s, MarkedAcked(s), o);
      hide Advance, ForgetGroup, Effect, Inv;
    }
  }

  /** Retired: registered, and in neither slot. */
  predicate Retired(s: State, m: nat) {
    m < |s.messages| && s.active != Some(m) && s.queued != Some(m)
  }

  lemma BumpBook(s: State, t: Timer, s': State, outs: seq<Output>)
    requires s.active.Some? && InRange(s, s.active) && Effect(Bump(s).(retryTimer := t), s', outs)
    ensures Effect(s, s', outs)
  {
  }

  lemma RetryInputsEffect(s: State, e: Input)
    requires Inv(s) && (e.HandleNack? || e.TimerFires? || e.HandleTimeout?)
    ensures InRange(s, s.active) && InRange(s, s.queued) && Effect(s, Step(s, e).0, Step(s, e).1)
  {
    InvInRange(s);
    if s.active.Some? {
      var t := if e.HandleNack? then NoTimer else if e.TimerFires? then Spent else s.retryTimer;
      var kind := if e.HandleNack? then NACK_RECEIVED else TIMEOUT_RETRY;
      BumpCounted(s, t);
      var b := Bump(s).(retryTimer := t);
      assert Bump(s.(retryTimer := t)) == b;
      RetryEffect(b, kind);
      BumpBook(s, t, Retry(b, kind).0, Retry(b, kind).1);
      assert s.(retryTimer := s.retryTimer) == s;
      hide Inv, Counted, Retry, Bump, Effect;
    }
  }

  /** One step, as bookkeeping: what happens to the two slots, and to whom. */
  ghost predicate Conserves(s: State, e: Input, s': State, outs: seq<Output>) {
    && KeepsBook(s, s')
    && (e.Send? ==> |s'.messages| == |s.messages| + 1 && !Retired(s', |s.messages|))
    && (!e.Send? ==> |s'.messages| == |s.messages|)
    // retired messages never come back
    && (forall m :: Retired(s, m) ==> Retired(s', m))
    // the active message leaves only acknowledged, out of retries or cancelled; unless cancelled,
    // the queued message takes its place in the same step, promoted exactly once
    && (s.active.Some? && s'.active != s.active ==> e.Cancel? || (Handover(s, s', outs) && Settled(s', s.active)))
    && (s'.active == s.active || e.Cancel? || s.active.None? ==> PromotedIn(outs) == [])
    // the queued message leaves without being promoted only when acknowledged, replaced or cancelled
    && (s.queued.Some? && s'.queued != s.queued && s'.active != s.queued ==>
          e.Cancel? || e.Send? || Settled(s', s.queued))
  }

  lemma EffectConserves(s: State, e: Input, s': State, outs: seq<Output>)
    requires Inv(s) && Effect(s, s', outs) && !e.Send? && !e.Cancel?
    requires s.active.None? ==> Kept(s, s', outs)
    ensures Conserves(s, e, s', outs)
  {
  }

  lemma SendConserves(s: State, e: Input)
    requires Inv(s) && e.Send?
    ensures InRange(s, s.active) && InRange(s, s.queued) && Conserves(s, e, Step(s, e).0, Step(s, e).1)
  {
  }

  lemma CancelConserves(s: State, e: Input)
    requires Inv(s) && e.Cancel?
    ensures InRange(s, s.active) && InRange(s, s.queued) && Conserves(s, e, Step(s, e).0, Step(s, e).1)
  {
    InvInRange(s);
    var (s', outs) := Cancelled(s);
    assert PromotedIn([]) == [] && (outs != [] ==> outs[..0] == []);
    assert s'.messages == s.messages && s'.active == None && s'.queued == None && PromotedIn(outs) == [];
    assert Step(s, e) == (s', outs);
    hide Cancelled, PromotedIn, Inv, Step;
  }

  /** Acknowledging the queued message empties its slot without a promotion. */
  lemma AckQueuedConserves(s: State, id: string)
    requires Inv(s) && s.queued.Some? && s.messages[s.queued.value].messageId == id
    requires s.messages[s.active.value].messageId != id
    ensures Conserves(s, HandleAck(id), Acknowledge(s, id).0, Acknowledge(s, id).1)
  {
    assert PromotedIn([]) == [];
  }

  lemma KeptConserves(s: State, e: Input, s': State)
    requires Inv(s) && !e.Send? && !e.Cancel? && SameBook(s, s')
    requires s'.active == s.active && s'.queued == s.queued
    ensures Conserves(s, e, s', [])
  {
    assert PromotedIn([]) == [];
  }

  lemma AckConserves(s: State, id: string)
    requires Inv(s)
    ensures Conserves(s, HandleAck(id), Acknowledge(s, id).0, Acknowledge(s, id).1)
  {
    var e := HandleAck(id);
    var (s', outs) := Acknowledge(s, id);
    if s.active.Some? && s.messages[s.active.value].messageId == id {
      AckActiveEffect(s, id);
      EffectConserves(s, e, s', outs);
    } else if s.queued.Some? && s.messages[s.queued.value].messageId == id {
      AckQueuedConserves(s, id);
    } else {
      KeptConserves(s, e, s);
    }
  }

  /** With no active message, nacks and timeouts change no slot. */
  lemma IdleKept(s: State, e: Input)
    requires Inv(s) && s.active.None? && !e.Send? && !e.Cancel?
    ensures InRange(s, s.active) && InRange(s, s.queued) && Kept(s, Step(s, e).0, Step(s, e).1)
  {
    assert PromotedIn([]) == [];
  }

  /**
   * Every registered message is active, queued or retired, and each step moves messages between
   * the three only as Conserves says.
   */
  lemma StepConserves(s: State, e: Input)
    requires Inv(s)
    ensures InRange(s, s.active) && InRange(s, s.queued) && Conserves(s, e, Step(s, e).0, Step(s, e).1)
  {
    InvInRange(s);
    if e.Send? {
      SendConserves(s, e);
    } else if e.Cancel? {
      CancelConserves(s, e);
    } else if e.HandleAck? {
      AckConserves(s, e.ackedId);
    } else {
      if s.active.None? {
        IdleKept(s, e);
      }
      EveryOtherEffect(s, e);
      EffectConserves(s, e, Step(s, e).0, Step(s, e).1);
    }
  }

  lemma EveryOtherEffect(s: State, e: Input)
    requires Inv(s) && !e.Send? && !e.Cancel? && !e.HandleAck?
    ensures InRange(s, s.active) && InRange(s, s.queued) && Effect(s, Step(s, e).0, Step(s, e).1)
  {
    InvInRange(s);
    match e
    case Resume(i, ok) => ResumedEffect(s, i, ok);
    case RegisterGroupId(g, id) => assert PromotedIn([]) == [];
    case OnFrameSent => assert PromotedIn([]) == [];
    case _ => RetryInputsEffect(s, e);
  }

  // What is reported -----------------------------------------------------------------------------------

  /** The reports among the outputs. */
  ghost predicate OnlyReports(outs: seq<Output>, kind: EventKind, id: string) {
    forall o :: o in outs && o.Notify? ==> o == Notify(kind, id)
  }

  ghost predicate Silent(outs: seq<Output>) {
    forall o :: o in outs ==> !o.Notify?
  }

  /** What onEvent hears of a step, and what the manager forgets along with it. */
  ghost predicate Reports(s: State, e: Input, s': State, outs: seq<Output>) {
    if s.active.None? || s.active.value >= |s.messages| then Silent(outs)
    else
      var m := s.messages[s.active.value];
      match e
      case HandleAck(id) =>
        if m.messageId == id then
          OnlyReports(outs, ACK_RECEIVED, id) && Notify(ACK_RECEIVED, id) in outs && GroupGone(s', m.groupId)
            && s'.retryTimer == NoTimer
        else Silent(outs)
      case HandleNack(g) =>
        if g in s.groupIds && s.groupIds[g] != "" && s.groupIds[g] == m.messageId then
          RetryReported(s, NACK_RECEIVED, s', outs)
        else Silent(outs) && s' == s
      case TimerFires =>
        if s.retryTimer.Armed? then RetryReported(s, TIMEOUT_RETRY, s', outs)
        else Silent(outs) && s' == s
      case HandleTimeout => RetryReported(s, TIMEOUT_RETRY, s', outs)
      case Cancel =>
        OnlyReports(outs, CANCELLED, m.messageId) && Notify(CANCELLED, m.messageId) in outs && GroupGone(s', m.groupId)
      case _ => Silent(outs)
  }

  ghost predicate GroupGone(s: State, groupId: nat) {
    groupId != 0 ==> groupId !in s.groupIds
  }

  /** Up to three retries are reported as such; the fourth is reported as the end of the message. */
  ghost predicate RetryReported(s: State, kind: EventKind, s': State, outs: seq<Output>)
    requires s.active.Some? && InRange(s, s.active)
  {
    var m := s.messages[s.active.value];
    if m.retryCount < MAX_RETRIES then
      OnlyReports(outs, kind, m.messageId) && Notify(kind, m.messageId) in outs
    else
      && OnlyReports(outs, MAX_RETRIES_REACHED, m.messageId) && Notify(MAX_RETRIES_REACHED, m.messageId) in outs
      && GroupGone(s', m.groupId) && s'.active == s.queued
  }

  lemma AdvanceSilent(s: State)
    requires InRange(s, s.queued)
    ensures Silent(Advance(s).1) && Advance(s).0.groupIds == s.groupIds && Advance(s).0.retryTimer == s.retryTimer
    ensures Advance(s).0.active == s.queued
  {
  }

  lemma ContinueSilent(s: State, i: nat)
    requires i < |s.loops| && s.loops[i].message < |s.messages| && InRange(s, s.active) && InRange(s, s.queued)
    ensures Silent(Continue(s, i).1) && Silent(Finish(s, i).1)
  {
    var s2 := s.(loops := s.loops[i := s.loops[i].(ended := true)], retransmitting := false);
    AdvanceSilent(s2);
    hide Advance;
  }

  lemma RetransmitSilent(s: State)
    requires InRange(s, s.active) && InRange(s, s.queued)
    ensures Silent(Retransmit(s).1)
  {
    hide Continue, Finish;
    if s.active.Some? && s.canSend && !s.retransmitting {
      ContinueSilent(Launched(s), |s.loops|);
    }
  }

  lemma OneReport(kind: EventKind, id: string, rest: seq<Output>)
    requires Silent(rest)
    ensures OnlyReports([Notify(kind, id)] + rest, kind, id) && Notify(kind, id) in [Notify(kind, id)] + rest
  {
  }

  lemma RetryReports(s: State, t: Timer, kind: EventKind)
    requires s.active.Some? && InRange(s, s.active) && InRange(s, s.queued)
    ensures var (s', outs) := Retry(Bump(s).(retryTimer := t), kind);
      RetryReported(s, kind, s', outs)
  {
    hide Retransmit, Advance, Silent, OnlyReports;
    var b, id := Bump(s).(retryTimer := t), s.messages[s.active.value].messageId;
    if s.messages[s.active.value].retryCount < MAX_RETRIES {
      RetransmitSilent(b);
      OneReport(kind, id, Retransmit(b).1);
    } else {
      AdvanceSilent(Exhausted(b));
      OneReport(MAX_RETRIES_REACHED, id, Advance(Exhausted(b)).1);
    }
  }

  lemma AckReports(s: State, id: string)
    requires InRange(s, s.active) && InRange(s, s.queued)
    ensures Reports(s, HandleAck(id), Acknowledge(s, id).0, Acknowledge(s, id).1)
  {
    hide Advance, Silent, OnlyReports;
    assert Silent([]) by { SilentEmpty(); }
    if s.active.Some? && s.messages[s.active.value].messageId == id {
      OneReport(ACK_RECEIVED, id, []);
      assert [Notify(ACK_RECEIVED, id)] + [] == [Notify(ACK_RECEIVED, id)];
      AdvanceSilent(MarkedAcked(s));
      OneReport(ACK_RECEIVED, id, Advance(MarkedAcked(s)).1);
    }
  }

  lemma SilentEmpty()
    ensures Silent([])
  {
  }

  lemma CancelReports(s: State)
    requires InRange(s, s.active) && InRange(s, s.queued)
    ensures Reports(s, Cancel, Cancelled(s).0, Cancelled(s).1)
  {
  }

  lemma ResumedReports(s: State, i: nat, ok: bool)
    requires InRange(s, s.active) && InRange(s, s.queued)
    ensures Silent(Resumed(s, i, ok).1)
  {
    hide Continue, Finish;
    if Suspended(s, i) {
      ContinueSilent(s, i);
      ContinueSilent(s.(loops := s.loops[i := s.loops[i].(next := s.loops[i].next + 1)]), i);
    }
  }

  /** Every step reports what it does to the active message, and nothing else. */
  lemma StepReports(s: State, e: Input)
    requires Inv(s)
    ensures InRange(s, s.active) && InRange(s, s.queued) && Reports(s, e, Step(s, e).0, Step(s, e).1)
  {
    InvInRange(s);
    SilentEmpty();
    hide Inv, Acknowledge, Retry, Bump, Resumed, Cancelled, Silent, OnlyReports, RetryReported, GroupGone;
    match e
    case HandleAck(id) => AckReports(s, id);
    case HandleNack(_) => if s.active.Some? { RetryReports(s, NoTimer, NACK_RECEIVED); }
    case TimerFires =>
      if s.active.Some? {
        RetryReports(s, Spent, TIMEOUT_RETRY);
        BumpTimer(s, Spent);
      }
    case HandleTimeout =>
      if s.active.Some? {
        RetryReports(s, s.retryTimer, TIMEOUT_RETRY);
        BumpTimer(s, s.retryTimer);
      }
    case Resume(i, ok) => ResumedReports(s, i, ok);
    case Cancel => CancelReports(s);
    case _ =>
  }

  lemma BumpTimer(s: State, t: Timer)
    requires s.active.Some? && InRange(s, s.active)
    ensures Bump(s.(retryTimer := t)) == Bump(s).(retryTimer := t)
    ensures t == s.retryTimer ==> Bump(s).(retryTimer := t) == Bump(s)
  {
  }

  // Acknowledgement marks ----------------------------------------------------------------------------

  /** No message is marked acknowledged that was not, except those with the given id. */
  ghost predicate NewAcks(s: State, s': State, id: Option<string>) {
    && (forall m :: 0 <= m < |s'.messages| && s'.messages[m].acked ==>
          m < |s.messages| && (s.messages[m].acked || id == Some(s.messages[m].messageId)))
    && (forall m :: 0 <= m < |s.messages| && s.messages[m].acked ==> m < |s'.messages| && s'.messages[m].acked)
  }

  lemma AdvanceAcks(s: State)
    requires InRange(s, s.queued)
    ensures NewAcks(s, Advance(s).0, None) && |Advance(s).0.messages| == |s.messages|
  {
  }

  lemma ContinueAcks(s: State, i: nat)
    requires i < |s.loops| && s.loops[i].message < |s.messages| && InRange(s, s.active) && InRange(s, s.queued)
    ensures NewAcks(s, Continue(s, i).0, None) && NewAcks(s, Finish(s, i).0, None)
  {
    var s2 := s.(loops := s.loops[i := s.loops[i].(ended := true)], retransmitting := false);
    AdvanceAcks(s2);
    hide Advance;
  }

  lemma RetryAcks(s: State, kind: EventKind)
    requires s.active.Some? && InRange(s, s.active) && InRange(s, s.queued)
    ensures NewAcks(s, Retry(s, kind).0, None)
  {
    hide Advance, Continue, Finish;
    AdvanceAcks(Exhausted(s));
    if s.canSend && !s.retransmitting {
      ContinueAcks(Launched(s), |s.loops|);
    }
  }

  lemma AcknowledgeAcks(s: State, id: string)
    requires InRange(s, s.active) && InRange(s, s.queued)
    ensures NewAcks(s, Acknowledge(s, id).0, Some(id))
  {
    if s.active.Some? && s.messages[s.active.value].messageId == id {
      AdvanceAcks(MarkedAcked(s));
      assert NewAcks(s, MarkedAcked(s), Some(id));
    }
    hide Advance;
  }

  lemma CountedAcks(s: State, t: Timer, kind: EventKind)
    requires s.active.Some? && InRange(s, s.active) && InRange(s, s.queued)
    ensures NewAcks(s, Retry(Bump(s).(retryTimer := t), kind).0, None)
  {
    RetryAcks(Bump(s).(retryTimer := t), kind);
    hide Retry;
  }

  lemma NackedAcks(s: State, g: nat)
    requires InRange(s, s.active) && InRange(s, s.queued)
    ensures NewAcks(s, Nacked(s, g).0, None)
  {
    if s.active.Some? { CountedAcks(s, NoTimer, NACK_RECEIVED); }
    hide Retry, Bump;
  }

  lemma TimedOutAcks(s: State, t: Timer)
    requires InRange(s, s.active) && InRange(s, s.queued)
    ensures NewAcks(s, TimedOut(s.(retryTimer := t)).0, None)
  {
    if s.active.Some? {
      CountedAcks(s, t, TIMEOUT_RETRY);
      assert Bump(s.(retryTimer := t)) == Bump(s).(retryTimer := t);
    }
    hide Retry, Bump;
  }

  lemma ResumedAcks(s: State, i: nat, ok: bool)
    requires InRange(s, s.active) && InRange(s, s.queued)
    ensures NewAcks(s, Resumed(s, i, ok).0, None)
  {
    if Suspended(s, i) {
      ContinueAcks(s, i);
      ContinueAcks(s.(loops := s.loops[i := s.loops[i].(next := s.loops[i].next + 1)]), i);
    }
    hide Continue, Finish;
  }

  /** Only an acknowledgement marks messages, and only those that carry its id. */
  lemma StepAcks(s: State, e: Input)
    requires Inv(s)
    ensures InRange(s, s.active) && InRange(s, s.queued)
    ensures NewAcks(s, Step(s, e).0, if e.HandleAck? then Some(e.ackedId) else None)
  {
    InvInRange(s);
    hide Inv, InRange, Acknowledge, Nacked, TimedOut, Resumed;
    match e
    case HandleAck(id) => AcknowledgeAcks(s, id);
    case HandleNack(g) => NackedAcks(s, g);
    case TimerFires => TimedOutAcks(s, Spent);
    case HandleTimeout =>
      TimedOutAcks(s, s.retryTimer);
      assert s.(retryTimer := s.retryTimer) == s;
    case Resume(i, ok) => ResumedAcks(s, i, ok);
    case _ =>
  }

  /**
   * The live loop of an acknowledged message has nothing left to do: however its send settles, the
   * message is retired.
   */
  lemma AckedLoopRetires(s: State, i: nat, ok: bool)
    requires Inv(s) && IsLive(s, i) && s.active.Some? && s.active.value < |s.messages|
      && s.messages[s.active.value].acked
    ensures InRange(s, s.active) && InRange(s, s.queued)
    ensures var (s', outs) := Step(s, Resume(i, ok));
      && Retired(s', s.active.value) && s'.active == s.queued && !s'.retransmitting
      && PromotedIn(outs) == if s.queued.Some? then [s.queued.value] else []
  {
    OnlyLastIsLive(s, i);
    assert forall m: nat :: PromotedIn([Promoted(m)]) == [m] by {
      forall m: nat
        ensures PromotedIn([Promoted(m)]) == [m]
      {
        assert [Promoted(m)][..0] == [];
      }
    }
  }

  // Nothing leaves in silence --------------------------------------------------------------------------------

  /** The end of a message, one way or another. */
  predicate IsEnd(kind: EventKind) {
    kind == ACK_RECEIVED || kind == MAX_RETRIES_REACHED || kind == CANCELLED
  }

  ghost predicate Told(outs: seq<Output>, id: string) {
    exists kind :: IsEnd(kind) && Notify(kind, id) in outs
  }

  lemma FinishStays(s: State, i: nat)
    requires i < |s.loops| && s.loops[i].message < |s.messages| && InRange(s, s.active) && InRange(s, s.queued)
    requires !s.messages[s.loops[i].message].acked
    ensures Finish(s, i).0.active == s.active && Continue(s, i).0.active == s.active
  {
  }

  /** A retry that is not the last leaves the message where it is. */
  lemma RetryStays(s: State, t: Timer, kind: EventKind)
    requires s.active.Some? && InRange(s, s.active) && InRange(s, s.queued)
    requires s.messages[s.active.value].retryCount < MAX_RETRIES && !s.messages[s.active.value].acked
    ensures Retry(Bump(s).(retryTimer := t), kind).0.active == s.active
  {
    hide Continue, Finish;
    var s1 := Bump(s).(retryTimer := t);
    if s1.canSend && !s1.retransmitting { FinishStays(Launched(s1), |s1.loops|); }
  }

  lemma RetryTells(s: State, t: Timer, kind: EventKind)
    requires s.active.Some? && InRange(s, s.active) && InRange(s, s.queued) && !s.messages[s.active.value].acked
    ensures var (s', outs) := Retry(Bump(s).(retryTimer := t), kind);
      s'.active != s.active ==> Told(outs, s.messages[s.active.value].messageId)
  {
    if s.messages[s.active.value].retryCount < MAX_RETRIES {
      RetryStays(s, t, kind);
    } else {
      var outs := Retry(Bump(s).(retryTimer := t), kind).1;
      assert IsEnd(MAX_RETRIES_REACHED) && outs[0] == Notify(MAX_RETRIES_REACHED, s.messages[s.active.value].messageId);
      assert outs[0] in outs;
    }
    hide Retry, Bump;
  }

  lemma ResumeStays(s: State, i: nat, ok: bool)
    requires Inv(s) && s.active.Some? && s.active.value < |s.messages| && !s.messages[s.active.value].acked
    ensures InRange(s, s.active) && InRange(s, s.queued) && Step(s, Resume(i, ok)).0.active == s.active
  {
    if Suspended(s, i) {
      var s1 := s.(loops := s.loops[i := s.loops[i].(next := s.loops[i].next + 1)]);
      if !s.messages[s.loops[i].message].acked {
        FinishStays(s, i);
        FinishStays(s1, i);
      } else if s.loops[i].generation == s.generation {
        OnlyLastIsLive(s, i);
      }
    }
  }

  /** A message that has not been acknowledged leaves the active slot only with its end reported. */
  lemma LeavesTold(s: State, e: Input)
    requires Inv(s) && s.active.Some? && s.active.value < |s.messages| && !s.messages[s.active.value].acked
    ensures InRange(s, s.active) && InRange(s, s.queued)
    ensures var (s', outs) := Step(s, e);
      s'.active != s.active ==> Told(outs, s.messages[s.active.value].messageId)
  {
    InvInRange(s);
    hide Inv, Told, Retry, Bump, Resumed, ForgetBoth, Advance;
    var m := s.messages[s.active.value];
    match e
    case HandleAck(id) => FirstTold(Step(s, e).1, ACK_RECEIVED, m.messageId);
    case HandleNack(g) => RetryTells(s, NoTimer, NACK_RECEIVED);
    case TimerFires =>
      RetryTells(s, Spent, TIMEOUT_RETRY);
      assert Bump(s.(retryTimer := Spent)) == Bump(s).(retryTimer := Spent) by { BumpTimer(s, Spent); }
    case HandleTimeout =>
      RetryTells(s, s.retryTimer, TIMEOUT_RETRY);
      assert Bump(s).(retryTimer := s.retryTimer) == Bump(s) by { BumpTimer(s, s.retryTimer); }
    case Resume(i, ok) => ResumeStays(s, i, ok);
    case Cancel => FirstTold(Step(s, e).1, CANCELLED, m.messageId);
    case _ =>
  }

  lemma FirstTold(outs: seq<Output>, kind: EventKind, id: string)
    requires IsEnd(kind)
    ensures outs != [] && outs[0] == Notify(kind, id) ==> Told(outs, id)
  {
    if outs != [] && outs[0] == Notify(kind, id) { assert Notify(kind, id) in outs; }
  }

  /** An acknowledgement of the active message is reported. */
  lemma AckTold(s: State, e: Input)
    requires Inv(s) && s.active.Some? && s.active.value < |s.messages| && !s.messages[s.active.value].acked
    ensures InRange(s, s.active) && InRange(s, s.queued)
    ensures var (s', outs) := Step(s, e);
      s.active.value < |s'.messages|
        && (s'.messages[s.active.value].acked ==> Told(outs, s.messages[s.active.value].messageId))
  {
    StepAcks(s, e);
    StepConserves(s, e);
    hide Inv, Told, Conserves, Nacked, TimedOut, Resumed, Cancelled, ForgetBoth, Advance;
    if e.HandleAck? { FirstTold(Step(s, e).1, ACK_RECEIVED, s.messages[s.active.value].messageId); }
  }

  /** A message becomes active without having been acknowledged. */
  lemma StartsUnacked(s: State, e: Input)
    requires Inv(s)
    ensures InRange(s, s.active) && InRange(s, s.queued)
    ensures var s' := Step(s, e).0;
      s'.active.Some? && s'.active != s.active ==>
        s'.active.value < |s'.messages| && !s'.messages[s'.active.value].acked
  {
    StepInv(s, e);
    StepAcks(s, e);
    StepConserves(s, e);
    if s.active.None? {
      NoneStaysNone(s, e);
    } else if e.HandleAck? {
      hide Conserves, NewAcks;
      AckStarts(s, e.ackedId);
    }
    hide Step;
  }

  lemma NoneStaysNone(s: State, e: Input)
    requires Inv(s) && s.active.None?
    ensures InRange(s, s.active) && InRange(s, s.queued)
    ensures e.Send? || Step(s, e).0.active.None?
    ensures e.Send? ==> Step(s, e).0.active == Some(|s.messages|)
  {
    hide Retry, Bump, ForgetBoth;
  }

  lemma AckStarts(s: State, id: string)
    requires Inv(s) && s.active.Some?
    ensures InRange(s, s.active) && InRange(s, s.queued)
    ensures var s' := Step(s, HandleAck(id)).0;
      s'.active.Some? && s'.active != s.active ==>
        s'.active.value < |s'.messages| && !s'.messages[s'.active.value].acked
  {
  }
}
