/** The per-connection write queue. The answer to a submission is an attribute of the write, submitted at most once. */
module GattWriteQueue {
  import opened Collections

  datatype PendingWrite = PendingWrite(ticket: nat, accepted: bool)

  /** A call of the write, or of its completion callback. */
  datatype Event =
    | Submitted(key: string, ticket: nat)
    | Settled(key: string, ticket: nat, success: bool)

  datatype State = State(
    queues: map<string, seq<PendingWrite>>, inFlight: set<string>, enqueued: map<string, nat>, log: seq<Event>)

  function QueueOf(s: State, key: string): seq<PendingWrite> {
    if key in s.queues then s.queues[key] else []
  }

  function EnqueuedFor(s: State, key: string): nat {
    if key in s.enqueued then s.enqueued[key] else 0
  }

  function Settle(s: State, key: string, w: PendingWrite, success: bool): State {
    s.(log := s.log + [Settled(key, w.ticket, success)])
  }

  function PollFirst(s: State, key: string): State
    requires key in s.queues && s.queues[key] != []
  {
    s.(queues := s.queues[key := s.queues[key][1..]])
  }

  function SubmitHead(s: State, key: string): State
    requires key in s.queues && s.queues[key] != []
  {
    var head := s.queues[key][0];
    s.(log := s.log + [Submitted(key, head.ticket)],
       inFlight := if head.accepted then s.inFlight + {key} else s.inFlight)
  }

  /** Submits head writes until one is accepted; the queue of a drained key is dropped. */
  function Pump(s: State, key: string): State
    decreases |QueueOf(s, key)|
  {
    if QueueOf(s, key) == [] then
      if key in s.queues && key !in s.inFlight then s.(queues := s.queues - {key}) else s
    else
      var head, s1 := s.queues[key][0], SubmitHead(s, key);
      if head.accepted then s1 else Pump(Rejected(s1, key), key)
  }

  /** The head was refused: it leaves the queue and its callback hears `false`. */
  function Rejected(s: State, key: string): (s': State)
    requires key in s.queues && s.queues[key] != []
    ensures QueueOf(s', key) == QueueOf(s, key)[1..]
  {
    Settle(PollFirst(s, key).(inFlight := s.inFlight - {key}), key, s.queues[key][0], false)
  }

  /** The write joins the end of its queue. */
  function AddLast(s: State, key: string, accepted: bool): (s': State)
    ensures QueueOf(s', key) == QueueOf(s, key) + [PendingWrite(EnqueuedFor(s, key), accepted)]
  {
    var n := EnqueuedFor(s, key);
    s.(queues := s.queues[key := QueueOf(s, key) + [PendingWrite(n, accepted)]], enqueued := s.enqueued[key := n + 1])
  }

  function Enqueue(s: State, key: string, accepted: bool): State {
    var s1 := AddLast(s, key, accepted);
    if key in s1.inFlight then s1
    else
      var head, s2 := QueueOf(s1, key)[0], SubmitHead(s1, key);
      if head.accepted then s2
      else Pump(Settle(PollFirst(s2, key), key, PendingWrite(EnqueuedFor(s, key), accepted), false), key)
  }

  function NotifyCompleted(s: State, key: string, success: bool): State {
    if key !in s.queues || key !in s.inFlight then s
    else
      var s1 := s.(inFlight := s.inFlight - {key});
      if s1.queues[key] == [] then Pump(s1, key)
      else Pump(Settle(PollFirst(s1, key), key, s1.queues[key][0], success), key)
  }

  function SettleAll(key: string, q: seq<PendingWrite>): (events: seq<Event>)
    ensures |events| == |q|
    ensures forall i :: 0 <= i < |q| ==> events[i] == Settled(key, q[i].ticket, false)
  {
    seq(|q|, i requires 0 <= i < |q| => Settled(key, q[i].ticket, false))
  }

  function Clear(s: State, key: string): State {
    s.(queues := s.queues - {key}, inFlight := if key in s.queues then s.inFlight - {key} else s.inFlight,
       log := s.log + SettleAll(key, QueueOf(s, key)))
  }

  function ClearKeys(s: State, keys: seq<string>): State {
    if keys == [] then s else Clear(ClearKeys(s, keys[..|keys| - 1]), keys[|keys| - 1])
  }

  // The first-in-first-out specification --------------------------------------------------------------

  /** One key as seen from outside: how many writes have settled, and whether the next is under way. */
  datatype Channel = Channel(settled: nat, submitted: bool) | Broken

  /** Writes are submitted in order, each at most once and only when all earlier ones have settled. */
  function Observe(c: Channel, e: Event): Channel {
    if c.Broken? then Broken
    else
      match e
      case Submitted(_, t) => if t == c.settled && !c.submitted then Channel(t, true) else Broken
      case Settled(_, t, ok) => if t == c.settled && (ok ==> c.submitted) then Channel(t + 1, false) else Broken
  }

  /** What the events of one key amount to. */
  function Track(log: seq<Event>, key: string): Channel {
    if log == [] then Channel(0, false)
    else
      var c, e := Track(log[..|log| - 1], key), log[|log| - 1];
      if e.key == key then Observe(c, e) else c
  }

  /** Occurrences of an event about write t of the key. */
  function Count(log: seq<Event>, key: string, t: nat, settled: bool): nat {
    if log == [] then 0
    else
      var e := log[|log| - 1];
      Count(log[..|log| - 1], key, t, settled) + if e.key == key && e.ticket == t && e.Settled? == settled then 1 else 0
  }

  /**
   * What an unbroken channel means: of its writes exactly the first `settled` ones have had their
   * callback, each once; none was submitted twice; none beyond the next one was submitted at all.
   */
  lemma {:induction false} TrackMeaning(log: seq<Event>, key: string, t: nat)
    requires Track(log, key).Channel?
    ensures var c := Track(log, key);
      && Count(log, key, t, true) == (if t < c.settled then 1 else 0)
      && Count(log, key, t, false) <= (if t < c.settled || (t == c.settled && c.submitted) then 1 else 0)
      && (c.submitted ==> Count(log, key, c.settled, false) == 1)
  {
    if log != [] {
      TrackMeaning(log[..|log| - 1], key, t);
      TrackMeaning(log[..|log| - 1], key, Track(log[..|log| - 1], key).settled);
    }
  }

  lemma {:induction false} TrackPrefix(log: seq<Event>, key: string, i: nat)
    requires i <= |log| && Track(log, key).Channel?
    ensures Track(log[..i], key).Channel?
  {
    if i < |log| {
      TrackPrefix(log[..|log| - 1], key, i);
      assert log[..|log| - 1][..i] == log[..i];
    } else {
      assert log[..i] == log;
    }
  }

  /** A write is submitted only when exactly the writes enqueued before it have settled. */
  lemma SubmittedInTurn(log: seq<Event>, key: string, i: nat)
    requires i < |log| && Track(log, key).Channel? && log[i].key == key
    ensures log[i].Submitted? ==> Track(log[..i], key) == Channel(log[i].ticket, false)
    ensures log[i].Settled? ==>
      var c := Track(log[..i], key); c.Channel? && c.settled == log[i].ticket && (log[i].success ==> c.submitted)
  {
    TrackPrefix(log, key, i + 1);
    assert log[..i + 1][..i] == log[..i];
  }

  // The invariant ---------------------------------------------------------------------------------------

  ghost predicate Numbered(q: seq<PendingWrite>, first: int) {
    forall i :: 0 <= i < |q| ==> q[i].ticket == first + i
  }

  /** The queue of a key holds exactly its unsettled writes, in order; `busy` says the head is submitted. */
  ghost predicate Tracks(s: State, key: string, busy: bool) {
    var q, n := QueueOf(s, key), EnqueuedFor(s, key);
    |q| <= n && Numbered(q, n - |q|) && Track(s.log, key) == Channel(n - |q|, busy)
  }

  ghost predicate KeyOK(s: State, key: string) {
    && (key in s.queues <==> key in s.inFlight)
    && (key in s.queues ==> s.queues[key] != [])
    && Tracks(s, key, key in s.inFlight)
  }

  ghost predicate Inv(s: State) {
    forall key :: KeyOK(s, key)
  }

  /** A key between two writes: its queue is still listed, nothing of it is under way. */
  ghost predicate Between(s: State, key: string) {
    key in s.queues && key !in s.inFlight && Tracks(s, key, false)
  }

  /** Only the given key is affected. */
  ghost predicate OthersKept(s: State, s': State, key: string) {
    forall k :: k != key ==>
      && (k in s'.queues <==> k in s.queues) && (k in s.queues ==> s'.queues[k] == s.queues[k])
      && (k in s'.inFlight <==> k in s.inFlight)
      && EnqueuedFor(s', k) == EnqueuedFor(s, k)
      && Track(s'.log, k) == Track(s.log, k)
  }

  lemma TrackPush(log: seq<Event>, e: Event, key: string)
    ensures Track(log + [e], key) == if e.key == key then Observe(Track(log, key), e) else Track(log, key)
  {
    assert (log + [e])[..|log|] == log;
  }

  lemma KeptOK(s: State, s': State, key: string)
    requires Inv(s) && OthersKept(s, s', key) && KeyOK(s', key)
    ensures Inv(s')
  {
    forall k ensures KeyOK(s', k) {
      assert KeyOK(s, k);
    }
  }

  lemma KeptTwice(s: State, s1: State, s2: State, key: string)
    requires OthersKept(s, s1, key) && OthersKept(s1, s2, key)
    ensures OthersKept(s, s2, key)
  {
  }

  lemma SubmitOK(s: State, key: string)
    requires Between(s, key) && s.queues[key] != []
    ensures var s1 := SubmitHead(s, key);
      && OthersKept(s, s1, key) && Tracks(s1, key, true)
      && (s.queues[key][0].accepted ==> KeyOK(s1, key))
  {
    var e := Submitted(key, s.queues[key][0].ticket);
    forall k ensures Track(s.log + [e], k) == if k == key then Observe(Track(s.log, k), e) else Track(s.log, k) {
      TrackPush(s.log, e, k);
    }
  }

  /** The head settles: the rest of the queue is then between two writes. */
  lemma SettleHeadOK(s: State, key: string, busy: bool, success: bool)
    requires key in s.queues && s.queues[key] != [] && Tracks(s, key, busy) && (success ==> busy)
    ensures var s1 := Settle(PollFirst(s, key).(inFlight := s.inFlight - {key}), key, s.queues[key][0], success);
      Between(s1, key) && OthersKept(s, s1, key)
  {
    var e := Settled(key, s.queues[key][0].ticket, success);
    forall k ensures Track(s.log + [e], k) == if k == key then Observe(Track(s.log, k), e) else Track(s.log, k) {
      TrackPush(s.log, e, k);
    }
  }

  lemma DropEmptyOK(s: State, key: string)
    requires Between(s, key) && s.queues[key] == []
    ensures KeyOK(s.(queues := s.queues - {key}), key) && OthersKept(s, s.(queues := s.queues - {key}), key)
  {
  }

  /** Draining ends with the key idle and unlisted, or with its next accepted write under way. */
  lemma {:induction false} PumpOK(s: State, key: string)
    requires Between(s, key)
    ensures KeyOK(Pump(s, key), key) && OthersKept(s, Pump(s, key), key)
    decreases |QueueOf(s, key)|
  {
    if QueueOf(s, key) == [] {
      DropEmptyOK(s, key);
    } else {
      SubmitOK(s, key);
      var s1 := SubmitHead(s, key);
      if !s.queues[key][0].accepted {
        SettleHeadOK(s1, key, true, false);
        PumpOK(Rejected(s1, key), key);
        KeptTwice(s, s1, Rejected(s1, key), key);
        KeptTwice(s, Rejected(s1, key), Pump(s, key), key);
      }
    }
    hide KeyOK, OthersKept, Between, Tracks;
  }

  lemma AddLastOK(s: State, key: string, accepted: bool)
    requires KeyOK(s, key)
    ensures var s1 := AddLast(s, key, accepted);
      OthersKept(s, s1, key)
        && (if key in s.inFlight then KeyOK(s1, key) else Between(s1, key) && |QueueOf(s1, key)| == 1)
  {
  }

  lemma EnqueueOK(s: State, key: string, accepted: bool)
    requires KeyOK(s, key)
    ensures KeyOK(Enqueue(s, key, accepted), key) && OthersKept(s, Enqueue(s, key, accepted), key)
  {
    AddLastOK(s, key, accepted);
    var s1 := AddLast(s, key, accepted);
    if key !in s.inFlight {
      SubmitOK(s1, key);
      var s2 := SubmitHead(s1, key);
      KeptTwice(s, s1, s2, key);
      if !accepted {
        SettleHeadOK(s2, key, true, false);
        var s3 := Settle(PollFirst(s2, key), key, s2.queues[key][0], false);
        assert s2.inFlight - {key} == s2.inFlight;
        PumpOK(s3, key);
        KeptTwice(s, s2, s3, key);
        KeptTwice(s, s3, Pump(s3, key), key);
      }
    }
    hide KeyOK, OthersKept, Between, Tracks, Pump;
  }

  lemma NotifyOK(s: State, key: string, success: bool)
    requires KeyOK(s, key)
    ensures KeyOK(NotifyCompleted(s, key, success), key) && OthersKept(s, NotifyCompleted(s, key, success), key)
  {
    if key in s.inFlight {
      SettleHeadOK(s, key, true, success);
      var s1 := Settle(PollFirst(s, key).(inFlight := s.inFlight - {key}), key, s.queues[key][0], success);
      PumpOK(s1, key);
      KeptTwice(s, s1, Pump(s1, key), key);
    }
    hide OthersKept, Between, Tracks, Pump;
  }

  lemma {:induction false} OthersUnheard(log: seq<Event>, events: seq<Event>, key: string, k: string)
    requires k != key && forall i :: 0 <= i < |events| ==> events[i].key == key
    ensures Track(log + events, k) == Track(log, k)
  {
    if events == [] {
      assert log + events == log;
    } else {
      var init, last := events[..|events| - 1], events[|events| - 1];
      OthersUnheard(log, init, key, k);
      assert log + events == (log + init) + [last];
      TrackPush(log + init, last, k);
    }
  }

  lemma {:induction false} SettleAllTrack(log: seq<Event>, key: string, q: seq<PendingWrite>)
    requires Track(log, key).Channel? && Numbered(q, Track(log, key).settled) && q != []
    ensures Track(log + SettleAll(key, q), key) == Channel(Track(log, key).settled + |q|, false)
  {
    var n := |q| - 1;
    var init, last := SettleAll(key, q[..n]), Settled(key, q[n].ticket, false);
    assert log + SettleAll(key, q) == (log + init) + [last];
    TrackPush(log + init, last, key);
    if n > 0 {
      SettleAllTrack(log, key, q[..n]);
    } else {
      assert log + init == log;
    }
  }

  lemma ClearOK(s: State, key: string)
    requires KeyOK(s, key)
    ensures KeyOK(Clear(s, key), key) && OthersKept(s, Clear(s, key), key)
    ensures key !in Clear(s, key).queues
  {
    var events := SettleAll(key, QueueOf(s, key));
    forall k | k != key
      ensures Track(s.log + events, k) == Track(s.log, k)
    {
      OthersUnheard(s.log, events, key, k);
    }
    if key in s.queues {
      SettleAllTrack(s.log, key, s.queues[key]);
    } else {
      assert s.log + events == s.log;
    }
  }

  datatype Input =
    | Enqueues(key: string, accepted: bool)
    | Completes(key: string, success: bool)
    | Clears(key: string)

  function Step(s: State, e: Input): State {
    match e
    case Enqueues(key, accepted) => Enqueue(s, key, accepted)
    case Completes(key, success) => NotifyCompleted(s, key, success)
    case Clears(key) => Clear(s, key)
  }

  /** An operation on one key keeps the invariant and leaves every other key alone. */
  lemma StepOK(s: State, e: Input)
    requires Inv(s)
    ensures Inv(Step(s, e)) && OthersKept(s, Step(s, e), e.key)
  {
    assert KeyOK(s, e.key);
    match e {
      case Enqueues(key, accepted) => EnqueueOK(s, key, accepted);
      case Completes(key, success) => NotifyOK(s, key, success);
      case Clears(key) => ClearOK(s, key);
    }
    hide KeyOK, OthersKept, Enqueue, NotifyCompleted, Clear;
    KeptOK(s, Step(s, e), e.key);
  }

  ghost function Run(inputs: seq<Input>): (s: State)
    ensures Inv(s)
  {
    if inputs == [] then
      var s := State(map[], {}, map[], []);
      assert forall key :: KeyOK(s, key);
      s
    else
      var s := Run(inputs[..|inputs| - 1]);
      StepOK(s, inputs[|inputs| - 1]);
      Step(s, inputs[|inputs| - 1])
  }

  /**
   * In every run and for every key: the queue is listed exactly while a write of the key is under
   * way, that write is the head, the events form an in-order exactly-once channel, and every write
   * enqueued is settled or still queued.
   */
  lemma QueueIsFifo(inputs: seq<Input>, key: string)
    ensures var s := Run(inputs);
      && (key in s.queues <==> key in s.inFlight) && (key in s.queues ==> s.queues[key] != [])
      && |QueueOf(s, key)| <= EnqueuedFor(s, key)
      && Track(s.log, key) == Channel(EnqueuedFor(s, key) - |QueueOf(s, key)|, key in s.inFlight)
      && (key in s.queues ==> s.queues[key][0].ticket == Track(s.log, key).settled)
  {
    assert KeyOK(Run(inputs), key);
  }

  /** A queue without the refused writes at its front. */
  function DropRefused(q: seq<PendingWrite>): seq<PendingWrite> {
    if q == [] || q[0].accepted then q else DropRefused(q[1..])
  }

  lemma {:induction false} PumpDrops(s: State, key: string)
    ensures QueueOf(Pump(s, key), key) == DropRefused(QueueOf(s, key))
    decreases |QueueOf(s, key)|
  {
    if QueueOf(s, key) != [] && !s.queues[key][0].accepted {
      PumpDrops(Rejected(SubmitHead(s, key), key), key);
    }
  }

  /** The simple queue that the key's queue refines: append, pop on completion, skip refused writes. */
  lemma StepRefinesQueue(s: State, e: Input)
    requires Inv(s)
    ensures var q := QueueOf(s, e.key);
      QueueOf(Step(s, e), e.key) ==
        match e
        case Enqueues(key, accepted) =>
          var w := PendingWrite(EnqueuedFor(s, key), accepted);
          if q == [] then DropRefused([w]) else q + [w]
        case Completes(_, _) => if q == [] then [] else DropRefused(q[1..])
        case Clears(_) => []
  {
    assert KeyOK(s, e.key);
    match e
    case Enqueues(key, accepted) =>
      var s2 := SubmitHead(AddLast(s, key, accepted), key);
      PumpDrops(Settle(PollFirst(s2, key), key, PendingWrite(EnqueuedFor(s, key), accepted), false), key);
    case Completes(key, success) =>
      if key in s.queues {
        var s1 := s.(inFlight := s.inFlight - {key});
        PumpDrops(Settle(PollFirst(s1, key), key, s1.queues[key][0], success), key);
      }
    case Clears(key) =>
  }

  // The class ---------------------------------------------------------------------------------------

  class GattWriteQueue {
    var queues: map<string, seq<PendingWrite>>
    var inFlight: set<string>
    /** How many writes each key has had: the numbering of the writes. */
    var enqueued: map<string, nat>
    var log: seq<Event>

    ghost function Contents(): State
      reads this
    {
      State(queues, inFlight, enqueued, log)
    }

    constructor ()
      ensures Contents() == Run([])
    {
      queues, inFlight, enqueued, log := map[], {}, map[], [];
    }

    method SettleWrite(key: string, w: PendingWrite, success: bool)
      modifies this`log
      ensures Contents() == Settle(old(Contents()), key, w, success)
    {
      log := log + [Settled(key, w.ticket, success)];
    }

    method SubmitFirst(key: string) returns (accepted: bool)
      requires key in queues && queues[key] != []
      modifies this`log, this`inFlight
      ensures Contents() == SubmitHead(old(Contents()), key) && accepted == queues[key][0].accepted
    {
      var head := queues[key][0];
      log := log + [Submitted(key, head.ticket)];
      accepted := head.accepted;
      if accepted {
        inFlight := inFlight + {key};
      }
    }

    method PollHead(key: string) returns (head: PendingWrite)
      requires key in queues && queues[key] != []
      modifies this`queues
      ensures Contents() == PollFirst(old(Contents()), key) && head == old(queues[key][0])
    {
      head := queues[key][0];
      queues := queues[key := queues[key][1..]];
    }

    method PumpLocked(key: string)
      modifies this
      ensures Contents() == Pump(old(Contents()), key)
      decreases |QueueOf(Contents(), key)|
    {
      if key !in queues || queues[key] == [] {
        if key in queues && key !in inFlight {
          queues := queues - {key};
        }
        return;
      }
      var accepted := SubmitFirst(key);
      if !accepted {
        var head := PollHead(key);
        inFlight := inFlight - {key};
        SettleWrite(key, head, false);
        PumpLocked(key);
      }
    }

    method AddPending(key: string, acceptable: bool) returns (pending: PendingWrite)
      modifies this`queues, this`enqueued
      ensures Contents() == AddLast(old(Contents()), key, acceptable)
      ensures pending == PendingWrite(old(EnqueuedFor(Contents(), key)), acceptable)
    {
      var ticket := if key in enqueued then enqueued[key] else 0;
      pending := PendingWrite(ticket, acceptable);
      queues := queues[key := (if key in queues then queues[key] else []) + [pending]];
      enqueued := enqueued[key := ticket + 1];
    }

    /** Submits the head; if it is refused, settles `pending` and drains the rest. */
    method SubmitOrDrain(key: string, pending: PendingWrite) returns (accepted: bool)
      requires key in queues && queues[key] != []
      modifies this
      ensures accepted == old(queues[key][0]).accepted
      ensures Contents() == if accepted then SubmitHead(old(Contents()), key)
                            else var polled := PollFirst(SubmitHead(old(Contents()), key), key);
                              Pump(Settle(polled, key, pending, false), key)
    {
      accepted := SubmitFirst(key);
      if !accepted {
        var _ := PollHead(key);
        SettleWrite(key, pending, false);
        PumpLocked(key);
      }
    }

    /** Returns false exactly when the write was submitted now and refused. */
    method EnqueueWrite(key: string, acceptable: bool) returns (accepted: bool)
      requires Inv(Contents())
      modifies this
      ensures Contents() == Enqueue(old(Contents()), key, acceptable) && Inv(Contents())
      ensures accepted <==> key in old(inFlight) || acceptable
    {
      StepOK(Contents(), Enqueues(key, acceptable));
      assert key in inFlight || key !in queues by { assert KeyOK(Contents(), key); }
      hide Inv, KeyOK, SubmitHead, PollFirst, Pump, Settle, OthersKept;
      var pending := AddPending(key, acceptable);
      if key in inFlight {
        return true;
      }
      accepted := SubmitOrDrain(key, pending);
    }

    method NotifyCompletion(key: string, success: bool)
      requires Inv(Contents())
      modifies this
      ensures Contents() == NotifyCompleted(old(Contents()), key, success) && Inv(Contents())
    {
      StepOK(Contents(), Completes(key, success));
      if key !in queues || key !in inFlight {
        return;
      }
      inFlight := inFlight - {key};
      if queues[key] != [] {
        var head := PollHead(key);
        SettleWrite(key, head, success);
      }
      PumpLocked(key);
    }

    method ClearKey(key: string)
      modifies this
      ensures Contents() == Clear(old(Contents()), key)
    {
      if key !in queues {
        assert log + SettleAll(key, []) == log;
        return;
      }
      var queue := queues[key];
      queues := queues - {key};
      inFlight := inFlight - {key};
      var i := 0;
      while i < |queue|
        invariant 0 <= i <= |queue|
        invariant queues == old(queues) - {key} && inFlight == old(inFlight) - {key} && enqueued == old(enqueued)
        invariant log == old(log) + SettleAll(key, queue)[..i]
      {
        SettleWrite(key, queue[i], false);
        i := i + 1;
      }
    }

    method ClearAll() returns (ghost keys: seq<string>)
      modifies this
      ensures Contents() == ClearKeys(old(Contents()), keys) && Elements(keys) == old(queues).Keys
      ensures queues == map[]
    {
      var rest := queues.Keys;
      keys := [];
      while rest != {}
        invariant Elements(keys) + rest == old(queues).Keys && queues.Keys == rest
        invariant Contents() == ClearKeys(old(Contents()), keys)
        decreases rest
      {
        var key :| key in rest;
        ClearKey(key);
        rest := rest - {key};
        assert (keys + [key])[..|keys|] == keys;
        keys := keys + [key];
      }
    }
  }
}
