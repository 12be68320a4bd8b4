/** What the callbacks of the write queue hear: the platform's answer for the write under way, and otherwise false. */
module GattAnswers {
  import opened Collections
  import opened GattWriteQueue

  /** An event that is no callback, or tells of a failure. */
  predicate Dismal(e: Event) {
    e.Settled? ==> !e.success
  }

  ghost predicate AllDismal(events: seq<Event>, key: string) {
    forall e :: e in events ==> Dismal(e) && e.key == key
  }

  lemma {:induction false} PumpLog(s: State, key: string) returns (events: seq<Event>)
    ensures Pump(s, key).log == s.log + events && AllDismal(events, key)
    decreases |QueueOf(s, key)|
  {
    events := [];
    if QueueOf(s, key) != [] {
      var head := s.queues[key][0];
      events := [Submitted(key, head.ticket)];
      if !head.accepted {
        var rest := PumpLog(Rejected(SubmitHead(s, key), key), key);
        events := events + [Settled(key, head.ticket, false)] + rest;
      }
    }
  }

  /** The write of the key that is under way: the head of its queue. */
  predicate UnderWay(s: State, key: string, t: nat) {
    key in s.inFlight && key in s.queues && s.queues[key] != [] && s.queues[key][0].ticket == t
  }

  /**
   * What a step tells: a completion of a key with a write under way first settles that write with the
   * platform's answer; whatever else settles, settles with false, and is a write of the same key.
   */
  lemma StepTells(s: State, e: Input) returns (events: seq<Event>)
    requires Inv(s)
    ensures Step(s, e).log == s.log + events
    ensures if e.Completes? && e.key in s.inFlight then
              && events != [] && events[0].Settled? && UnderWay(s, e.key, events[0].ticket)
              && events[0] == Settled(e.key, events[0].ticket, e.success) && AllDismal(events[1..], e.key)
            else AllDismal(events, e.key)
  {
    assert KeyOK(s, e.key);
    hide Inv, KeyOK;
    match e
    case Enqueues(key, accepted) => events := EnqueueTells(s, key, accepted);
    case Completes(key, success) => events := CompletionTells(s, key, success);
    case Clears(key) => events := SettleAll(key, QueueOf(s, key));
  }

  lemma EnqueueTells(s: State, key: string, accepted: bool) returns (events: seq<Event>)
    requires KeyOK(s, key)
    ensures Enqueue(s, key, accepted).log == s.log + events && AllDismal(events, key)
  {
    assert key !in s.inFlight ==> QueueOf(s, key) == [];
    hide KeyOK, Pump;
    var s2 := SubmitHead(AddLast(s, key, accepted), key);
    events := [];
    if key !in s.inFlight {
      events := [Submitted(key, EnqueuedFor(s, key))];
      if !accepted {
        var w := PendingWrite(EnqueuedFor(s, key), accepted);
        var rest := PumpLog(Settle(PollFirst(s2, key), key, w, false), key);
        events := events + [Settled(key, w.ticket, false)] + rest;
      }
    }
  }

  lemma CompletionTells(s: State, key: string, success: bool) returns (events: seq<Event>)
    requires KeyOK(s, key)
    ensures NotifyCompleted(s, key, success).log == s.log + events
    ensures if key in s.inFlight then
              && events != [] && events[0].Settled? && UnderWay(s, key, events[0].ticket)
              && events[0] == Settled(key, events[0].ticket, success) && AllDismal(events[1..], key)
            else events == []
  {
    assert key in s.inFlight <==> key in s.queues;
    assert key in s.queues ==> s.queues[key] != [];
    hide KeyOK, Pump;
    events := [];
    if key in s.inFlight {
      var s1, w := s.(inFlight := s.inFlight - {key}), s.queues[key][0];
      var rest := PumpLog(Settle(PollFirst(s1, key), key, w, success), key);
      events := [Settled(key, w.ticket, success)] + rest;
    }
  }

  /** Step i of the run completes write t of the key with true. */
  ghost predicate Succeeds(inputs: seq<Input>, i: nat, key: string, t: nat) {
    i < |inputs| && inputs[i] == Completes(key, true) && UnderWay(Run(inputs[..i]), key, t)
  }

  lemma TrueIsAnswer(s: State, e: Input, key: string, t: nat)
    requires Inv(s)
    ensures Settled(key, t, true) in Step(s, e).log <==>
      Settled(key, t, true) in s.log || (e == Completes(key, true) && UnderWay(s, key, t))
  {
    var events := StepTells(s, e);
    var settled := Settled(key, t, true);
    hide Inv, Step;
    assert settled in Step(s, e).log <==> settled in s.log || settled in events;
    if e.Completes? && e.key in s.inFlight {
      assert events == [events[0]] + events[1..];
      assert settled in events[1..] ==> Dismal(settled);
      assert settled in events <==> settled == events[0];
    } else {
      assert settled in events ==> Dismal(settled);
    }
  }

  /** In every run a callback hears true exactly if its write was under way when a completion with true came. */
  lemma {:induction false} HearsTrueExactly(inputs: seq<Input>, key: string, t: nat)
    ensures Settled(key, t, true) in Run(inputs).log <==> exists i: nat :: Succeeds(inputs, i, key, t)
  {
    hide Inv, Step, UnderWay;
    if inputs != [] {
      var n := |inputs| - 1;
      HearsTrueExactly(inputs[..n], key, t);
      TrueIsAnswer(Run(inputs[..n]), inputs[n], key, t);
      hide Run;
      RunLast(inputs);
      forall i: nat | i < n
        ensures Succeeds(inputs[..n], i, key, t) <==> Succeeds(inputs, i, key, t)
      {
        assert inputs[..n][..i] == inputs[..i];
      }
      assert Succeeds(inputs, n, key, t) <==>
        inputs[n] == Completes(key, true) && UnderWay(Run(inputs[..n]), key, t);
    }
  }

  lemma RunLast(inputs: seq<Input>)
    requires inputs != []
    ensures Run(inputs) == Step(Run(inputs[..|inputs| - 1]), inputs[|inputs| - 1])
  {
    hide Step, Inv;
  }

  // Teardown -------------------------------------------------------------------------------------------------

  /** All events are callbacks that hear false. */
  predicate AllFailed(events: seq<Event>) {
    forall e :: e in events ==> e.Settled? && !e.success
  }

  lemma {:induction false} ClearsAll(s: State, keys: seq<string>) returns (events: seq<Event>)
    requires Inv(s)
    ensures Inv(ClearKeys(s, keys)) && ClearKeys(s, keys).queues.Keys == s.queues.Keys - Elements(keys)
    ensures ClearKeys(s, keys).log == s.log + events && AllFailed(events)
    ensures forall key :: EnqueuedFor(ClearKeys(s, keys), key) == EnqueuedFor(s, key)
  {
    events := [];
    hide Inv, Clear;
    if keys != [] {
      var init, key := keys[..|keys| - 1], keys[|keys| - 1];
      var s1 := ClearKeys(s, init);
      events := ClearsAll(s, init);
      StepOK(s1, Clears(key));
      ClearFails(s1, key);
      events := events + SettleAll(key, QueueOf(s1, key));
      assert keys == init + [key];
    }
  }

  lemma ClearFails(s: State, key: string)
    ensures Clear(s, key).log == s.log + SettleAll(key, QueueOf(s, key)) && AllFailed(SettleAll(key, QueueOf(s, key)))
    ensures Clear(s, key).queues.Keys == s.queues.Keys - {key} && Clear(s, key).enqueued == s.enqueued
  {
  }

  /**
   * Clearing all keys, in whatever order, leaves no write of any key: each that had not been settled
   * has heard false, once, and none is under way.
   */
  lemma TeardownSettlesAll(s: State, keys: seq<string>) returns (events: seq<Event>)
    requires Inv(s) && Elements(keys) == s.queues.Keys
    ensures var s' := ClearKeys(s, keys);
      && s'.log == s.log + events && AllFailed(events)
      && forall key :: key !in s'.queues && key !in s'.inFlight
                       && Track(s'.log, key) == Channel(EnqueuedFor(s, key), false)
  {
    events := ClearsAll(s, keys);
    var s' := ClearKeys(s, keys);
    hide ClearKeys, Track;
    forall key
      ensures key !in s'.queues && key !in s'.inFlight && Track(s'.log, key) == Channel(EnqueuedFor(s, key), false)
    {
      assert KeyOK(s', key);
    }
  }
}
