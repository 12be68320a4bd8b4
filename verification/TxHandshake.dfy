/** Two sides of the half-duplex handshake; frames between them may be lost and may overtake. */
module TxHandshake {
  import opened Bytes
  import opened TxControlCodec
  import opened TxOwnership

  /** `toLeft` and `toRight` are the control frames in transit. */
  datatype Link = Link(left: Party, right: Party, toLeft: seq<TxControl>, toRight: seq<TxControl>)

  datatype Event =
    | Requests(delivered: bool)
    | Releases(delivered: bool)
    | TimesOut
    | Arrives(index: nat)
    | Lost(index: nat)
    | WatchdogFires
    | GrantSettles(ok: bool)
    | Disconnects

  /** The same link with its sides exchanged. */
  function Mirror(l: Link): Link {
    Link(l.right, l.left, l.toRight, l.toLeft)
  }

  function Without(frames: seq<TxControl>, i: nat): seq<TxControl>
    requires i < |frames|
  {
    frames[..i] + frames[i + 1..]
  }

  function Becomes(l: Link, r: (Party, seq<TxControl>)): Link {
    l.(left := r.0, toRight := l.toRight + r.1)
  }

  /** An event at the left side. */
  function LeftStep(l: Link, e: Event): Link {
    match e
    case Requests(delivered) => Becomes(l, Request(l.left, delivered))
    case Releases(delivered) => Becomes(l, Release(l.left, delivered))
    case TimesOut => l.(left := l.left.(pending := false))
    case Arrives(i) =>
      if i < |l.toLeft| then Becomes(l.(toLeft := Without(l.toLeft, i)), OnControl(l.left, l.toLeft[i])) else l
    case Lost(i) => if i < |l.toLeft| then l.(toLeft := Without(l.toLeft, i)) else l
    case WatchdogFires => l.(left := OnWatchdog(l.left))
    case GrantSettles(ok) => l.(left := OnGrantSettled(l.left, ok))
    case Disconnects => l.(left := OnDisconnect(l.left))
  }

  datatype Input = Input(atLeft: bool, event: Event)

  function Step(l: Link, e: Input): Link {
    if e.atLeft then LeftStep(l, e.event) else Mirror(LeftStep(Mirror(l), e.event))
  }

  // When two owners are possible ---------------------------------------------------------------------------

  predicate Shared(l: Link) {
    l.left.owner == SELF && l.right.owner == SELF
  }

  /** An accepting grant is in transit. */
  predicate Granted(frames: seq<TxControl>) {
    exists c :: c in frames && IsGrantAccepted(c)
  }

  /** The number of requests among the frames. */
  function RequestCount(frames: seq<TxControl>): nat {
    if frames == [] then 0
    else RequestCount(frames[..|frames| - 1]) + if frames[|frames| - 1].op == TX_OP_REQUEST then 1 else 0
  }

  /** One of the next n grants of a side with this counter can be encoded. */
  predicate CanGrant(counter: nat, n: nat)
    decreases n
  {
    n > 0 && (ToInt32(counter + 1) >= 0 || CanGrant(counter + 1, n - 1))
  }

  /** An accepting grant is on its way to the left side, or the requests in transit may lead to one. */
  predicate LeftMayBeGranted(l: Link) {
    Granted(l.toLeft) || CanGrant(l.right.counter, RequestCount(l.toRight))
  }

  /** Left still waits for an answer although the right side owns the link, and an old grant is on its way to left. */
  predicate OldGrant(l: Link) {
    l.right.owner == SELF && l.left.pending && Granted(l.toLeft)
  }

  /** The frames in transit and those they cause can make both sides owners. */
  predicate Hazard(l: Link) {
    || Shared(l) || OldGrant(l) || OldGrant(Mirror(l))
    || (l.left.pending && l.right.pending && LeftMayBeGranted(l) && LeftMayBeGranted(Mirror(l)))
  }

  /** The request would reach the air. */
  predicate Effective(l: Link, delivered: bool) {
    delivered && l.left.owner == NONE && !l.left.pending
  }

  /**
   * The left side had better not request: an old grant for it is in transit while the peer owns the link,
   * or the peer waits for an answer, which it has been or may be granted, and may in turn grant this request.
   */
  predicate Crosses(l: Link) {
    || (l.right.owner == SELF && Granted(l.toLeft))
    || (&& l.right.pending
        && (Granted(l.toRight) || CanGrant(l.left.counter + 1, RequestCount(l.toLeft)))
        && (Granted(l.toLeft) || CanGrant(l.right.counter, RequestCount(l.toRight) + 1)))
  }

  predicate NoCrossing(l: Link, e: Input) {
    var side := if e.atLeft then l else Mirror(l);
    e.event.Requests? && Effective(side, e.event.delivered) ==> !Crosses(side)
  }

  /** While the counters are far from 2^31, every answered request is granted, and the rule is short. */
  lemma CrossesPlainly(l: Link)
    requires l.left.counter + 2 < TWO_31 && l.right.counter + 1 < TWO_31
    ensures Crosses(l) <==>
      || (l.right.owner == SELF && Granted(l.toLeft))
      || (l.right.pending && (Granted(l.toRight) || RequestCount(l.toLeft) > 0))
  {
    hide Granted, RequestCount;
  }

  // No hazard arises by itself ------------------------------------------------------------------------------

  lemma {:induction false} CountJoin(a: seq<TxControl>, b: seq<TxControl>)
    ensures RequestCount(a + b) == RequestCount(a) + RequestCount(b)
  {
    if b == [] {
      assert a + b == a;
    } else {
      CountJoin(a, b[..|b| - 1]);
      assert (a + b)[..|a + b| - 1] == a + b[..|b| - 1];
    }
  }

  lemma CountOne(c: TxControl)
    ensures RequestCount([c]) == if c.op == TX_OP_REQUEST then 1 else 0
  {
    assert [c][..0] == [];
  }

  lemma CountWithout(frames: seq<TxControl>, i: nat)
    requires i < |frames|
    ensures RequestCount(frames) == RequestCount(Without(frames, i)) + if frames[i].op == TX_OP_REQUEST then 1 else 0
  {
    hide RequestCount;
    assert frames == frames[..i] + ([frames[i]] + frames[i + 1..]);
    CountJoin(frames[..i], [frames[i]] + frames[i + 1..]);
    CountJoin([frames[i]], frames[i + 1..]);
    CountJoin(frames[..i], frames[i + 1..]);
    CountOne(frames[i]);
  }

  lemma {:induction false} CanGrantMore(counter: nat, n: nat, m: nat)
    requires CanGrant(counter, n) && n <= m
    ensures CanGrant(counter, m)
    decreases n
  {
    if ToInt32(counter + 1) < 0 { CanGrantMore(counter + 1, n - 1, m - 1); }
  }

  lemma GrantedWithout(frames: seq<TxControl>, i: nat)
    requires i < |frames|
    ensures Granted(Without(frames, i)) ==> Granted(frames)
    ensures Granted(frames) && !IsGrantAccepted(frames[i]) ==> Granted(Without(frames, i))
  {
    assert forall c :: c in Without(frames, i) ==> c in frames;
    assert forall c :: c in frames ==> c in Without(frames, i) || c == frames[i];
  }

  lemma GrantedJoin(a: seq<TxControl>, b: seq<TxControl>)
    ensures Granted(a + b) <==> Granted(a) || Granted(b)
  {
    assert forall c :: c in a + b <==> c in a || c in b;
  }

  lemma HazardMirror(l: Link)
    ensures Hazard(Mirror(l)) <==> Hazard(l)
  {
    assert Mirror(Mirror(l)) == l;
  }

  /** Nothing new can be granted, and nobody gains anything. */
  predicate Tamer(l: Link, l': Link) {
    && (l'.left.owner == SELF ==> l.left.owner == SELF) && (l'.right.owner == SELF ==> l.right.owner == SELF)
    && (l'.left.pending ==> l.left.pending) && (l'.right.pending ==> l.right.pending)
    && (Granted(l'.toLeft) ==> Granted(l.toLeft)) && (Granted(l'.toRight) ==> Granted(l.toRight))
    && (LeftMayBeGranted(l') ==> LeftMayBeGranted(l)) && (LeftMayBeGranted(Mirror(l')) ==> LeftMayBeGranted(Mirror(l)))
  }

  lemma TamerIsSafe(l: Link, l': Link)
    requires Tamer(l, l') && !Hazard(l)
    ensures !Hazard(l')
  {
    hide Granted, LeftMayBeGranted;
  }

  lemma FewerFrames(l: Link, i: nat)
    requires i < |l.toLeft|
    ensures Tamer(l, l.(toLeft := Without(l.toLeft, i)))
  {
    GrantedWithout(l.toLeft, i);
    CountWithout(l.toLeft, i);
    var n := RequestCount(Without(l.toLeft, i));
    if CanGrant(l.left.counter, n) { CanGrantMore(l.left.counter, n, RequestCount(l.toLeft)); }
    hide Granted, RequestCount, CanGrant;
  }

  /** A new state of the left side without new claims, and frames that are neither requests nor accepting grants. */
  lemma YieldIsTamer(l: Link, p: Party, sent: seq<TxControl>)
    requires (p.owner == SELF ==> l.left.owner == SELF) && (p.pending ==> l.left.pending) && p.counter == l.left.counter
    requires forall c :: c in sent ==> c.op != TX_OP_REQUEST && !IsGrantAccepted(c)
    ensures Tamer(l, Becomes(l, (p, sent)))
  {
    GrantedJoin(l.toRight, sent);
    CountJoin(l.toRight, sent);
    NoRequests(sent);
    hide RequestCount, CanGrant;
  }

  lemma {:induction false} NoRequests(frames: seq<TxControl>)
    requires forall c :: c in frames ==> c.op != TX_OP_REQUEST
    ensures RequestCount(frames) == 0
  {
    if frames != [] { NoRequests(frames[..|frames| - 1]); }
  }

  /** A request in transit is worth as much as the grant it leads to. */
  lemma GrantIsSafe(l: Link, i: nat)
    requires i < |l.toLeft| && l.toLeft[i].op == TX_OP_REQUEST && l.left.owner == NONE
    requires !Hazard(l)
    ensures !Hazard(LeftStep(l, Arrives(i)))
  {
    var rest := Without(l.toLeft, i);
    var (p, sent) := OnRequest(l.left, l.toLeft[i].requestId);
    var l' := Link(p, l.right, rest, l.toRight + sent);
    assert LeftStep(l, Arrives(i)) == l';
    assert p.owner == REMOTE && p.pending == l.left.pending && p.counter == l.left.counter + 1;
    assert Granted(sent) ==> ToInt32(l.left.counter + 1) >= 0;
    GrantedWithout(l.toLeft, i);
    CountWithout(l.toLeft, i);
    GrantedJoin(l.toRight, sent);
    CountJoin(l.toRight, sent);
    NoRequests(sent);
    assert CanGrant(p.counter, RequestCount(rest)) ==> CanGrant(l.left.counter, RequestCount(l.toLeft));
    hide LeftStep, OnRequest, Granted, RequestCount, CanGrant, ToInt32, Without;
  }

  lemma AcceptedIsSafe(l: Link, i: nat)
    requires i < |l.toLeft| && l.toLeft[i].op == TX_OP_GRANT && !Hazard(l)
    ensures !Hazard(LeftStep(l, Arrives(i)))
  {
    FewerFrames(l, i);
    var l1 := l.(toLeft := Without(l.toLeft, i));
    TamerIsSafe(l, l1);
    var p := OnGrant(l.left, l.toLeft[i]);
    assert LeftStep(l, Arrives(i)) == l1.(left := p) by { assert l.toRight + [] == l.toRight; }
    assert IsGrantAccepted(l.toLeft[i]) ==> Granted(l.toLeft);
    hide RequestCount, CanGrant;
  }

  lemma OtherIsSafe(l: Link, i: nat)
    requires i < |l.toLeft| && !Hazard(l)
    requires l.toLeft[i].op == TX_OP_REQUEST ==> l.left.owner != NONE
    requires l.toLeft[i].op != TX_OP_GRANT
    ensures !Hazard(LeftStep(l, Arrives(i)))
  {
    FewerFrames(l, i);
    var l1 := l.(toLeft := Without(l.toLeft, i));
    TamerIsSafe(l, l1);
    var (p, sent) := OnControl(l.left, l.toLeft[i]);
    YieldIsTamer(l1, p, sent);
    TamerIsSafe(l1, LeftStep(l, Arrives(i)));
    hide Hazard, Tamer;
  }

  lemma LeftStepSafe(l: Link, e: Event)
    requires !e.Requests? && !Hazard(l)
    ensures !Hazard(LeftStep(l, e))
  {
    hide Hazard, Tamer;
    match e
    case Arrives(i) =>
      if i < |l.toLeft| {
        if l.toLeft[i].op == TX_OP_GRANT {
          AcceptedIsSafe(l, i);
        } else if l.toLeft[i].op == TX_OP_REQUEST && l.left.owner == NONE {
          GrantIsSafe(l, i);
        } else {
          OtherIsSafe(l, i);
        }
      }
    case Lost(i) =>
      if i < |l.toLeft| {
        FewerFrames(l, i);
        TamerIsSafe(l, LeftStep(l, e));
      }
    case Releases(delivered) =>
      var (p, sent) := Release(l.left, delivered);
      YieldIsTamer(l, p, sent);
      TamerIsSafe(l, LeftStep(l, e));
    case TimesOut => YieldIsSafe(l, l.left.(pending := false));
    case WatchdogFires => YieldIsSafe(l, OnWatchdog(l.left));
    case GrantSettles(ok) => YieldIsSafe(l, OnGrantSettled(l.left, ok));
    case Disconnects => YieldIsSafe(l, OnDisconnect(l.left));
    case Requests(_) =>
  }

  lemma YieldIsSafe(l: Link, p: Party)
    requires !Hazard(l) && p.counter == l.left.counter
    requires (p.owner == SELF ==> l.left.owner == SELF) && (p.pending ==> l.left.pending)
    ensures !Hazard(l.(left := p))
  {
    YieldIsTamer(l, p, []);
    assert l.toRight + [] == l.toRight;
    TamerIsSafe(l, l.(left := p));
    hide Hazard, Tamer;
  }

  /** A request brings a hazard exactly when it crosses. */
  lemma RequestSafeExactly(l: Link, delivered: bool)
    requires !Hazard(l)
    ensures Hazard(LeftStep(l, Requests(delivered))) <==> Effective(l, delivered) && Crosses(l)
  {
    var (p, sent) := Request(l.left, delivered);
    GrantedJoin(l.toRight, sent);
    CountJoin(l.toRight, sent);
    if sent != [] { CountOne(sent[0]); } else { assert l.toRight + sent == l.toRight; }
    hide Granted, RequestCount, CanGrant;
  }

  lemma StepSafeExactly(l: Link, e: Input)
    requires !Hazard(l)
    ensures Hazard(Step(l, e)) <==> !NoCrossing(l, e)
  {
    hide Hazard, Crosses, LeftStep, Effective;
    var side := if e.atLeft then l else Mirror(l);
    HazardMirror(l);
    HazardMirror(LeftStep(side, e.event));
    if e.event.Requests? {
      RequestSafeExactly(side, e.event.delivered);
    } else {
      LeftStepSafe(side, e.event);
    }
  }

  // A hazard can come true -----------------------------------------------------------------------------------

  function After(l: Link, es: seq<Input>): Link
    decreases es
  {
    if es == [] then l else After(Step(l, es[0]), es[1..])
  }

  predicate RequestFree(es: seq<Input>) {
    forall e :: e in es ==> !e.event.Requests?
  }

  /** Without a further request both sides may come to own the link. */
  ghost predicate CanBreak(l: Link) {
    exists es :: RequestFree(es) && Shared(After(l, es))
  }

  lemma {:induction false} AfterJoin(l: Link, a: seq<Input>, b: seq<Input>)
    ensures After(l, a + b) == After(After(l, a), b)
    decreases a
  {
    if a == [] {
      assert a + b == b;
    } else {
      AfterJoin(Step(l, a[0]), a[1..], b);
      assert (a + b)[1..] == a[1..] + b;
    }
  }

  lemma AfterOne(l: Link, e: Input)
    ensures After(l, [e]) == Step(l, e)
  {
    assert [e][1..] == [];
    assert After(Step(l, e), []) == Step(l, e);
  }

  function Turned(es: seq<Input>): seq<Input> {
    seq(|es|, i requires 0 <= i < |es| => Input(!es[i].atLeft, es[i].event))
  }

  lemma {:induction false} AfterTurned(l: Link, es: seq<Input>)
    ensures After(Mirror(l), Turned(es)) == Mirror(After(l, es))
    decreases es
  {
    if es != [] {
      assert Mirror(Mirror(l)) == l && Step(Mirror(l), Turned(es)[0]) == Mirror(Step(l, es[0])) by { hide LeftStep; }
      AfterTurned(Step(l, es[0]), es[1..]);
      assert Turned(es)[1..] == Turned(es[1..]);
    }
    hide Step;
  }

  lemma BreaksLater(l: Link, es: seq<Input>)
    requires RequestFree(es) && CanBreak(After(l, es))
    ensures CanBreak(l)
  {
    var more :| RequestFree(more) && Shared(After(After(l, es), more));
    AfterJoin(l, es, more);
    assert RequestFree(es + more);
  }

  lemma BreakTurned(l: Link)
    requires CanBreak(Mirror(l))
    ensures CanBreak(l)
  {
    var es :| RequestFree(es) && Shared(After(Mirror(l), es));
    AfterTurned(Mirror(l), es);
    assert Mirror(Mirror(l)) == l;
    assert RequestFree(Turned(es));
  }

  lemma {:induction false} FindRequest(frames: seq<TxControl>) returns (i: nat)
    requires RequestCount(frames) > 0
    ensures i < |frames| && frames[i].op == TX_OP_REQUEST
  {
    i := |frames| - 1;
    if frames[i].op != TX_OP_REQUEST { i := FindRequest(frames[..i]); }
  }

  /** What the right side and the pending answers are worth stays as it is while left grants. */
  predicate LeftGranted(l: Link, l': Link) {
    && l'.right == l.right && l'.left.pending == l.left.pending
    && RequestCount(l'.toRight) == RequestCount(l.toRight)
    && (Granted(l.toLeft) ==> Granted(l'.toLeft)) && (Granted(l.toRight) ==> Granted(l'.toRight))
  }

  /** The left side gives up what it owns and answers request i. */
  lemma AnswerOne(l: Link, i: nat) returns (es: seq<Input>)
    requires i < |l.toLeft| && l.toLeft[i].op == TX_OP_REQUEST
    ensures RequestFree(es) && LeftGranted(l, After(l, es))
    ensures var l' := After(l, es);
      && l'.left.counter == l.left.counter + 1 && RequestCount(l'.toLeft) == RequestCount(l.toLeft) - 1
      && (ToInt32(l.left.counter + 1) >= 0 ==> Granted(l'.toRight))
  {
    var release, arrive := Input(true, Releases(false)), Input(true, Arrives(i));
    es := [release, arrive];
    var l1 := l.(left := l.left.(txId := 0, owner := NONE));
    assert Step(l, release) == l1 by { assert l.toRight + [] == l.toRight; }
    var (p, sent) := OnRequest(l1.left, l.toLeft[i].requestId);
    var l2 := Link(p, l.right, Without(l.toLeft, i), l.toRight + sent);
    assert Step(l1, arrive) == l2;
    assert After(l, es) == l2 by {
      assert es[1..] == [arrive];
      AfterOne(l1, arrive);
      hide Step;
    }
    GrantedWithout(l.toLeft, i);
    CountWithout(l.toLeft, i);
    GrantedJoin(l.toRight, sent);
    CountJoin(l.toRight, sent);
    NoRequests(sent);
    assert ToInt32(l.left.counter + 1) >= 0 ==> sent != [] && IsGrantAccepted(sent[0]) && sent[0] in sent;
    hide RequestCount, ToInt32, After, Step;
  }

  /** The requests in transit to the left side make it send an accepting grant. */
  lemma {:induction false} LeftGrants(l: Link) returns (es: seq<Input>)
    requires CanGrant(l.left.counter, RequestCount(l.toLeft))
    ensures RequestFree(es) && LeftGranted(l, After(l, es)) && Granted(After(l, es).toRight)
    decreases RequestCount(l.toLeft)
  {
    var i := FindRequest(l.toLeft);
    es := AnswerOne(l, i);
    if ToInt32(l.left.counter + 1) < 0 {
      var more := LeftGrants(After(l, es));
      AfterJoin(l, es, more);
      es := es + more;
    }
    hide RequestCount, After, Granted, ToInt32;
  }

  /** Both sides wait and both are granted. */
  lemma BothAccept(l: Link)
    requires l.left.pending && l.right.pending && Granted(l.toLeft) && Granted(l.toRight)
    ensures CanBreak(l)
  {
    var c :| c in l.toLeft && IsGrantAccepted(c);
    var i :| 0 <= i < |l.toLeft| && l.toLeft[i] == c;
    var arrive := Input(true, Arrives(i));
    var l1 := Step(l, arrive);
    assert l1.left.owner == SELF && l1.right == l.right && l1.toRight == l.toRight;
    AfterOne(l, arrive);
    OwnerAccepts(l1);
    BreaksLater(l, [arrive]);
  }

  lemma OwnerAccepts(l: Link)
    requires l.left.owner == SELF && l.right.pending && Granted(l.toRight)
    ensures CanBreak(l)
  {
    var c :| c in l.toRight && IsGrantAccepted(c);
    var i :| 0 <= i < |l.toRight| && l.toRight[i] == c;
    var arrive := Input(false, Arrives(i));
    AfterOne(l, arrive);
    assert Shared(Step(l, arrive));
    assert RequestFree([arrive]);
  }

  lemma BothMayAccept(l: Link)
    requires l.left.pending && l.right.pending && LeftMayBeGranted(l) && Granted(l.toRight)
    ensures CanBreak(l)
  {
    if Granted(l.toLeft) {
      BothAccept(l);
    } else {
      var m := Mirror(l);
      var es := LeftGrants(m);
      BothAccept(After(m, es));
      BreaksLater(m, es);
      BreakTurned(l);
    }
  }

  lemma HazardBreaks(l: Link)
    requires Hazard(l)
    ensures CanBreak(l)
  {
    if Shared(l) {
      assert RequestFree([]) && After(l, []) == l;
    } else if OldGrant(Mirror(l)) {
      OwnerAccepts(l);
    } else if OldGrant(l) {
      OwnerAccepts(Mirror(l));
      BreakTurned(l);
    } else if Granted(l.toRight) {
      BothMayAccept(l);
    } else {
      var es := LeftGrants(l);
      BothMayAccept(After(l, es));
      BreaksLater(l, es);
    }
    hide After, Granted, CanBreak;
  }

  lemma {:induction false} SafeStays(l: Link, es: seq<Input>)
    requires !Hazard(l) && RequestFree(es)
    ensures !Hazard(After(l, es))
    decreases es
  {
    if es != [] {
      StepSafeExactly(l, es[0]);
      SafeStays(Step(l, es[0]), es[1..]);
    }
    hide Hazard, Step;
  }

  /** Both sides may come to own the link without a further request exactly in a hazard. */
  lemma HazardExactly(l: Link)
    ensures CanBreak(l) <==> Hazard(l)
  {
    if Hazard(l) {
      HazardBreaks(l);
    } else if es :| RequestFree(es) && Shared(After(l, es)) {
      SafeStays(l, es);
    }
    hide After;
  }

  // Runs -----------------------------------------------------------------------------------------------------

  function Connected(leftCounter: nat, rightCounter: nat): Link {
    Link(Idle(leftCounter), Idle(rightCounter), [], [])
  }

  /** A history of the link: inputs[k] takes links[k] to links[k + 1]. */
  datatype History = History(links: seq<Link>, inputs: seq<Input>)

  ghost predicate Moves(h: History, k: nat) {
    k < |h.inputs| && |h.links| == |h.inputs| + 1 && h.links[k + 1] == Step(h.links[k], h.inputs[k])
  }

  /** A history that starts with a new connection, whatever the two counters are. */
  ghost predicate IsRun(h: History) {
    && |h.links| == |h.inputs| + 1
    && h.links[0] == Connected(h.links[0].left.counter, h.links[0].right.counter)
    && forall k: nat :: k < |h.inputs| ==> Moves(h, k)
  }

  ghost predicate WaitsItsTurn(h: History, k: nat) {
    k < |h.inputs| && |h.links| == |h.inputs| + 1 && NoCrossing(h.links[k], h.inputs[k])
  }

  /** No request of the run crosses. */
  ghost predicate NeverCrosses(h: History) {
    forall k: nat :: k < |h.inputs| ==> WaitsItsTurn(h, k)
  }

  ghost predicate SafeAt(h: History, k: nat) {
    k < |h.links| && !CanBreak(h.links[k])
  }

  lemma {:induction false} NeverCrossesIsSafe(h: History, k: nat)
    requires IsRun(h) && NeverCrosses(h) && k < |h.links|
    ensures !Hazard(h.links[k])
  {
    if k > 0 {
      NeverCrossesIsSafe(h, k - 1);
      assert Moves(h, k - 1) && WaitsItsTurn(h, k - 1);
      StepSafeExactly(h.links[k - 1], h.inputs[k - 1]);
      hide Hazard;
    }
    hide Step, NoCrossing;
  }

  /**
   * In a run, with frames lost or overtaken, requests timed out, watchdogs, failed grants, releases
   * and disconnects, no request ever crosses exactly if at no point both sides own the link or may
   * come to own it without a further request.
   */
  lemma OneOwnerExactly(h: History)
    requires IsRun(h)
    ensures NeverCrosses(h) <==> forall k: nat :: k < |h.links| ==> SafeAt(h, k)
  {
    hide IsRun, CanBreak, Hazard, Step;
    if NeverCrosses(h) {
      forall k: nat | k < |h.links|
        ensures SafeAt(h, k)
      {
        NeverCrossesIsSafe(h, k);
        HazardExactly(h.links[k]);
      }
    } else {
      var k: nat :| k < |h.inputs| && !WaitsItsTurn(h, k);
      assert Moves(h, k) by { IsRunMoves(h, k); }
      HazardExactly(h.links[k]);
      HazardExactly(h.links[k + 1]);
      if !Hazard(h.links[k]) { StepSafeExactly(h.links[k], h.inputs[k]); }
      assert !SafeAt(h, k) || !SafeAt(h, k + 1);
    }
  }

  lemma IsRunMoves(h: History, k: nat)
    requires IsRun(h) && k < |h.inputs|
    ensures Moves(h, k)
  {
  }

  /** In particular there are never two owners. */
  lemma OneOwner(h: History, k: nat)
    requires IsRun(h) && NeverCrosses(h) && k < |h.links|
    ensures !Shared(h.links[k])
  {
    NeverCrossesIsSafe(h, k);
  }

  predicate SideOK(p: Party) {
    (p.owner == SELF ==> p.txId != 0) && (p.owner != NONE ==> p.owning)
  }

  lemma {:induction false} SidesOK(h: History, k: nat)
    requires IsRun(h) && k < |h.links|
    ensures SideOK(h.links[k].left) && SideOK(h.links[k].right)
  {
    if k > 0 {
      SidesOK(h, k - 1);
      assert Moves(h, k - 1);
      var l, e := h.links[k - 1], h.inputs[k - 1];
      LeftSideOK(if e.atLeft then l else Mirror(l), e.event);
      hide LeftStep;
    }
    hide IsRun;
  }

  lemma LeftSideOK(l: Link, e: Event)
    requires SideOK(l.left)
    ensures SideOK(LeftStep(l, e).left) && LeftStep(l, e).right == l.right
  {
    hide NextGrantId;
  }

  /** In every run, crossings or not, an owner holds a non-zero token. */
  lemma OwnersHoldTokens(h: History, k: nat)
    requires IsRun(h) && k < |h.links|
    ensures h.links[k].left.owner == SELF ==> h.links[k].left.txId != 0
    ensures h.links[k].right.owner == SELF ==> h.links[k].right.txId != 0
  {
    SidesOK(h, k);
  }

  /** In every run a disconnect frees the side that notices it. */
  lemma DisconnectFrees(h: History, k: nat)
    requires IsRun(h) && k < |h.links|
    ensures OnDisconnect(h.links[k].left).owner == NONE && OnDisconnect(h.links[k].right).owner == NONE
  {
    SidesOK(h, k);
  }

  /** A grant reaches the wire exactly when the granter's next counter value is not negative as a signed number. */
  lemma GrantIsSent(p: Party, requestId: int)
    requires p.owner == NONE
    ensures |OnRequest(p, requestId).1| == 1 <==> (p.counter + 1) % TWO_32 < TWO_31
    ensures OnRequest(p, requestId).1 != [] ==> IsGrantAccepted(OnRequest(p, requestId).1[0])
  {
  }
}

/** Each way to cross leads to two owners: three runs of the handshake. */
module TxCrossings {
  import opened Bytes
  import opened TxControlCodec
  import opened TxOwnership
  import opened TxHandshake

  /** In the end both sides own the link. */
  predicate EndsShared(h: History) {
    var last := |h.links| - 1;
    last >= 0 && Shared(h.links[last])
  }

  lemma Start() returns (h: History)
    ensures IsRun(h) && h == History([Connected(0, 0)], [])
  {
    h := History([Connected(0, 0)], []);
  }

  /** Every run goes on, whatever happens next. */
  lemma Goes(h: History, e: Input, l: Link) returns (h': History)
    requires IsRun(h) && l == Step(h.links[|h.links| - 1], e)
    ensures IsRun(h') && h' == History(h.links + [l], h.inputs + [e])
  {
    hide Step, Connected;
    h' := History(h.links + [l], h.inputs + [e]);
    forall k: nat | k < |h'.inputs|
      ensures Moves(h', k)
    {
      assert k < |h.inputs| ==> Moves(h, k);
    }
  }

  function Asks(id: int): TxControl { TxControl(TX_OP_REQUEST, 0, id) }

  function Grants(id: int, requestId: int): TxControl { TxControl(TX_OP_GRANT, id, requestId) }

  /** h' is h and n more inputs. */
  predicate Continues(h: History, h': History, n: nat) {
    && |h'.links| == |h.links| + n && h.links == h'.links[..|h.links|]
    && |h'.inputs| == |h.inputs| + n && h.inputs == h'.inputs[..|h.inputs|]
  }

  lemma KeptAt(h: History, h': History, n: nat, k: nat)
    requires Continues(h, h', n)
    ensures k < |h.links| ==> h'.links[k] == h.links[k]
    ensures k < |h.inputs| ==> h'.inputs[k] == h.inputs[k]
  {
  }

  /** Both sides wait, and the answers in transit are grants. */
  lemma BothGranted(h: History, left: TxControl, right: TxControl) returns (h': History)
    requires IsRun(h) && IsGrantAccepted(left) && IsGrantAccepted(right)
    requires var l := h.links[|h.links| - 1];
      l.left.pending && l.right.pending && l.toLeft == [left] && l.toRight == [right]
    ensures IsRun(h') && EndsShared(h') && Continues(h, h', 2)
  {
    var l := h.links[|h.links| - 1];
    var l1 := l.(left := OnGrant(l.left, left), toLeft := []);
    assert Step(l, Input(true, Arrives(0))) == l1 by { assert l.toRight + [] == l.toRight; }
    var l2 := l1.(right := OnGrant(l.right, right), toRight := []);
    assert Step(l1, Input(false, Arrives(0))) == l2;
    hide Step, IsRun;
    h' := Goes(h, Input(true, Arrives(0)), l1);
    h' := Goes(h', Input(false, Arrives(0)), l2);
  }

  /** Both sides request at once: each has the other's request in transit, grants it, and both grants are accepted. */
  lemma RequestsCross() returns (h: History)
    ensures IsRun(h) && EndsShared(h) && |h.inputs| == 6 && h.inputs[1] == Input(false, Requests(true))
    ensures h.links[1].left.pending && h.links[1].toRight == [Asks(1)] && h.links[1].toLeft == []
  {
    hide IsRun, EndsShared;
    var h1 := RequestsInTransit();
    h := BothGranted(h1, Grants(2, 1), Grants(2, 1));
    KeptAt(h1, h, 2, 1);
  }

  lemma RequestsInTransit() returns (h: History)
    ensures IsRun(h) && |h.inputs| == 4 && |h.links| == 5 && h.inputs[1] == Input(false, Requests(true))
    ensures h.links[1].left.pending && h.links[1].toRight == [Asks(1)] && h.links[1].toLeft == []
    ensures h.links[4].left.pending && h.links[4].right.pending
    ensures h.links[4].toLeft == [Grants(2, 1)] && h.links[4].toRight == [Grants(2, 1)]
  {
    hide IsRun;
    var asking := Party(NONE, 0, true, 1, false, 0);
    var granting := Party(REMOTE, 0, true, 2, true, 1);
    var l1 := Link(asking, Idle(0), [], [Asks(1)]);
    assert Step(Connected(0, 0), Input(true, Requests(true))) == l1;
    var l2 := Link(asking, asking, [Asks(1)], [Asks(1)]);
    assert Step(l1, Input(false, Requests(true))) == l2;
    var l3 := Link(granting, asking, [], [Asks(1), Grants(2, 1)]);
    assert Step(l2, Input(true, Arrives(0))) == l3;
    var l4 := Link(granting, granting, [Grants(2, 1)], [Grants(2, 1)]);
    assert Step(l3, Input(false, Arrives(0))) == l4;
    hide Step;
    h := Start();
    h := Goes(h, Input(true, Requests(true)), l1);
    h := Goes(h, Input(false, Requests(true)), l2);
    h := Goes(h, Input(true, Arrives(0)), l3);
    h := Goes(h, Input(false, Arrives(0)), l4);
  }

  /** The left side requests while its own grant for the right side is in transit: nothing but that grant is. */
  lemma GrantCrosses() returns (h: History)
    ensures IsRun(h) && EndsShared(h) && |h.inputs| == 7 && h.inputs[3] == Input(true, Requests(true))
    ensures h.links[3].right.pending && h.links[3].toRight == [Grants(1, 1)] && h.links[3].toLeft == []
  {
    hide IsRun, EndsShared;
    var h3 := GrantInTransit();
    var granting := Party(REMOTE, 0, true, 2, true, 1);
    var l4 := Link(granting.(owner := NONE), h3.links[3].right, [], [Grants(1, 1), Asks(2)]);
    assert Step(h3.links[3], Input(true, Requests(true))) == l4;
    var l5 := Link(l4.left, granting, [Grants(2, 2)], [Grants(1, 1)]);
    assert Step(l4, Input(false, Arrives(1))) == l5;
    hide Step;
    var h4 := Goes(h3, Input(true, Requests(true)), l4);
    var h5 := Goes(h4, Input(false, Arrives(1)), l5);
    h := BothGranted(h5, Grants(2, 2), Grants(1, 1));
    KeptAt(h5, h, 2, 3);
  }

  lemma GrantInTransit() returns (h: History)
    ensures IsRun(h) && |h.inputs| == 3 && |h.links| == 4
    ensures h.links[3] == Link(Party(NONE, 0, false, 1, true, 1), Party(NONE, 0, true, 1, false, 0), [], [Grants(1, 1)])
  {
    hide IsRun;
    var asking := Party(NONE, 0, true, 1, false, 0);
    var l1 := Link(Idle(0), asking, [Asks(1)], []);
    assert Step(Connected(0, 0), Input(false, Requests(true))) == l1;
    var l2 := Link(Party(REMOTE, 0, false, 1, true, 1), asking, [], [Grants(1, 1)]);
    assert Step(l1, Input(true, Arrives(0))) == l2;
    var l3 := Link(Party(NONE, 0, false, 1, true, 1), asking, [], [Grants(1, 1)]);
    assert Step(l2, Input(true, WatchdogFires)) == l3;
    hide Step;
    h := Start();
    h := Goes(h, Input(false, Requests(true)), l1);
    h := Goes(h, Input(true, Arrives(0)), l2);
    h := Goes(h, Input(true, WatchdogFires), l3);
  }

  /**
   * A grant does not say which request it answers. One that comes after its request has timed out is
   * taken for the answer to the next request, although the peer owns the link and waits for nothing.
   */
  lemma OldGrantCrosses() returns (h: History)
    ensures IsRun(h) && EndsShared(h) && |h.inputs| == 10 && h.inputs[8] == Input(true, Requests(true))
    ensures !h.links[8].right.pending && h.links[8].right.owner == SELF
    ensures h.links[8].toLeft == [Grants(1, 1)] && h.links[8].toRight == []
  {
    h := OldGrantAndOwner();
    hide IsRun;
    var l8 := h.links[8];
    var l9 := Link(Party(NONE, 0, true, 3, true, 1), l8.right, [Grants(1, 1)], [Asks(3)]);
    assert Step(l8, Input(true, Requests(true))) == l9;
    var l10 := Link(Party(SELF, 1, false, 3, true, 1), l8.right, [], [Asks(3)]);
    assert Step(l9, Input(true, Arrives(0))) == l10;
    hide Step;
    h := Goes(h, Input(true, Requests(true)), l9);
    h := Goes(h, Input(true, Arrives(0)), l10);
  }

  /** The left side's request has timed out, its grant is late, and the right side has been granted meanwhile. */
  lemma OldGrantAndOwner() returns (h: History)
    ensures IsRun(h) && |h.inputs| == 8 && |h.links| == 9
    ensures h.links[8] == Link(Party(NONE, 0, false, 2, true, 1), Party(SELF, 2, false, 2, true, 1), [Grants(1, 1)], [])
  {
    h := OldGrantInTransit();
    hide IsRun;
    var asking := Party(NONE, 0, true, 2, true, 1);
    var given := Party(REMOTE, 0, false, 2, true, 1);
    var l5 := Link(Idle(1), asking, [Grants(1, 1), Asks(2)], []);
    assert Step(h.links[4], Input(false, Requests(true))) == l5;
    var l6 := Link(given, asking, [Grants(1, 1)], [Grants(2, 2)]);
    assert Step(l5, Input(true, Arrives(1))) == l6;
    var l7 := Link(given, Party(SELF, 2, false, 2, true, 1), [Grants(1, 1)], []);
    assert Step(l6, Input(false, Arrives(0))) == l7;
    var l8 := l7.(left := given.(owner := NONE));
    assert Step(l7, Input(true, WatchdogFires)) == l8;
    hide Step;
    h := Goes(h, Input(false, Requests(true)), l5);
    h := Goes(h, Input(true, Arrives(1)), l6);
    h := Goes(h, Input(false, Arrives(0)), l7);
    h := Goes(h, Input(true, WatchdogFires), l8);
  }

  lemma OldGrantInTransit() returns (h: History)
    ensures IsRun(h) && |h.inputs| == 4 && |h.links| == 5
    ensures h.links[4] == Link(Idle(1), Party(NONE, 0, false, 1, true, 1), [Grants(1, 1)], [])
  {
    hide IsRun;
    var waiting := Party(NONE, 0, true, 1, false, 0);
    var granting := Party(REMOTE, 0, false, 1, true, 1);
    var l1 := Link(waiting, Idle(0), [], [Asks(1)]);
    assert Step(Connected(0, 0), Input(true, Requests(true))) == l1;
    var l2 := Link(waiting, granting, [Grants(1, 1)], []);
    assert Step(l1, Input(false, Arrives(0))) == l2;
    var l3 := l2.(left := Idle(1));
    assert Step(l2, Input(true, TimesOut)) == l3;
    var l4 := l3.(right := granting.(owner := NONE));
    assert Step(l3, Input(false, WatchdogFires)) == l4;
    hide Step;
    h := Start();
    h := Goes(h, Input(true, Requests(true)), l1);
    h := Goes(h, Input(false, Arrives(0)), l2);
    h := Goes(h, Input(true, TimesOut), l3);
    h := Goes(h, Input(false, WatchdogFires), l4);
  }

  /** Such runs do not avoid crossings. */
  lemma CrossingBreaks()
    ensures exists h: History :: IsRun(h) && !NeverCrosses(h) && EndsShared(h)
  {
    hide IsRun, NeverCrosses;
    var h := RequestsCross();
    assert EndsShared(h);
    if NeverCrosses(h) { OneOwner(h, |h.links| - 1); }
    hide EndsShared;
  }
}
