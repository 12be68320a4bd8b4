/** How turns begin and end: what makes a side own the link or yield it, and a whole turn from request to release. */
module TxTurns {
  import opened Bytes
  import opened TxControlCodec
  import opened TxOwnership
  import opened TxHandshake

  /** The link as seen from one side, which is then the left one. */
  function Side(l: Link, atLeft: bool): Link {
    if atLeft then l else Mirror(l)
  }

  /** The side where step k of the run happens, before and after. */
  function Before(h: History, k: nat): Link
    requires k < |h.inputs| && |h.links| == |h.inputs| + 1
  {
    Side(h.links[k], h.inputs[k].atLeft)
  }

  function AfterStep(h: History, k: nat): Link
    requires k < |h.inputs| && |h.links| == |h.inputs| + 1
  {
    Side(h.links[k + 1], h.inputs[k].atLeft)
  }

  lemma SideMoves(h: History, k: nat)
    requires IsRun(h) && k < |h.inputs|
    ensures AfterStep(h, k) == LeftStep(Before(h, k), h.inputs[k].event)
    ensures SideOK(Before(h, k).left) && SideOK(AfterStep(h, k).left)
  {
    hide LeftStep, SideOK;
    SidesOK(h, k);
    SidesOK(h, k + 1);
    IsRunMoves(h, k);
    hide IsRun;
  }

  /** The event brings a frame with the given op to the left side. */
  predicate BringsOp(l: Link, e: Event, op: int) {
    e.Arrives? && e.index < |l.toLeft| && l.toLeft[e.index].op == op
  }

  /** The answer that the left side waits for arrives, and it is a yes. */
  predicate IsAccepted(l: Link, e: Event) {
    e.Arrives? && e.index < |l.toLeft| && IsGrantAccepted(l.toLeft[e.index]) && l.left.pending
  }

  /** A grant of the left side turns out not to have been transmitted. */
  predicate GrantFails(l: Link, e: Event) {
    e == GrantSettles(false) && l.left.unsettled > 0
  }

  // When the owner changes ---------------------------------------------------------------------------------------

  /**
   * In every run a side that waits for its peer's turn to end is free again exactly when a RELEASE
   * arrives, the watchdog fires, its grant turns out to have failed, the peer disconnects or it
   * releases the link itself; it becomes the owner exactly when an accepting grant arrives that it
   * still waits for.
   */
  lemma RemoteEndsExactly(h: History, k: nat)
    requires IsRun(h) && k < |h.inputs| && Before(h, k).left.owner == REMOTE
    ensures var l, e, p := Before(h, k), h.inputs[k].event, AfterStep(h, k).left;
      && (p.owner == NONE <==>
          BringsOp(l, e, TX_OP_RELEASE) || e.WatchdogFires? || GrantFails(l, e) || e.Disconnects? || e.Releases?)
      && (p.owner == SELF <==> IsAccepted(l, e))
  {
    SideMoves(h, k);
    hide IsRun;
  }

  /** An owner yields exactly when it releases the link, a grant turns out to have failed, or the peer disconnects. */
  lemma SelfEndsExactly(h: History, k: nat)
    requires IsRun(h) && k < |h.inputs| && Before(h, k).left.owner == SELF
    ensures var l, e, p := Before(h, k), h.inputs[k].event, AfterStep(h, k).left;
      && (p.owner == NONE <==> GrantFails(l, e) || e.Disconnects? || e.Releases?)
      && p.owner != REMOTE
  {
    SideMoves(h, k);
    hide IsRun;
  }

  /** A free side lets the peer have the link exactly when a request arrives, and has it exactly when it is accepted. */
  lemma TurnBeginsExactly(h: History, k: nat)
    requires IsRun(h) && k < |h.inputs| && Before(h, k).left.owner == NONE
    ensures var l, e, p := Before(h, k), h.inputs[k].event, AfterStep(h, k).left;
      && (p.owner == REMOTE <==> BringsOp(l, e, TX_OP_REQUEST))
      && (p.owner == SELF <==> IsAccepted(l, e))
  {
    SideMoves(h, k);
    hide IsRun;
  }

  /** The side is free, records the peer as owning nothing, and can request at once unless it already waits. */
  predicate Freed(p: Party) {
    && p.owner == NONE && !p.owning
    && (!p.pending ==> Request(p, true).1 == [TxControl(TX_OP_REQUEST, 0, NextRequestId(p))])
  }

  /** In every run a RELEASE that reaches a side with a remote owner frees it, whatever else is going on. */
  lemma ReleaseFrees(h: History, k: nat)
    requires IsRun(h) && k < |h.inputs| && Before(h, k).left.owner == REMOTE
    requires BringsOp(Before(h, k), h.inputs[k].event, TX_OP_RELEASE)
    ensures Freed(AfterStep(h, k).left) && AfterStep(h, k).left.pending == Before(h, k).left.pending
  {
    SideMoves(h, k);
    hide IsRun;
  }

  /** So does the report that a grant could not be transmitted, whoever owns the link by then. */
  lemma FailedGrantFrees(h: History, k: nat)
    requires IsRun(h) && k < |h.inputs| && GrantFails(Before(h, k), h.inputs[k].event)
    ensures Freed(AfterStep(h, k).left) && AfterStep(h, k).left.unsettled == Before(h, k).left.unsettled - 1
  {
    SideMoves(h, k);
    hide IsRun;
  }

  /** The watchdog frees it as well, though the peer stays recorded. */
  lemma WatchdogFrees(h: History, k: nat)
    requires IsRun(h) && k < |h.inputs| && Before(h, k).left.owner == REMOTE && h.inputs[k].event.WatchdogFires?
    ensures var p := AfterStep(h, k).left;
      && p == Before(h, k).left.(owner := NONE)
      && (!p.pending ==> Request(p, true).1 == [TxControl(TX_OP_REQUEST, 0, NextRequestId(p))])
  {
    SideMoves(h, k);
    hide IsRun;
  }

  // Requests and answers -----------------------------------------------------------------------------------------

  /** A request gets a no, with its own id and without any effect, exactly if the link is taken. */
  lemma TakenLinkRefuses(h: History, k: nat)
    requires IsRun(h) && k < |h.inputs| && BringsOp(Before(h, k), h.inputs[k].event, TX_OP_REQUEST)
    ensures var l, l' := Before(h, k), AfterStep(h, k);
      var no := TxControl(TX_OP_GRANT, 0, l.toLeft[h.inputs[k].event.index].requestId);
      && (l'.left == l.left && l'.toRight == l.toRight + [no] <==> l.left.owner != NONE)
      && !IsGrantAccepted(no)
  {
    SideMoves(h, k);
    hide IsRun;
  }

  /** And the no ends the wait of the side that requested, which stays as free as it was. */
  lemma RefusalEndsWait(h: History, k: nat)
    requires IsRun(h) && k < |h.inputs| && BringsOp(Before(h, k), h.inputs[k].event, TX_OP_GRANT)
    requires !IsGrantAccepted(Before(h, k).toLeft[h.inputs[k].event.index])
    ensures AfterStep(h, k).left == Before(h, k).left.(pending := false)
  {
    SideMoves(h, k);
    hide IsRun;
  }

  /** The token changes only when a grant is accepted, to that grant's, and when the link is given up or away, to none. */
  lemma TokenExactly(h: History, k: nat)
    requires IsRun(h) && k < |h.inputs|
    ensures var l, e, p := Before(h, k), h.inputs[k].event, AfterStep(h, k).left;
      p.txId == if IsAccepted(l, e) then l.toLeft[e.index].txId
                else if e.Releases? || (e.Disconnects? && l.left.owning)
                     || (BringsOp(l, e, TX_OP_REQUEST) && l.left.owner == NONE) then 0
                else l.left.txId
  {
    SideMoves(h, k);
    hide IsRun;
  }

  /** A side waits for an answer exactly if it has sent a request and neither answer nor timeout has come since. */
  lemma WaitsExactly(h: History, k: nat)
    requires IsRun(h) && k < |h.inputs|
    ensures var l, e, p := Before(h, k), h.inputs[k].event, AfterStep(h, k).left;
      p.pending <==>
        || (e == Requests(true) && l.left.owner == NONE)
        || (l.left.pending && !e.TimesOut? && !BringsOp(l, e, TX_OP_GRANT))
  {
    SideMoves(h, k);
    hide IsRun;
  }

  /** A request that cannot be transmitted leaves nothing behind but a counter value that is not used again. */
  lemma FailedRequestIsTakenBack(h: History, k: nat)
    requires IsRun(h) && k < |h.inputs| && h.inputs[k].event == Requests(false)
    ensures var l, l' := Before(h, k), AfterStep(h, k);
      && l' == l.(left := l'.left) && l'.left == l.left.(counter := l'.left.counter)
      && l'.left.counter == l.left.counter + if l.left.owner == NONE && !l.left.pending then 1 else 0
  {
    SideMoves(h, k);
    hide IsRun;
  }

  /** Every request and every accepting grant carries the counter's next value, so a side never uses an id twice. */
  lemma IdsAreNew(h: History, k: nat)
    requires IsRun(h) && k < |h.inputs| && Before(h, k).left.counter + 1 < TWO_31
    ensures var l, l', n := Before(h, k), AfterStep(h, k), |Before(h, k).toRight|;
      && l.left.counter <= l'.left.counter && n <= |l'.toRight| <= n + 1 && l'.toRight[..n] == l.toRight
      && (|l'.toRight| == n + 1 ==>
            var c := l'.toRight[n];
            && (c.op == TX_OP_REQUEST ==> c.requestId == l'.left.counter == l.left.counter + 1)
            && (IsGrantAccepted(c) ==> c.txId == l'.left.counter == l.left.counter + 1))
  {
    SideMoves(h, k);
    hide IsRun, Mirror, Side;
  }

  // A whole turn ---------------------------------------------------------------------------------------------------

  /** The links that a turn of the left side goes through, when no frame of it is lost. */
  function TurnLinks(l: Link): seq<Link> {
    var l1 := Step(l, Input(true, Requests(true)));
    var l2 := Step(l1, Input(false, Arrives(|l.toRight|)));
    var l3 := Step(l2, Input(true, Arrives(|l.toLeft|)));
    var l4 := Step(l3, Input(true, Releases(true)));
    var l5 := Step(l4, Input(false, Arrives(|l.toRight|)));
    [l, l1, l2, l3, l4, l5]
  }

  /**
   * A whole turn, whatever other frames are in transit: the request is granted with its own id, the
   * requester alone owns the link with the granted token, its release carries that token, and in the
   * end both sides are free, nobody waits, and nothing of the turn is left in transit.
   */
  lemma WholeTurn(l: Link)
    requires l.left.owner == NONE && !l.left.pending && l.right.owner == NONE
    requires (l.right.counter + 1) % TWO_32 < TWO_31
    ensures var ls, token := TurnLinks(l), NextGrantId(l.right);
      && token > 0
      && ls[1].toRight == l.toRight + [TxControl(TX_OP_REQUEST, 0, NextRequestId(l.left))]
      && ls[2].toLeft == l.toLeft + [TxControl(TX_OP_GRANT, token, NextRequestId(l.left))]
      && ls[3].left.owner == SELF && ls[3].left.txId == token && ls[3].right.owner == REMOTE
      && ls[4].toRight == l.toRight + [TxControl(TX_OP_RELEASE, token, 0)]
      && ls[5].left.owner == NONE && ls[5].right.owner == NONE && !ls[5].left.pending && !ls[5].right.owning
      && ls[5].left.txId == 0 && ls[5].right.pending == l.right.pending
      && ls[5].toLeft == l.toLeft && ls[5].toRight == l.toRight
  {
  }

  /** Both sides are free and wait for nothing, and their next n grants can be encoded. */
  predicate AtRest(l: Link, n: nat) {
    && l.left.owner == NONE && !l.left.pending && l.right.owner == NONE && !l.right.pending
    && l.left.counter + n < TWO_31 && l.right.counter + n < TWO_31
  }

  /** The link after whole turns of the given sides, one after another. */
  function AfterTurns(l: Link, sides: seq<bool>): Link {
    if sides == [] then l
    else
      var atLeft := sides[|sides| - 1];
      Side(TurnLinks(Side(AfterTurns(l, sides[..|sides| - 1]), atLeft))[5], atLeft)
  }

  lemma OneTurn(l: Link, atLeft: bool, n: nat)
    requires AtRest(l, n + 1)
    ensures var l' := Side(TurnLinks(Side(l, atLeft))[5], atLeft);
      AtRest(l', n) && l'.toLeft == l.toLeft && l'.toRight == l.toRight
  {
    hide TurnLinks, NextGrantId, NextRequestId;
    WholeTurn(Side(l, atLeft));
    TurnCounts(Side(l, atLeft));
  }

  /** After any number of turns, by either side in any order, the link is at rest with the frames in transit it had. */
  lemma {:induction false} TurnsLeaveNothing(l: Link, sides: seq<bool>, n: nat)
    requires AtRest(l, |sides| + n)
    ensures var l' := AfterTurns(l, sides);
      AtRest(l', n) && l'.toLeft == l.toLeft && l'.toRight == l.toRight
  {
    hide TurnLinks, AtRest, Side;
    if sides != [] {
      TurnsLeaveNothing(l, sides[..|sides| - 1], n + 1);
      OneTurn(AfterTurns(l, sides[..|sides| - 1]), sides[|sides| - 1], n);
    }
  }

  lemma TurnCounts(l: Link)
    requires l.left.owner == NONE && !l.left.pending && l.right.owner == NONE
    requires (l.right.counter + 1) % TWO_32 < TWO_31
    ensures TurnLinks(l)[5].left.counter == l.left.counter + 1 && TurnLinks(l)[5].right.counter == l.right.counter + 1
  {
  }
}
