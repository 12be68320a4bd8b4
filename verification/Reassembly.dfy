/** Splitting, then reassembly of fragments that arrive interleaved, reordered and repeated: the packets come back. */
module Reassembly {
  import opened Wrappers
  import opened Bytes
  import opened Collections
  import opened FragmentCodec
  import opened Reassembler

  /** A packet that some source sent in fragments of d data bytes. */
  datatype Sent = Sent(packet: seq<byte>, d: nat)

  /** What was sent, by group key. */
  type Plan = map<string, Sent>

  /** Fragment `index` of the packet that sourceId sent as groupId reaches the receiver at time now. */
  datatype Arrival = Arrival(sourceId: string, groupId: nat, index: nat, now: int)

  function KeyOf(a: Arrival): string {
    MakeGroupKey(a.sourceId, a.groupId)
  }

  ghost predicate PlanOK(plan: Plan) {
    forall k :: k in plan ==> Splittable(plan[k].packet, plan[k].d)
  }

  function CountOf(p: Sent): nat
    requires p.d > 0
  {
    ChunkCount(|p.packet|, p.d)
  }

  ghost predicate Fits(plan: Plan, a: Arrival)
    requires PlanOK(plan)
  {
    a.groupId < TWO_32 && KeyOf(a) in plan && a.index < CountOf(plan[KeyOf(a)])
  }

  /** The bytes on the wire. */
  function Wire(plan: Plan, a: Arrival): seq<byte>
    requires PlanOK(plan) && Fits(plan, a)
  {
    var p := plan[KeyOf(a)];
    ChunkInside(|p.packet|, p.d, a.index);
    FragmentAt(p.packet, a.groupId, p.d, a.index).payload
  }

  /** The receive path: parse the header, hand the rest to the reassembler. */
  function ReceivePayload(t: Table, sourceId: string, payload: seq<byte>, now: int): (Table, ReassemblyResult) {
    match ParseHeader(payload)
    case Err(e) => (t, Error(e))
    case Ok(h) => AddFragmentTo(t, sourceId, h, payload[V7_HEADER_SIZE..], now)
  }

  // Genuine contents -----------------------------------------------------------------------------

  /** Each stored chunk is the packet's chunk of that index. */
  ghost predicate ChunksOf(f: map<nat, seq<byte>>, p: Sent)
    requires p.d > 0
  {
    forall i :: i in f ==> Offset(p.d, i) <= |p.packet| && f[i] == ChunkAt(p.packet, p.d, i)
  }

  ghost predicate GenuineState(s: FragmentState, p: Sent)
    requires p.d > 0
  {
    && s.totalFragments == CountOf(p)
    && s.v6aLength == |p.packet|
    && s.fragments.Keys <= Below(s.totalFragments)
    && ChunksOf(s.fragments, p)
  }

  /** Every open group holds chunks of the one packet that was sent under its key. */
  ghost predicate Genuine(t: Table, plan: Plan)
    requires PlanOK(plan)
  {
    && TableOK(t)
    && forall k :: k in t.groups ==> k in plan && GenuineState(t.groups[k], plan[k])
  }

  lemma {:induction false} AssembleGenuineBound(f: map<nat, seq<byte>>, p: Sent, n: nat)
    requires p.d > 0 && ChunksOf(f, p)
    requires n > 0 ==> Offset(p.d, n - 1) <= |p.packet|
    ensures |Assemble(f, n)| <= Min(Offset(p.d, n), |p.packet|)
  {
    if n > 0 {
      OffsetMonotone(p.d, if n > 1 then n - 2 else 0, n - 1);
      AssembleGenuineBound(f, p, n - 1);
    }
  }

  lemma {:induction false} AssembleGenuineFull(f: map<nat, seq<byte>>, p: Sent, n: nat)
    requires p.d > 0 && ChunksOf(f, p)
    requires forall i: nat :: i < n ==> i in f
    ensures Assemble(f, n) == p.packet[..Min(Offset(p.d, n), |p.packet|)]
  {
    if n > 0 {
      AssembleGenuineFull(f, p, n - 1);
      AssembleNext(f, p, n);
    }
  }

  lemma AssembleNext(f: map<nat, seq<byte>>, p: Sent, n: nat)
    requires p.d > 0 && ChunksOf(f, p) && n > 0 && n - 1 in f
    requires Assemble(f, n - 1) == p.packet[..Min(Offset(p.d, n - 1), |p.packet|)]
    ensures Assemble(f, n) == p.packet[..Min(Offset(p.d, n), |p.packet|)]
  {
    hide ChunkAt;
    assert f[n - 1] == ChunkAt(p.packet, p.d, n - 1);
    ChunkExtendsPrefix(p.packet, p.d, n - 1);
  }

  /** The chunks of a full group, joined in index order, are the packet. */
  lemma AllChunksGivePacket(f: map<nat, seq<byte>>, p: Sent)
    requires Splittable(p.packet, p.d) && f.Keys == Below(CountOf(p))
    requires ChunksOf(f, p)
    ensures Assemble(f, CountOf(p)) == p.packet
  {
    AssembleGenuineFull(f, p, CountOf(p));
    CountBounds(|p.packet|, p.d);
    assert p.packet[..|p.packet|] == p.packet;
  }

  lemma WireParses(plan: Plan, a: Arrival)
    requires PlanOK(plan) && Fits(plan, a)
    ensures var p := plan[KeyOf(a)];
      var h := HeaderAt(p.packet, a.groupId, p.d, a.index);
      && ParseHeader(Wire(plan, a)) == Ok(h)
      && |Wire(plan, a)| >= V7_HEADER_SIZE
      && Offset(p.d, a.index) <= |p.packet|
      && Wire(plan, a)[V7_HEADER_SIZE..] == ChunkAt(p.packet, p.d, a.index)
      && AcceptableHeader(h)
  {
    var p := plan[KeyOf(a)];
    ChunkInside(|p.packet|, p.d, a.index);
    var h := HeaderAt(p.packet, a.groupId, p.d, a.index);
    ParseWritten(h, ChunkAt(p.packet, p.d, a.index));
    FragmentData(p.packet, a.groupId, p.d, a.index);
  }

  /** Storing one more genuine chunk never exceeds the announced length. */
  lemma GenuineRoom(s: FragmentState, p: Sent, i: nat)
    requires Splittable(p.packet, p.d) && GenuineState(s, p) && i < s.totalFragments && i !in s.fragments
    ensures Offset(p.d, i) <= |p.packet|
    ensures |Assemble(s.fragments, s.totalFragments)| + |ChunkAt(p.packet, p.d, i)| <= s.v6aLength
  {
    ChunkInside(|p.packet|, p.d, i);
    ChunkInside(|p.packet|, p.d, s.totalFragments - 1);
    var c := ChunkAt(p.packet, p.d, i);
    AssembleAdd(s.fragments, s.totalFragments, i, c);
    AssembleGenuineBound(s.fragments[i := c], p, s.totalFragments);
  }

  lemma StoredGenuine(key: string, s: FragmentState, p: Sent, i: nat, now: int)
    requires Splittable(p.packet, p.d) && StateOK(key, s) && GenuineState(s, p) && i < CountOf(p) && i !in s.fragments
    ensures Offset(p.d, i) <= |p.packet|
    ensures var s' := Stored(s, i, ChunkAt(p.packet, p.d, i), now);
      && GenuineState(s', p)
      && s'.fragments.Keys == s.fragments.Keys + {i}
      && (s'.receivedCount == CountOf(p) <==> s.fragments.Keys + {i} == Below(CountOf(p)))
      && (s'.receivedCount == CountOf(p) ==> Finish(s') == Complete(p.packet))
  {
    GenuineRoom(s, p, i);
    var c := ChunkAt(p.packet, p.d, i);
    StoredOK(key, s, i, c, now);
    StoredCount(s, i, c, now);
    ChunksOfPush(s.fragments, p, i);
    var s' := Stored(s, i, c, now);
    hide Assemble, ChunkAt, ChunksOf, StateOK, Splittable;
    if s.fragments.Keys + {i} == Below(CountOf(p)) {
      AllChunksGivePacket(s'.fragments, p);
    }
  }

  lemma ChunksOfPush(f: map<nat, seq<byte>>, p: Sent, i: nat)
    requires p.d > 0 && ChunksOf(f, p) && Offset(p.d, i) <= |p.packet|
    ensures ChunksOf(f[i := ChunkAt(p.packet, p.d, i)], p)
  {
  }

  lemma StoredCount(s: FragmentState, i: nat, c: seq<byte>, now: int)
    requires s.fragments.Keys <= Below(s.totalFragments) && i < s.totalFragments && i !in s.fragments
    requires s.receivedCount == |s.fragments|
    ensures var s' := Stored(s, i, c, now);
      && s'.fragments.Keys == s.fragments.Keys + {i}
      && (s'.receivedCount == s.totalFragments <==> s.fragments.Keys + {i} == Below(s.totalFragments))
  {
    BelowSize(s.totalFragments);
    assert |s.fragments| == |s.fragments.Keys|;
    SubsetSize(s.fragments.Keys + {i}, Below(s.totalFragments));
  }

  /** What one genuine fragment does to its open, genuine group. */
  lemma AcceptGenuine(t: Table, p: Sent, key: string, groupId: nat, i: nat, now: int)
    requires Splittable(p.packet, p.d) && i < CountOf(p) && Offset(p.d, i) <= |p.packet|
    requires TableOK(t) && key in t.groups && GenuineState(t.groups[key], p)
    ensures var f := t.groups[key].fragments.Keys;
      var (t', r) := Accept(t, key, HeaderAt(p.packet, groupId, p.d, i), ChunkAt(p.packet, p.d, i), now);
      && (if i in f then r == Incomplete && key in t'.groups && t'.groups[key].fragments.Keys == f
          else if f + {i} == Below(CountOf(p)) then r == Complete(p.packet) && key !in t'.groups
          else r == Incomplete && key in t'.groups && t'.groups[key].fragments.Keys == f + {i})
      && (key in t'.groups ==> GenuineState(t'.groups[key], p))
  {
    var s := t.groups[key];
    assert GroupOK(t, key);
    if i !in s.fragments {
      GenuineRoom(s, p, i);
      StoredGenuine(key, s, p, i, now);
      hide TableOK, GenuineState, ChunkAt, Finish, Stored;
    }
  }

  // One genuine arrival ----------------------------------------------------------------------------

  /** The indices collected so far by the open groups: the simple receiver the table refines. */
  type Collected = map<string, set<nat>>

  function SeenOf(got: Collected, key: string): set<nat> {
    if key in got then got[key] else {}
  }

  /** The ideal receiver: collect indices, complete on the last missing one, then start over. */
  function IdealStep(plan: Plan, got: Collected, a: Arrival): (Collected, ReassemblyResult)
    requires PlanOK(plan) && Fits(plan, a)
  {
    var key, seen := KeyOf(a), SeenOf(got, KeyOf(a));
    if a.index in seen then (got, Incomplete)
    else if seen + {a.index} == Below(CountOf(plan[key])) then (got - {key}, Complete(plan[key].packet))
    else (got[key := seen + {a.index}], Incomplete)
  }

  function RealStep(plan: Plan, t: Table, a: Arrival): (Table, ReassemblyResult)
    requires PlanOK(plan) && Fits(plan, a)
  {
    ReceivePayload(t, a.sourceId, Wire(plan, a), a.now)
  }

  lemma OpenedGenuine(plan: Plan, t: Table, a: Arrival)
    requires PlanOK(plan) && Fits(plan, a) && Genuine(t, plan)
    ensures var p := plan[KeyOf(a)];
      var h := HeaderAt(p.packet, a.groupId, p.d, a.index);
      Genuine(Opened(t, KeyOf(a), a.sourceId, h, a.now), plan)
  {
    var key, p := KeyOf(a), plan[KeyOf(a)];
    var h := HeaderAt(p.packet, a.groupId, p.d, a.index);
    WireParses(plan, a);
    OpenedOK(t, key, a.sourceId, h, a.now);
    OpenedChunks(t, key, a.sourceId, h, a.now);
    OpenedOwn(t, key, a.sourceId, h, a.now);
    NewStateGenuine(plan, a);
    hide Opened, NewState, GenuineState;
    var t1 := Opened(t, key, a.sourceId, h, a.now);
    forall k | k in t1.groups
      ensures k in plan && GenuineState(t1.groups[k], plan[k])
    {
      assert k != key ==> t1.groups[k] == t.groups[k];
    }
  }

  lemma OpenedOwn(t: Table, key: string, sourceId: string, h: FragmentHeader, now: int)
    requires TableOK(t)
    ensures key in Opened(t, key, sourceId, h, now).groups
    ensures Opened(t, key, sourceId, h, now).groups[key]
         == if key in t.groups then t.groups[key] else NewState(sourceId, h, now)
  {
  }

  lemma NewStateGenuine(plan: Plan, a: Arrival)
    requires PlanOK(plan) && Fits(plan, a)
    ensures var p := plan[KeyOf(a)];
      GenuineState(NewState(a.sourceId, HeaderAt(p.packet, a.groupId, p.d, a.index), a.now), p)
  {
  }

  /** What a genuine fragment does to a group: it never errs, and completes only with what was sent. */
  ghost predicate GenuineOutcome(plan: Plan, t: Table, a: Arrival, t': Table, r: ReassemblyResult)
    requires PlanOK(plan) && Fits(plan, a)
  {
    var key, p := KeyOf(a), plan[KeyOf(a)];
    var f := StoredChunks(t, key).Keys;
    if a.index in f then r == Incomplete && key in t'.groups && StoredChunks(t', key).Keys == f
    else if f + {a.index} == Below(CountOf(p)) then r == Complete(p.packet) && key !in t'.groups
    else r == Incomplete && key in t'.groups && StoredChunks(t', key).Keys == f + {a.index}
  }

  /**
   * With any groups open, expired or aborted before: a genuine fragment never errs, keeps every
   * group genuine, and completes only with the bytes that were sent under its key, namely when its
   * group then holds every index.
   */
  lemma RealStepGenuine(plan: Plan, t: Table, a: Arrival)
    requires PlanOK(plan) && Fits(plan, a) && Genuine(t, plan)
    ensures Genuine(RealStep(plan, t, a).0, plan)
    ensures GenuineOutcome(plan, t, a, RealStep(plan, t, a).0, RealStep(plan, t, a).1)
  {
    var key, p := KeyOf(a), plan[KeyOf(a)];
    var h := HeaderAt(p.packet, a.groupId, p.d, a.index);
    RealStepIs(plan, t, a);
    WireParses(plan, a);
    OpenedGenuine(plan, t, a);
    OpenedChunks(t, key, a.sourceId, h, a.now);
    hide RealStep, Opened, Accept, AcceptableHeader, ChunkAt, HeaderAt;
    var t1 := Opened(t, key, a.sourceId, h, a.now);
    GenuineAccepted(plan, t1, a);
  }

  lemma GenuineReplaced(plan: Plan, t: Table, t': Table, key: string)
    requires PlanOK(plan) && Genuine(t, plan) && TableOK(t') && OthersUntouched(t, t', key)
    requires key in plan && (key in t'.groups ==> GenuineState(t'.groups[key], plan[key]))
    ensures Genuine(t', plan)
  {
  }

  lemma GenuineAccepted(plan: Plan, t: Table, a: Arrival)
    requires PlanOK(plan) && Fits(plan, a) && Genuine(t, plan) && KeyOf(a) in t.groups
    requires Offset(plan[KeyOf(a)].d, a.index) <= |plan[KeyOf(a)].packet|
    requires AcceptableHeader(HeaderAt(plan[KeyOf(a)].packet, a.groupId, plan[KeyOf(a)].d, a.index))
    ensures var p := plan[KeyOf(a)];
      var o := Accept(t, KeyOf(a), HeaderAt(p.packet, a.groupId, p.d, a.index), ChunkAt(p.packet, p.d, a.index), a.now);
      Genuine(o.0, plan) && GenuineOutcome(plan, t, a, o.0, o.1)
  {
    var key, p := KeyOf(a), plan[KeyOf(a)];
    var h, c := HeaderAt(p.packet, a.groupId, p.d, a.index), ChunkAt(p.packet, p.d, a.index);
    AcceptGenuine(t, p, key, a.groupId, a.index, a.now);
    AcceptOK(t, key, h, c, a.now);
    AcceptFirstWins(t, key, h, c, a.now);
    var t' := Accept(t, key, h, c, a.now).0;
    hide Accept, GenuineState, TableOK, OthersUntouched, Genuine;
    GenuineReplaced(plan, t, t', key);
  }

  /** Receiving the wire form of an arrival hands its header and chunk to the opened group. */
  lemma RealStepIs(plan: Plan, t: Table, a: Arrival)
    requires PlanOK(plan) && Fits(plan, a)
    ensures var p := plan[KeyOf(a)];
      var h := HeaderAt(p.packet, a.groupId, p.d, a.index);
      && Offset(p.d, a.index) <= |p.packet|
      && KeyOf(a) in Opened(t, KeyOf(a), a.sourceId, h, a.now).groups
      && RealStep(plan, t, a)
         == Accept(Opened(t, KeyOf(a), a.sourceId, h, a.now), KeyOf(a), h, ChunkAt(p.packet, p.d, a.index), a.now)
  {
    WireParses(plan, a);
    OpensKey(t, KeyOf(a), a.sourceId, HeaderAt(plan[KeyOf(a)].packet, a.groupId, plan[KeyOf(a)].d, a.index), a.now);
    hide Opened, Accept, Wire, ChunkAt, ParseHeader;
  }

  lemma OpensKey(t: Table, key: string, sourceId: string, h: FragmentHeader, now: int)
    ensures key in Opened(t, key, sourceId, h, now).groups
  {
  }

  /** While its group is open or fewer than eight groups are, an arrival leaves the other groups alone. */
  lemma RealStepFrame(plan: Plan, t: Table, a: Arrival)
    requires PlanOK(plan) && Fits(plan, a) && Genuine(t, plan)
    requires KeyOf(a) in t.groups || |t.groups| < MAX_CONCURRENT_GROUPS
    ensures OthersUntouched(t, RealStep(plan, t, a).0, KeyOf(a))
  {
    var key, p := KeyOf(a), plan[KeyOf(a)];
    var h := HeaderAt(p.packet, a.groupId, p.d, a.index);
    RealStepIs(plan, t, a);
    OpenedFrame(t, key, a.sourceId, h, a.now);
    var t1, c := Opened(t, key, a.sourceId, h, a.now), ChunkAt(p.packet, p.d, a.index);
    AcceptFirstWins(t1, key, h, c, a.now);
  }


  lemma OpenedFrame(t: Table, key: string, sourceId: string, h: FragmentHeader, now: int)
    requires key in t.groups || |t.groups| < MAX_CONCURRENT_GROUPS
    ensures Opened(t, key, sourceId, h, now).groups.Keys == t.groups.Keys + {key}
    ensures forall k :: k in t.groups ==> Opened(t, key, sourceId, h, now).groups[k] == t.groups[k]
  {
  }

  /** Dropping groups, as cleanup and resetSource do, keeps the rest genuine. */
  lemma RestrictGenuine(plan: Plan, t: Table, keep: set<string>)
    requires PlanOK(plan) && Genuine(t, plan)
    ensures Genuine(Restrict(t, keep), plan)
  {
    RestrictKeepsTable(t, keep);
  }

  // Whole runs ---------------------------------------------------------------------------------------

  ghost predicate AllFit(plan: Plan, arrivals: seq<Arrival>) {
    PlanOK(plan) && forall j :: 0 <= j < |arrivals| ==> Fits(plan, arrivals[j])
  }

  function CollectedAfter(plan: Plan, arrivals: seq<Arrival>): Collected
    requires AllFit(plan, arrivals)
  {
    if arrivals == [] then map[]
    else IdealStep(plan, CollectedAfter(plan, arrivals[..|arrivals| - 1]), arrivals[|arrivals| - 1]).0
  }

  /** A receiving session: arrivals[k] takes tables[k] to tables[k + 1] and is answered by answers[k]. */
  datatype Session = Session(plan: Plan, arrivals: seq<Arrival>, tables: seq<Table>, answers: seq<ReassemblyResult>)

  ghost predicate Received(h: Session, k: nat) {
    && k < |h.arrivals| == |h.answers| && |h.tables| == |h.arrivals| + 1
    && PlanOK(h.plan) && Fits(h.plan, h.arrivals[k])
    && (h.tables[k + 1], h.answers[k]) == RealStep(h.plan, h.tables[k], h.arrivals[k])
  }

  ghost predicate IsSession(h: Session) {
    && |h.arrivals| == |h.answers| && |h.tables| == |h.arrivals| + 1
    && PlanOK(h.plan) && h.tables[0] == EMPTY_TABLE
    && forall k: nat :: k < |h.arrivals| ==> Received(h, k)
  }

  /** Arrival k finds its group open, or fewer than eight groups. */
  ghost predicate RoomAt(h: Session, k: nat) {
    && k < |h.arrivals| && |h.tables| == |h.arrivals| + 1
    && (KeyOf(h.arrivals[k]) in h.tables[k].groups || |h.tables[k].groups| < MAX_CONCURRENT_GROUPS)
  }

  /** At no point of the session would a ninth group have to be opened. */
  ghost predicate AtMostEightOpen(h: Session) {
    forall k: nat :: k < |h.arrivals| ==> RoomAt(h, k)
  }

  /** The open groups hold exactly the collected indices. */
  ghost predicate SameShape(t: Table, got: Collected) {
    && t.groups.Keys == got.Keys
    && forall k :: k in got ==> t.groups[k].fragments.Keys == got[k]
  }

  ghost predicate Tracks(plan: Plan, t: Table, got: Collected)
    requires PlanOK(plan)
  {
    Genuine(t, plan) && SameShape(t, got)
  }

  lemma SameShapeChunks(t: Table, got: Collected, key: string)
    requires SameShape(t, got) && (key in got || |got| < MAX_CONCURRENT_GROUPS)
    ensures key in t.groups || |t.groups| < MAX_CONCURRENT_GROUPS
    ensures StoredChunks(t, key).Keys == SeenOf(got, key)
  {
    assert |got| == |got.Keys| && |t.groups| == |t.groups.Keys|;
  }

  ghost predicate OthersSame(got: Collected, got': Collected, key: string) {
    forall k :: k != key ==> (k in got' <==> k in got) && (k in got ==> got'[k] == got[k])
  }

  lemma SameShapeStep(t: Table, got: Collected, t': Table, got': Collected, key: string)
    requires SameShape(t, got) && OthersUntouched(t, t', key) && OthersSame(got, got', key)
    requires (key in t'.groups <==> key in got') && StoredChunks(t', key).Keys == SeenOf(got', key)
    ensures SameShape(t', got')
  {
    forall k
      ensures k in t'.groups <==> k in got'
      ensures k in got' ==> t'.groups[k].fragments.Keys == got'[k]
    {
    }
  }

  /** The ideal receiver's step, seen from the outside. */
  ghost predicate IdealOutcome(plan: Plan, got: Collected, a: Arrival, got': Collected, r: ReassemblyResult)
    requires PlanOK(plan) && Fits(plan, a)
  {
    var key, p, f := KeyOf(a), plan[KeyOf(a)], SeenOf(got, KeyOf(a));
    if a.index in f then r == Incomplete && key in got' && SeenOf(got', key) == f
    else if f + {a.index} == Below(CountOf(p)) then r == Complete(p.packet) && key !in got'
    else r == Incomplete && key in got' && SeenOf(got', key) == f + {a.index}
  }

  lemma IdealShape(plan: Plan, got: Collected, a: Arrival)
    requires PlanOK(plan) && Fits(plan, a)
    ensures OthersSame(got, IdealStep(plan, got, a).0, KeyOf(a))
    ensures IdealOutcome(plan, got, a, IdealStep(plan, got, a).0, IdealStep(plan, got, a).1)
  {
  }

  lemma SameOutcome(plan: Plan, t: Table, got: Collected, a: Arrival, t': Table, got': Collected,
        r: ReassemblyResult, r': ReassemblyResult)
    requires PlanOK(plan) && Fits(plan, a) && StoredChunks(t, KeyOf(a)).Keys == SeenOf(got, KeyOf(a))
    requires GenuineOutcome(plan, t, a, t', r) && IdealOutcome(plan, got, a, got', r')
    ensures r == r' && (KeyOf(a) in t'.groups <==> KeyOf(a) in got')
    ensures StoredChunks(t', KeyOf(a)).Keys == SeenOf(got', KeyOf(a))
  {
  }

  lemma StepTracks(plan: Plan, t: Table, got: Collected, a: Arrival)
    requires PlanOK(plan) && Fits(plan, a) && Tracks(plan, t, got)
    requires KeyOf(a) in got || |got| < MAX_CONCURRENT_GROUPS
    ensures Tracks(plan, RealStep(plan, t, a).0, IdealStep(plan, got, a).0)
    ensures RealStep(plan, t, a).1 == IdealStep(plan, got, a).1
  {
    hide RealStep, IdealStep, SameShape, Genuine, GenuineOutcome, IdealOutcome, OthersSame, OthersUntouched;
    var actual, ideal := RealStep(plan, t, a), IdealStep(plan, got, a);
    SameShapeChunks(t, got, KeyOf(a));
    RealStepGenuine(plan, t, a);
    RealStepFrame(plan, t, a);
    IdealShape(plan, got, a);
    SameOutcome(plan, t, got, a, actual.0, ideal.0, actual.1, ideal.1);
    SameShapeStep(t, got, actual.0, ideal.0, KeyOf(a));
  }

  lemma SessionFits(h: Session, k: nat)
    requires IsSession(h) && k <= |h.arrivals|
    ensures AllFit(h.plan, h.arrivals[..k])
  {
    hide RealStep, Fits, PlanOK;
    forall j | 0 <= j < k
      ensures Fits(h.plan, h.arrivals[j])
    {
      assert Received(h, j);
    }
  }

  lemma RoomForIdeal(t: Table, got: Collected, key: string)
    requires SameShape(t, got) && (key in t.groups || |t.groups| < MAX_CONCURRENT_GROUPS)
    ensures key in got || |got| < MAX_CONCURRENT_GROUPS
  {
    assert |got| == |got.Keys| && |t.groups| == |t.groups.Keys|;
  }

  lemma TracksShape(plan: Plan, t: Table, got: Collected)
    requires PlanOK(plan) && Tracks(plan, t, got)
    ensures SameShape(t, got)
  {
  }

  lemma CollectedNext(plan: Plan, arrivals: seq<Arrival>, k: nat)
    requires k < |arrivals| && AllFit(plan, arrivals[..k]) && AllFit(plan, arrivals[..k + 1]) && PlanOK(plan)
      && Fits(plan, arrivals[k])
    ensures CollectedAfter(plan, arrivals[..k + 1])
      == IdealStep(plan, CollectedAfter(plan, arrivals[..k]), arrivals[k]).0
  {
    assert arrivals[..k + 1][..k] == arrivals[..k];
    hide IdealStep, Fits;
  }

  /** One arrival of a session: the reassembler does what the ideal receiver does. */
  lemma SessionStep(h: Session, k: nat)
    requires IsSession(h) && k < |h.arrivals| && RoomAt(h, k)
    requires AllFit(h.plan, h.arrivals[..k]) && Tracks(h.plan, h.tables[k], CollectedAfter(h.plan, h.arrivals[..k]))
    ensures Fits(h.plan, h.arrivals[k])
    ensures var ideal := IdealStep(h.plan, CollectedAfter(h.plan, h.arrivals[..k]), h.arrivals[k]);
      Tracks(h.plan, h.tables[k + 1], ideal.0) && h.answers[k] == ideal.1
  {
    hide RealStep, IdealStep, Tracks, PlanOK, Fits, AllFit, CollectedAfter;
    assert Received(h, k);
    var got := CollectedAfter(h.plan, h.arrivals[..k]);
    TracksShape(h.plan, h.tables[k], got);
    RoomForIdeal(h.tables[k], got, KeyOf(h.arrivals[k]));
    StepTracks(h.plan, h.tables[k], got, h.arrivals[k]);
  }

  lemma EmptyTracks(plan: Plan)
    requires PlanOK(plan)
    ensures Tracks(plan, EMPTY_TABLE, map[])
  {
  }

  /** The reassembler refines the ideal receiver along every session with room for all groups. */
  lemma {:induction false} SessionTracks(h: Session, k: nat)
    requires IsSession(h) && AtMostEightOpen(h) && k <= |h.arrivals|
    ensures AllFit(h.plan, h.arrivals[..k])
    ensures Tracks(h.plan, h.tables[k], CollectedAfter(h.plan, h.arrivals[..k]))
  {
    hide Tracks, AllFit, IdealStep, Fits, RealStep, Splittable;
    SessionFits(h, k);
    if k == 0 {
      EmptyTracks(h.plan);
    } else {
      SessionTracks(h, k - 1);
      assert RoomAt(h, k - 1);
      SessionStep(h, k - 1);
      CollectedNext(h.plan, h.arrivals, k - 1);
    }
  }

  /** The indices of key that have arrived. */
  function IndicesOf(arrivals: seq<Arrival>, key: string): set<nat> {
    if arrivals == [] then {}
    else
      var last := arrivals[|arrivals| - 1];
      IndicesOf(arrivals[..|arrivals| - 1], key) + (if KeyOf(last) == key then {last.index} else {})
  }

  lemma {:induction false} IndicesMeaning(arrivals: seq<Arrival>, key: string, i: nat)
    ensures i in IndicesOf(arrivals, key) <==>
      exists j :: 0 <= j < |arrivals| && KeyOf(arrivals[j]) == key && arrivals[j].index == i
  {
    if arrivals != [] {
      var init, last := arrivals[..|arrivals| - 1], arrivals[|arrivals| - 1];
      IndicesMeaning(init, key, i);
      assert forall j :: 0 <= j < |init| ==> init[j] == arrivals[j];
    }
  }

  lemma {:induction false} IndicesInRange(plan: Plan, arrivals: seq<Arrival>, key: string)
    requires AllFit(plan, arrivals) && key in plan
    ensures IndicesOf(arrivals, key) <= Below(CountOf(plan[key]))
  {
    if arrivals != [] {
      IndicesInRange(plan, arrivals[..|arrivals| - 1], key);
    }
  }

  /** Until all indices of key have arrived, the ideal receiver holds exactly those that did. */
  lemma {:induction false} CollectsAll(plan: Plan, arrivals: seq<Arrival>, key: string)
    requires AllFit(plan, arrivals) && key in plan
    requires IndicesOf(arrivals, key) != Below(CountOf(plan[key]))
    ensures SeenOf(CollectedAfter(plan, arrivals), key) == IndicesOf(arrivals, key)
  {
    if arrivals != [] {
      var n := |arrivals| - 1;
      IndicesInRange(plan, arrivals, key);
      IndicesInRange(plan, arrivals[..n], key);
      assert IndicesOf(arrivals[..n], key) != Below(CountOf(plan[key]));
      CollectsAll(plan, arrivals[..n], key);
      var got := CollectedAfter(plan, arrivals[..n]);
      assert CollectedAfter(plan, arrivals) == IdealStep(plan, got, arrivals[n]).0;
      IdealShape(plan, got, arrivals[n]);
      hide IdealStep, CountOf, Fits, AllFit;
    }
  }

  /**
   * The main theorem. For every interleaving, reordering and repetition of the fragments of any
   * number of packets, with at most eight groups ever open: as long as a packet is not all there,
   * arrival j of one of its fragments answers "complete" exactly when it is the last missing one,
   * and the answer carries exactly the bytes that were split.
   */
  lemma SplitThenReassemble(h: Session, j: nat, key: string)
    requires IsSession(h) && AtMostEightOpen(h)
    requires j < |h.arrivals| && key in h.plan && KeyOf(h.arrivals[j]) == key
    requires IndicesOf(h.arrivals[..j], key) != Below(CountOf(h.plan[key]))
    ensures h.answers[j]
         == if IndicesOf(h.arrivals[..j + 1], key) == Below(CountOf(h.plan[key]))
            then Complete(h.plan[key].packet) else Incomplete
  {
    hide RealStep, IdealStep, Tracks, Fits, AllFit, CollectedAfter, IndicesOf;
    SessionTracks(h, j);
    assert RoomAt(h, j);
    SessionStep(h, j);
    CollectsAll(h.plan, h.arrivals[..j], key);
    IdealCompletes(h.plan, CollectedAfter(h.plan, h.arrivals[..j]), h.arrivals[j]);
    IndicesPush(h.arrivals, j);
  }

  lemma IdealCompletes(plan: Plan, got: Collected, a: Arrival)
    requires PlanOK(plan) && Fits(plan, a) && SeenOf(got, KeyOf(a)) != Below(CountOf(plan[KeyOf(a)]))
    ensures IdealStep(plan, got, a).1
         == if SeenOf(got, KeyOf(a)) + {a.index} == Below(CountOf(plan[KeyOf(a)]))
            then Complete(plan[KeyOf(a)].packet) else Incomplete
  {
    var seen := SeenOf(got, KeyOf(a));
    assert a.index in seen ==> seen + {a.index} == seen;
  }

  lemma IndicesPush(arrivals: seq<Arrival>, j: nat)
    requires j < |arrivals|
    ensures IndicesOf(arrivals[..j + 1], KeyOf(arrivals[j]))
      == IndicesOf(arrivals[..j], KeyOf(arrivals[j])) + {arrivals[j].index}
  {
    assert arrivals[..j + 1][..j] == arrivals[..j];
  }

  lemma {:induction false} FirstFull(arrivals: seq<Arrival>, key: string, full: set<nat>) returns (j: nat)
    requires full != {} && full <= IndicesOf(arrivals, key)
    ensures j < |arrivals| && KeyOf(arrivals[j]) == key
    ensures !(full <= IndicesOf(arrivals[..j], key)) && full <= IndicesOf(arrivals[..j + 1], key)
  {
    var n := |arrivals| - 1;
    assert n >= 0 && (!(full <= IndicesOf(arrivals[..n], key)) ==> KeyOf(arrivals[n]) == key);
    hide IndicesOf;
    if full <= IndicesOf(arrivals[..n], key) {
      j := FirstFull(arrivals[..n], key, full);
      assert arrivals[..n][..j] == arrivals[..j] && arrivals[..n][..j + 1] == arrivals[..j + 1];
    } else {
      j := n;
      assert arrivals[..n + 1] == arrivals;
    }
  }

  ghost predicate CompletesAt(h: Session, j: nat, key: string) {
    && j < |h.arrivals| == |h.answers| && key in h.plan
    && KeyOf(h.arrivals[j]) == key && h.answers[j] == Complete(h.plan[key].packet)
  }

  /** Once every fragment of a packet has arrived, some arrival has completed with its bytes. */
  lemma EveryPacketCompletes(h: Session, key: string)
    requires IsSession(h) && AtMostEightOpen(h) && key in h.plan
    requires IndicesOf(h.arrivals, key) == Below(CountOf(h.plan[key]))
    ensures exists j: nat :: CompletesAt(h, j, key)
  {
    var full := Below(CountOf(h.plan[key]));
    CountBounds(|h.plan[key].packet|, h.plan[key].d);
    assert 0 in full;
    hide IndicesOf, AllFit, AtMostEightOpen, ChunkCount, Below;
    var j := FirstFull(h.arrivals, key, full);
    SessionFits(h, j + 1);
    IndicesInRange(h.plan, h.arrivals[..j + 1], key);
    SplitThenReassemble(h, j, key);
    assert CompletesAt(h, j, key);
  }
}
