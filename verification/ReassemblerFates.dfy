/** Which groups of the reassembler are opened and closed by a call, exactly, and what a call is answered. */
module ReassemblerFates {
  import opened Bytes
  import opened Collections
  import opened FragmentCodec
  import opened Reassembler
  import opened ReassemblerRuns

  // Answers ----------------------------------------------------------------------------------------------------

  /** The fragment agrees with the group it would join, if that is open. */
  predicate Agrees(t: Table, key: string, h: FragmentHeader) {
    key in t.groups ==> t.groups[key].totalFragments == h.totalFragments && t.groups[key].v6aLength == h.v6aLength
  }

  /** The group with the arriving chunk. */
  function Joined(t: Table, key: string, h: FragmentHeader, payload: seq<byte>): map<nat, seq<byte>> {
    if h.fragmentIndex in StoredChunks(t, key) then StoredChunks(t, key)
    else StoredChunks(t, key)[h.fragmentIndex := payload]
  }

  /** How many bytes there are then. */
  function BytesOf(t: Table, key: string, h: FragmentHeader, payload: seq<byte>): nat {
    |Assemble(Joined(t, key, h, payload), h.totalFragments)|
  }

  /**
   * The answer to a fragment: an error exactly if its header is invalid or contradicts the open group,
   * or if its new chunk makes the group exceed the announced length or full without reaching it;
   * complete exactly if its new chunk makes the group full and of that length.
   */
  lemma AnswersExactly(t: Table, sourceId: string, h: FragmentHeader, payload: seq<byte>, now: int)
    requires TableOK(t)
    ensures var key := MakeGroupKey(sourceId, h.groupId);
      var n, full := BytesOf(t, key, h, payload), Joined(t, key, h, payload).Keys == Below(h.totalFragments);
      var answer := AddFragmentTo(t, sourceId, h, payload, now).1;
      var valid := AcceptableHeader(h) && Agrees(t, key, h);
      && (answer.Error? <==> !valid || (h.fragmentIndex !in StoredChunks(t, key)
                                        && (n > h.v6aLength || (full && n != h.v6aLength))))
      && (answer.Complete? <==> valid && h.fragmentIndex !in StoredChunks(t, key) && full && n == h.v6aLength)
  {
    if AcceptableHeader(h) {
      var key := MakeGroupKey(sourceId, h.groupId);
      OpenedChunks(t, key, sourceId, h, now);
      OpenedOK(t, key, sourceId, h, now);
      OpenedAgrees(t, key, sourceId, h, now);
      AcceptAnswers(Opened(t, key, sourceId, h, now), key, h, payload, now);
      hide TableOK, Opened, Accept;
    }
  }

  lemma OpenedAgrees(t: Table, key: string, sourceId: string, h: FragmentHeader, now: int)
    ensures key in Opened(t, key, sourceId, h, now).groups
    ensures Agrees(Opened(t, key, sourceId, h, now), key, h) <==> Agrees(t, key, h)
  {
    hide AbortOldest;
  }

  lemma AcceptAnswers(t: Table, key: string, h: FragmentHeader, payload: seq<byte>, now: int)
    requires TableOK(t) && key in t.groups && AcceptableHeader(h)
    ensures var n, full := BytesOf(t, key, h, payload), Joined(t, key, h, payload).Keys == Below(h.totalFragments);
      var (t', answer) := Accept(t, key, h, payload, now);
      && (answer.Error? <==> !Agrees(t, key, h) || (h.fragmentIndex !in StoredChunks(t, key)
                                                    && (n > h.v6aLength || (full && n != h.v6aLength))))
      && (answer.Complete? <==>
            Agrees(t, key, h) && h.fragmentIndex !in StoredChunks(t, key) && full && n == h.v6aLength)
      && (key in t'.groups <==> answer.Incomplete?)
      && (answer.Incomplete? ==> StoredChunks(t', key) == Joined(t, key, h, payload)
                                 && t'.groups[key] == t.groups[key].(
                                      fragments := t'.groups[key].fragments,
                                      receivedCount := t'.groups[key].receivedCount, lastActivityAt := now))
  {
    assert GroupOK(t, key);
    hide TableOK, Assemble, Put, Remove, Below;
    var f, i := t.groups[key].fragments, h.fragmentIndex;
    if Agrees(t, key, h) && i !in f {
      AssembleAdd(f, h.totalFragments, i, payload);
      OneMoreChunk(f, h.totalFragments, i, payload);
    }
    InTable(t, key);
  }

  lemma OneMoreChunk(f: map<nat, seq<byte>>, n: nat, i: nat, payload: seq<byte>)
    requires f.Keys <= Below(n) && i in Below(n) && i !in f
    ensures |f[i := payload]| == |f| + 1
    ensures |f| + 1 == n <==> f[i := payload].Keys == Below(n)
  {
    BelowSize(n);
    assert f[i := payload].Keys == f.Keys + {i};
    assert |f[i := payload]| == |f[i := payload].Keys| && |f| == |f.Keys|;
    SubsetSize(f.Keys + {i}, Below(n));
    if f.Keys + {i} != Below(n) {
      var x :| x in Below(n) && x !in f.Keys + {i};
      SubsetSize(f.Keys + {i} + {x}, Below(n));
    }
  }

  lemma InTable(t: Table, key: string)
    ensures key !in Remove(t, key).groups
    ensures forall s :: key in Put(t, key, s).groups && Put(t, key, s).groups[key] == s
  {
  }

  // Closings -----------------------------------------------------------------------------------------------------

  function TimeOf(groups: map<string, FragmentState>, key: string): int {
    if key in groups then groups[key].createdAt else 0
  }

  /** Position i has the first of the groups with the least creation time. */
  ghost predicate FirstOldest(order: seq<string>, groups: map<string, FragmentState>, i: nat) {
    && i < |order|
    && (forall j :: 0 <= j < i ==> TimeOf(groups, order[j]) > TimeOf(groups, order[i]))
    && (forall j :: i < j < |order| ==> TimeOf(groups, order[j]) >= TimeOf(groups, order[i]))
  }

  lemma {:induction false} OldestIsFirst(order: seq<string>, groups: map<string, FragmentState>) returns (i: nat)
    requires order != [] && forall x :: x in order ==> x in groups
    ensures FirstOldest(order, groups, i) && order[i] == Oldest(order, groups)
  {
    var n := |order| - 1;
    i := 0;
    if n > 0 {
      i := OldestIsFirst(order[..n], groups);
      LastOldest(order, groups, i);
      if TimeOf(groups, order[n]) < TimeOf(groups, order[i]) { i := n; }
    }
  }

  lemma OneFirst(order: seq<string>, groups: map<string, FragmentState>, i: nat, j: nat)
    requires FirstOldest(order, groups, i) && FirstOldest(order, groups, j)
    ensures i == j
  {
    var a, b := TimeOf(groups, order[i]), TimeOf(groups, order[j]);
    assert i < j ==> a > b;
  }

  lemma LastOldest(order: seq<string>, groups: map<string, FragmentState>, i: nat)
    requires order != [] && FirstOldest(order[..|order| - 1], groups, i)
    ensures var n := |order| - 1;
      FirstOldest(order, groups, if TimeOf(groups, order[n]) < TimeOf(groups, order[i]) then n else i)
  {
    assert forall j :: 0 <= j < |order| - 1 ==> order[..|order| - 1][j] == order[j];
    hide TimeOf;
  }

  /** Of the groups opened first among those with the least creation time there is one. */
  ghost predicate IsOldest(t: Table, key: string) {
    exists i: nat :: FirstOldest(t.order, t.groups, i) && t.order[i] == key
  }

  function EldestOf(t: Table): string
    requires t.order != [] && forall x :: x in t.order ==> x in t.groups
  {
    Oldest(t.order, t.groups)
  }

  lemma InOrder(t: Table)
    requires Ordered(t)
    ensures forall x :: x in t.order <==> x in t.groups
    ensures t.groups != map[] ==> t.order != []
  {
    assert forall x :: x in t.order <==> x in Elements(t.order);
    if t.groups != map[] {
      var k :| k in t.groups;
      assert k in t.order;
    }
  }

  lemma OneOldest(t: Table, key: string)
    requires Ordered(t) && t.order != [] && forall x :: x in t.order ==> x in t.groups
    ensures AbortOldest(t).groups.Keys == t.groups.Keys - {EldestOf(t)}
    ensures IsOldest(t, key) <==> key == EldestOf(t)
  {
    InOrder(t);
    RemoveOK(t, EldestOf(t));
    hide Ordered, Remove, TimeOf;
    var i := OldestIsFirst(t.order, t.groups);
    if IsOldest(t, key) {
      var j: nat :| FirstOldest(t.order, t.groups, j) && t.order[j] == key;
      OneFirst(t.order, t.groups, i, j);
    }
  }

  /** The call closes the group of key. */
  ghost predicate Closes(t: Table, c: Call, key: string)
    requires key in t.groups
  {
    match c
    case Expire(now) => now - t.groups[key].createdAt > GROUP_EXPIRY_MS
    case Forget(sourceId) => t.groups[key].sourceId == sourceId
    case Add(sourceId, h, payload, now) =>
      var own := MakeGroupKey(sourceId, h.groupId);
      && AcceptableHeader(h)
      && if key == own then !Effect(t, c).1.Incomplete?
         else own !in t.groups && |t.groups| == MAX_CONCURRENT_GROUPS && IsOldest(t, key)
  }

  lemma OpenedKeys(t: Table, own: string, sourceId: string, h: FragmentHeader, now: int, key: string)
    requires TableOK(t) && key in t.groups
    ensures key !in Opened(t, own, sourceId, h, now).groups <==>
      key != own && own !in t.groups && |t.groups| == MAX_CONCURRENT_GROUPS && IsOldest(t, key)
  {
    InOrder(t);
    OneOldest(t, key);
    hide IsOldest, AbortOldest, NewState;
  }

  lemma AddCloses(t: Table, sourceId: string, h: FragmentHeader, payload: seq<byte>, now: int, key: string)
    requires TableOK(t) && key in t.groups
    ensures key !in AddFragmentTo(t, sourceId, h, payload, now).0.groups <==>
      Closes(t, Add(sourceId, h, payload, now), key)
  {
    if AcceptableHeader(h) {
      var own := MakeGroupKey(sourceId, h.groupId);
      OpenedKeys(t, own, sourceId, h, now, key);
      OpenedOK(t, own, sourceId, h, now);
      AcceptAnswers(Opened(t, own, sourceId, h, now), own, h, payload, now);
      AcceptFirstWins(Opened(t, own, sourceId, h, now), own, h, payload, now);
    }
    hide TableOK, Opened, Accept, IsOldest, Agrees, Joined, BytesOf;
  }

  /**
   * A call closes exactly these groups: cleanup those opened more than 30 seconds ago, a reset those of
   * its source, a fragment its own group when that completes or fails, and, when it opens a ninth group,
   * the first opened of the oldest ones.
   */
  lemma ClosesExactly(t: Table, c: Call, key: string)
    requires TableOK(t) && key in t.groups
    ensures key !in Effect(t, c).0.groups <==> Closes(t, c, key)
  {
    if c.Add? { AddCloses(t, c.sourceId, c.header, c.payload, c.now, key); }
    hide AddFragmentTo, TableOK, IsOldest;
  }

  /** A group that a call leaves open is as it was, unless the call brings a fragment of it. */
  lemma OthersAsBefore(t: Table, c: Call, key: string)
    requires TableOK(t) && key in t.groups && key in Effect(t, c).0.groups
    ensures (c.Add? ==> key != MakeGroupKey(c.sourceId, c.header.groupId)) ==>
      Effect(t, c).0.groups[key] == t.groups[key]
    ensures Effect(t, c).0.groups[key].createdAt == t.groups[key].createdAt
    ensures Effect(t, c).0.groups[key].sourceId == t.groups[key].sourceId
  {
    if c.Add? && AcceptableHeader(c.header) {
      var own := MakeGroupKey(c.sourceId, c.header.groupId);
      var t1 := Opened(t, own, c.sourceId, c.header, c.now);
      OpenedChunks(t, own, c.sourceId, c.header, c.now);
      OpenedOK(t, own, c.sourceId, c.header, c.now);
      AcceptAnswers(t1, own, c.header, c.payload, c.now);
      AcceptFirstWins(t1, own, c.header, c.payload, c.now);
      hide TableOK, AbortOldest, Accept, Agrees, Joined, BytesOf;
    }
  }

  /** A group that a call opens is that of its fragment, opened now, with the fragment's chunk. */
  lemma OpensExactly(t: Table, c: Call, key: string)
    requires TableOK(t) && key !in t.groups && key in Effect(t, c).0.groups
    ensures c.Add? && key == MakeGroupKey(c.sourceId, c.header.groupId)
    ensures var s := Effect(t, c).0.groups[key];
      && s.createdAt == c.now && s.sourceId == c.sourceId && s.groupId == c.header.groupId
      && s.totalFragments == c.header.totalFragments && s.v6aLength == c.header.v6aLength
      && s.fragments == map[c.header.fragmentIndex := c.payload]
  {
    assert c.Add?;
    if AcceptableHeader(c.header) {
      var own := MakeGroupKey(c.sourceId, c.header.groupId);
      var t1 := Opened(t, own, c.sourceId, c.header, c.now);
      OpenedChunks(t, own, c.sourceId, c.header, c.now);
      OpenedOK(t, own, c.sourceId, c.header, c.now);
      AcceptAnswers(t1, own, c.header, c.payload, c.now);
      AcceptFirstWins(t1, own, c.header, c.payload, c.now);
      hide TableOK, AbortOldest, Accept, Agrees, BytesOf;
    }
  }

  // Over runs ------------------------------------------------------------------------------------------------------

  /** Call j opens the group, which then stays open up to point k. */
  ghost predicate OpenSince(h: History, j: nat, k: nat, key: string) {
    j < |h.tables| && key !in h.tables[j].groups && OpenBetween(h, j + 1, k, key)
  }

  /** In every run a group was created when the fragment that opened it came, by the source that sent it. */
  lemma {:induction false} AgeIsKept(h: History, j: nat, k: nat, key: string)
    requires IsRun(h) && OpenSince(h, j, k, key)
    ensures j < |h.calls| && h.calls[j].Add? && k < |h.tables| && key in h.tables[k].groups
    ensures h.tables[k].groups[key].createdAt == h.calls[j].now
    ensures h.tables[k].groups[key].sourceId == h.calls[j].sourceId
    decreases k
  {
    hide Effect, TableOK;
    assert OpenAt(h, k, key);
    RunOK(h, k - 1);
    assert Moves(h, k - 1);
    var t, c := h.tables[k - 1], h.calls[k - 1];
    if k == j + 1 {
      OpensExactly(t, c, key);
    } else {
      AgeIsKept(h, j, k - 1, key);
      OthersAsBefore(t, c, key);
    }
  }

  /** So cleanup closes exactly the groups whose first fragment came more than 30 seconds earlier. */
  lemma ExpiresExactly(h: History, j: nat, k: nat, key: string)
    requires IsRun(h) && OpenSince(h, j, k, key) && k < |h.calls| && h.calls[k].Expire?
    ensures j < |h.calls| && h.calls[j].Add?
    ensures key in h.tables[k + 1].groups <==> h.calls[k].now - h.calls[j].now <= GROUP_EXPIRY_MS
  {
    AgeIsKept(h, j, k, key);
    RunOK(h, k);
    assert Moves(h, k);
    hide IsRun, TableOK, OpenSince;
    ClosesExactly(h.tables[k], h.calls[k], key);
  }

  /** And a reset closes exactly the groups that fragments of its source have opened. */
  lemma ForgetsExactly(h: History, j: nat, k: nat, key: string)
    requires IsRun(h) && OpenSince(h, j, k, key) && k < |h.calls| && h.calls[k].Forget?
    ensures j < |h.calls| && h.calls[j].Add?
    ensures key in h.tables[k + 1].groups <==> h.calls[j].sourceId != h.calls[k].sourceId
  {
    AgeIsKept(h, j, k, key);
    RunOK(h, k);
    assert Moves(h, k);
    hide IsRun, TableOK, OpenSince;
    ClosesExactly(h.tables[k], h.calls[k], key);
  }
}
