/** What the reassembler guarantees in every run on arbitrary fragments, genuine or not. */
module ReassemblerRuns {
  import opened Bytes
  import opened Collections
  import opened FragmentCodec
  import opened Reassembler

  /** A fragment arrives, or groups are dropped: the expired ones, or those of one source. */
  datatype Call =
    | Add(sourceId: string, header: FragmentHeader, payload: seq<byte>, now: int)
    | Expire(now: int)
    | Forget(sourceId: string)

  /** A history of the reassembler: calls[k] takes tables[k] to tables[k + 1] and answers answers[k]. */
  datatype History = History(tables: seq<Table>, calls: seq<Call>, answers: seq<ReassemblyResult>)

  function Effect(t: Table, c: Call): (Table, ReassemblyResult) {
    match c
    case Add(sourceId, h, payload, now) => AddFragmentTo(t, sourceId, h, payload, now)
    case Expire(now) => (Restrict(t, Unexpired(t, now)), Incomplete)
    case Forget(sourceId) => (Restrict(t, GroupsNotOf(t, sourceId)), Incomplete)
  }

  ghost predicate Moves(h: History, k: nat) {
    && k < |h.calls| == |h.answers| && |h.tables| == |h.calls| + 1
    && (h.tables[k + 1], h.answers[k]) == Effect(h.tables[k], h.calls[k])
  }

  ghost predicate IsRun(h: History) {
    && |h.calls| == |h.answers| && |h.tables| == |h.calls| + 1 && h.tables[0] == EMPTY_TABLE
    && forall k: nat :: k < |h.calls| ==> Moves(h, k)
  }

  lemma EffectOK(t: Table, c: Call)
    requires TableOK(t)
    ensures TableOK(Effect(t, c).0)
  {
    hide TableOK, AddFragmentTo, Restrict, Unexpired;
    match c
    case Add(sourceId, h, payload, now) => AddFragmentKeepsTable(t, sourceId, h, payload, now);
    case Expire(now) => RestrictKeepsTable(t, Unexpired(t, now));
    case Forget(sourceId) => RestrictKeepsTable(t, GroupsNotOf(t, sourceId));
  }

  lemma {:induction false} RunOK(h: History, k: nat)
    requires IsRun(h) && k < |h.tables|
    ensures TableOK(h.tables[k])
  {
    hide Effect;
    if k > 0 {
      RunOK(h, k - 1);
      assert Moves(h, k - 1);
      EffectOK(h.tables[k - 1], h.calls[k - 1]);
    }
  }

  /**
   * At every point of every run at most eight groups are open, each under its own key, not yet full,
   * with as many chunks as it counts, under indices in range, and no more bytes than announced.
   */
  lemma AlwaysBounded(h: History, k: nat)
    requires IsRun(h) && k < |h.tables|
    ensures var t := h.tables[k];
      && |t.groups| <= MAX_CONCURRENT_GROUPS
      && forall key :: key in t.groups ==>
           var s := t.groups[key];
           && key == MakeGroupKey(s.sourceId, s.groupId)
           && s.receivedCount == |s.fragments| < s.totalFragments <= MAX_FRAGMENTS
           && s.fragments.Keys <= Below(s.totalFragments)
           && |Assemble(s.fragments, s.totalFragments)| <= s.v6aLength
  {
    RunOK(h, k);
    hide IsRun;
    forall key | key in h.tables[k].groups
      ensures StateOK(key, h.tables[k].groups[key])
    {
      assert GroupOK(h.tables[k], key);
    }
  }

  /** The call delivers chunk `payload` as the last missing one of a group, which is then closed. */
  ghost predicate Completes(t: Table, c: Call, t': Table, packet: seq<byte>) {
    && c.Add?
    && var key, i, n := MakeGroupKey(c.sourceId, c.header.groupId), c.header.fragmentIndex, c.header.totalFragments;
       var f := StoredChunks(t, key);
       && i !in f && f.Keys + {i} == Below(n)
       && packet == Assemble(f[i := c.payload], n) && |packet| == c.header.v6aLength
       && key !in t'.groups
  }

  /**
   * Every "complete" answer of every run is the index-ordered concatenation of the chunks stored
   * under one key and the arriving one, of exactly the announced length, and closes that key.
   */
  lemma CompleteAnswersAreWhole(h: History, k: nat)
    requires IsRun(h) && k < |h.calls| && h.answers[k].Complete?
    ensures Completes(h.tables[k], h.calls[k], h.tables[k + 1], h.answers[k].v6aPacket)
  {
    RunOK(h, k);
    assert Moves(h, k);
    hide IsRun, TableOK, AddFragmentTo;
    var c := h.calls[k];
    assert c.Add?;
    CompleteIsConcatenation(h.tables[k], c.sourceId, c.header, c.payload, c.now);
  }

  lemma EffectKeepsChunks(t: Table, c: Call, key: string)
    requires TableOK(t) && key in Effect(t, c).0.groups
    ensures forall i :: i in StoredChunks(t, key) ==>
      i in StoredChunks(Effect(t, c).0, key) && StoredChunks(Effect(t, c).0, key)[i] == StoredChunks(t, key)[i]
  {
    if c.Add? {
      FirstChunkWins(t, c.sourceId, c.header, c.payload, c.now, key);
    }
    hide TableOK, AddFragmentTo;
  }

  /** The key stays open from point j up to point k. */
  ghost predicate OpenBetween(h: History, j: nat, k: nat, key: string) {
    j <= k < |h.tables| && forall m: nat :: j <= m <= k ==> OpenAt(h, m, key)
  }

  ghost predicate OpenAt(h: History, k: nat, key: string) {
    k < |h.tables| && key in h.tables[k].groups
  }

  /** The first chunk accepted under an index stays as long as its group does. */
  lemma {:induction false} FirstChunkStays(h: History, j: nat, k: nat, key: string, i: nat)
    requires IsRun(h) && OpenBetween(h, j, k, key) && i in StoredChunks(h.tables[j], key)
    ensures i in StoredChunks(h.tables[k], key)
      && StoredChunks(h.tables[k], key)[i] == StoredChunks(h.tables[j], key)[i]
  {
    hide Effect, TableOK;
    if j < k {
      assert OpenAt(h, k, key) && OpenAt(h, k - 1, key);
      FirstChunkStays(h, j, k - 1, key, i);
      RunOK(h, k - 1);
      assert Moves(h, k - 1);
      EffectKeepsChunks(h.tables[k - 1], h.calls[k - 1], key);
    }
  }
}
