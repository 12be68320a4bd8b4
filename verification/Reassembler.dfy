/**
 * The V7 reassembler: at most eight open groups, each collecting the chunks of one packet in any
 * order.
 *
 * The functions describe one call on a table value; the class is the implementation. A table keeps
 * its keys in insertion order, as the map of the implementation does, because the oldest group is
 * aborted when a ninth would have to be opened.
 */
module Reassembler {
  import opened Bytes
  import opened Collections
  import opened FragmentCodec

  const MAX_CONCURRENT_GROUPS := 8
  const GROUP_EXPIRY_MS := 30000
  const MAX_GROUP_KEY_LENGTH := 128

  datatype FragmentState = FragmentState(
    sourceId: string, groupId: nat, totalFragments: nat, v6aLength: nat,
    fragments: map<nat, seq<byte>>, receivedCount: nat, createdAt: int, lastActivityAt: int)

  datatype ReassemblyResult = Incomplete | Complete(v6aPacket: seq<byte>) | Error(reason: string)

  /** An insertion-ordered map: `order` lists the keys of `groups` as they were first set. */
  datatype Table = Table(groups: map<string, FragmentState>, order: seq<string>)

  const EMPTY_TABLE := Table(map[], [])

  function Decimal(n: nat): string {
    if n < 10 then ["0123456789"[n]] else Decimal(n / 10) + ["0123456789"[n % 10]]
  }

  function SafeSource(sourceId: string): string {
    if |sourceId| > MAX_GROUP_KEY_LENGTH then sourceId[..MAX_GROUP_KEY_LENGTH] else sourceId
  }

  function MakeGroupKey(sourceId: string, groupId: nat): string {
    SafeSource(sourceId) + ":" + Decimal(groupId)
  }

  /** The stored chunks below n, joined in index order. */
  function Assemble(fragments: map<nat, seq<byte>>, n: nat): seq<byte> {
    if n == 0 then []
    else Assemble(fragments, n - 1) + (if n - 1 in fragments then fragments[n - 1] else [])
  }

  function FilterKeys(order: seq<string>, keep: set<string>): seq<string> {
    if order == [] then []
    else
      var last := order[|order| - 1];
      FilterKeys(order[..|order| - 1], keep) + (if last in keep then [last] else [])
  }

  /** Only the groups whose key is in keep. */
  function Restrict(t: Table, keep: set<string>): Table {
    Table(map k | k in t.groups && k in keep :: t.groups[k], FilterKeys(t.order, keep))
  }

  function Remove(t: Table, key: string): Table {
    Restrict(t, t.groups.Keys - {key})
  }

  function Put(t: Table, key: string, state: FragmentState): Table {
    Table(t.groups[key := state], if key in t.groups then t.order else t.order + [key])
  }

  /** The first key, in insertion order, whose group has the least creation time. */
  function Oldest(order: seq<string>, groups: map<string, FragmentState>): (k: string)
    requires order != [] && forall x :: x in order ==> x in groups
    ensures k in order && forall x :: x in order ==> groups[k].createdAt <= groups[x].createdAt
  {
    var last := order[|order| - 1];
    if |order| == 1 then last
    else
      var best := Oldest(order[..|order| - 1], groups);
      if groups[last].createdAt < groups[best].createdAt then last else best
  }

  predicate AcceptableHeader(h: FragmentHeader) {
    && 1 <= h.totalFragments <= MAX_FRAGMENTS
    && h.fragmentIndex < h.totalFragments
    && 1 <= h.v6aLength <= MAX_V6A_LENGTH
  }

  function NewState(sourceId: string, h: FragmentHeader, now: int): FragmentState {
    FragmentState(sourceId, h.groupId, h.totalFragments, h.v6aLength, map[], 0, now, now)
  }

  /** Room for one more group: the oldest one is dropped when eight are open. */
  function AbortOldest(t: Table): Table {
    if t.order != [] && forall x :: x in t.order ==> x in t.groups then Remove(t, Oldest(t.order, t.groups)) else t
  }

  /** The table in which the fragment's own group is open. */
  function Opened(t: Table, key: string, sourceId: string, h: FragmentHeader, now: int): Table {
    if key in t.groups then t
    else
      var room := if |t.groups| >= MAX_CONCURRENT_GROUPS then AbortOldest(t) else t;
      Put(room, key, NewState(sourceId, h, now))
  }

  function Stored(state: FragmentState, index: nat, payload: seq<byte>, now: int): FragmentState {
    state.(fragments := state.fragments[index := payload],
           receivedCount := state.receivedCount + 1,
           lastActivityAt := now)
  }

  function Finish(state: FragmentState): ReassemblyResult {
    var packet := Assemble(state.fragments, state.totalFragments);
    if |packet| == state.v6aLength then Complete(packet) else Error("Byte sum mismatch")
  }

  /** The open group takes the fragment, or is given up. */
  function Accept(t: Table, key: string, h: FragmentHeader, payload: seq<byte>, now: int): (Table, ReassemblyResult)
    requires key in t.groups
  {
    var state := t.groups[key];
    if state.totalFragments != h.totalFragments then (Remove(t, key), Error("Conflicting totalFragments"))
    else if state.v6aLength != h.v6aLength then (Remove(t, key), Error("Conflicting v6aLength"))
    else if h.fragmentIndex in state.fragments then (Put(t, key, state.(lastActivityAt := now)), Incomplete)
    else if |Assemble(state.fragments, state.totalFragments)| + |payload| > state.v6aLength then
      (Remove(t, key), Error("Cumulative bytes exceed v6aLength"))
    else
      var state' := Stored(state, h.fragmentIndex, payload, now);
      if state'.receivedCount == state'.totalFragments then (Remove(t, key), Finish(state'))
      else (Put(t, key, state'), Incomplete)
  }

  function AddFragmentTo(t: Table, sourceId: string, h: FragmentHeader, payload: seq<byte>, now: int): (Table,
        ReassemblyResult)
  {
    if !AcceptableHeader(h) then (t, Error("Invalid header"))
    else
      var key := MakeGroupKey(sourceId, h.groupId);
      Accept(Opened(t, key, sourceId, h, now), key, h, payload, now)
  }

  /** The groups that cleanup keeps at time now. */
  function Unexpired(t: Table, now: int): set<string> {
    set k | k in t.groups && now - t.groups[k].createdAt <= GROUP_EXPIRY_MS
  }

  /** The groups that do not belong to a source. */
  function GroupsNotOf(t: Table, sourceId: string): set<string> {
    set k | k in t.groups && t.groups[k].sourceId != sourceId
  }

  // Invariant ------------------------------------------------------------------------------

  ghost predicate StateOK(key: string, s: FragmentState) {
    && key == MakeGroupKey(s.sourceId, s.groupId)
    && 1 <= s.totalFragments <= MAX_FRAGMENTS
    && 1 <= s.v6aLength <= MAX_V6A_LENGTH
    && s.fragments.Keys <= Below(s.totalFragments)
    && s.receivedCount == |s.fragments| < s.totalFragments
    && |Assemble(s.fragments, s.totalFragments)| <= s.v6aLength
  }

  ghost predicate Ordered(t: Table) {
    Distinct(t.order) && Elements(t.order) == t.groups.Keys
  }

  ghost predicate GroupOK(t: Table, key: string) {
    key in t.groups && StateOK(key, t.groups[key])
  }

  ghost predicate TableOK(t: Table) {
    && Ordered(t)
    && |t.groups| <= MAX_CONCURRENT_GROUPS
    && forall k {:trigger GroupOK(t, k)} :: k in t.groups ==> GroupOK(t, k)
  }

  // Key injectivity --------------------------------------------------------------------------

  lemma {:induction false} DecimalDigits(n: nat)
    ensures Decimal(n) != "" && ':' !in Decimal(n)
  {
    if n >= 10 {
      DecimalDigits(n / 10);
    }
  }

  lemma DigitInjective(a: nat, b: nat)
    requires a < 10 && b < 10 && "0123456789"[a] == "0123456789"[b]
    ensures a == b
  {
  }

  lemma {:induction false} DecimalInjective(a: nat, b: nat)
    requires Decimal(a) == Decimal(b)
    ensures a == b
  {
    var s, t := Decimal(a), Decimal(b);
    DecimalDigits(a / 10);
    DecimalDigits(b / 10);
    assert s[|s| - 1] == "0123456789"[a % 10] && t[|t| - 1] == "0123456789"[b % 10];
    DigitInjective(a % 10, b % 10);
    if a >= 10 && b >= 10 {
      assert s[..|s| - 1] == Decimal(a / 10) && t[..|t| - 1] == Decimal(b / 10);
      DecimalInjective(a / 10, b / 10);
    }
  }

  /** The part after the last colon is the group id, so keys split only one way. */
  lemma SplitAtLastColon(s: string, d: string, s': string, d': string)
    requires ':' !in d && ':' !in d' && s + ":" + d == s' + ":" + d'
    ensures s == s' && d == d'
  {
    var x := s + ":" + d;
    assert x[|s|] == ':' && x[|s'|] == ':';
    forall k | |s| < k < |x|
      ensures x[k] != ':'
    {
      assert x[k] == d[k - |s| - 1];
    }
    forall k | |s'| < k < |x|
      ensures x[k] != ':'
    {
      assert x[k] == d'[k - |s'| - 1];
    }
    assert s == x[..|s|] && d == x[|s| + 1..];
  }

  /**
   * Two fragments share a group exactly when their group ids agree and so do the first 128
   * characters of their sources: sources of at most 128 characters never collide.
   */
  lemma GroupKeyInjective(s: string, g: nat, s': string, g': nat)
    ensures MakeGroupKey(s, g) == MakeGroupKey(s', g') <==> SafeSource(s) == SafeSource(s') && g == g'
  {
    DecimalDigits(g);
    DecimalDigits(g');
    if MakeGroupKey(s, g) == MakeGroupKey(s', g') {
      SplitAtLastColon(SafeSource(s), Decimal(g), SafeSource(s'), Decimal(g'));
      DecimalInjective(g, g');
    }
  }

  // Order bookkeeping ------------------------------------------------------------------------

  lemma {:induction false} FilterMembers(order: seq<string>, keep: set<string>, x: string)
    ensures x in FilterKeys(order, keep) <==> x in order && x in keep
  {
    if order != [] {
      var init, last := order[..|order| - 1], order[|order| - 1];
      FilterMembers(init, keep, x);
      assert order == init + [last];
    }
  }

  lemma {:induction false} FilterKeysOK(order: seq<string>, keep: set<string>)
    requires Distinct(order)
    ensures Distinct(FilterKeys(order, keep))
    ensures Elements(FilterKeys(order, keep)) == Elements(order) * keep
  {
    forall x ensures x in FilterKeys(order, keep) <==> x in order && x in keep {
      FilterMembers(order, keep, x);
    }
    if order != [] {
      var init, last := order[..|order| - 1], order[|order| - 1];
      FilterKeysOK(init, keep);
      FilterMembers(init, keep, last);
    }
  }

  lemma {:induction false} FilterTwice(order: seq<string>, a: set<string>, b: set<string>)
    ensures FilterKeys(FilterKeys(order, a), b) == FilterKeys(order, a * b)
  {
    if order != [] {
      var init, last := order[..|order| - 1], order[|order| - 1];
      FilterTwice(init, a, b);
      var f := FilterKeys(init, a);
      if last in a {
        assert (f + [last])[..|f|] == f;
      } else {
        assert f + [] == f;
      }
      assert FilterKeys(init, a * b) + [] == FilterKeys(init, a * b);
    }
  }

  lemma RestrictTwice(t: Table, a: set<string>, b: set<string>)
    ensures Restrict(Restrict(t, a), b) == Restrict(t, a * b)
  {
    FilterTwice(t.order, a, b);
  }

  lemma {:induction false} FilterAll(order: seq<string>, keep: set<string>)
    requires forall x :: x in order ==> x in keep
    ensures FilterKeys(order, keep) == order
  {
    if order != [] {
      FilterAll(order[..|order| - 1], keep);
    }
  }

  lemma RestrictOK(t: Table, keep: set<string>)
    requires Ordered(t)
    ensures Ordered(Restrict(t, keep))
    ensures Restrict(t, keep).groups.Keys == t.groups.Keys * keep
    ensures |Restrict(t, keep).groups| <= |t.groups|
  {
    FilterKeysOK(t.order, keep);
    SubsetSize(Restrict(t, keep).groups.Keys, t.groups.Keys);
  }

  lemma SubtableOK(t: Table, t': Table)
    requires TableOK(t) && Ordered(t') && |t'.groups| <= MAX_CONCURRENT_GROUPS
    requires forall k :: k in t'.groups ==> k in t.groups && t'.groups[k] == t.groups[k]
    ensures TableOK(t')
  {
    hide StateOK, Ordered;
    forall k | k in t'.groups
      ensures GroupOK(t', k)
    {
      assert GroupOK(t, k);
    }
  }

  lemma RestrictKeepsTable(t: Table, keep: set<string>)
    requires TableOK(t)
    ensures TableOK(Restrict(t, keep))
  {
    RestrictOK(t, keep);
    SubtableOK(t, Restrict(t, keep));
  }

  lemma RemoveOK(t: Table, key: string)
    requires Ordered(t) && key in t.groups
    ensures Ordered(Remove(t, key))
    ensures Remove(t, key).groups.Keys == t.groups.Keys - {key}
    ensures |Remove(t, key).groups| == |t.groups| - 1
  {
    RestrictOK(t, t.groups.Keys - {key});
    assert |Remove(t, key).groups| == |Remove(t, key).groups.Keys|;
    assert |t.groups| == |t.groups.Keys|;
  }

  lemma PutOK(t: Table, key: string, state: FragmentState)
    requires Ordered(t)
    ensures Ordered(Put(t, key, state))
    ensures Put(t, key, state).groups.Keys == t.groups.Keys + {key}
    ensures |Put(t, key, state).groups| == |t.groups| + if key in t.groups then 0 else 1
  {
    assert |Put(t, key, state).groups| == |Put(t, key, state).groups.Keys|;
    assert |t.groups| == |t.groups.Keys|;
    if key !in t.groups {
      assert key !in Elements(t.order);
      assert forall x :: x in t.order + [key] <==> x in t.order || x == key;
    } else {
      assert t.groups.Keys + {key} == t.groups.Keys;
    }
  }

  // Byte sums ----------------------------------------------------------------------------------

  lemma {:induction false} AssembleFrame(f: map<nat, seq<byte>>, n: nat, i: nat, c: seq<byte>)
    requires n <= i
    ensures Assemble(f[i := c], n) == Assemble(f, n)
  {
    if n > 0 {
      AssembleFrame(f, n - 1, i, c);
    }
  }

  /** Storing a chunk under a fresh index adds exactly its length to the byte sum. */
  lemma {:induction false} AssembleAdd(f: map<nat, seq<byte>>, n: nat, i: nat, c: seq<byte>)
    requires i < n && i !in f
    ensures |Assemble(f[i := c], n)| == |Assemble(f, n)| + |c|
  {
    if i == n - 1 {
      AssembleFrame(f, n - 1, i, c);
    } else {
      AssembleAdd(f, n - 1, i, c);
    }
  }

  // One call keeps the invariant ---------------------------------------------------------------

  lemma AbortOldestOK(t: Table)
    requires Ordered(t) && t.groups != map[]
    ensures Ordered(AbortOldest(t)) && |AbortOldest(t).groups| == |t.groups| - 1
    ensures forall k :: k in AbortOldest(t).groups ==> k in t.groups && AbortOldest(t).groups[k] == t.groups[k]
    ensures exists k :: k in t.groups && AbortOldest(t) == Remove(t, k)
              && forall x :: x in t.groups ==> t.groups[k].createdAt <= t.groups[x].createdAt
  {
    assert t.order != [] by {
      var k :| k in t.groups;
      assert k in Elements(t.order);
    }
    assert forall x :: x in t.order ==> x in Elements(t.order);
    var k := Oldest(t.order, t.groups);
    RemoveOK(t, k);
    forall x | x in t.groups
      ensures t.groups[k].createdAt <= t.groups[x].createdAt
    {
      assert x in Elements(t.order);
    }
  }

  lemma RemoveTableOK(t: Table, key: string)
    requires TableOK(t)
    ensures TableOK(Remove(t, key))
  {
    RestrictKeepsTable(t, t.groups.Keys - {key});
  }

  lemma PutTableOK(t: Table, key: string, state: FragmentState)
    requires TableOK(t) && StateOK(key, state)
    requires key in t.groups || |t.groups| < MAX_CONCURRENT_GROUPS
    ensures TableOK(Put(t, key, state))
  {
    hide StateOK;
    PutOK(t, key, state);
    hide Ordered;
    forall k | k in Put(t, key, state).groups
      ensures GroupOK(Put(t, key, state), k)
    {
      assert k != key ==> GroupOK(t, k);
    }
  }

  lemma RoomTableOK(t: Table)
    requires TableOK(t)
    ensures var room := if |t.groups| >= MAX_CONCURRENT_GROUPS then AbortOldest(t) else t;
      TableOK(room) && |room.groups| < MAX_CONCURRENT_GROUPS
      && forall k :: k in room.groups ==> k in t.groups && room.groups[k] == t.groups[k]
  {
    if |t.groups| >= MAX_CONCURRENT_GROUPS {
      assert t.groups != map[];
      AbortOldestOK(t);
      SubtableOK(t, AbortOldest(t));
    }
  }

  lemma NewStateOK(sourceId: string, h: FragmentHeader, now: int)
    requires AcceptableHeader(h)
    ensures StateOK(MakeGroupKey(sourceId, h.groupId), NewState(sourceId, h, now))
  {
    AssembleEmpty(h.totalFragments);
  }

  lemma OpenedOK(t: Table, key: string, sourceId: string, h: FragmentHeader, now: int)
    requires TableOK(t) && AcceptableHeader(h) && key == MakeGroupKey(sourceId, h.groupId)
    ensures TableOK(Opened(t, key, sourceId, h, now)) && key in Opened(t, key, sourceId, h, now).groups
  {
    if key !in t.groups {
      RoomTableOK(t);
      NewStateOK(sourceId, h, now);
      var room := if |t.groups| >= MAX_CONCURRENT_GROUPS then AbortOldest(t) else t;
      PutTableOK(room, key, NewState(sourceId, h, now));
    }
  }

  lemma {:induction false} AssembleEmpty(n: nat)
    ensures Assemble(map[], n) == []
  {
    if n > 0 { AssembleEmpty(n - 1); }
  }

  lemma StoredOK(key: string, s: FragmentState, i: nat, payload: seq<byte>, now: int)
    requires StateOK(key, s) && i < s.totalFragments && i !in s.fragments
    requires |Assemble(s.fragments, s.totalFragments)| + |payload| <= s.v6aLength
    ensures Stored(s, i, payload, now).receivedCount < s.totalFragments ==> StateOK(key, Stored(s, i, payload, now))
    ensures |Assemble(Stored(s, i, payload, now).fragments, s.totalFragments)| <= s.v6aLength
    ensures |Stored(s, i, payload, now).fragments| == s.receivedCount + 1 <= s.totalFragments
  {
    AssembleAdd(s.fragments, s.totalFragments, i, payload);
    var f := s.fragments[i := payload];
    assert f.Keys == s.fragments.Keys + {i};
    assert |f| == |f.Keys| && |s.fragments| == |s.fragments.Keys|;
  }

  lemma AcceptOK(t: Table, key: string, h: FragmentHeader, payload: seq<byte>, now: int)
    requires TableOK(t) && key in t.groups && AcceptableHeader(h)
    ensures TableOK(Accept(t, key, h, payload, now).0)
  {
    var state := t.groups[key];
    assert GroupOK(t, key);
    assert StateOK(key, state.(lastActivityAt := now));
    assert StateOK(key, state);
    hide TableOK, StateOK;
    RemoveTableOK(t, key);
    if state.totalFragments == h.totalFragments && state.v6aLength == h.v6aLength {
      if h.fragmentIndex in state.fragments {
        PutTableOK(t, key, state.(lastActivityAt := now));
      } else if |Assemble(state.fragments, state.totalFragments)| + |payload| <= state.v6aLength {
        StoredOK(key, state, h.fragmentIndex, payload, now);
        if Stored(state, h.fragmentIndex, payload, now).receivedCount != state.totalFragments {
          PutTableOK(t, key, Stored(state, h.fragmentIndex, payload, now));
        }
      }
    }
  }

  /** Whatever fragment arrives, the table keeps its bounds. */
  lemma AddFragmentKeepsTable(t: Table, sourceId: string, h: FragmentHeader, payload: seq<byte>, now: int)
    requires TableOK(t)
    ensures TableOK(AddFragmentTo(t, sourceId, h, payload, now).0)
  {
    if AcceptableHeader(h) {
      var key := MakeGroupKey(sourceId, h.groupId);
      OpenedOK(t, key, sourceId, h, now);
      AcceptOK(Opened(t, key, sourceId, h, now), key, h, payload, now);
    }
  }

  /** The chunks already stored under key. */
  function StoredChunks(t: Table, key: string): map<nat, seq<byte>> {
    if key in t.groups then t.groups[key].fragments else map[]
  }

  lemma OpenedChunks(t: Table, key: string, sourceId: string, h: FragmentHeader, now: int)
    requires TableOK(t)
    ensures key in Opened(t, key, sourceId, h, now).groups
    ensures StoredChunks(Opened(t, key, sourceId, h, now), key) == StoredChunks(t, key)
    ensures forall k :: k in Opened(t, key, sourceId, h, now).groups && k != key ==>
      k in t.groups && Opened(t, key, sourceId, h, now).groups[k] == t.groups[k]
  {
    hide TableOK;
    RoomTableOK(t);
    hide AbortOldest, NewState;
  }

  lemma AcceptComplete(t: Table, key: string, h: FragmentHeader, payload: seq<byte>, now: int)
    requires TableOK(t) && key in t.groups && h.fragmentIndex < h.totalFragments
    requires Accept(t, key, h, payload, now).1.Complete?
    ensures var f := StoredChunks(t, key);
      && h.fragmentIndex !in f
      && f.Keys + {h.fragmentIndex} == Below(h.totalFragments)
      && Accept(t, key, h, payload, now).1.v6aPacket == Assemble(f[h.fragmentIndex := payload], h.totalFragments)
      && |Accept(t, key, h, payload, now).1.v6aPacket| == h.v6aLength
    ensures key !in Accept(t, key, h, payload, now).0.groups
  {
    var state := t.groups[key];
    assert GroupOK(t, key);
    StoredOK(key, state, h.fragmentIndex, payload, now);
    var f := state.fragments[h.fragmentIndex := payload];
    assert f.Keys == state.fragments.Keys + {h.fragmentIndex};
    BelowSize(h.totalFragments);
    assert |f| == |f.Keys|;
    SubsetSize(f.Keys, Below(h.totalFragments));
  }

  /**
   * A complete result is the index-ordered concatenation of the chunks already stored for that
   * key together with the arriving one, and its length is the announced one.
   */
  lemma CompleteIsConcatenation(t: Table, sourceId: string, h: FragmentHeader, payload: seq<byte>, now: int)
    requires TableOK(t)
    requires AddFragmentTo(t, sourceId, h, payload, now).1.Complete?
    ensures var key := MakeGroupKey(sourceId, h.groupId);
      var f := StoredChunks(t, key);
      var packet := AddFragmentTo(t, sourceId, h, payload, now).1.v6aPacket;
      && h.fragmentIndex !in f
      && f.Keys + {h.fragmentIndex} == Below(h.totalFragments)
      && packet == Assemble(f[h.fragmentIndex := payload], h.totalFragments)
      && |packet| == h.v6aLength
      && key !in AddFragmentTo(t, sourceId, h, payload, now).0.groups
  {
    var key := MakeGroupKey(sourceId, h.groupId);
    OpenedOK(t, key, sourceId, h, now);
    OpenedChunks(t, key, sourceId, h, now);
    AcceptComplete(Opened(t, key, sourceId, h, now), key, h, payload, now);
  }

  /** Only the group of key may differ between the two tables. */
  ghost predicate OthersUntouched(t: Table, t': Table, key: string) {
    forall k :: k != key ==> (k in t'.groups <==> k in t.groups) && (k in t.groups ==> t'.groups[k] == t.groups[k])
  }

  lemma AcceptFirstWins(t: Table, key: string, h: FragmentHeader, payload: seq<byte>, now: int)
    requires key in t.groups
    ensures OthersUntouched(t, Accept(t, key, h, payload, now).0, key)
    ensures key in Accept(t, key, h, payload, now).0.groups ==>
      var f, f' := t.groups[key].fragments, Accept(t, key, h, payload, now).0.groups[key].fragments;
      f' == f || (h.fragmentIndex !in f && f' == f[h.fragmentIndex := payload])
  {
  }

  /**
   * Chunks are never overwritten: after a call every surviving group either is untouched or is
   * the fragment's own, which at most gained the arriving chunk under an index it lacked.
   */
  lemma FirstChunkWins(t: Table, sourceId: string, h: FragmentHeader, payload: seq<byte>, now: int, k: string)
    requires TableOK(t)
    requires k in AddFragmentTo(t, sourceId, h, payload, now).0.groups
    ensures var f, f' := StoredChunks(t, k), StoredChunks(AddFragmentTo(t, sourceId, h, payload, now).0, k);
      f' == f || (k == MakeGroupKey(sourceId, h.groupId) && h.fragmentIndex !in f
        && f' == f[h.fragmentIndex := payload])
  {
    if AcceptableHeader(h) {
      var key := MakeGroupKey(sourceId, h.groupId);
      OpenedChunks(t, key, sourceId, h, now);
      AcceptFirstWins(Opened(t, key, sourceId, h, now), key, h, payload, now);
    }
  }

  // The class --------------------------------------------------------------------------------

  /** Sums the stored chunk lengths, in whatever order the map yields them. */
  method ByteSum(fragments: map<nat, seq<byte>>, ghost n: nat) returns (sum: nat)
    requires fragments.Keys <= Below(n)
    ensures sum == |Assemble(fragments, n)|
  {
    sum := 0;
    var rest := fragments.Keys;
    ghost var counted: map<nat, seq<byte>> := map[];
    AssembleEmpty(n);
    while rest != {}
      invariant rest <= fragments.Keys
      invariant counted == map k | k in fragments && k !in rest :: fragments[k]
      invariant sum == |Assemble(counted, n)|
      decreases rest
    {
      var k :| k in rest;
      AssembleAdd(counted, n, k, fragments[k]);
      counted := counted[k := fragments[k]];
      sum := sum + |fragments[k]|;
      rest := rest - {k};
    }
    assert counted == fragments;
  }

  lemma {:induction false} AssemblePrefix(f: map<nat, seq<byte>>, i: nat, n: nat)
    requires i <= n
    ensures |Assemble(f, i)| <= |Assemble(f, n)|
  {
    if i < n { AssemblePrefix(f, i, n - 1); }
  }

  /** The indices 0 to n-1 are their own sorted listing. */
  lemma SortedBelow(s: seq<nat>, n: nat)
    requires StrictlySorted(s) && forall x :: x in s <==> x in Below(n)
    ensures |s| == n && forall i :: 0 <= i < n ==> s[i] == i
  {
    var t := seq(n, i requires 0 <= i < n => i);
    forall x ensures x in t <==> x in Below(n) {
      if x in Below(n) { assert t[x] == x; }
    }
    SortedUnique(s, t);
  }

  /** Copies the chunks of a full group into one buffer, in sorted index order. */
  method Reconstruct(fragments: map<nat, seq<byte>>, n: nat, length: nat) returns (packet: seq<byte>, offset: nat)
    requires fragments.Keys == Below(n) && |Assemble(fragments, n)| == length
    ensures packet == Assemble(fragments, n) && offset == length
  {
    var sortedIndices := SortedListing(fragments.Keys);
    SortedBelow(sortedIndices, n);
    assert forall i :: 0 <= i < n ==> sortedIndices[i] in Below(n);
    packet, offset := JoinListed(fragments, sortedIndices, length);
  }

  method JoinListed(fragments: map<nat, seq<byte>>, indices: seq<nat>, length: nat)
    returns (packet: seq<byte>, offset: nat)
    requires forall i :: 0 <= i < |indices| ==> indices[i] == i && indices[i] in fragments
    requires |Assemble(fragments, |indices|)| == length
    ensures packet == Assemble(fragments, |indices|) && offset == length
  {
    var buf := new byte[length];
    offset := 0;
    var i := 0;
    while i < |indices|
      invariant 0 <= i <= |indices| && offset == |Assemble(fragments, i)| <= length
      invariant buf[..offset] == Assemble(fragments, i)
    {
      var chunk := fragments[indices[i]];
      AssemblePrefix(fragments, i + 1, |indices|);
      AppendBytes(buf, offset, chunk);
      offset := offset + |chunk|;
      i := i + 1;
    }
    packet := buf[..];
  }

  lemma OldestNext(order: seq<string>, groups: map<string, FragmentState>, i: nat)
    requires 0 < i < |order| && forall x :: x in order ==> x in groups
    ensures Oldest(order[..i], groups) in groups
    ensures Oldest(order[..i + 1], groups)
         == if groups[order[i]].createdAt < groups[Oldest(order[..i], groups)].createdAt
            then order[i] else Oldest(order[..i], groups)
  {
    assert order[..i + 1][..i] == order[..i];
  }

  method FindOldest(order: seq<string>, groups: map<string, FragmentState>) returns (oldestKey: string)
    requires order != [] && forall x :: x in order ==> x in groups
    ensures oldestKey == Oldest(order, groups)
  {
    oldestKey := order[0];
    var oldestTime := groups[oldestKey].createdAt;
    var i := 1;
    assert order[..1] == [order[0]];
    while i < |order|
      invariant 1 <= i <= |order| && oldestKey == Oldest(order[..i], groups)
      invariant oldestKey in groups && oldestTime == groups[oldestKey].createdAt
    {
      OldestNext(order, groups, i);
      if groups[order[i]].createdAt < oldestTime {
        oldestKey := order[i];
        oldestTime := groups[oldestKey].createdAt;
      }
      i := i + 1;
    }
    assert order[..i] == order;
  }

  lemma RemoveRestricted(t: Table, keep: set<string>, key: string)
    requires Ordered(t) && keep <= t.groups.Keys && key in keep
    ensures Remove(Restrict(t, keep), key) == Restrict(t, keep - {key})
    ensures |Restrict(t, keep - {key}).groups| == |Restrict(t, keep).groups| - 1
  {
    RestrictOK(t, keep);
    RemoveOK(Restrict(t, keep), key);
    RestrictTwice(t, keep, keep - {key});
    assert Restrict(t, keep).groups.Keys - {key} == keep - {key};
    assert keep * (keep - {key}) == keep - {key};
  }

  /** The groups left once the first i listed keys have been examined and those not in keep deleted. */
  ghost function LeftAfter(t: Table, keep: set<string>, keys: seq<string>, i: nat): set<string>
    requires i <= |keys|
  {
    set k | k in t.groups && (k in keep || k !in keys[..i])
  }

  lemma LeftAfterStep(t: Table, keep: set<string>, keys: seq<string>, i: nat)
    requires Ordered(t) && keys == t.order && i < |keys|
    ensures keys[i] in LeftAfter(t, keep, keys, i)
    ensures LeftAfter(t, keep, keys, i + 1)
         == if keys[i] in keep then LeftAfter(t, keep, keys, i) else LeftAfter(t, keep, keys, i) - {keys[i]}
  {
    assert keys[i] in Elements(keys);
    assert keys[..i + 1] == keys[..i] + [keys[i]];
  }

  lemma LeftAfterEnds(t: Table, keep: set<string>)
    requires Ordered(t) && keep <= t.groups.Keys
    ensures LeftAfter(t, keep, t.order, 0) == t.groups.Keys
    ensures LeftAfter(t, keep, t.order, |t.order|) == keep
  {
    assert t.order[..|t.order|] == t.order;
    assert forall k :: k in t.groups ==> k in Elements(t.order);
  }

  lemma RestrictAll(t: Table)
    requires Ordered(t)
    ensures Restrict(t, t.groups.Keys) == t
  {
    assert forall x :: x in t.order ==> x in Elements(t.order);
    FilterAll(t.order, t.groups.Keys);
  }

  class Reassembler {
    var groups: map<string, FragmentState>
    var order: seq<string>

    function Contents(): Table
      reads this
    {
      Table(groups, order)
    }

    constructor ()
      ensures Contents() == EMPTY_TABLE
    {
      groups := map[];
      order := [];
    }

    method Delete(key: string)
      modifies this
      ensures Contents() == Remove(old(Contents()), key)
    {
      order := FilterKeys(order, groups.Keys - {key});
      groups := map k | k in groups && k in groups.Keys - {key} :: groups[k];
    }

    method AbortOldestGroup()
      requires TableOK(Contents())
      modifies this
      ensures Contents() == AbortOldest(old(Contents()))
    {
      if order == [] {
        return;
      }
      assert forall x :: x in order ==> x in Elements(order);
      var oldestKey := FindOldest(order, groups);
      Delete(oldestKey);
    }

    /** Finalizes a full group; the group is gone afterwards whatever the outcome. */
    method TryComplete(state: FragmentState, key: string) returns (r: ReassemblyResult)
      requires state.fragments.Keys == Below(state.totalFragments)
      modifies this
      ensures Contents() == Remove(old(Contents()), key) && r == Finish(state)
    {
      var totalBytes := ByteSum(state.fragments, state.totalFragments);
      if totalBytes != state.v6aLength {
        Delete(key);
        return Error("Byte sum mismatch");
      }
      var packet, offset := Reconstruct(state.fragments, state.totalFragments, state.v6aLength);
      assert offset == state.v6aLength;  // so the last re-check of the TypeScript code can never fire
      Delete(key);
      r := Complete(packet);
    }

    /** Opens the group of an arriving fragment when it is not open yet. */
    method Open(key: string, sourceId: string, h: FragmentHeader, now: int)
      requires TableOK(Contents()) && AcceptableHeader(h) && key == MakeGroupKey(sourceId, h.groupId)
      modifies this
      ensures Contents() == Opened(old(Contents()), key, sourceId, h, now)
    {
      if key !in groups {
        RoomTableOK(Contents());
        if |groups| >= MAX_CONCURRENT_GROUPS {
          AbortOldestGroup();
        }
        order := order + [key];
        groups := groups[key := NewState(sourceId, h, now)];
      }
    }

    method AddFragment(sourceId: string, h: FragmentHeader, payload: seq<byte>, now: int) returns (r: ReassemblyResult)
      requires TableOK(Contents())
      modifies this
      ensures TableOK(Contents())
      ensures (Contents(), r) == AddFragmentTo(old(Contents()), sourceId, h, payload, now)
    {
      AddFragmentKeepsTable(Contents(), sourceId, h, payload, now);
      if !AcceptableHeader(h) {
        return Error("Invalid header");
      }
      var key := MakeGroupKey(sourceId, h.groupId);
      OpenedOK(Contents(), key, sourceId, h, now);
      Open(key, sourceId, h, now);
      r := AcceptInto(key, h, payload, now);
    }

    /** Validates the fragment against its open group and stores it. */
    method AcceptInto(key: string, h: FragmentHeader, payload: seq<byte>, now: int) returns (r: ReassemblyResult)
      requires TableOK(Contents()) && key in groups && AcceptableHeader(h)
      modifies this
      ensures (Contents(), r) == Accept(old(Contents()), key, h, payload, now)
    {
      var state := groups[key];
      assert GroupOK(Contents(), key);
      if state.totalFragments != h.totalFragments {
        Delete(key);
        return Error("Conflicting totalFragments");
      }
      if state.v6aLength != h.v6aLength {
        Delete(key);
        return Error("Conflicting v6aLength");
      }
      if h.fragmentIndex in state.fragments {
        groups := groups[key := state.(lastActivityAt := now)];
        return Incomplete;
      }
      var currentByteSum := ByteSum(state.fragments, state.totalFragments);
      if currentByteSum + |payload| > state.v6aLength {
        Delete(key);
        return Error("Cumulative bytes exceed v6aLength");
      }
      StoredOK(key, state, h.fragmentIndex, payload, now);
      state := Stored(state, h.fragmentIndex, payload, now);
      RemovePut(Contents(), key, state);
      groups := groups[key := state];
      if state.receivedCount == state.totalFragments {
        FullKeys(state);
        r := TryComplete(state, key);
      } else {
        r := Incomplete;
      }
    }

    /** Drops every group older than the expiry time and reports how many went. */
    method Cleanup(now: int) returns (removed: nat)
      requires TableOK(Contents())
      modifies this
      ensures TableOK(Contents())
      ensures Contents() == Restrict(old(Contents()), Unexpired(old(Contents()), now))
      ensures removed == |old(groups)| - |groups|
    {
      ghost var t := Contents();
      ghost var keep := Unexpired(t, now);
      removed := DropExcept(now);
      RestrictKeepsTable(t, keep);
    }

    method DropExcept(now: int) returns (removed: nat)
      requires TableOK(Contents())
      modifies this
      ensures Contents() == Restrict(old(Contents()), Unexpired(old(Contents()), now))
      ensures removed == |old(groups)| - |groups|
    {
      ghost var t := Contents();
      ghost var keep := Unexpired(t, now);
      var keys := order;
      removed := 0;
      var i := 0;
      LeftAfterEnds(t, keep);
      RestrictAll(t);
      while i < |keys|
        invariant 0 <= i <= |keys| && Contents() == Restrict(t, LeftAfter(t, keep, keys, i))
        invariant removed == |t.groups| - |groups|
      {
        LeftAfterStep(t, keep, keys, i);
        if now - groups[keys[i]].createdAt > GROUP_EXPIRY_MS {
          RemoveRestricted(t, LeftAfter(t, keep, keys, i), keys[i]);
          Delete(keys[i]);
          removed := removed + 1;
        }
        i := i + 1;
      }
    }

    /** Drops every group of one source. */
    method ResetSource(sourceId: string)
      requires TableOK(Contents())
      modifies this
      ensures TableOK(Contents())
      ensures Contents() == Restrict(old(Contents()), GroupsNotOf(old(Contents()), sourceId))
    {
      ghost var t := Contents();
      ghost var keep := GroupsNotOf(t, sourceId);
      var keys := order;
      var i := 0;
      LeftAfterEnds(t, keep);
      RestrictAll(t);
      while i < |keys|
        invariant 0 <= i <= |keys| && Contents() == Restrict(t, LeftAfter(t, keep, keys, i))
      {
        LeftAfterStep(t, keep, keys, i);
        if groups[keys[i]].sourceId == sourceId {
          RemoveRestricted(t, LeftAfter(t, keep, keys, i), keys[i]);
          Delete(keys[i]);
        }
        i := i + 1;
      }
      RestrictKeepsTable(t, keep);
    }
  }

  lemma RemovePut(t: Table, key: string, state: FragmentState)
    requires key in t.groups
    ensures Remove(Put(t, key, state), key) == Remove(t, key)
  {
    assert Put(t, key, state).groups.Keys == t.groups.Keys;
  }

  lemma FullKeys(state: FragmentState)
    requires state.fragments.Keys <= Below(state.totalFragments) && |state.fragments| == state.totalFragments
    ensures state.fragments.Keys == Below(state.totalFragments)
  {
    BelowSize(state.totalFragments);
    assert |state.fragments| == |state.fragments.Keys|;
    SubsetSize(state.fragments.Keys, Below(state.totalFragments));
  }
}
