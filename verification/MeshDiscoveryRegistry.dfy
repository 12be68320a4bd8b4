/**
 * Nodes heard of through the mesh: bounded, expiring, with lazy deletion. With a clock that moves
 * on between recordings it answers exactly from the last recording time of each id.
 */
module MeshDiscoveryRegistry {
  import opened Wrappers
  import opened Collections

  datatype DiscoveredNode = DiscoveredNode(discoveredAt: int, hopCount: int, reportedBy: Option<nat>)

  /** The last time each id was ever recorded. */
  type History = map<nat, int>

  /** The ids recorded after the last recording of id. */
  ghost function Newer(last: History, id: nat): set<nat>
    requires id in last
  {
    set y | y in last && last[y] > last[id]
  }

  /** Recorded within the retention time, and among the `capacity` most recently recorded ids. */
  ghost predicate Discovered(last: History, capacity: nat, retention: int, now: int, id: nat) {
    id in last && now - last[id] <= retention && |Newer(last, id)| < capacity
  }

  /** No two ids were last recorded at the same time, and none in the future. */
  ghost predicate Timely(last: History, clock: int) {
    && (forall x, y :: x in last && y in last && x != y ==> last[x] != last[y])
    && (forall x :: x in last ==> last[x] <= clock)
  }

  /** Each entry carries the last recording time of its id. */
  ghost predicate UpToDate(nodes: map<nat, DiscoveredNode>, last: History) {
    forall x :: x in nodes ==> x in last && nodes[x].discoveredAt == last[x]
  }

  /** Ids without an entry have expired or been crowded out. */
  ghost predicate RestGone(nodes: map<nat, DiscoveredNode>, last: History, capacity: nat, retention: int, clock: int) {
    forall x :: x in last && x !in nodes ==> clock - last[x] > retention || |Newer(last, x)| >= capacity
  }

  /** The entries are the last recordings of some ids; the others have expired or been crowded out. */
  ghost predicate Consistent(nodes: map<nat, DiscoveredNode>, last: History, capacity: nat, retention: int,
        clock: int) {
    && |nodes| <= capacity
    && Timely(last, clock) && UpToDate(nodes, last) && RestGone(nodes, last, capacity, retention, clock)
  }

  lemma NewerShrinks(last: History, x: nat, y: nat)
    requires x in last && y in Newer(last, x)
    ensures Newer(last, y) < Newer(last, x) && |Newer(last, y)| < |Newer(last, x)|
  {
    assert y !in Newer(last, y);
    SubsetSize(Newer(last, y), Newer(last, x) - {y});
  }

  /** An entry that has not expired is never crowded out by ids that are all younger. */
  lemma {:induction false} NoneStranded(nodes: map<nat, DiscoveredNode>, last: History, capacity: nat,
        retention: int, clock: int, x: nat, y: nat)
    requires Consistent(nodes, last, capacity, retention, clock) && x in nodes && clock - last[x] <= retention
    requires y == x || y in Newer(last, x)
    ensures |Newer(last, y)| < capacity
    decreases |Newer(last, y)|
  {
    if Newer(last, y) <= nodes.Keys {
      assert x !in Newer(last, y);
      SubsetSize(Newer(last, y) + {x}, nodes.Keys);
      assert |nodes.Keys| == |nodes|;
    } else {
      var z :| z in Newer(last, y) && z !in nodes;
      NewerShrinks(last, y, z);
      NoneStranded(nodes, last, capacity, retention, clock, x, z);
    }
  }

  /** What the entries say agrees with the history. */
  lemma EntriesAgree(nodes: map<nat, DiscoveredNode>, last: History, capacity: nat, retention: int, clock: int,
        now: int, x: nat)
    requires Consistent(nodes, last, capacity, retention, clock) && clock <= now
    ensures x in nodes && now - nodes[x].discoveredAt <= retention <==> Discovered(last, capacity, retention, now, x)
  {
    if x in nodes && now - nodes[x].discoveredAt <= retention {
      NoneStranded(nodes, last, capacity, retention, clock, x, x);
    }
  }

  /** Expired entries may go at any time. */
  lemma DropExpired(nodes: map<nat, DiscoveredNode>, nodes': map<nat, DiscoveredNode>, last: History, capacity: nat,
        retention: int, clock: int, now: int)
    requires Consistent(nodes, last, capacity, retention, clock) && clock <= now
    requires nodes'.Keys <= nodes.Keys && forall x :: x in nodes' ==> nodes'[x] == nodes[x]
    requires forall x :: x in nodes && x !in nodes' ==> now - nodes[x].discoveredAt > retention
    ensures Consistent(nodes', last, capacity, retention, now)
  {
    assert |nodes| == |nodes.Keys| && |nodes'| == |nodes'.Keys|;
    SubsetSize(nodes'.Keys, nodes.Keys);
    hide Newer;
  }

  lemma NewerAfterRecord(last: History, id: nat, now: int, y: nat)
    requires y in last && y != id && forall x :: x in last ==> last[x] < now
    ensures |Newer(last[id := now], y)| >= |Newer(last, y)|
  {
    assert Newer(last, y) <= Newer(last[id := now], y);
    SubsetSize(Newer(last, y), Newer(last[id := now], y));
  }

  /** Recording an id makes nothing else reappear. */
  lemma RestStaysGone(nodes: map<nat, DiscoveredNode>, last: History, capacity: nat, retention: int, clock: int,
        id: nat, n: DiscoveredNode, now: int)
    requires Timely(last, clock) && RestGone(nodes, last, capacity, retention, clock) && clock < now
    ensures RestGone(nodes[id := n], last[id := now], capacity, retention, now)
  {
    forall y | y in last && y !in nodes && y != id
      ensures |Newer(last[id := now], y)| >= |Newer(last, y)|
    {
      NewerAfterRecord(last, id, now, y);
    }
    hide Newer;
  }

  lemma TimelyAfterRecord(last: History, clock: int, id: nat, now: int)
    requires Timely(last, clock) && clock < now
    ensures Timely(last[id := now], now)
  {
  }

  /** Recording an id that is listed. */
  lemma RefreshKeeps(nodes: map<nat, DiscoveredNode>, last: History, capacity: nat, retention: int, clock: int,
        id: nat, n: DiscoveredNode, now: int)
    requires Consistent(nodes, last, capacity, retention, clock) && clock < now && id in nodes && n.discoveredAt == now
    ensures Consistent(nodes[id := n], last[id := now], capacity, retention, now)
  {
    hide RestGone, Timely;
    assert nodes[id := n].Keys == nodes.Keys;
    assert |nodes[id := n]| == |nodes[id := n].Keys| && |nodes| == |nodes.Keys|;
    TimelyAfterRecord(last, clock, id, now);
    RestStaysGone(nodes, last, capacity, retention, clock, id, n, now);
  }

  /** All but the capacity clause, while one entry too many may be listed. */
  ghost predicate Overfull(nodes: map<nat, DiscoveredNode>, last: History, capacity: nat, retention: int, clock: int) {
    && |nodes| <= capacity + 1
    && Timely(last, clock) && UpToDate(nodes, last) && RestGone(nodes, last, capacity, retention, clock)
  }

  lemma AddKeeps(nodes: map<nat, DiscoveredNode>, last: History, capacity: nat, retention: int, clock: int, id: nat,
        n: DiscoveredNode, now: int)
    requires Consistent(nodes, last, capacity, retention, clock) && clock < now && id !in nodes && n.discoveredAt == now
    ensures Overfull(nodes[id := n], last[id := now], capacity, retention, now)
  {
    hide RestGone, Timely;
    assert nodes[id := n].Keys == nodes.Keys + {id};
    assert |nodes[id := n]| == |nodes[id := n].Keys| && |nodes| == |nodes.Keys|;
    TimelyAfterRecord(last, clock, id, now);
    RestStaysGone(nodes, last, capacity, retention, clock, id, n, now);
  }

  /** The oldest of capacity + 1 entries has been crowded out. */
  lemma EvictKeeps(nodes: map<nat, DiscoveredNode>, last: History, capacity: nat, retention: int, clock: int,
        oldest: nat)
    requires Overfull(nodes, last, capacity, retention, clock) && |nodes| == capacity + 1 && oldest in nodes
    requires forall x :: x in nodes ==> nodes[oldest].discoveredAt <= nodes[x].discoveredAt
    ensures Consistent(nodes - {oldest}, last, capacity, retention, clock)
  {
    assert nodes.Keys - {oldest} <= Newer(last, oldest);
    SubsetSize(nodes.Keys - {oldest}, Newer(last, oldest));
    assert |nodes.Keys| == |nodes|;
    assert (nodes - {oldest}).Keys == nodes.Keys - {oldest};
    assert |nodes - {oldest}| == |(nodes - {oldest}).Keys|;
    hide Newer;
  }

  /** Rediscovery updates the time, and the report only if it is a shorter one. */
  function Refreshed(n: DiscoveredNode, hopCount: int, reportedBy: Option<nat>, now: int): DiscoveredNode {
    if hopCount < n.hopCount then DiscoveredNode(now, hopCount, reportedBy) else n.(discoveredAt := now)
  }

  /** A report of a node: over how many hops, and by whom. */
  datatype Report = Report(hopCount: int, reportedBy: Option<nat>)

  /** Report i is the first of the shortest ones. */
  ghost predicate ShortestAt(reports: seq<Report>, i: nat) {
    && i < |reports|
    && (forall j :: 0 <= j < |reports| ==> reports[i].hopCount <= reports[j].hopCount)
    && (forall j :: 0 <= j < i ==> reports[i].hopCount < reports[j].hopCount)
  }

  /** An entry shows the first of the shortest reports since it was listed. */
  ghost predicate Shows(n: DiscoveredNode, reports: seq<Report>) {
    exists i: nat :: ShortestAt(reports, i) && reports[i] == Report(n.hopCount, n.reportedBy)
  }

  ghost predicate ShowsAll(nodes: map<nat, DiscoveredNode>, reports: map<nat, seq<Report>>) {
    forall x :: x in nodes ==> x in reports && Shows(nodes[x], reports[x])
  }

  /** Another report: a shorter one takes the place of the one shown. */
  lemma RefreshShows(n: DiscoveredNode, reports: seq<Report>, hopCount: int, reportedBy: Option<nat>, now: int)
    requires Shows(n, reports)
    ensures Shows(Refreshed(n, hopCount, reportedBy, now), reports + [Report(hopCount, reportedBy)])
  {
    var i: nat :| ShortestAt(reports, i) && reports[i] == Report(n.hopCount, n.reportedBy);
    var after := reports + [Report(hopCount, reportedBy)];
    assert forall j :: 0 <= j < |reports| ==> after[j] == reports[j];
    assert ShortestAt(after, if hopCount < n.hopCount then |reports| else i);
  }

  lemma FirstShows(n: DiscoveredNode)
    ensures Shows(n, [Report(n.hopCount, n.reportedBy)])
  {
    assert ShortestAt([Report(n.hopCount, n.reportedBy)], 0);
  }

  lemma ShowsOneMore(nodes: map<nat, DiscoveredNode>, reports: map<nat, seq<Report>>, id: nat, n: DiscoveredNode,
        rs: seq<Report>)
    requires ShowsAll(nodes, reports) && Shows(n, rs)
    ensures ShowsAll(nodes[id := n], reports[id := rs])
  {
    hide Shows;
  }

  lemma ShownIs(nodes: map<nat, DiscoveredNode>, reports: map<nat, seq<Report>>, id: nat)
    requires ShowsAll(nodes, reports) && id in nodes
    ensures id in reports && Shows(nodes[id], reports[id])
  {
  }

  class MeshDiscoveryRegistry {
    var nodes: map<nat, DiscoveredNode>
    const maxEntries: nat
    const retentionMs: int
    /** The history that the entries stand for, and the latest clock reading. */
    ghost var last: History
    ghost var clock: int
    /** The reports of each listed id since it was listed. */
    ghost var reports: map<nat, seq<Report>>

    ghost predicate Valid()
      reads this
    {
      Consistent(nodes, last, maxEntries, retentionMs, clock) && ShowsAll(nodes, reports)
    }

    constructor (maxEntries: nat, retentionMs: int, ghost now: int)
      ensures Valid() && last == map[] && clock == now
      ensures this.maxEntries == maxEntries && this.retentionMs == retentionMs
    {
      nodes := map[];
      this.maxEntries, this.retentionMs := maxEntries, retentionMs;
      last, reports := map[], map[];
      clock := now;
    }

    /** Removes the entry with the earliest discovery time. */
    method EvictOldest()
      requires Overfull(nodes, last, maxEntries, retentionMs, clock) && |nodes| == maxEntries + 1
      requires ShowsAll(nodes, reports)
      modifies this`nodes
      ensures Valid() && nodes.Keys <= old(nodes).Keys && forall x :: x in nodes ==> nodes[x] == old(nodes)[x]
    {
      var rest := nodes.Keys;
      assert |nodes| == |rest|;
      var oldestKey :| oldestKey in rest;
      var oldestTime := nodes[oldestKey].discoveredAt;
      rest := rest - {oldestKey};
      while rest != {}
        invariant rest <= nodes.Keys && oldestKey in nodes && oldestTime == nodes[oldestKey].discoveredAt
        invariant forall x :: x in nodes && x !in rest ==> oldestTime <= nodes[x].discoveredAt
        decreases rest
      {
        var key :| key in rest;
        rest := rest - {key};
        if nodes[key].discoveredAt < oldestTime {
          oldestKey := key;
          oldestTime := nodes[key].discoveredAt;
        }
      }
      EvictKeeps(nodes, last, maxEntries, retentionMs, clock, oldestKey);
      hide Consistent, Overfull, Shows;
      nodes := nodes - {oldestKey};
    }

    method Record(id: nat, hopCount: int, reportedBy: Option<nat>, now: int)
      requires Valid() && clock < now
      modifies this
      ensures Valid() && last == old(last)[id := now] && clock == now
      ensures reports == old(reports)[
        id := (if id in old(nodes) && id in old(reports) then old(reports)[id] else [])
              + [Report(hopCount, reportedBy)]]
      ensures id in old(nodes) ==> id in nodes
      ensures forall x :: x != id && x in nodes ==> x in old(nodes) && nodes[x] == old(nodes)[x]
    {
      hide Shows, ShowsAll, Timely, UpToDate, RestGone;
      ghost var heard := (if id in nodes && id in reports then reports[id] else []) + [Report(hopCount, reportedBy)];
      if id in nodes {
        ShownIs(nodes, reports, id);
        var existing := nodes[id].(discoveredAt := now);
        if hopCount < existing.hopCount {
          existing := existing.(hopCount := hopCount, reportedBy := reportedBy);
        }
        RefreshKeeps(nodes, last, maxEntries, retentionMs, clock, id, existing, now);
        RefreshShows(nodes[id], reports[id], hopCount, reportedBy, now);
        ShowsOneMore(nodes, reports, id, existing, heard);
        nodes := nodes[id := existing];
        last, clock, reports := last[id := now], now, reports[id := heard];
        return;
      }
      var node := DiscoveredNode(now, hopCount, reportedBy);
      AddKeeps(nodes, last, maxEntries, retentionMs, clock, id, node, now);
      FirstShows(node);
      assert heard == [Report(hopCount, reportedBy)];
      ShowsOneMore(nodes, reports, id, node, heard);
      nodes := nodes[id := node];
      last, clock, reports := last[id := now], now, reports[id := heard];
      if |nodes| > maxEntries {
        EvictOldest();
      }
    }

    method Has(id: nat, now: int) returns (found: bool)
      requires Valid() && clock <= now
      modifies this
      ensures Valid() && last == old(last) && clock == now
      ensures found <==> Discovered(last, maxEntries, retentionMs, now, id)
      ensures nodes == if id in old(nodes) && !found then old(nodes) - {id} else old(nodes)
      ensures found ==> id in nodes && nodes[id].discoveredAt == last[id] && reports == old(reports)
    {
      EntriesAgree(nodes, last, maxEntries, retentionMs, clock, now, id);
      DropExpired(nodes, nodes, last, maxEntries, retentionMs, clock, now);
      if id !in nodes {
        clock := now;
        return false;
      }
      if now - nodes[id].discoveredAt > retentionMs {
        DropExpired(nodes, nodes - {id}, last, maxEntries, retentionMs, clock, now);
        nodes := nodes - {id};
        clock := now;
        return false;
      }
      clock := now;
      found := true;
    }

    method Get(id: nat, now: int) returns (r: Option<DiscoveredNode>)
      requires Valid() && clock <= now
      modifies this
      ensures Valid() && last == old(last) && clock == now
      ensures r.Some? <==> Discovered(last, maxEntries, retentionMs, now, id)
      ensures r.Some? ==> id in old(nodes) && r.value == old(nodes)[id] && r.value.discoveredAt == last[id]
      ensures r.Some? ==> id in reports && Shows(r.value, reports[id])
    {
      var found := Has(id, now);
      r := if found then Some(nodes[id]) else None;
    }

    /** Walks the entries and deletes those from before the cutoff. */
    method Sweep(cutoff: int) returns (count: nat)
      modifies this`nodes
      ensures nodes.Keys <= old(nodes).Keys && count == |old(nodes)| - |nodes|
      ensures forall x :: x in nodes ==> nodes[x] == old(nodes)[x] && nodes[x].discoveredAt >= cutoff
      ensures forall x :: x in old(nodes) && x !in nodes ==> old(nodes)[x].discoveredAt < cutoff
    {
      var rest := nodes.Keys;
      count := 0;
      while rest != {}
        invariant rest <= nodes.Keys <= old(nodes).Keys && count == |old(nodes)| - |nodes|
        invariant forall x :: x in nodes ==> nodes[x] == old(nodes)[x] && (x in rest || nodes[x].discoveredAt >= cutoff)
        invariant forall x :: x in old(nodes) && x !in nodes ==> old(nodes)[x].discoveredAt < cutoff
        decreases rest
      {
        var key :| key in rest;
        rest := rest - {key};
        if nodes[key].discoveredAt < cutoff {
          nodes := nodes - {key};
          count := count + 1;
        }
      }
    }

    method PruneExpired(now: int) returns (count: nat)
      requires Valid() && clock <= now
      modifies this
      ensures Valid() && last == old(last) && clock == now
      ensures nodes.Keys <= old(nodes).Keys && count == |old(nodes)| - |nodes|
      ensures forall x :: x in old(nodes) && now - old(nodes)[x].discoveredAt <= retentionMs ==> x in nodes
      ensures forall x :: x in nodes ==> nodes[x] == old(nodes)[x] && now - nodes[x].discoveredAt <= retentionMs
    {
      count := Sweep(now - retentionMs);
      DropExpired(old(nodes), nodes, last, maxEntries, retentionMs, clock, now);
      clock := now;
    }

    method GetAll(now: int) returns (all: map<nat, DiscoveredNode>)
      requires Valid() && clock <= now
      modifies this
      ensures Valid() && last == old(last) && clock == now
      ensures forall id :: id in all <==> Discovered(last, maxEntries, retentionMs, now, id)
      ensures forall id :: id in all ==> id in old(nodes) && all[id] == old(nodes)[id]
    {
      var _ := PruneExpired(now);
      all := nodes;
      forall id
        ensures id in all <==> Discovered(last, maxEntries, retentionMs, now, id)
      {
        EntriesAgree(nodes, last, maxEntries, retentionMs, clock, now, id);
      }
    }
  }
}
