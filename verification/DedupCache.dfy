/** The bounded cache of packet identities: a first-in-first-out window, as a hit refreshes nothing. */
module DedupCache {
  import opened Bytes
  import opened Collections
  import BitChatPacket

  const DEDUP_MAX_ENTRIES := 256

  datatype Entry = Entry(key: string, seenAt: int)

  /** `${sourceNodeId}:${packetId}`, both in canonical spelling. */
  function BuildKey(source: nat, packetId: nat): string {
    BitChatPacket.FormatId(source) + ":" + BitChatPacket.FormatId(packetId)
  }

  function KeysOf(entries: seq<Entry>): (keys: seq<string>)
    ensures |keys| == |entries|
    ensures forall i :: 0 <= i < |keys| ==> keys[i] == entries[i].key
  {
    seq(|entries|, i requires 0 <= i < |entries| => entries[i].key)
  }

  /** What pushing a first sighting leaves in a window of at most n keys. */
  function Mark(keys: seq<string>, key: string, n: nat): seq<string> {
    if |keys| + 1 > n then (keys + [key])[1..] else keys + [key]
  }

  function Others(entries: seq<Entry>, key: string): seq<Entry> {
    if entries == [] then []
    else
      var rest := Others(entries[..|entries| - 1], key);
      if entries[|entries| - 1].key != key then rest + [entries[|entries| - 1]] else rest
  }

  function Fresh(entries: seq<Entry>, cutoff: int): seq<Entry> {
    if entries == [] then []
    else
      var rest := Fresh(entries[..|entries| - 1], cutoff);
      if entries[|entries| - 1].seenAt >= cutoff then rest + [entries[|entries| - 1]] else rest
  }

  /** Distinct pairs of 64-bit identities never share a key. */
  lemma KeyInjective(s1: nat, p1: nat, s2: nat, p2: nat)
    requires s1 < TWO_64 && p1 < TWO_64 && s2 < TWO_64 && p2 < TWO_64
    ensures BuildKey(s1, p1) == BuildKey(s2, p2) <==> s1 == s2 && p1 == p2
  {
    BitChatPacket.FormatThenRead(s1);
    BitChatPacket.FormatThenRead(s2);
    BitChatPacket.FormatThenRead(p1);
    BitChatPacket.FormatThenRead(p2);
    if BuildKey(s1, p1) == BuildKey(s2, p2) {
      assert BuildKey(s1, p1)[..18] == BitChatPacket.FormatId(s1);
      assert BuildKey(s2, p2)[..18] == BitChatPacket.FormatId(s2);
      assert BuildKey(s1, p1)[19..] == BitChatPacket.FormatId(p1);
      assert BuildKey(s2, p2)[19..] == BitChatPacket.FormatId(p2);
    }
  }

  /** The keys are the n most recent first sightings, and equal sightings are more than n apart. */
  ghost predicate IsWindow(keys: seq<string>, history: seq<string>, n: nat) {
    keys == Last(history, n) && Spaced(history, n)
  }

  /** checkAndMark on the window: a known key changes nothing, a new one joins the history. */
  lemma MarkKeepsWindow(keys: seq<string>, history: seq<string>, n: nat, key: string)
    requires IsWindow(keys, history, n) && key !in keys
    ensures IsWindow(Mark(keys, key, n), history + [key], n)
  {
    SpacedPush(history, n, key);
  }

  /** What a sequence of checkAndMark calls leaves in an empty cache of at most n keys. */
  function MarkAll(sightings: seq<string>, n: nat): seq<string> {
    if sightings == [] then []
    else
      var keys, key := MarkAll(sightings[..|sightings| - 1], n), sightings[|sightings| - 1];
      if key in keys then keys else Mark(keys, key, n)
  }

  /** The cache holds the last n of the sightings that it let through. */
  lemma {:induction false} CacheIsWindow(sightings: seq<string>, n: nat)
    ensures IsWindow(MarkAll(sightings, n), Sift(sightings, n), n)
  {
    if sightings != [] {
      var init, key := sightings[..|sightings| - 1], sightings[|sightings| - 1];
      CacheIsWindow(init, n);
      if key !in MarkAll(init, n) { MarkKeepsWindow(MarkAll(init, n), Sift(init, n), n, key); }
    }
  }

  /**
   * 256 is exact, and a repetition does not refresh an entry: a key seen again after fewer than 256
   * others is a duplicate then, and nevertheless counts as new once 256 others have followed the
   * first sighting.
   */
  lemma ForgottenAfter256(key: string, before: seq<string>, after: seq<string>)
    requires |before| < DEDUP_MAX_ENTRIES == |before| + |after| && Distinct([key] + before + after)
    ensures key in MarkAll([key] + before, DEDUP_MAX_ENTRIES)
    ensures key !in MarkAll([key] + before + [key] + after, DEDUP_MAX_ENTRIES)
  {
    var n, first := DEDUP_MAX_ENTRIES, [key] + before;
    assert first + after == [key] + (before + after);
    assert Last(first + after, n) == before + after && Last(first, n) == first && first[0] == key;
    DistinctFirst(key, before + after);
    hide MarkAll, Sift, Distinct, Last, Spaced;
    SiftTight(key, before, after, n);
    CacheIsWindow(first, n);
    CacheIsWindow(first + [key] + after, n);
  }

  lemma {:induction false} OthersMeaning(entries: seq<Entry>, key: string)
    ensures forall e :: e in Others(entries, key) <==> e in entries && e.key != key
  {
    if entries != [] {
      OthersMeaning(entries[..|entries| - 1], key);
      assert entries == entries[..|entries| - 1] + [entries[|entries| - 1]];
    }
  }

  lemma {:induction false} FreshMeaning(entries: seq<Entry>, cutoff: int)
    ensures forall e :: e in Fresh(entries, cutoff) <==> e in entries && e.seenAt >= cutoff
    ensures |Fresh(entries, cutoff)| <= |entries|
  {
    if entries != [] {
      FreshMeaning(entries[..|entries| - 1], cutoff);
      assert entries == entries[..|entries| - 1] + [entries[|entries| - 1]];
    }
  }

  /** Removing a key takes out its entries and leaves the others in their order. */
  lemma {:induction false} OthersSplit(before: seq<Entry>, e: Entry, after: seq<Entry>, key: string)
    ensures Others(before + [e] + after, key)
         == Others(before, key) + (if e.key != key then [e] else []) + Others(after, key)
  {
    var all := before + [e] + after;
    if after == [] {
      assert all[..|all| - 1] == before;
    } else {
      OthersSplit(before, e, after[..|after| - 1], key);
      assert all[..|all| - 1] == before + [e] + after[..|after| - 1];
    }
  }

  /** Pruning takes out the entries from before the cutoff and leaves the others in their order. */
  lemma {:induction false} FreshSplit(before: seq<Entry>, e: Entry, after: seq<Entry>, cutoff: int)
    ensures Fresh(before + [e] + after, cutoff)
         == Fresh(before, cutoff) + (if e.seenAt >= cutoff then [e] else []) + Fresh(after, cutoff)
  {
    var all := before + [e] + after;
    if after == [] {
      assert all[..|all| - 1] == before;
    } else {
      FreshSplit(before, e, after[..|after| - 1], cutoff);
      assert all[..|all| - 1] == before + [e] + after[..|after| - 1];
    }
  }

  class DedupCache {
    var entries: seq<Entry>
    const maxEntries: nat
    const retentionMs: nat

    constructor (maxEntries: nat, retentionMs: nat)
      ensures entries == [] && this.maxEntries == maxEntries && this.retentionMs == retentionMs
    {
      entries := [];
      this.maxEntries := maxEntries;
      this.retentionMs := retentionMs;
    }

    function Keys(): seq<string>
      reads this
    {
      KeysOf(entries)
    }

    method Find(key: string) returns (found: bool)
      ensures found <==> key in Keys()
    {
      var i := 0;
      while i < |entries|
        invariant 0 <= i <= |entries|
        invariant forall j :: 0 <= j < i ==> entries[j].key != key
      {
        if entries[i].key == key {
          assert Keys()[i] == key;
          return true;
        }
        i := i + 1;
      }
      found := false;
    }

    method CheckAndMark(source: nat, packetId: nat, now: int) returns (duplicate: bool)
      modifies this
      ensures duplicate <==> BuildKey(source, packetId) in old(Keys())
      ensures Keys() == if duplicate then old(Keys()) else Mark(old(Keys()), BuildKey(source, packetId), maxEntries)
      ensures var all := old(entries) + [Entry(BuildKey(source, packetId), now)];
        entries == if duplicate then old(entries) else if |all| > maxEntries then all[1..] else all
    {
      var key := BuildKey(source, packetId);
      duplicate := Find(key);
      if duplicate {
        return;
      }
      entries := entries + [Entry(key, now)];
      assert Keys() == old(Keys()) + [key];
      if |entries| > maxEntries {
        entries := entries[1..];
        assert Keys() == (old(Keys()) + [key])[1..];
      }
    }

    /** Unlike checkAndMark, a repeated markSeen moves the key to the young end of the window. */
    method MarkSeen(source: nat, packetId: nat, now: int)
      modifies this
      ensures var key := BuildKey(source, packetId);
        var all := Others(old(entries), key) + [Entry(key, now)];
        entries == if |all| > maxEntries then all[1..] else all
    {
      var key := BuildKey(source, packetId);
      var kept: seq<Entry> := [];
      var i := 0;
      while i < |entries|
        invariant 0 <= i <= |entries| && entries == old(entries)
        invariant kept == Others(entries[..i], key)
      {
        assert entries[..i + 1][..i] == entries[..i];
        if entries[i].key != key {
          kept := kept + [entries[i]];
        }
        i := i + 1;
      }
      assert entries[..i] == entries;
      entries := kept + [Entry(key, now)];
      if |entries| > maxEntries {
        entries := entries[1..];
      }
    }

    method PruneExpired(now: int) returns (removed: nat)
      modifies this
      ensures entries == Fresh(old(entries), now - retentionMs)
      ensures removed == |old(entries)| - |entries|
    {
      var cutoff := now - retentionMs;
      var kept: seq<Entry> := [];
      var i := 0;
      while i < |entries|
        invariant 0 <= i <= |entries| && entries == old(entries)
        invariant kept == Fresh(entries[..i], cutoff)
      {
        assert entries[..i + 1][..i] == entries[..i];
        if entries[i].seenAt >= cutoff {
          kept := kept + [entries[i]];
        }
        i := i + 1;
      }
      assert entries[..i] == entries;
      FreshMeaning(entries, cutoff);
      removed := |entries| - |kept|;
      entries := kept;
    }
  }
}
