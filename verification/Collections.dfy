/**
 * Small collection facts shared by the protocol modules:
 *
 * - sorted listings of finite sets;
 * - bounded first-in-first-out windows, and what passes through them;
 * - sets of consecutive numbers;
 * - sequences without repetition.
 */
module Collections {

  predicate StrictlySorted(s: seq<nat>) {
    forall i, j :: 0 <= i < j < |s| ==> s[i] < s[j]
  }

  predicate Distinct<T(==)>(s: seq<T>) {
    forall i, j :: 0 <= i < j < |s| ==> s[i] != s[j]
  }

  ghost function Elements<T>(s: seq<T>): set<T> {
    set x | x in s
  }

  /** The numbers 0, 1, ..., n-1. */
  function Below(n: nat): (s: set<nat>)
    ensures forall i: nat :: i in s <==> i < n
  {
    if n == 0 then {} else Below(n - 1) + {n - 1}
  }

  lemma {:induction false} BelowSize(n: nat)
    ensures |Below(n)| == n
  {
    if n > 0 {
      BelowSize(n - 1);
    }
  }

  lemma SubsetSize<T>(a: set<T>, b: set<T>)
    requires a <= b
    ensures |a| <= |b|
    ensures |a| == |b| ==> a == b
  {
    assert b == a + (b - a);
  }

  /** A strictly increasing listing of a set is unique. */
  lemma {:induction false} SortedUnique(s: seq<nat>, t: seq<nat>)
    requires StrictlySorted(s) && StrictlySorted(t)
    requires forall x :: x in s <==> x in t
    ensures s == t
  {
    assert s != [] ==> s[0] in s;
    assert t != [] ==> t[0] in t;
    if s != [] && t != [] {
      assert s[0] in t && t[0] in s;
      var s', t' := s[1..], t[1..];
      forall x ensures x in s' <==> x in t' {
        if x in s' {
          var i :| 0 <= i < |s'| && s'[i] == x;
          assert x == s[i + 1] && x in t && x != t[0];
        }
        if x in t' {
          var i :| 0 <= i < |t'| && t'[i] == x;
          assert x == t[i + 1] && x in s && x != s[0];
        }
      }
      SortedUnique(s', t');
    }
  }

  /** Selects the least element of a non-empty set. */
  method Least(s: set<nat>) returns (m: nat)
    requires s != {}
    ensures m in s && forall x :: x in s ==> m <= x
  {
    m :| m in s;
    var rest := s - {m};
    while rest != {}
      invariant rest <= s && m in s
      invariant forall x :: x in s && x !in rest ==> m <= x
      decreases rest
    {
      var x :| x in rest;
      rest := rest - {x};
      if x < m { m := x; }
    }
  }

  /** `Array.from(set).sort((a, b) => a - b)` */
  method SortedListing(s: set<nat>) returns (r: seq<nat>)
    ensures StrictlySorted(r)
    ensures forall x :: x in r <==> x in s
  {
    r := [];
    var rest := s;
    while rest != {}
      invariant rest <= s && StrictlySorted(r)
      invariant forall x :: x in r <==> x in s && x !in rest
      invariant forall i, y :: 0 <= i < |r| && y in rest ==> r[i] < y
      decreases rest
    {
      var m := Least(rest);
      r := r + [m];
      rest := rest - {m};
    }
  }

  lemma {:induction false} Greatest(s: set<nat>) returns (m: nat)
    requires s != {}
    ensures m in s && forall x :: x in s ==> x <= m
    decreases |s|
  {
    var a :| a in s;
    assert forall x :: x in s ==> x == a || x in s - {a};
    m := a;
    if s - {a} != {} {
      var n := Greatest(s - {a});
      m := if n > a then n else a;
    }
  }

  /** Every finite set has an ascending listing. */
  lemma {:induction false} ListingExists(s: set<nat>) returns (r: seq<nat>)
    ensures StrictlySorted(r) && forall x :: x in r <==> x in s
    decreases |s|
  {
    r := [];
    if s != {} {
      var m := Greatest(s);
      r := ListingExists(s - {m});
      assert forall i :: 0 <= i < |r| ==> r[i] in r && r[i] in s - {m} && r[i] < m;
      assert forall x :: x in r + [m] <==> x in r || x == m;
      r := r + [m];
    }
  }

  /** The last n entries of a history (all of it when it is shorter). */
  function Last<T>(history: seq<T>, n: nat): (w: seq<T>)
    ensures |w| == if |history| <= n then |history| else n
  {
    if |history| <= n then history else history[|history| - n..]
  }

  /**
   * A window of the n most recent entries admits x only when x is not in it: then two equal
   * entries of the history are more than n positions apart.
   */
  ghost predicate Spaced<T(!new)>(history: seq<T>, n: nat) {
    forall i, j :: 0 <= i < j < |history| && history[i] == history[j] ==> j - i > n
  }

  lemma SpacedPush<T(!new)>(history: seq<T>, n: nat, x: T)
    requires Spaced(history, n) && x !in Last(history, n)
    ensures Spaced(history + [x], n)
  {
    var h, w := history + [x], Last(history, n);
    forall k | |history| - |w| <= k < |history|
      ensures history[k] != x
    {
      assert w[k - (|history| - |w|)] in w;
    }
  }

  /** Between two occurrences of an entry lie at least n others, none of them equal to it and no two alike. */
  lemma SpacedStretch<T(!new)>(history: seq<T>, n: nat, k: nat)
    requires Spaced(history, n) && k + n < |history|
    ensures history[k] !in history[k + 1..k + 1 + n] && Distinct(history[k + 1..k + 1 + n])
  {
  }

  /**
   * The sightings that a window of the n most recent admitted ones admits. A sighting that it holds
   * changes nothing.
   */
  function Sift<T(==)>(sightings: seq<T>, n: nat): seq<T> {
    if sightings == [] then []
    else
      var admitted, x := Sift(sightings[..|sightings| - 1], n), sightings[|sightings| - 1];
      if x in Last(admitted, n) then admitted else admitted + [x]
  }

  lemma SiftPush<T>(sightings: seq<T>, n: nat, x: T)
    ensures var admitted := Sift(sightings, n);
      Sift(sightings + [x], n) == if x in Last(admitted, n) then admitted else admitted + [x]
  {
    assert (sightings + [x])[..|sightings|] == sightings;
  }

  lemma LastInside<T>(history: seq<T>, n: nat, x: T)
    requires x in Last(history, n)
    ensures x in history
  {
  }

  lemma DistinctPush<T>(s: seq<T>, x: T)
    requires Distinct(s + [x])
    ensures Distinct(s) && x !in s
  {
    var t := s + [x];
    forall i | 0 <= i < |s|
      ensures s[i] != x && forall j :: i < j < |s| ==> s[i] != s[j]
    {
      assert t[i] == s[i] && t[|s|] == x && t[i] != t[|s|];
      assert forall j :: i < j < |s| ==> t[i] != t[j] && t[j] == s[j];
    }
  }

  lemma {:induction false} DistinctPrefix<T>(s: seq<T>, t: seq<T>)
    requires Distinct(s + t)
    ensures Distinct(s)
    decreases |t|
  {
    if t == [] {
      assert s + t == s;
    } else {
      var init, x := t[..|t| - 1], t[|t| - 1];
      assert s + t == (s + init) + [x];
      DistinctPush(s + init, x);
      DistinctPrefix(s, init);
    }
    hide Distinct;
  }

  lemma DistinctFirst<T>(x: T, s: seq<T>)
    requires Distinct([x] + s)
    ensures x !in s
  {
    var t := [x] + s;
    forall i | 0 <= i < |s|
      ensures s[i] != x
    {
      assert t[i + 1] == s[i] && t[0] == x;
    }
  }

  /** Sightings unlike each other and all admitted ones are admitted. */
  lemma {:induction false} SiftNew<T>(sightings: seq<T>, more: seq<T>, n: nat)
    requires Distinct(Sift(sightings, n) + more)
    ensures Sift(sightings + more, n) == Sift(sightings, n) + more
    decreases |more|
  {
    hide Distinct;
    var h := Sift(sightings, n);
    if more == [] {
      assert sightings + more == sightings;
    } else {
      var init, x := more[..|more| - 1], more[|more| - 1];
      assert h + more == (h + init) + [x] && sightings + more == (sightings + init) + [x];
      DistinctPush(h + init, x);
      SiftNew(sightings, init, n);
      SiftPush(sightings + init, n, x);
      if x in Last(h + init, n) { LastInside(h + init, n, x); }
    }
    hide Sift, Last;
  }

  /**
   * A window of n is tight, and seeing x again does not refresh it: after n others x is admitted
   * again, however recently it was seen in between.
   */
  lemma SiftTight<T>(x: T, before: seq<T>, after: seq<T>, n: nat)
    requires |before| < n == |before| + |after| && Distinct([x] + before + after)
    ensures Sift([x] + before, n) == Sift([x] + before + [x], n) == [x] + before
    ensures Sift([x] + before + [x] + after, n) == [x] + before + after
    ensures Sift([x] + before + [x] + after + [x], n) == [x] + before + after + [x]
  {
    var first := [x] + before;
    assert Sift<T>([], n) == [] && Last(first, n) == first && x in first && [] + first == first;
    assert first + after == [x] + (before + after) && Last(first + after, n) == before + after;
    DistinctPrefix(first, after);
    DistinctFirst(x, before + after);
    hide Distinct, Sift, Last;
    SiftNew([], first, n);
    SiftPush(first, n, x);
    SiftNew(first + [x], after, n);
    SiftPush(first + [x] + after, n, x);
  }
}
