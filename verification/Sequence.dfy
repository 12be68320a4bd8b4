/** Outbound sequence numbers and the inbound check for gaps and duplicates, across both 32-bit boundaries. */
module Sequence {
  import opened Wrappers
  import opened Bytes
  import opened V6BFrameCodec

  /** The number that the manager issues, and its counter afterwards. */
  function Next(counter: nat): (nat, nat) {
    (counter, (counter + 1) % TWO_32)
  }

  class SequenceManager {
    var counter: nat

    constructor (initialSequence: int)
      ensures counter == initialSequence % TWO_32
    {
      counter := initialSequence % TWO_32;
    }

    method NextSequence() returns (sequence: nat)
      requires counter < TWO_32
      modifies this
      ensures (sequence, counter) == Next(old(counter)) && counter < TWO_32
    {
      sequence := counter;
      counter := (counter + 1) % TWO_32;
    }
  }

  datatype Verdict = Valid | Gap | Duplicate

  /** JavaScript's remainder, which takes the sign of the dividend. */
  function Remainder(x: int, m: nat): int
    requires m > 0
  {
    if x >= 0 then x % m else -((-x) % m)
  }

  /** The verdict on a sequence number, given the last one accepted from the source. */
  function Check(last: Option<int>, sequence: int): Verdict {
    if last.None? then Valid
    else if sequence == last.value then Duplicate
    else if sequence == ToInt32(last.value + 1) then Valid
    else if Remainder(sequence - last.value - 1 + TWO_32, TWO_32) < TWO_31 then Gap
    else Duplicate
  }

  function Accepted(last: Option<int>, sequence: int): Option<int> {
    if Check(last, sequence).Duplicate? then last else Some(sequence)
  }

  class SequenceValidator {
    var sources: map<string, int>

    constructor ()
      ensures sources == map[]
    {
      sources := map[];
    }

    function LastOf(sourceId: string): Option<int>
      reads this
    {
      if sourceId in sources then Some(sources[sourceId]) else None
    }

    method Validate(sourceId: string, sequence: int) returns (v: Verdict)
      modifies this
      ensures v == Check(old(LastOf(sourceId)), sequence)
      ensures LastOf(sourceId) == Accepted(old(LastOf(sourceId)), sequence)
      ensures forall id :: id != sourceId ==> LastOf(id) == old(LastOf(id))
    {
      if sourceId !in sources {
        sources := sources[sourceId := sequence];
        return Valid;
      }
      var last := sources[sourceId];
      if sequence == last {
        return Duplicate;
      }
      var expected := ToInt32(last + 1);
      if sequence == expected {
        sources := sources[sourceId := sequence];
        return Valid;
      }
      var forwardDistance := Remainder(sequence - last - 1 + TWO_32, TWO_32);
      if forwardDistance < TWO_31 {
        sources := sources[sourceId := sequence];
        v := Gap;
      } else {
        v := Duplicate;
      }
    }

    method Reset(sourceId: string)
      modifies this
      ensures LastOf(sourceId) == None
      ensures forall id :: id != sourceId ==> LastOf(id) == old(LastOf(id))
    {
      sources := sources - {sourceId};
    }
  }

  /** Two numbers as they come off the wire, or two as the manager issues them. */
  predicate Comparable(a: int, b: int) {
    -TWO_32 < a - b < TWO_32
  }

  predicate Congruent(a: int, b: int) {
    (a - b) % TWO_32 == 0
  }

  /** How many steps x lies ahead of last, modulo 2^32. */
  function Ahead(last: int, x: int): nat {
    (x - last) % TWO_32
  }

  /** A number is accepted exactly when it lies 1 to 2^31 steps ahead, modulo 2^32. */
  lemma AcceptsAhead(last: int, sequence: int)
    requires Comparable(last, sequence)
    ensures Check(Some(last), sequence) != Duplicate <==> 1 <= Ahead(last, sequence) <= TWO_31
    ensures Check(Some(last), sequence) == Valid <==> sequence == ToInt32(last + 1) && sequence != last
  {
    var d := sequence - last;
    if d < 0 {
      assert d % TWO_32 == d + TWO_32;
      if d < -1 { assert (d - 1 + TWO_32) % TWO_32 == d - 1 + TWO_32; }
    } else if d > 0 {
      assert d % TWO_32 == d;
      assert (d - 1 + TWO_32) % TWO_32 == d - 1;
    }
  }

  /** Position n of the stream that starts at c, as it comes out of a frame. */
  function OnWire(c: nat, n: nat): int {
    ToInt32((c + n) % TWO_32)
  }

  lemma ToInt32Mod(x: int)
    ensures ToInt32(x % TWO_32) == ToInt32(x)
  {
  }

  lemma ToInt32Congruent(x: int, y: int)
    requires (x - y) % TWO_32 == 0
    ensures ToInt32(x) == ToInt32(y)
  {
    var k := (x - y) / TWO_32;
    assert x == y + TWO_32 * k;
    ModShift(y, k);
  }

  lemma ModShift(y: int, k: int)
    ensures (y + TWO_32 * k) % TWO_32 == y % TWO_32
  {
    var q, r := y / TWO_32, y % TWO_32;
    assert y + TWO_32 * k == TWO_32 * (q + k) + r;
    ModUnique(y + TWO_32 * k, q + k, r);
  }

  lemma ModUnique(v: int, q: int, r: int)
    requires v == TWO_32 * q + r && 0 <= r < TWO_32
    ensures v % TWO_32 == r
  {
  }

  /** Positions on the wire differ by their distance modulo 2^32. */
  lemma WireDistance(c: nat, n: nat, m: nat)
    ensures Comparable(OnWire(c, n), OnWire(c, m))
    ensures Ahead(OnWire(c, n), OnWire(c, m)) == (m - n) % TWO_32
  {
    ToInt32Mod(c + n);
    ToInt32Mod(c + m);
    var a, b := OnWire(c, n), OnWire(c, m);
    var j := (a - (c + n)) / TWO_32;
    var k := (b - (c + m)) / TWO_32;
    assert a - (c + n) == TWO_32 * j && b - (c + m) == TWO_32 * k;
    assert b - a == (m - n) + TWO_32 * (k - j);
    ModShift(m - n, k - j);
  }

  /**
   * After position n of a stream, position m is valid when it is the next one, a gap when it is
   * 2 to 2^31 positions ahead, and a duplicate when it is 0 to 2^31 - 1 positions behind: across
   * any number of wrap-arounds.
   */
  lemma StreamVerdict(c: nat, n: nat, m: nat)
    requires -TWO_31 < m - n <= TWO_31
    ensures Check(Some(OnWire(c, n)), OnWire(c, m))
         == if m == n + 1 then Valid else if m > n then Gap else Duplicate
  {
    hide OnWire, ToInt32, Check;
    WireDistance(c, n, m);
    AcceptsAhead(OnWire(c, n), OnWire(c, m));
    NextOnWire(c, n, m);
    assert (m - n) % TWO_32 == if m >= n then m - n else m - n + TWO_32;
  }

  lemma SuccessorOnWire(c: nat, n: nat)
    ensures ToInt32(OnWire(c, n) + 1) == OnWire(c, n + 1)
  {
    ToInt32Mod(c + n);
    ToInt32Mod(c + n + 1);
    ToInt32Congruent(OnWire(c, n) + 1, c + n + 1);
  }

  /** Within one turn of the counter, different positions look different. */
  lemma SameOnWire(c: nat, n: nat, m: nat)
    requires -TWO_32 < m - n < TWO_32
    ensures OnWire(c, n) == OnWire(c, m) <==> n == m
  {
    WireDistance(c, n, m);
    assert m != n ==> (m - n) % TWO_32 != 0;
    hide OnWire;
  }

  lemma NextOnWire(c: nat, n: nat, m: nat)
    requires -TWO_31 < m - n <= TWO_31
    ensures OnWire(c, m) == ToInt32(OnWire(c, n) + 1) <==> m == n + 1
    ensures m == n + 1 ==> OnWire(c, m) != OnWire(c, n)
  {
    SuccessorOnWire(c, n);
    SameOnWire(c, n + 1, m);
    SameOnWire(c, n, n + 1);
    hide OnWire, ToInt32;
  }

  // Whole streams --------------------------------------------------------------------------------------

  /** What the validator made of the numbers that arrived: lasts[k] is what it remembers before numbers[k]. */
  datatype Inbound = Inbound(numbers: seq<int>, lasts: seq<Option<int>>, verdicts: seq<Verdict>)

  ghost predicate Validated(h: Inbound, k: nat) {
    && k < |h.numbers| == |h.verdicts| && |h.lasts| == |h.numbers| + 1
    && h.verdicts[k] == Check(h.lasts[k], h.numbers[k])
    && h.lasts[k + 1] == Accepted(h.lasts[k], h.numbers[k])
  }

  ghost predicate IsInbound(h: Inbound) {
    && |h.numbers| == |h.verdicts| && |h.lasts| == |h.numbers| + 1 && h.lasts[0] == None
    && forall k: nat :: k < |h.numbers| ==> Validated(h, k)
  }

  /**
   * The sender's frames: each takes its number from the manager, whose counter before frame k is
   * counters[k], and is decoded by the receiver in order.
   */
  datatype Stream = Stream(counters: seq<nat>, payloads: seq<seq<byte>>, frames: seq<seq<byte>>, inbound: Inbound)

  ghost predicate Carried(s: Stream, k: nat) {
    && k < |s.payloads| == |s.frames| == |s.inbound.numbers| && |s.counters| == |s.frames| + 1
    && s.counters[k + 1] == Next(s.counters[k]).1 && s.counters[k] < TWO_32
    && Encode(Next(s.counters[k]).0, 1, s.payloads[k]) == Ok(s.frames[k])
    && Decode(s.frames[k]).Ok? && Decode(s.frames[k]).value.sequence == s.inbound.numbers[k]
  }

  ghost predicate IsStream(s: Stream) {
    && IsInbound(s.inbound) && |s.payloads| == |s.frames| == |s.inbound.numbers| && |s.counters| == |s.frames| + 1
    && forall k: nat :: k < |s.frames| ==> Carried(s, k)
  }

  lemma CarriedNumber(s: Stream, k: nat)
    requires Carried(s, k)
    ensures s.inbound.numbers[k] == ToInt32(s.counters[k])
  {
    FrameRoundTrip(s.counters[k], 1, s.payloads[k], []);
    assert s.frames[k] + [] == s.frames[k];
    hide Decode, Encode;
  }

  lemma {:induction false} CounterAt(s: Stream, k: nat)
    requires IsStream(s) && k < |s.frames|
    ensures s.counters[k] == (s.counters[0] + k) % TWO_32
  {
    hide Encode, Decode;
    assert Carried(s, k);
    if k > 0 {
      CounterAt(s, k - 1);
      assert Carried(s, k - 1);
      SuccessorMod(s.counters[0] + k - 1);
    }
  }

  lemma SuccessorMod(x: nat)
    ensures (x % TWO_32 + 1) % TWO_32 == (x + 1) % TWO_32
  {
    ModShift(x % TWO_32 + 1, x / TWO_32);
  }

  lemma {:induction false} LastOfStream(s: Stream, k: nat)
    requires IsStream(s) && k < |s.frames|
    ensures s.inbound.verdicts[k] == Valid && s.inbound.lasts[k + 1] == Some(OnWire(s.counters[0], k))
  {
    assert Carried(s, k) && Validated(s.inbound, k);
    CarriedNumber(s, k);
    CounterAt(s, k);
    assert s.inbound.numbers[k] == OnWire(s.counters[0], k);
    hide OnWire, Encode, Decode, ToInt32, Remainder;
    if k > 0 {
      LastOfStream(s, k - 1);
      StreamVerdict(s.counters[0], k - 1, k);
    }
  }

  /**
   * Every frame of a stream of any length, from any counter, numbered by the manager, encoded, decoded
   * and validated in order, is valid: no gap and no duplicate is ever reported, across both 32-bit boundaries.
   */
  lemma StreamIsValid(s: Stream, k: nat)
    requires IsStream(s) && k < |s.frames|
    ensures s.inbound.verdicts[k] == Valid
  {
    LastOfStream(s, k);
  }

  /**
   * Without the wire, on the unsigned numbers the manager issues, the next number in order is
   * reported as a gap exactly when it is 2^31 or more.
   */
  lemma SpuriousGap(last: nat)
    requires last < TWO_32
    ensures Check(Some(last), (last + 1) % TWO_32) == if (last + 1) % TWO_32 >= TWO_31 then Gap else Valid
  {
  }

  // Unwrapping -----------------------------------------------------------------------------------------

  ghost predicate OnSignedWire(numbers: seq<int>) {
    forall i :: 0 <= i < |numbers| ==> -TWO_31 <= numbers[i] < TWO_31
  }

  /** The stream position reached after k arrivals: it advances by the forward distance of each accepted number. */
  ghost function Position(h: Inbound, k: nat): int
    requires k <= |h.numbers| == |h.verdicts| && |h.lasts| == |h.numbers| + 1
  {
    if k == 0 then 0
    else if h.lasts[k - 1].None? then h.numbers[k - 1]
    else if h.verdicts[k - 1].Duplicate? then Position(h, k - 1)
    else Position(h, k - 1) + Ahead(h.lasts[k - 1].value, h.numbers[k - 1])
  }

  lemma {:induction false} LastOnWire(h: Inbound, k: nat)
    requires IsInbound(h) && OnSignedWire(h.numbers) && k < |h.numbers|
    ensures h.lasts[k + 1].Some? && -TWO_31 <= h.lasts[k + 1].value < TWO_31
  {
    assert Validated(h, k);
    if k > 0 {
      LastOnWire(h, k - 1);
    }
    hide Check;
  }

  lemma {:induction false} PositionCongruent(h: Inbound, k: nat)
    requires IsInbound(h) && OnSignedWire(h.numbers) && k < |h.numbers|
    ensures h.lasts[k + 1].Some? && Congruent(Position(h, k + 1), h.lasts[k + 1].value)
  {
    hide Check, Congruent, Ahead;
    LastOnWire(h, k);
    assert Validated(h, k);
    SelfCongruent(h.numbers[k]);
    if k > 0 {
      LastOnWire(h, k - 1);
      PositionCongruent(h, k - 1);
      UnwrapStep(Position(h, k), h.lasts[k].value, h.numbers[k]);
    }
  }

  lemma SelfCongruent(x: int)
    ensures Congruent(x, x)
  {
  }

  /**
   * Whatever arrives in whatever order: the unwrapped position is congruent to the last accepted
   * number, grows by 1 to 2^31 on every accepted number after the first, and stands still otherwise.
   */
  lemma PositionsIncrease(h: Inbound, k: nat)
    requires IsInbound(h) && OnSignedWire(h.numbers) && 0 < k < |h.numbers|
    ensures h.lasts[k + 1].Some? && Congruent(Position(h, k + 1), h.lasts[k + 1].value)
    ensures if h.verdicts[k].Duplicate? then Position(h, k + 1) == Position(h, k)
            else 1 <= Position(h, k + 1) - Position(h, k) <= TWO_31
  {
    hide Congruent, Check, Ahead;
    PositionCongruent(h, k);
    LastOnWire(h, k - 1);
    assert Validated(h, k);
    AcceptsAhead(h.lasts[k].value, h.numbers[k]);
  }

  lemma UnwrapStep(u: int, last: int, x: int)
    requires Congruent(u, last)
    ensures Congruent(u + Ahead(last, x), x)
  {
    var k := (u - last) / TWO_32;
    var j := (x - last) / TWO_32;
    assert u + (x - last) % TWO_32 - x == 0 + TWO_32 * (k - j);
    ModShift(0, k - j);
  }
}
