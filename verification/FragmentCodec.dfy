/** The V7 fragment codec: a packet is cut into at most 128 chunks, each behind a nine-byte header. */
module FragmentCodec {
  import opened Wrappers
  import opened Bytes

  const V7_MARKER: byte := 0xF7
  const V7_HEADER_SIZE := 9
  const MAX_FRAGMENTS := 128
  const MAX_CHUNK_SIZE := 490
  const MAX_V6A_LENGTH := MAX_FRAGMENTS * MAX_CHUNK_SIZE
  const SINGLE_FRAME_LIMIT := 499

  datatype FragmentHeader =
    FragmentHeader(groupId: nat, fragmentIndex: nat, totalFragments: nat, v6aLength: nat)

  datatype FragmentChunk = FragmentChunk(payload: seq<byte>, header: FragmentHeader)

  /** The headers that the wire format can carry and parseHeader accepts. */
  predicate WireHeader(h: FragmentHeader) {
    && h.groupId < TWO_32
    && 1 <= h.totalFragments <= MAX_FRAGMENTS
    && h.fragmentIndex < h.totalFragments
    && 1 <= h.v6aLength <= MAX_V6A_LENGTH
  }

  /** The nine bytes that writeHeader stores. */
  function HeaderBytes(h: FragmentHeader): (s: seq<byte>)
    ensures |s| == V7_HEADER_SIZE
  {
    [V7_MARKER] + ToBE(h.groupId, 4) + [h.fragmentIndex % 256, h.totalFragments % 256] + ToBE(h.v6aLength, 2)
  }

  function ParseHeader(payload: seq<byte>): Result<FragmentHeader> {
    if |payload| < V7_HEADER_SIZE then Err("HEADER_TOO_SHORT")
    else if payload[0] != V7_MARKER then Err("INVALID_MARKER")
    else
      var groupId := FromBE(payload[1..5]);
      var fragmentIndex, totalFragments := payload[5], payload[6];
      var v6aLength := FromBE(payload[7..9]);
      if totalFragments < 1 || totalFragments > MAX_FRAGMENTS then Err("INVALID_TOTAL_FRAGMENTS")
      else if fragmentIndex >= totalFragments then Err("INVALID_FRAGMENT_INDEX")
      else if v6aLength == 0 || v6aLength > MAX_V6A_LENGTH then Err("INVALID_V6A_LENGTH")
      else Ok(FragmentHeader(groupId, fragmentIndex, totalFragments, v6aLength))
  }

  function Min(a: int, b: int): int { if a < b then a else b }

  /** `Math.ceil(len / d)`: the number of chunks of at most d bytes that cover len bytes. */
  function ChunkCount(len: nat, d: nat): nat
    requires d > 0
  {
    if len == 0 then 0 else if len <= d then 1 else 1 + ChunkCount(len - d, d)
  }

  /** `i * d`: where chunk i starts. */
  function Offset(d: nat, i: nat): nat {
    if i == 0 then 0 else Offset(d, i - 1) + d
  }

  /** The bytes of fragment i when every fragment carries d data bytes. */
  function ChunkAt(packet: seq<byte>, d: nat, i: nat): (c: seq<byte>)
    requires Offset(d, i) <= |packet|
  {
    packet[Offset(d, i)..Min(Offset(d, i) + d, |packet|)]
  }

  function HeaderAt(packet: seq<byte>, groupId: nat, d: nat, i: nat): FragmentHeader
    requires d > 0
  {
    FragmentHeader(groupId, i, ChunkCount(|packet|, d), |packet|)
  }

  function FragmentAt(packet: seq<byte>, groupId: nat, d: nat, i: nat): FragmentChunk
    requires d > 0 && Offset(d, i) <= |packet|
  {
    var h := HeaderAt(packet, groupId, d, i);
    FragmentChunk(HeaderBytes(h) + ChunkAt(packet, d, i), h)
  }

  /** A packet and a chunk size that splitting turns into fragments. */
  predicate Splittable(packet: seq<byte>, d: nat) {
    && 1 <= d <= MAX_CHUNK_SIZE
    && d < |packet| <= MAX_V6A_LENGTH
    && ChunkCount(|packet|, d) <= MAX_FRAGMENTS
  }

  /** The given fragments are the first ones, in order, of the fragmentation of packet. */
  ghost predicate IsFragmentationPrefix(packet: seq<byte>, groupId: nat, d: nat, fragments: seq<FragmentChunk>)
    requires d > 0
  {
    forall i :: 0 <= i < |fragments| ==>
      Offset(d, i) <= |packet| && fragments[i] == FragmentAt(packet, groupId, d, i)
  }

  /** fragments is exactly the ordered fragmentation of packet. */
  ghost predicate IsFragmentation(packet: seq<byte>, groupId: nat, d: nat, fragments: seq<FragmentChunk>)
    requires d > 0
  {
    |fragments| == ChunkCount(|packet|, d) && IsFragmentationPrefix(packet, groupId, d, fragments)
  }

  lemma PrefixPush(packet: seq<byte>, groupId: nat, d: nat, fragments: seq<FragmentChunk>, f: FragmentChunk)
    requires d > 0 && IsFragmentationPrefix(packet, groupId, d, fragments)
    requires Offset(d, |fragments|) <= |packet| && f == FragmentAt(packet, groupId, d, |fragments|)
    ensures IsFragmentationPrefix(packet, groupId, d, fragments + [f])
  {
  }

  /** Data bytes per fragment under a total budget for header and data. */
  function DataBudget(maxChunkBytes: int): int {
    Min(maxChunkBytes, V7_HEADER_SIZE + MAX_CHUNK_SIZE) - V7_HEADER_SIZE
  }

  /** The packets that can be sent under a budget, fragmented or not. */
  predicate FitsBudget(packet: seq<byte>, maxChunkBytes: int) {
    && maxChunkBytes > V7_HEADER_SIZE
    && (|packet| <= DataBudget(maxChunkBytes) || Splittable(packet, DataBudget(maxChunkBytes)))
  }

  /** What splitV6A makes of a packet under the next group id. */
  ghost predicate IsSplit(packet: seq<byte>, groupId: nat, r: Result<seq<FragmentChunk>>) {
    if |packet| <= SINGLE_FRAME_LIMIT then r == Ok([])
    else if |packet| > MAX_V6A_LENGTH then r == Err("V6A_TOO_LARGE")
    else r.Ok? && IsFragmentation(packet, groupId, MAX_CHUNK_SIZE, r.value)
  }

  /** What splitV6AForBudget makes of it. */
  ghost predicate IsBudgetSplit(packet: seq<byte>, groupId: nat, maxChunkBytes: int, r: Result<seq<FragmentChunk>>) {
    if maxChunkBytes <= V7_HEADER_SIZE then r == Err("BUDGET_TOO_SMALL")
    else if |packet| <= DataBudget(maxChunkBytes) then r == Ok([])
    else if |packet| > MAX_V6A_LENGTH then r == Err("V6A_TOO_LARGE")
    else if ChunkCount(|packet|, DataBudget(maxChunkBytes)) > MAX_FRAGMENTS then r == Err("TOO_MANY_FRAGMENTS")
    else r.Ok? && IsFragmentation(packet, groupId, DataBudget(maxChunkBytes), r.value)
  }

  lemma {:induction false} OffsetIsProduct(d: nat, i: nat)
    ensures Offset(d, i) == i * d
  {
    if i > 0 {
      OffsetIsProduct(d, i - 1);
      assert i * d == (i - 1) * d + d;
    }
  }

  lemma {:induction false} OffsetShift(d: nat, i: nat)
    ensures Offset(d, i + 1) == d + Offset(d, i)
  {
    if i > 0 {
      OffsetShift(d, i - 1);
    }
  }

  lemma {:induction false} OffsetMonotone(d: nat, i: nat, j: nat)
    requires i <= j
    ensures Offset(d, i) <= Offset(d, j)
  {
    if i < j {
      OffsetMonotone(d, i, j - 1);
    }
  }

  /** The number of chunks is the least number whose total capacity covers the packet. */
  lemma {:induction false} CountBounds(len: nat, d: nat)
    requires d > 0 && len > 0
    ensures ChunkCount(len, d) >= 1
    ensures Offset(d, ChunkCount(len, d) - 1) < len <= Offset(d, ChunkCount(len, d))
  {
    if len > d {
      CountBounds(len - d, d);
      var m := ChunkCount(len - d, d);
      OffsetShift(d, m - 1);
      OffsetShift(d, m);
    } else {
      assert Offset(d, 1) == Offset(d, 0) + d;
    }
  }

  lemma CountWithin(len: nat, d: nat, n: nat)
    requires d > 0 && len <= Offset(d, n)
    ensures ChunkCount(len, d) <= n
  {
    if len > 0 {
      CountBounds(len, d);
      OffsetMonotone(d, Min(n, ChunkCount(len, d) - 1), ChunkCount(len, d) - 1);
    }
  }

  lemma {:induction false} CountIsCeiling(len: nat, d: nat)
    requires d > 0
    ensures ChunkCount(len, d) == (len + d - 1) / d
  {
    if len > d {
      CountIsCeiling(len - d, d);
      var q, r := (len - 1) / d, (len - 1) % d;
      assert len - 1 == d * q + r;
      assert len + d - 1 == d * (q + 1) + r;
      DivUnique(len + d - 1, d, q + 1, r);
    } else if len > 0 {
      DivUnique(len + d - 1, d, 1, len - 1);
    } else {
      DivUnique(d - 1, d, 0, d - 1);
    }
  }

  lemma ChunkInside(len: nat, d: nat, i: nat)
    requires d > 0 && len > 0 && i < ChunkCount(len, d)
    ensures Offset(d, i) < len
  {
    CountBounds(len, d);
    OffsetMonotone(d, i, ChunkCount(len, d) - 1);
  }

  /** parseHeader reads back what writeHeader wrote, whatever data follows it. */
  lemma ParseWritten(h: FragmentHeader, data: seq<byte>)
    requires WireHeader(h)
    ensures ParseHeader(HeaderBytes(h) + data) == Ok(h)
  {
    Pow256Values();
    FromToBE(h.groupId, 4);
    FromToBE(h.v6aLength, 2);
    var p := HeaderBytes(h) + data;
    assert p[1..5] == ToBE(h.groupId, 4);
    assert p[7..9] == ToBE(h.v6aLength, 2);
  }

  /** parseHeader accepts exactly the payloads that start with the bytes of a wire header. */
  lemma ParseAcceptsExactlyWritten(payload: seq<byte>)
    ensures ParseHeader(payload).Ok? <==>
      exists h :: WireHeader(h) && |payload| >= V7_HEADER_SIZE && payload[..V7_HEADER_SIZE] == HeaderBytes(h)
    ensures ParseHeader(payload).Ok? ==>
      WireHeader(ParseHeader(payload).value) && payload[..V7_HEADER_SIZE] == HeaderBytes(ParseHeader(payload).value)
  {
    Pow256Values();
    if ParseHeader(payload).Ok? {
      var h := ParseHeader(payload).value;
      FromBEBound(payload[1..5]);
      ToFromBE(payload[1..5]);
      ToFromBE(payload[7..9]);
      assert payload[..V7_HEADER_SIZE] == HeaderBytes(h);
    }
    forall h | WireHeader(h) && |payload| >= V7_HEADER_SIZE && payload[..V7_HEADER_SIZE] == HeaderBytes(h)
      ensures ParseHeader(payload) == Ok(h)
    {
      ParseWritten(h, payload[V7_HEADER_SIZE..]);
      assert payload == payload[..V7_HEADER_SIZE] + payload[V7_HEADER_SIZE..];
    }
  }

  /** Joins the data parts of the first k fragments. */
  function Joined(fragments: seq<FragmentChunk>): seq<byte> {
    if fragments == [] then []
    else
      var last := fragments[|fragments| - 1];
      Joined(fragments[..|fragments| - 1])
      + (if |last.payload| >= V7_HEADER_SIZE then last.payload[V7_HEADER_SIZE..] else [])
  }

  /** Every fragment is a well-formed non-empty frame within budget, and joining the data gives the packet. */
  lemma FragmentationIsFaithful(packet: seq<byte>, groupId: nat, d: nat, fragments: seq<FragmentChunk>)
    requires Splittable(packet, d) && groupId < TWO_32 && IsFragmentation(packet, groupId, d, fragments)
    ensures 2 <= |fragments| <= MAX_FRAGMENTS
    ensures forall i :: 0 <= i < |fragments| ==>
      && ParseHeader(fragments[i].payload) == Ok(fragments[i].header)
      && fragments[i].header.fragmentIndex == i
      && V7_HEADER_SIZE < |fragments[i].payload| <= V7_HEADER_SIZE + d
    ensures Joined(fragments) == packet
  {
    var n := |fragments|;
    CountBounds(|packet|, d);
    forall i | 0 <= i < n
      ensures ParseHeader(fragments[i].payload) == Ok(fragments[i].header)
      ensures fragments[i].header.fragmentIndex == i
      ensures V7_HEADER_SIZE < |fragments[i].payload| <= V7_HEADER_SIZE + d
    {
      ChunkInside(|packet|, d, i);
      ParseWritten(fragments[i].header, ChunkAt(packet, d, i));
    }
    JoinedPrefix(packet, groupId, d, fragments, n);
    assert fragments[..n] == fragments;
    assert packet[..|packet|] == packet;
  }

  lemma FragmentData(packet: seq<byte>, groupId: nat, d: nat, i: nat)
    requires d > 0 && Offset(d, i) <= |packet|
    ensures FragmentAt(packet, groupId, d, i).payload[V7_HEADER_SIZE..] == ChunkAt(packet, d, i)
  {
  }

  lemma ChunkExtendsPrefix(packet: seq<byte>, d: nat, i: nat)
    requires Offset(d, i) <= |packet|
    ensures packet[..Offset(d, i)] + ChunkAt(packet, d, i) == packet[..Min(Offset(d, i + 1), |packet|)]
  {
  }

  lemma {:induction false} JoinedPrefix(packet: seq<byte>, groupId: nat, d: nat, fragments: seq<FragmentChunk>, k: nat)
    requires Splittable(packet, d) && IsFragmentation(packet, groupId, d, fragments) && k <= |fragments|
    ensures Joined(fragments[..k]) == packet[..Min(Offset(d, k), |packet|)]
  {
    hide ChunkAt, HeaderBytes, HeaderAt;
    if k > 0 {
      JoinedPrefix(packet, groupId, d, fragments, k - 1);
      ChunkInside(|packet|, d, k - 1);
      assert fragments[..k][..k - 1] == fragments[..k - 1];
      assert fragments[..k][k - 1] == fragments[k - 1] == FragmentAt(packet, groupId, d, k - 1);
      FragmentData(packet, groupId, d, k - 1);
      ChunkExtendsPrefix(packet, d, k - 1);
    }
  }

  /** The codec's only state is the group-id counter that every new process seeds afresh. */
  class FragmentCodec {
    var groupIdCounter: nat

    constructor (seed: nat)
      requires seed < TWO_32
      ensures groupIdCounter == seed
    {
      groupIdCounter := seed;
    }

    /** Allocates the next group id and emits every fragment of packet under it. */
    method EmitFragments(packet: seq<byte>, d: nat) returns (fragments: seq<FragmentChunk>)
      requires Splittable(packet, d) && groupIdCounter < TWO_32
      modifies this
      ensures IsFragmentation(packet, old(groupIdCounter), d, fragments)
      ensures groupIdCounter == (old(groupIdCounter) + 1) % TWO_32
    {
      var groupId := groupIdCounter;
      groupIdCounter := (groupIdCounter + 1) % TWO_32;
      var totalFragments := ChunkCount(|packet|, d);
      fragments := [];
      var i := 0;
      while i < totalFragments
        invariant 0 <= i <= totalFragments && |fragments| == i
        invariant groupIdCounter == (groupId + 1) % TWO_32
        invariant IsFragmentationPrefix(packet, groupId, d, fragments)
      {
        var f := BuildFragment(packet, groupId, d, i, totalFragments);
        PrefixPush(packet, groupId, d, fragments, f);
        fragments := fragments + [f];
        i := i + 1;
      }
    }

    method SplitV6A(packet: seq<byte>) returns (r: Result<seq<FragmentChunk>>)
      requires groupIdCounter < TWO_32
      modifies this
      ensures IsSplit(packet, old(groupIdCounter), r)
      ensures |packet| <= SINGLE_FRAME_LIMIT ==> r == Ok([])
      ensures SINGLE_FRAME_LIMIT < |packet| <= MAX_V6A_LENGTH ==>
        r.Ok? && Splittable(packet, MAX_CHUNK_SIZE)
          && IsFragmentation(packet, old(groupIdCounter), MAX_CHUNK_SIZE, r.value)
      ensures |packet| > MAX_V6A_LENGTH ==> r == Err("V6A_TOO_LARGE")
      ensures groupIdCounter == if SINGLE_FRAME_LIMIT < |packet| <= MAX_V6A_LENGTH
                                then (old(groupIdCounter) + 1) % TWO_32 else old(groupIdCounter)
    {
      if |packet| <= SINGLE_FRAME_LIMIT {
        return Ok([]);
      }
      if |packet| > MAX_V6A_LENGTH {
        return Err("V6A_TOO_LARGE");
      }
      OffsetIsProduct(MAX_CHUNK_SIZE, MAX_FRAGMENTS);
      CountWithin(|packet|, MAX_CHUNK_SIZE, MAX_FRAGMENTS);
      if ChunkCount(|packet|, MAX_CHUNK_SIZE) > MAX_FRAGMENTS {
        return Err("TOO_MANY_FRAGMENTS");
      }
      var fragments := EmitFragments(packet, MAX_CHUNK_SIZE);
      r := Ok(fragments);
    }

    method SplitV6AForBudget(packet: seq<byte>, maxChunkBytes: int) returns (r: Result<seq<FragmentChunk>>)
      requires groupIdCounter < TWO_32
      modifies this
      ensures IsBudgetSplit(packet, old(groupIdCounter), maxChunkBytes, r)
      ensures maxChunkBytes <= V7_HEADER_SIZE <==> r == Err("BUDGET_TOO_SMALL")
      ensures maxChunkBytes > V7_HEADER_SIZE && |packet| <= DataBudget(maxChunkBytes) ==> r == Ok([])
      ensures maxChunkBytes > V7_HEADER_SIZE && Splittable(packet, DataBudget(maxChunkBytes)) ==>
        r.Ok? && IsFragmentation(packet, old(groupIdCounter), DataBudget(maxChunkBytes), r.value)
      ensures r.Ok? <==> FitsBudget(packet, maxChunkBytes)
      ensures groupIdCounter
              == if r.Ok? && r.value != [] then (old(groupIdCounter) + 1) % TWO_32 else old(groupIdCounter)
    {
      if maxChunkBytes < V7_HEADER_SIZE + 1 {
        return Err("BUDGET_TOO_SMALL");
      }
      var effectiveChunk := Min(maxChunkBytes, V7_HEADER_SIZE + MAX_CHUNK_SIZE);
      var dataBytesPerFragment := effectiveChunk - V7_HEADER_SIZE;
      if |packet| <= dataBytesPerFragment {
        return Ok([]);
      }
      if |packet| > MAX_V6A_LENGTH {
        return Err("V6A_TOO_LARGE");
      }
      if ChunkCount(|packet|, dataBytesPerFragment) > MAX_FRAGMENTS {
        return Err("TOO_MANY_FRAGMENTS");
      }
      CountBounds(|packet|, dataBytesPerFragment);
      var fragments := EmitFragments(packet, dataBytesPerFragment);
      r := Ok(fragments);
    }
  }

  method WriteHeader(buf: array<byte>, h: FragmentHeader)
    requires buf.Length >= V7_HEADER_SIZE
    modifies buf
    ensures buf[..] == Splice(old(buf[..]), 0, HeaderBytes(h))
  {
    buf[0] := V7_MARKER;
    WriteUIntBE(buf, 1, h.groupId, 4);
    buf[5] := h.fragmentIndex % 256;
    buf[6] := h.totalFragments % 256;
    WriteUIntBE(buf, 7, h.v6aLength, 2);
  }

  method BuildFragment(packet: seq<byte>, groupId: nat, d: nat, i: nat, totalFragments: nat)
    returns (f: FragmentChunk)
    requires Splittable(packet, d) && totalFragments == ChunkCount(|packet|, d) && i < totalFragments
    ensures Offset(d, i) <= |packet| && f == FragmentAt(packet, groupId, d, i)
  {
    ChunkInside(|packet|, d, i);
    OffsetIsProduct(d, i);
    var offset := i * d;
    var chunkSize := Min(d, |packet| - offset);
    var chunk := packet[offset..offset + chunkSize];
    var header := FragmentHeader(groupId, i, totalFragments, |packet|);
    var payload := BuildPayload(header, chunk);
    f := FragmentChunk(payload, header);
  }

  /** `[header][chunk]` in a fresh buffer. */
  method BuildPayload(h: FragmentHeader, chunk: seq<byte>) returns (payload: seq<byte>)
    ensures payload == HeaderBytes(h) + chunk
  {
    var buf := new byte[V7_HEADER_SIZE + |chunk|];
    WriteHeader(buf, h);
    SetBytes(buf, V7_HEADER_SIZE, chunk);
    payload := buf[..];
  }

  /** There is one fragmentation. */
  lemma FragmentationUnique(packet: seq<byte>, groupId: nat, d: nat, a: seq<FragmentChunk>, b: seq<FragmentChunk>)
    requires d > 0 && IsFragmentation(packet, groupId, d, a) && IsFragmentation(packet, groupId, d, b)
    ensures a == b
  {
    hide FragmentAt, Offset, ChunkCount;
  }

  /**
   * splitV6AForBudget is documented to mirror splitV6A. Under the full budget and the same group id
   * the two give the same result for every packet, except exactly for those of 491 to 499 bytes.
   */
  lemma BudgetMirrorsUnlessBorderline(packet: seq<byte>, groupId: nat, r: Result<seq<FragmentChunk>>,
        b: Result<seq<FragmentChunk>>)
    requires IsSplit(packet, groupId, r) && IsBudgetSplit(packet, groupId, V7_HEADER_SIZE + MAX_CHUNK_SIZE, b)
    ensures r == b <==> !(MAX_CHUNK_SIZE < |packet| <= SINGLE_FRAME_LIMIT)
    ensures MAX_CHUNK_SIZE < |packet| <= SINGLE_FRAME_LIMIT ==> r == Ok([]) && b.Ok? && |b.value| == 2
  {
    if MAX_CHUNK_SIZE < |packet| <= MAX_V6A_LENGTH {
      OffsetIsProduct(MAX_CHUNK_SIZE, MAX_FRAGMENTS);
      CountWithin(|packet|, MAX_CHUNK_SIZE, MAX_FRAGMENTS);
      if |packet| <= SINGLE_FRAME_LIMIT {
        TwoChunks(|packet|);
      } else {
        FragmentationUnique(packet, groupId, MAX_CHUNK_SIZE, r.value, b.value);
      }
    }
    hide IsFragmentationPrefix;
  }

  lemma TwoChunks(n: nat)
    requires MAX_CHUNK_SIZE < n <= SINGLE_FRAME_LIMIT
    ensures ChunkCount(n, MAX_CHUNK_SIZE) == 2
  {
  }
}
