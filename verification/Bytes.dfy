/** Failure-compatible results and optional values used across the project. */
module Wrappers {

  datatype Option<+T> = None | Some(value: T)

  datatype Result<+T> = Ok(value: T) | Err(error: string)
}

/** Bytes, 32/64-bit conversions and the big-endian buffer helpers that every codec repeats. */
module Bytes {

  type byte = x: int | 0 <= x < 256

  const TWO_31 := 0x8000_0000
  const TWO_32 := 0x1_0000_0000
  const TWO_64 := 0x1_0000_0000_0000_0000

  function Pow256(n: nat): (p: nat)
    ensures p > 0
  {
    if n == 0 then 1 else 256 * Pow256(n - 1)
  }

  /** The low n bytes of v, most significant first. */
  function ToBE(v: nat, n: nat): (s: seq<byte>)
    ensures |s| == n
  {
    if n == 0 then [] else ToBE(v / 256, n - 1) + [v % 256]
  }

  /** The unsigned value of a big-endian byte string. */
  function FromBE(s: seq<byte>): nat {
    if s == [] then 0 else FromBE(s[..|s| - 1]) * 256 + s[|s| - 1]
  }

  /** JavaScript's signed 32-bit view of a number (`x | 0`). */
  function ToInt32(x: int): (r: int)
    ensures -TWO_31 <= r < TWO_31
    ensures (r - x) % TWO_32 == 0
  {
    var u := x % TWO_32;
    assert u == x - TWO_32 * (x / TWO_32);
    if u < TWO_31 then u else u - TWO_32
  }

  lemma {:induction false} FromBEBound(s: seq<byte>)
    ensures FromBE(s) < Pow256(|s|)
  {
    if s != [] {
      FromBEBound(s[..|s| - 1]);
    }
  }

  /** Writing then reading n big-endian bytes keeps every value below 256^n. */
  lemma {:induction false} FromToBE(v: nat, n: nat)
    requires v < Pow256(n)
    ensures FromBE(ToBE(v, n)) == v
  {
    if n > 0 {
      FromToBE(v / 256, n - 1);
      var s := ToBE(v, n);
      assert s[..|s| - 1] == ToBE(v / 256, n - 1);
    }
  }

  /** Reading then writing gives back the same bytes. */
  lemma {:induction false} ToFromBE(s: seq<byte>)
    ensures ToBE(FromBE(s), |s|) == s
  {
    if s != [] {
      var p := s[..|s| - 1];
      ToFromBE(p);
      assert FromBE(s) / 256 == FromBE(p) && FromBE(s) % 256 == s[|s| - 1];
      assert s == p + [s[|s| - 1]];
    }
  }

  lemma Pow256Values()
    ensures Pow256(2) == 0x1_0000 && Pow256(4) == TWO_32 && Pow256(8) == TWO_64
  {
    assert Pow256(1) == 256;
    assert Pow256(3) == 256 * Pow256(2);
    assert Pow256(5) == 256 * Pow256(4);
    assert Pow256(6) == 256 * Pow256(5);
    assert Pow256(7) == 256 * Pow256(6);
  }

  /** A length below 2^31 survives the 32-bit field although it is read as a signed number. */
  lemma LengthField(n: nat)
    requires n < TWO_31
    ensures ToInt32(FromBE(ToBE(n, 4))) == n
  {
    Pow256Values();
    FromToBE(n, 4);
    hide ToBE, FromBE;
  }

  lemma DivPow(v: nat, k: nat)
    ensures v / 256 / Pow256(k) == v / Pow256(k + 1)
  {
    var p := Pow256(k);
    var q := v / 256 / p;
    var r := v / 256 % p;
    assert v / 256 == p * q + r;
    assert v == 256 * (p * q + r) + v % 256;
    assert 256 * (p * q + r) == (256 * p) * q + 256 * r;
    assert 256 * r + v % 256 < 256 * p;
    DivUnique(v, 256 * p, q, 256 * r + v % 256);
  }

  lemma MulMono(a: nat, b: nat, d: nat)
    requires a <= b
    ensures d * a <= d * b
  {
    assert d * b == d * a + d * (b - a);
  }

  /** Euclidean division is determined by the equation it solves. */
  lemma DivUnique(v: nat, d: nat, q: nat, r: nat)
    requires r < d && v == d * q + r
    ensures v / d == q && v % d == r
  {
    var e := v / d;
    assert v == d * e + v % d;
    if e < q {
      MulMono(e + 1, q, d);
    } else if q < e {
      MulMono(q + 1, e, d);
    }
  }

  /** Byte i of the encoding is the value shifted right by 8(n-1-i) bits, masked to a byte. */
  lemma {:induction false} ToBEByte(v: nat, n: nat, i: nat)
    requires i < n
    ensures ToBE(v, n)[i] == v / Pow256(n - 1 - i) % 256
  {
    if i == n - 1 {
    } else {
      ToBEByte(v / 256, n - 1, i);
      DivPow(v, n - 2 - i);
    }
  }

  /** `data.slice(start, end)`, where a negative end counts from the back. */
  function Slice(data: seq<byte>, start: nat, end: int): seq<byte> {
    var e := if end < 0 then |data| + end else end;
    var f := if e > |data| then |data| else e;
    if start < f then data[start..f] else []
  }

  lemma SliceTail(data: seq<byte>, start: nat)
    requires start <= |data|
    ensures Slice(data, start, |data|) == data[start..]
  {
  }

  /** The contents of a buffer after t has been stored at offset. */
  function Splice(s: seq<byte>, offset: nat, t: seq<byte>): (r: seq<byte>)
    requires offset + |t| <= |s|
    ensures |r| == |s|
  {
    s[..offset] + t + s[offset + |t|..]
  }

  /** `buf.set(data, offset)` */
  method SetBytes(buf: array<byte>, offset: nat, data: seq<byte>)
    requires offset + |data| <= buf.Length
    modifies buf
    ensures buf[..] == Splice(old(buf[..]), offset, data)
  {
    var i := 0;
    while i < |data|
      invariant 0 <= i <= |data|
      invariant forall k :: 0 <= k < buf.Length ==>
        buf[k] == if offset <= k < offset + i then data[k - offset] else old(buf[k])
    {
      buf[offset + i] := data[i];
      i := i + 1;
    }
  }

  /** Storing data right behind the part already written extends that part. */
  method AppendBytes(buf: array<byte>, offset: nat, data: seq<byte>)
    requires offset + |data| <= buf.Length
    modifies buf
    ensures buf[..offset + |data|] == old(buf[..offset]) + data
  {
    SetBytes(buf, offset, data);
    assert buf[..offset + |data|] == buf[..][..offset + |data|];
  }

  /** The shift-and-mask loop behind writeUInt64BE (n = 8), writeUInt32BE (4) and writeUInt16BE (2). */
  method WriteUIntBE(buf: array<byte>, offset: nat, v: nat, n: nat)
    requires offset + n <= buf.Length
    modifies buf
    ensures buf[..] == Splice(old(buf[..]), offset, ToBE(v, n))
  {
    var i := 0;
    while i < n
      invariant 0 <= i <= n
      invariant forall k :: 0 <= k < buf.Length ==>
        buf[k] == if offset <= k < offset + i then ToBE(v, n)[k - offset] else old(buf[k])
    {
      ToBEByte(v, n, i);
      buf[offset + i] := v / Pow256(n - 1 - i) % 256;
      i := i + 1;
    }
  }

  method AppendUIntBE(buf: array<byte>, offset: nat, v: nat, n: nat)
    requires offset + n <= buf.Length
    modifies buf
    ensures buf[..offset + n] == old(buf[..offset]) + ToBE(v, n)
  {
    WriteUIntBE(buf, offset, v, n);
    assert buf[..offset + n] == buf[..][..offset + n];
  }

  /** The shift-and-or loop behind readUInt64BE and its narrower relatives. */
  method ReadUIntBE(buf: seq<byte>, offset: nat, n: nat) returns (v: nat)
    requires offset + n <= |buf|
    ensures v == FromBE(buf[offset..offset + n])
  {
    v := 0;
    var i := 0;
    while i < n
      invariant 0 <= i <= n
      invariant v == FromBE(buf[offset..offset + i])
    {
      assert buf[offset..offset + i + 1][..i] == buf[offset..offset + i];
      v := v * 256 + buf[offset + i];
      i := i + 1;
    }
  }
}
