/** The hand-written UTF-8 codec on 16-bit code units. Bit masks and shifts appear as divisions by powers of two. */
module Utf8 {
  import opened Wrappers
  import opened Bytes

  type unit = x: int | 0 <= x < 0x1_0000

  predicate IsHigh(u: int) { 0xD800 <= u <= 0xDBFF }

  predicate IsLow(u: int) { 0xDC00 <= u <= 0xDFFF }

  /** Surrogates are paired only when a high one is followed by a low one; any other surrogate stands for itself. */
  predicate StartsWithPair(s: seq<unit>) {
    |s| >= 2 && IsHigh(s[0]) && IsLow(s[1])
  }

  /** The code point of a surrogate pair. */
  function PairCode(high: int, low: int): (code: nat)
    requires IsHigh(high) && IsLow(low)
    ensures 0x1_0000 <= code < 0x11_0000
  {
    (high - 0xD800) * 0x400 + (low - 0xDC00) + 0x1_0000
  }

  function FirstWidth(s: seq<unit>): nat
    requires s != []
  {
    if StartsWithPair(s) then 2 else 1
  }

  function FirstCode(s: seq<unit>): (code: nat)
    requires s != []
    ensures code < 0x11_0000
    ensures StartsWithPair(s) <==> code >= 0x1_0000
  {
    if StartsWithPair(s) then PairCode(s[0], s[1]) else s[0]
  }

  function EncodeCode(code: nat): (b: seq<byte>)
    requires code < 0x11_0000
    ensures 1 <= |b| <= 4
  {
    if code < 0x80 then [code]
    else if code < 0x800 then [0xC0 + code / 0x40, 0x80 + code % 0x40]
    else if code < 0x1_0000 then [0xE0 + code / 0x1000, 0x80 + code / 0x40 % 0x40, 0x80 + code % 0x40]
    else [0xF0 + code / 0x4_0000, 0x80 + code / 0x1000 % 0x40, 0x80 + code / 0x40 % 0x40, 0x80 + code % 0x40]
  }

  /** The UTF-8 form of a string. */
  function Encoding(s: seq<unit>): seq<byte> {
    if s == [] then [] else EncodeCode(FirstCode(s)) + Encoding(s[FirstWidth(s)..])
  }

  datatype Lead = Lead(bits: nat, length: nat) | NoLead

  /** What a first byte announces. */
  function LeadOf(b: byte): Lead {
    if b < 0x80 then Lead(b, 1)
    else if b / 0x20 == 6 then Lead(b % 0x20, 2)
    else if b / 0x10 == 14 then Lead(b % 0x10, 3)
    else if b / 8 == 30 then Lead(b % 8, 4)
    else NoLead
  }

  /** Adds six bits for each continuation byte from j on. */
  function Continue(code: nat, b: seq<byte>, j: nat): Result<nat>
    decreases |b| - j
  {
    if j >= |b| then Ok(code)
    else if b[j] / 0x40 != 2 then Err("Invalid UTF-8 continuation byte")
    else Continue(code * 0x40 + b[j] as int % 0x40, b, j + 1)
  }

  predicate Overlong(code: nat, length: nat) {
    (length == 2 && code < 0x80) || (length == 3 && code < 0x800) || (length == 4 && code < 0x1_0000)
  }

  /** The code units of a decoded code point; only the low 16 bits of each survive. */
  function UnitsOf(code: nat): seq<unit> {
    if code <= 0xFFFF then [code]
    else [(0xD800 + (code - 0x1_0000) / 0x400) % 0x1_0000, 0xDC00 + (code - 0x1_0000) % 0x400]
  }

  /** The first code point of a byte string, and how many bytes it takes. */
  function DecodeFirst(b: seq<byte>): (r: Result<(nat, nat)>)
    requires b != []
    ensures r.Ok? ==> 1 <= r.value.1 <= |b|
  {
    match LeadOf(b[0])
    case NoLead => Err("Invalid UTF-8 start byte")
    case Lead(bits, n) =>
      if n > |b| then Err("Truncated UTF-8 sequence")
      else
        match Continue(bits, b[..n], 1)
        case Err(e) => Err(e)
        case Ok(code) => if Overlong(code, n) then Err("Overlong UTF-8 encoding") else Ok((code, n))
  }

  function Prefixed(chars: seq<unit>, r: Result<seq<unit>>): Result<seq<unit>> {
    if r.Ok? then Ok(chars + r.value) else r
  }

  function Decoding(b: seq<byte>): Result<seq<unit>> {
    if b == [] then Ok([])
    else
      match DecodeFirst(b)
      case Err(e) => Err(e)
      case Ok((code, n)) => Prefixed(UnitsOf(code), Decoding(b[n..]))
  }

  lemma OneByte(a: byte, rest: seq<byte>)
    requires a < 0x80
    ensures DecodeFirst([a] + rest) == Ok((a, 1))
  {
    assert ([a] + rest)[..1] == [a];
    assert Continue(a, [a], 1) == Ok(a);
  }

  lemma TwoBytes(a: nat, b: nat, rest: seq<byte>)
    requires a < 0x20 && b < 0x40 && a * 0x40 + b >= 0x80
    ensures DecodeFirst([0xC0 + a, 0x80 + b] + rest) == Ok((a * 0x40 + b, 2))
  {
    var e: seq<byte> := [0xC0 + a, 0x80 + b];
    assert (e + rest)[..2] == e;
    assert Continue(a, e, 1) == Continue(a * 0x40 + b, e, 2);
  }

  lemma ThreeBytes(a: nat, b: nat, c: nat, rest: seq<byte>)
    requires a < 0x10 && b < 0x40 && c < 0x40 && (a * 0x40 + b) * 0x40 + c >= 0x800
    ensures DecodeFirst([0xE0 + a, 0x80 + b, 0x80 + c] + rest) == Ok(((a * 0x40 + b) * 0x40 + c, 3))
  {
    var e: seq<byte> := [0xE0 + a, 0x80 + b, 0x80 + c];
    assert (e + rest)[..3] == e;
    assert Continue(a * 0x40 + b, e, 2) == Continue((a * 0x40 + b) * 0x40 + c, e, 3);
    assert Continue(a, e, 1) == Continue(a * 0x40 + b, e, 2);
  }

  lemma FourBytes(a: nat, b: nat, c: nat, d: nat, rest: seq<byte>)
    requires a < 8 && b < 0x40 && c < 0x40 && d < 0x40 && ((a * 0x40 + b) * 0x40 + c) * 0x40 + d >= 0x1_0000
    ensures DecodeFirst([0xF0 + a, 0x80 + b, 0x80 + c, 0x80 + d] + rest)
      == Ok((((a * 0x40 + b) * 0x40 + c) * 0x40 + d, 4))
  {
    var e: seq<byte> := [0xF0 + a, 0x80 + b, 0x80 + c, 0x80 + d];
    assert (e + rest)[..4] == e;
    assert Continue((a * 0x40 + b) * 0x40 + c, e, 3) == Continue(((a * 0x40 + b) * 0x40 + c) * 0x40 + d, e, 4);
    assert Continue(a * 0x40 + b, e, 2) == Continue((a * 0x40 + b) * 0x40 + c, e, 3);
    assert Continue(a, e, 1) == Continue(a * 0x40 + b, e, 2);
  }

  /** Whatever follows it, an encoded code point decodes to itself. */
  lemma FirstRoundTrip(code: nat, rest: seq<byte>)
    requires code < 0x11_0000
    ensures DecodeFirst(EncodeCode(code) + rest) == Ok((code, |EncodeCode(code)|))
  {
    if code < 0x1_0000 {
      ShortRoundTrip(code, rest);
    } else {
      Digits(code);
      FourBytes(code / 0x4_0000, code / 0x1000 % 0x40, code / 0x40 % 0x40, code % 0x40, rest);
    }
    hide DecodeFirst;
  }

  lemma ShortRoundTrip(code: nat, rest: seq<byte>)
    requires code < 0x1_0000
    ensures DecodeFirst(EncodeCode(code) + rest) == Ok((code, |EncodeCode(code)|))
  {
    if code < 0x80 {
      OneByte(code, rest);
    } else if code < 0x800 {
      TwoBytes(code / 0x40, code % 0x40, rest);
    } else {
      Digits(code);
      ThreeBytes(code / 0x1000, code / 0x40 % 0x40, code % 0x40, rest);
    }
    hide DecodeFirst;
  }

  lemma Digits(code: nat)
    ensures code / 0x1000 == code / 0x40 / 0x40 && code / 0x4_0000 == code / 0x1000 / 0x40
    ensures (code / 0x1000 * 0x40 + code / 0x40 % 0x40) * 0x40 + code % 0x40 == code
    ensures ((code / 0x4_0000 * 0x40 + code / 0x1000 % 0x40) * 0x40 + code / 0x40 % 0x40) * 0x40 + code % 0x40 == code
  {
  }

  lemma UnitsOfFirst(s: seq<unit>)
    requires s != []
    ensures UnitsOf(FirstCode(s)) == s[..FirstWidth(s)]
  {
  }

  /** Every string survives, whether or not its surrogates are paired. */
  lemma {:induction false} RoundTrip(s: seq<unit>)
    ensures Decoding(Encoding(s)) == Ok(s)
  {
    if s != [] {
      var e, rest := EncodeCode(FirstCode(s)), s[FirstWidth(s)..];
      RoundTrip(rest);
      FirstRoundTrip(FirstCode(s), Encoding(rest));
      UnitsOfFirst(s);
      assert Encoding(s) == e + Encoding(rest);
      assert Encoding(s)[|e|..] == Encoding(rest);
      assert s == s[..FirstWidth(s)] + rest;
    }
    hide EncodeCode, FirstCode, FirstWidth, UnitsOf, DecodeFirst, Encoding;
  }

  /** Different strings have different encodings. */
  lemma EncodingInjective(s: seq<unit>, t: seq<unit>)
    ensures Encoding(s) == Encoding(t) <==> s == t
  {
    RoundTrip(s);
    RoundTrip(t);
  }

  lemma DecodingStep(code: nat, rest: seq<byte>)
    requires code < 0x11_0000 && Decoding(rest).Ok?
    ensures Decoding(EncodeCode(code) + rest) == Ok(UnitsOf(code) + Decoding(rest).value)
  {
    FirstRoundTrip(code, rest);
    assert (EncodeCode(code) + rest)[|EncodeCode(code)|..] == rest;
    hide EncodeCode, DecodeFirst, UnitsOf;
  }

  lemma EncodedCodeReads(code: nat)
    requires code < 0x11_0000
    ensures Decoding(EncodeCode(code)) == Ok(UnitsOf(code))
  {
    DecodingStep(code, []);
    assert EncodeCode(code) + [] == EncodeCode(code) && UnitsOf(code) + [] == UnitsOf(code);
    hide EncodeCode, UnitsOf, DecodeFirst;
  }

  // Which byte strings are encodings ---------------------------------------------------------------------

  /** A code point from 0x110000 on starts at i: its first byte is 0xF4 or more, and not 0xF4 0x80 to 0xF4 0x8F. */
  predicate TooLargeAt(b: seq<byte>, i: nat) {
    i < |b| && (b[i] > 0xF4 || (b[i] == 0xF4 && i + 1 < |b| && b[i + 1] >= 0x90))
  }

  /** An encoded high surrogate starts at i, and an encoded low one directly follows it. */
  predicate SplitPairAt(b: seq<byte>, i: nat) {
    i + 4 < |b| && b[i] == 0xED && 0xA0 <= b[i + 1] <= 0xAF && b[i + 3] == 0xED && 0xB0 <= b[i + 4] <= 0xBF
  }

  /** What the encoder never writes. */
  predicate ForeignAt(b: seq<byte>, i: nat) {
    TooLargeAt(b, i) || SplitPairAt(b, i)
  }

  predicate Native(b: seq<byte>) {
    forall i :: 0 <= i < |b| ==> !ForeignAt(b, i)
  }

  lemma EncodedSurrogate(code: nat)
    requires code < 0x11_0000
    ensures var e := EncodeCode(code);
      && (IsHigh(code) <==> e[0] == 0xED && 0xA0 <= e[1] <= 0xAF)
      && (IsLow(code) <==> e[0] == 0xED && 0xB0 <= e[1] <= 0xBF)
      && (e[0] == 0xED ==> |e| == 3)
  {
  }

  lemma EncodedBytes(code: nat)
    requires code < 0x11_0000
    ensures var e := EncodeCode(code);
      && e[0] <= 0xF4 && (e[0] == 0xF4 ==> |e| == 4 && e[1] < 0x90)
      && forall i :: 1 <= i < |e| ==> e[i] < 0xC0
  {
  }

  /** In front of an encoding, an encoded code point is native unless the two form a pair. */
  lemma NativeInFront(code: nat, t: seq<unit>, i: nat)
    requires code < 0x11_0000 && !(IsHigh(code) && t != [] && IsLow(t[0])) && i < |EncodeCode(code)|
    ensures !ForeignAt(EncodeCode(code) + Encoding(t), i)
  {
    EncodedBytes(code);
    EncodedSurrogate(code);
    if t != [] { EncodedSurrogate(FirstCode(t)); }
    hide EncodeCode;
  }

  /** Encodings are native. */
  lemma {:induction false} EncodingNative(s: seq<unit>)
    ensures Native(Encoding(s))
  {
    if s != [] {
      var code, rest := FirstCode(s), s[FirstWidth(s)..];
      var e, tail := EncodeCode(code), Encoding(rest);
      EncodingNative(rest);
      assert !(IsHigh(code) && rest != [] && IsLow(rest[0]));
      assert Encoding(s) == e + tail;
      hide EncodeCode, FirstCode, FirstWidth, ForeignAt, Encoding;
      forall i | 0 <= i < |e + tail|
        ensures !ForeignAt(e + tail, i)
      {
        if i < |e| {
          NativeInFront(code, rest, i);
        } else {
          ForeignShift(e, tail, i - |e|);
        }
      }
    }
  }

  lemma ForeignShift(e: seq<byte>, tail: seq<byte>, i: nat)
    ensures ForeignAt(e + tail, |e| + i) <==> ForeignAt(tail, i)
  {
  }

  lemma ContinueIs(code: nat, e: seq<byte>, j: nat)
    requires Continue(code, e, j).Ok? && j < |e|
    ensures 0x80 <= e[j] < 0xC0 && Continue(code, e, j) == Continue(code * 0x40 + (e[j] as int - 0x80), e, j + 1)
    ensures j + 1 == |e| ==> Continue(code, e, j) == Ok(code * 0x40 + (e[j] as int - 0x80))
  {
  }

  predicate IsTail(x: int) { 0x80 <= x < 0xC0 }

  /** What an accepted first code point is made of. */
  lemma FirstParts(b: seq<byte>)
    requires b != [] && DecodeFirst(b).Ok?
    ensures var (code, n) := DecodeFirst(b).value;
      && 1 <= n <= 4 && n <= |b| && !Overlong(code, n)
      && (n == 1 ==> code == b[0] < 0x80)
      && (n == 2 ==> 0xC0 <= b[0] < 0xE0 && IsTail(b[1]) && code == (b[0] as int - 0xC0) * 0x40 + (b[1] as int - 0x80))
      && (n == 3 ==>
            && 0xE0 <= b[0] < 0xF0 && IsTail(b[1]) && IsTail(b[2])
            && code == ((b[0] as int - 0xE0) * 0x40 + (b[1] as int - 0x80)) * 0x40 + (b[2] as int - 0x80))
      && (n == 4 ==>
            && 0xF0 <= b[0] < 0xF8 && IsTail(b[1]) && IsTail(b[2]) && IsTail(b[3])
            && code == (((b[0] as int - 0xF0) * 0x40 + (b[1] as int - 0x80)) * 0x40 + (b[2] as int - 0x80)) * 0x40
              + (b[3] as int - 0x80))
  {
    var lead := LeadOf(b[0]);
    var e := b[..lead.length];
    if lead.length >= 2 {
      hide Continue;
      ContinueIs(lead.bits, e, 1);
      var two := lead.bits * 0x40 + (b[1] as int - 0x80);
      if lead.length >= 3 {
        ContinueIs(two, e, 2);
        if lead.length == 4 { ContinueIs(two * 0x40 + (b[2] as int - 0x80), e, 3); }
      }
    }
  }

  lemma DigitsOf(a: nat, b: nat, c: nat, d: nat)
    requires b < 0x40 && c < 0x40 && d < 0x40
    ensures var two := a * 0x40 + b;
      var three := two * 0x40 + c;
      var four := three * 0x40 + d;
      && four / 0x4_0000 == a && four / 0x1000 == two && four / 0x40 == three
      && two % 0x40 == b && three % 0x40 == c && four % 0x40 == d
  {
  }

  lemma TwoReencode(a: nat, b: nat)
    requires a < 0x20 && b < 0x40 && a * 0x40 + b >= 0x80
    ensures EncodeCode(a * 0x40 + b) == [0xC0 + a, 0x80 + b]
  {
  }

  lemma ThreeReencode(a: nat, b: nat, c: nat)
    requires a < 0x10 && b < 0x40 && c < 0x40 && (a * 0x40 + b) * 0x40 + c >= 0x800
    ensures EncodeCode((a * 0x40 + b) * 0x40 + c) == [0xE0 + a, 0x80 + b, 0x80 + c]
  {
  }

  lemma FourReencode(a: nat, b: nat, c: nat, d: nat)
    requires b < 0x40 && c < 0x40 && d < 0x40 && 0x1_0000 <= ((a * 0x40 + b) * 0x40 + c) * 0x40 + d < 0x11_0000
    ensures EncodeCode(((a * 0x40 + b) * 0x40 + c) * 0x40 + d) == [0xF0 + a, 0x80 + b, 0x80 + c, 0x80 + d]
  {
    DigitsOf(a, b, c, d);
    var code := ((a * 0x40 + b) * 0x40 + c) * 0x40 + d;
    assert EncodeCode(code) ==
      [0xF0 + code / 0x4_0000, 0x80 + code / 0x1000 % 0x40, 0x80 + code / 0x40 % 0x40, 0x80 + code % 0x40];
    hide EncodeCode;
  }

  /** The bytes of a code point below 0x110000 are the ones it is encoded in. */
  lemma FirstReencodes(b: seq<byte>)
    requires b != [] && DecodeFirst(b).Ok? && DecodeFirst(b).value.0 < 0x11_0000
    ensures EncodeCode(DecodeFirst(b).value.0) == b[..DecodeFirst(b).value.1]
  {
    FirstParts(b);
    var n := DecodeFirst(b).value.1;
    if n == 1 {
      assert EncodeCode(b[0]) == [b[0]];
    }
    hide DecodeFirst, EncodeCode;
    if n == 2 {
      TwoReencode(b[0] as int - 0xC0, b[1] as int - 0x80);
    } else if n == 3 {
      ThreeReencode(b[0] as int - 0xE0, b[1] as int - 0x80, b[2] as int - 0x80);
    } else if n == 4 {
      FourReencode(b[0] as int - 0xF0, b[1] as int - 0x80, b[2] as int - 0x80, b[3] as int - 0x80);
    }
  }

  lemma NotTooLarge(b: seq<byte>)
    requires b != [] && DecodeFirst(b).Ok?
    ensures TooLargeAt(b, 0) <==> DecodeFirst(b).value.0 >= 0x11_0000
  {
    FirstParts(b);
    hide DecodeFirst;
  }

  /** Units of a code point keep their meaning in front of t unless they pair up with its first unit. */
  lemma EncodingOfUnits(code: nat, t: seq<unit>)
    requires code < 0x11_0000 && !(IsHigh(code) && t != [] && IsLow(t[0]))
    ensures Encoding(UnitsOf(code) + t) == EncodeCode(code) + Encoding(t)
  {
    var s := UnitsOf(code) + t;
    hide EncodeCode;
    assert FirstCode(s) == code;
    hide FirstCode, Encoding;
    assert s[FirstWidth(s)..] == t;
  }

  /** A native, accepted byte string is the encoding of its decoding. */
  lemma {:induction false} NativeReencodes(b: seq<byte>)
    requires Decoding(b).Ok? && Native(b)
    ensures Encoding(Decoding(b).value) == b
  {
    if b != [] {
      var (code, n) := DecodeFirst(b).value;
      var tail := b[n..];
      assert !ForeignAt(b, 0);
      assert b == b[..n] + tail;
      forall i | 0 <= i < |tail|
        ensures !ForeignAt(tail, i)
      {
        ForeignShift(b[..n], tail, i);
        assert !ForeignAt(b, n + i);
      }
      NativeReencodes(tail);
      NotTooLarge(b);
      FirstReencodes(b);
      var t := Decoding(tail).value;
      EncodedSurrogate(code);
      if t != [] { EncodedSurrogate(FirstCode(t)); }
      hide EncodeCode, DecodeFirst, Native, UnitsOf, FirstCode, FirstWidth;
      EncodingOfUnits(code, t);
    }
  }

  /** Exactly the native byte strings are reproduced by encoding what they decode to. */
  lemma ReencodesExactly(b: seq<byte>)
    requires Decoding(b).Ok?
    ensures Encoding(Decoding(b).value) == b <==> Native(b)
  {
    hide Native, Encoding, Decoding;
    EncodingNative(Decoding(b).value);
    if Native(b) { NativeReencodes(b); }
  }

  /** The encoder writes exactly the native byte strings that the decoder accepts. */
  lemma EncodingsExactly(b: seq<byte>)
    ensures (exists s :: Encoding(s) == b) <==> Decoding(b).Ok? && Native(b)
  {
    hide Native, Encoding, Decoding;
    if s :| Encoding(s) == b {
      RoundTrip(s);
      EncodingNative(s);
    }
    if Decoding(b).Ok? && Native(b) { NativeReencodes(b); }
  }

  /** Separately encoded surrogates are accepted, and read as the pair, which is encoded in four bytes, not six. */
  lemma SplitPairCollides(high: unit, low: unit)
    requires IsHigh(high) && IsLow(low)
    ensures var b := EncodeCode(high) + EncodeCode(low);
      && Decoding(b) == Ok([high, low]) && SplitPairAt(b, 0)
      && Encoding([high, low]) != b && |b| == 6 && |Encoding([high, low])| == 4
  {
    assert [high, low][2..] == [];
    assert Encoding([high, low]) == EncodeCode(PairCode(high, low)) + Encoding([]);
    var b := EncodeCode(high) + EncodeCode(low);
    EncodedCodeReads(low);
    DecodingStep(high, EncodeCode(low));
    assert UnitsOf(high) == [high] && UnitsOf(low) == [low] && [high] + [low] == [high, low];
    EncodedSurrogate(high);
    EncodedSurrogate(low);
    hide Decoding, UnitsOf, EncodeCode, Encoding;
    assert ForeignAt(b, 0);
    EncodingNative([high, low]);
  }

  /** Code points from 0x110000 on are accepted; this one reads as two low surrogates. */
  lemma LargeCodeCollides()
    ensures var b := [0xF4, 0x90, 0x80, 0x80];
      Decoding(b) == Ok([0xDC00, 0xDC00]) && TooLargeAt(b, 0) && Encoding([0xDC00, 0xDC00]) != b
  {
    hide EncodeCode, DecodeFirst;
    FourBytes(4, 0x10, 0, 0, []);
    var b := [0xF4, 0x90, 0x80, 0x80];
    assert b + [] == b && b[4..] == [];
    assert UnitsOf(0x11_0000) == [0xDC00, 0xDC00] && [0xDC00, 0xDC00] + [] == [0xDC00, 0xDC00];
    hide UnitsOf, Encoding;
    EncodingNative([0xDC00, 0xDC00]);
    assert ForeignAt(b, 0);
  }

  method EncodeText(str: seq<unit>) returns (bytes: seq<byte>)
    ensures bytes == Encoding(str)
  {
    bytes := [];
    var i := 0;
    while i < |str|
      invariant 0 <= i <= |str| && bytes + Encoding(str[i..]) == Encoding(str)
    {
      var rest := str[i..];
      var code: int := str[i];
      if IsHigh(code) && i + 1 < |str| && IsLow(str[i + 1]) {
        code := PairCode(code, str[i + 1]);
        i := i + 1;
      }
      assert code == FirstCode(rest);
      i := i + 1;
      assert str[i..] == rest[FirstWidth(rest)..];
      bytes := bytes + EncodeCode(code);
    }
    assert str[i..] == [];
  }

  /** One turn of the decoding loop: the code point at i and the bytes it takes. */
  method DecodePoint(bytes: seq<byte>, i: nat) returns (r: Result<(nat, nat)>)
    requires i < |bytes|
    ensures r == DecodeFirst(bytes[i..])
  {
    ghost var rest := bytes[i..];
    var lead := LeadOf(bytes[i]);
    if lead.NoLead? {
      return Err("Invalid UTF-8 start byte");
    }
    if i + lead.length > |bytes| {
      return Err("Truncated UTF-8 sequence");
    }
    var codePoint: nat := lead.bits;
    var j := 1;
    while j < lead.length
      invariant 1 <= j <= lead.length
      invariant Continue(codePoint, rest[..lead.length], j) == Continue(lead.bits, rest[..lead.length], 1)
    {
      if bytes[i + j] / 0x40 != 2 {
        return Err("Invalid UTF-8 continuation byte");
      }
      codePoint := codePoint * 0x40 + bytes[i + j] as int % 0x40;
      j := j + 1;
    }
    r := if Overlong(codePoint, lead.length) then Err("Overlong UTF-8 encoding") else Ok((codePoint, lead.length));
  }

  /** The bytes before i have been decoded to chars. */
  ghost predicate Decoded(bytes: seq<byte>, i: nat, chars: seq<unit>) {
    i <= |bytes| && Decoding(bytes) == Prefixed(chars, Decoding(bytes[i..]))
  }

  lemma DecodedEnds(bytes: seq<byte>, chars: seq<unit>)
    ensures Decoded(bytes, 0, [])
    ensures Decoded(bytes, |bytes|, chars) ==> Decoding(bytes) == Ok(chars)
  {
    assert bytes[0..] == bytes && bytes[|bytes|..] == [];
    PrefixedEnds([], Decoding(bytes));
    PrefixedEnds(chars, Ok([]));
  }

  /** One more code point has been decoded behind chars. */
  lemma DecodedMore(bytes: seq<byte>, i: nat, chars: seq<unit>, code: nat, n: nat)
    requires i < |bytes| && DecodeFirst(bytes[i..]) == Ok((code, n)) && Decoded(bytes, i, chars)
    ensures i + n <= |bytes| && Decoded(bytes, i + n, chars + UnitsOf(code))
  {
    hide UnitsOf, DecodeFirst, Prefixed;
    var rest := bytes[i..];
    assert bytes[i + n..] == rest[n..];
    PrefixedMore(chars, UnitsOf(code), Decoding(rest[n..]));
  }

  lemma DecodingFails(bytes: seq<byte>, i: nat, chars: seq<unit>, e: string)
    requires i < |bytes| && DecodeFirst(bytes[i..]) == Err(e) && Decoded(bytes, i, chars)
    ensures Decoding(bytes) == Err(e)
  {
    hide DecodeFirst;
  }

  method DecodeText(bytes: seq<byte>) returns (r: Result<seq<unit>>)
    ensures r == Decoding(bytes)
  {
    var chars: seq<unit> := [];
    var i := 0;
    DecodedEnds(bytes, []);
    hide UnitsOf, DecodeFirst, Decoded;
    while i < |bytes|
      invariant 0 <= i <= |bytes| && Decoded(bytes, i, chars)
      decreases |bytes| - i
    {
      var point := DecodePoint(bytes, i);
      if point.Err? {
        DecodingFails(bytes, i, chars, point.error);
        return Err(point.error);
      }
      var (codePoint, seqLen) := point.value;
      DecodedMore(bytes, i, chars, codePoint, seqLen);
      chars := chars + UnitsOf(codePoint);
      i := i + seqLen;
    }
    DecodedEnds(bytes, chars);
    r := Ok(chars);
  }

  lemma PrefixedEnds(chars: seq<unit>, r: Result<seq<unit>>)
    ensures Prefixed([], r) == r
    ensures r.Err? ==> Prefixed(chars, r) == r
    ensures r == Ok([]) ==> Prefixed(chars, r) == Ok(chars)
  {
    assert r.Ok? ==> [] + r.value == r.value;
    assert chars + [] == chars;
  }

  lemma PrefixedMore(a: seq<unit>, b: seq<unit>, r: Result<seq<unit>>)
    ensures Prefixed(a, Prefixed(b, r)) == Prefixed(a + b, r)
  {
    if r.Ok? {
      assert a + (b + r.value) == (a + b) + r.value;
    }
  }

  /** utf8ByteLength counts without encoding. */
  method ByteLength(str: seq<unit>) returns (bytes: nat)
    ensures bytes == |Encoding(str)|
  {
    bytes := 0;
    var i := 0;
    while i < |str|
      invariant 0 <= i <= |str| && bytes + |Encoding(str[i..])| == |Encoding(str)|
    {
      var rest := str[i..];
      var code: int := str[i];
      if IsHigh(code) && i + 1 < |str| && IsLow(str[i + 1]) {
        code := PairCode(code, str[i + 1]);
        i := i + 1;
      }
      assert code == FirstCode(rest);
      i := i + 1;
      assert str[i..] == rest[FirstWidth(rest)..];
      bytes := bytes + if code < 0x80 then 1 else if code < 0x800 then 2 else if code < 0x1_0000 then 3 else 4;
    }
  }
}
