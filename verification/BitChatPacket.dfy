/**
 * BITCHAT identifiers: unsigned 64-bit values whose canonical spelling is "0x" followed by
 * exactly sixteen lowercase hexadecimal digits.
 */
module BitChatPacket {
  import opened Wrappers
  import opened Bytes

  const LOWER_HEX := "0123456789abcdef"

  function Pow16(n: nat): (p: nat)
    ensures p > 0
  {
    if n == 0 then 1 else 16 * Pow16(n - 1)
  }

  /** `value.toString(16)` */
  function ToHex(v: nat): string {
    if v < 16 then [LOWER_HEX[v]] else ToHex(v / 16) + [LOWER_HEX[v % 16]]
  }

  /** `s.padStart(n, '0')` */
  function PadStart(s: string, n: nat): string
    decreases n - |s|
  {
    if |s| >= n then s else PadStart("0" + s, n)
  }

  /** Exactly n lowercase digits, most significant first. */
  function Digits(v: nat, n: nat): (s: string)
    ensures |s| == n
  {
    if n == 0 then "" else Digits(v / 16, n - 1) + [LOWER_HEX[v % 16]]
  }

  function DigitValue(c: char): int {
    if '0' <= c <= '9' then c as int - '0' as int
    else if 'a' <= c <= 'f' then c as int - 'a' as int + 10
    else if 'A' <= c <= 'F' then c as int - 'A' as int + 10
    else -1
  }

  predicate IsHexString(s: string) {
    forall i :: 0 <= i < |s| ==> DigitValue(s[i]) >= 0
  }

  predicate IsLowerHexString(s: string) {
    forall i :: 0 <= i < |s| ==> ('0' <= s[i] <= '9' || 'a' <= s[i] <= 'f')
  }

  predicate IsDecimalString(s: string) {
    forall i :: 0 <= i < |s| ==> '0' <= s[i] <= '9'
  }

  /** `BigInt(s)` for a digit string in the given base. */
  function ParseDigits(s: string, base: nat): (v: nat)
    requires IsHexString(s)
  {
    if s == "" then 0
    else ParseDigits(s[..|s| - 1], base) * base + DigitValue(s[|s| - 1])
  }

  predicate IsSpace(c: char) {
    c in {' ', '\t', '\n', '\r', '\U{000B}', '\U{000C}', '\U{00A0}', '\U{1680}', '\U{2028}', '\U{2029}',
          '\U{202F}', '\U{205F}', '\U{3000}', '\U{FEFF}'} || '\U{2000}' <= c <= '\U{200A}'
  }

  function TrimLeft(s: string): string {
    if s != "" && IsSpace(s[0]) then TrimLeft(s[1..]) else s
  }

  function TrimRight(s: string): string {
    if s != "" && IsSpace(s[|s| - 1]) then TrimRight(s[..|s| - 1]) else s
  }

  /** The canonical spelling of a 64-bit value. */
  function FormatId(v: nat): string {
    "0x" + PadStart(ToHex(v), 16)
  }

  /** `/^0x[0-9a-f]{16}$/` */
  predicate IsValidId(s: string) {
    |s| == 18 && s[..2] == "0x" && IsLowerHexString(s[2..])
  }

  predicate IsPrefixedHex(s: string) {
    |s| > 2 && s[..2] == "0x" && IsHexString(s[2..])
  }

  /** normalizeUInt64 on a bigint input. */
  function NormalizeBigInt(v: int): Result<string> {
    if v < 0 then Err("negative")
    else if v >= TWO_64 then Err("exceeds maximum")
    else Ok(FormatId(v))
  }

  /** normalizeUInt64 on a string input: hexadecimal with 0x, or decimal, surrounded by blanks. */
  function NormalizeString(s: string): Result<string> {
    var t := TrimLeft(TrimRight(s));
    if IsPrefixedHex(t) then NormalizeBigInt(ParseDigits(t[2..], 16))
    else if t != "" && IsDecimalString(t) then NormalizeBigInt(ParseDigits(t, 10))
    else Err("invalid string")
  }

  /** The value of a canonical identifier (`BigInt(id)`). */
  function IdValue(s: string): nat
    requires IsPrefixedHex(s)
  {
    ParseDigits(s[2..], 16)
  }

  lemma LowerHexDigit(d: nat)
    requires d < 16
    ensures DigitValue(LOWER_HEX[d]) == d
    ensures '0' <= LOWER_HEX[d] <= '9' || 'a' <= LOWER_HEX[d] <= 'f'
  {
  }

  lemma {:induction false} DigitsAreHex(v: nat, n: nat)
    ensures IsLowerHexString(Digits(v, n)) && IsHexString(Digits(v, n))
  {
    if n > 0 {
      DigitsAreHex(v / 16, n - 1);
      LowerHexDigit(v % 16);
    }
  }

  lemma {:induction false} ParseOfDigits(v: nat, n: nat)
    requires v < Pow16(n)
    ensures IsHexString(Digits(v, n)) && ParseDigits(Digits(v, n), 16) == v
  {
    DigitsAreHex(v, n);
    if n > 0 {
      ParseOfDigits(v / 16, n - 1);
      LowerHexDigit(v % 16);
      var s := Digits(v, n);
      assert s[..n - 1] == Digits(v / 16, n - 1);
    }
  }

  lemma {:induction false} DigitsOfParse(s: string)
    requires IsLowerHexString(s)
    ensures IsHexString(s) && ParseDigits(s, 16) < Pow16(|s|) && Digits(ParseDigits(s, 16), |s|) == s
  {
    if s != "" {
      var p, c := s[..|s| - 1], s[|s| - 1];
      DigitsOfParse(p);
      LowerHexChar(c);
      var v := ParseDigits(s, 16);
      assert v / 16 == ParseDigits(p, 16) && v % 16 == DigitValue(c);
      assert s == p + [c];
    }
  }

  lemma LowerHexChar(c: char)
    requires '0' <= c <= '9' || 'a' <= c <= 'f'
    ensures 0 <= DigitValue(c) < 16 && LOWER_HEX[DigitValue(c)] == c
  {
  }

  lemma {:induction false} PadPrefix(s: string, n: nat, c: char)
    ensures PadStart(s + [c], n + 1) == PadStart(s, n) + [c]
    decreases n - |s|
  {
    if |s| < n {
      PadPrefix("0" + s, n, c);
      assert "0" + (s + [c]) == ("0" + s) + [c];
    }
  }

  lemma {:induction false} PadZero(n: nat)
    ensures n >= 1 ==> PadStart("0", n) == Digits(0, n)
  {
    if n >= 2 {
      PadZero(n - 1);
      PadPrefix("0", n - 1, '0');
      assert PadStart("0", n) == PadStart("0" + "0", n);
      assert "0" + "0" == "0" + ['0'];
    }
  }

  lemma {:induction false} PadSingle(d: nat, n: nat)
    requires d < 16 && n >= 1
    ensures PadStart([LOWER_HEX[d]], n) == Digits(d, n)
  {
    var c := LOWER_HEX[d];
    assert d / 16 == 0 && d % 16 == d;
    if n >= 2 {
      PadZero(n - 1);
      PadPrefix("0", n - 1, c);
      hide PadStart;
      PadOnce([c], n);
    } else {
      assert Digits(d, 1) == Digits(d / 16, 0) + [c];
    }
  }

  lemma PadOnce(s: string, n: nat)
    requires |s| < n
    ensures PadStart(s, n) == PadStart("0" + s, n)
  {
  }

  /** toString(16) followed by padStart writes exactly n digits when the value fits in n digits. */
  lemma {:induction false} PaddedHexIsDigits(v: nat, n: nat)
    requires 1 <= n && v < Pow16(n)
    ensures PadStart(ToHex(v), n) == Digits(v, n)
  {
    if v < 16 {
      PadSingle(v, n);
    } else {
      PaddedHexIsDigits(v / 16, n - 1);
      PadPrefix(ToHex(v / 16), n - 1, LOWER_HEX[v % 16]);
    }
  }

  lemma Pow16Of16()
    ensures Pow16(16) == TWO_64
  {
    assert Pow16(4) == 0x1_0000;
    assert Pow16(8) == 0x1_0000_0000;
    assert Pow16(12) == 0x1_0000_0000_0000;
  }

  /** Every 64-bit value has a canonical spelling that reads back as that value. */
  lemma FormatThenRead(v: nat)
    requires v < TWO_64
    ensures FormatId(v) == "0x" + Digits(v, 16)
    ensures IsValidId(FormatId(v)) && IsPrefixedHex(FormatId(v)) && IdValue(FormatId(v)) == v
  {
    Pow16Of16();
    PaddedHexIsDigits(v, 16);
    ParseOfDigits(v, 16);
    DigitsAreHex(v, 16);
    assert FormatId(v)[2..] == Digits(v, 16);
  }

  /** Every canonical spelling is the spelling of its value. */
  lemma ReadThenFormat(s: string)
    requires IsValidId(s)
    ensures IsPrefixedHex(s) && IdValue(s) < TWO_64 && FormatId(IdValue(s)) == s
  {
    Pow16Of16();
    DigitsOfParse(s[2..]);
    PaddedHexIsDigits(IdValue(s), 16);
    assert s == s[..2] + s[2..];
  }

  /** Canonical spellings and 64-bit values correspond one to one. */
  lemma IdsAreValues(s: string, t: string)
    requires IsValidId(s) && IsValidId(t)
    ensures IsPrefixedHex(s) && IsPrefixedHex(t)
    ensures IdValue(s) == IdValue(t) <==> s == t
  {
    ReadThenFormat(s);
    ReadThenFormat(t);
  }

  lemma TrimKeepsUnspaced(s: string)
    requires s != "" && !IsSpace(s[0]) && !IsSpace(s[|s| - 1])
    ensures TrimLeft(TrimRight(s)) == s
  {
  }

  /** normalizeUInt64 always yields a canonical spelling, and leaves canonical spellings alone. */
  lemma NormalizeIdempotent(s: string)
    requires NormalizeString(s).Ok?
    ensures IsValidId(NormalizeString(s).value)
    ensures NormalizeString(NormalizeString(s).value) == NormalizeString(s)
  {
    var t := TrimLeft(TrimRight(s));
    var v := if IsPrefixedHex(t) then ParseDigits(t[2..], 16) else ParseDigits(t, 10);
    FormatThenRead(v);
    NormalizeFixesCanonical(FormatId(v));
  }

  /** The canonical spellings are exactly the fixed points of normalizeUInt64. */
  lemma NormalizeFixesCanonical(s: string)
    ensures IsValidId(s) <==> NormalizeString(s) == Ok(s)
  {
    if IsValidId(s) {
      ReadThenFormat(s);
      assert s[17] == s[2..][15];
      TrimKeepsUnspaced(s);
    } else if NormalizeString(s) == Ok(s) {
      var t := TrimLeft(TrimRight(s));
      var v := if IsPrefixedHex(t) then ParseDigits(t[2..], 16) else ParseDigits(t, 10);
      FormatThenRead(v);
    }
  }
}
