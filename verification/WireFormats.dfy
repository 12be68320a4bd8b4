/** The wire formats byte by byte: where each field stands, and how numbers, characters and identifiers are spelled. */
module WireFormats {
  import opened Wrappers
  import opened Bytes
  import Utf8
  import BitChatPacket
  import Fragments = FragmentCodec
  import Messages = BinaryMessageCodec
  import Frames = V6BFrameCodec
  import Envelopes = BitChatPacketCodec
  import Payloads = ReliabilityPayloads
  import Control = TxControlCodec
  import Reassembler
  import PeerMap

  /** The bytes are those of v, the most significant first. */
  ghost predicate IsBE(b: seq<byte>, v: nat) {
    forall i :: 0 <= i < |b| ==> b[i] == v / Pow256(|b| - 1 - i) % 256
  }

  lemma ToBEIs(v: nat, n: nat)
    ensures IsBE(ToBE(v, n), v)
  {
    forall i | 0 <= i < n
      ensures ToBE(v, n)[i] == v / Pow256(n - 1 - i) % 256
    {
      ToBEByte(v, n, i);
    }
  }

  /** Exactly these frames are encoded. */
  lemma FrameAccepted(sequence: int, frameType: int, payload: seq<byte>)
    ensures Frames.Encode(sequence, frameType, payload).Ok? <==>
      && 0 <= sequence < TWO_32 && |payload| <= 499
      && frameType in {1, 2, 0x10, 0x11, 0x12, 0x21, 0x22}
  {
    hide Frames.FrameBytes;
  }

  lemma FrameLayout(sequence: int, frameType: int, payload: seq<byte>)
    requires Frames.Encode(sequence, frameType, payload).Ok?
    ensures var f := Frames.Encode(sequence, frameType, payload).value;
      && |f| == 10 + |payload| && f[0] == 3 && f[1] == frameType
      && IsBE(f[2..6], sequence) && IsBE(f[6..10], |payload|) && f[10..] == payload
  {
    hide ToBE, IsBE;
    var f := Frames.FrameBytes(sequence, frameType, payload);
    Frames.FrameFields(sequence, frameType, payload, []);
    assert f + [] == f;
    ToBEIs(sequence, 4);
    ToBEIs(|payload|, 4);
  }

  /** The label is the one with this code, or is not registered and has code 0. */
  ghost predicate HasCode(labels: seq<string>, name: string, code: nat) {
    if name in labels then code < |labels| && labels[code] == name else code == 0
  }

  lemma CodeIs(labels: seq<string>, name: string)
    ensures HasCode(labels, name, Messages.WireCode(labels, name))
    ensures Messages.CodeOf(labels, name).Some? <==> name in labels
  {
    Messages.IndexFromMeaning(labels, name, 0);
    if name in labels {
      var j :| 0 <= j < |labels| && labels[j] == name;
      IndexFound(labels, name, 0, j);
    }
  }

  lemma {:induction false} IndexFound(labels: seq<string>, name: string, i: nat, j: nat)
    requires i <= j < |labels| && labels[j] == name
    ensures Messages.IndexFrom(labels, name, i).Some?
    decreases j - i
  {
    if i < j { IndexFound(labels, name, i + 1, j); }
  }

  lemma MessageLayout(m: Messages.SemanticMessage)
    ensures var p := Messages.PacketOf(m);
      && |p| == 18 + |Utf8.Encoding(m.text)| && p[0] == 2 && p[1] == 1 && p[4] == m.confidence
      && HasCode(Messages.LANGUAGES, m.language, p[2]) && HasCode(Messages.EMOTIONS, m.emotion, p[3])
      && HasCode(Messages.VOICE_PROFILES, m.voiceProfile, p[5])
      && IsBE(p[6..14], Messages.HashMessageId(m.messageId)) && IsBE(p[14..18], |Utf8.Encoding(m.text)|)
      && p[18..] == Utf8.Encoding(m.text)
  {
    var p := Messages.PacketOf(m);
    CodeIs(Messages.LANGUAGES, m.language);
    CodeIs(Messages.EMOTIONS, m.emotion);
    CodeIs(Messages.VOICE_PROFILES, m.voiceProfile);
    hide Messages.WireCode, HasCode, ToBE, Messages.HashMessageId, Utf8.Encoding, IsBE;
    Messages.HeaderFields(m, Utf8.Encoding(m.text));
    ToBEIs(Messages.HashMessageId(m.messageId), 8);
    ToBEIs(|Utf8.Encoding(m.text)|, 4);
    assert p == Messages.HeaderBytes(m) + Utf8.Encoding(m.text);
    Messages.TagFields(m, p);
    hide Messages.TagBytes, Messages.HeaderBytes;
  }

  lemma IdIs(b: seq<byte>)
    requires |b| == 8
    ensures var id := BitChatPacket.FormatId(FromBE(b));
      BitChatPacket.IsPrefixedHex(id) && IsBE(b, BitChatPacket.IdValue(id))
  {
    Pow256Values();
    FromBEBound(b);
    BitChatPacket.FormatThenRead(FromBE(b));
    ToFromBE(b);
    ToBEIs(FromBE(b), 8);
    hide ToBE, FromBE, IsBE, BitChatPacket.FormatId;
  }

  lemma TextAccepted(b: seq<byte>)
    requires |b| >= 18 && Messages.DecodeTextField(b).Ok?
    ensures var n, text := ToInt32(FromBE(b[14..18])), Messages.DecodeTextField(b).value;
      && n != 0 && 18 + n <= |b| && !Messages.IsBlank(text)
      && (n > 0 ==> Utf8.Decoding(b[18..18 + n]) == Ok(text))
  {
    hide FromBE, ToInt32, Utf8.Decoding;
  }

  /** Exactly these messages may be sent. */
  lemma ValidExactly(m: Messages.SemanticMessage)
    ensures Messages.ValidateMessage(m).Ok? <==>
      && m.messageId != [] && (exists i :: 0 <= i < |m.text| && !Messages.IsSpaceUnit(m.text[i]))
      && m.emotion in Messages.EMOTIONS && m.voiceProfile in Messages.VOICE_PROFILES
  {
    CodeIs(Messages.EMOTIONS, m.emotion);
    CodeIs(Messages.VOICE_PROFILES, m.voiceProfile);
    hide Messages.CodeOf, Messages.IsSpaceUnit, HasCode, Messages.WireCode;
  }

  /** A unit is a blank in texts exactly if it is one in identifiers. */
  lemma BlanksAgree(u: Utf8.unit)
    requires u < 0xD800 || u > 0xDFFF
    ensures Messages.IsSpaceUnit(u) <==> BitChatPacket.IsSpace(u as char)
  {
  }

  /** The packets that decode accepts, and what it reads in them. */
  lemma MessageAccepted(b: seq<byte>)
    ensures Messages.Decode(b).Ok? <==>
      && |b| >= 18 && b[0] == 2 && b[1] == 1 && b[2] < 11 && b[3] < 4 && b[5] == 0
      && Messages.DecodeTextField(b).Ok?
    ensures Messages.Decode(b).Ok? ==>
      var m, n := Messages.Decode(b).value, ToInt32(FromBE(b[14..18]));
      && m.language == Messages.LANGUAGES[b[2]] && m.emotion == Messages.EMOTIONS[b[3]]
      && m.voiceProfile == Messages.VOICE_PROFILES[b[5]] && m.confidence == b[4]
      && BitChatPacket.IsPrefixedHex(m.messageId) && IsBE(b[6..14], BitChatPacket.IdValue(m.messageId))
      && n != 0 && 18 + n <= |b| && !Messages.IsBlank(m.text)
      && (n > 0 ==> Utf8.Decoding(b[18..18 + n]) == Ok(m.text))
  {
    hide ToBE, FromBE, ToInt32, IsBE, Utf8.Decoding, BitChatPacket.FormatId, BitChatPacket.IdValue,
         BitChatPacket.IsPrefixedHex, Messages.DecodeTextField, Messages.IsBlank;
    if Messages.Decode(b).Ok? {
      IdIs(b[6..14]);
      TextAccepted(b);
    }
  }

  lemma FragmentLayout(h: Fragments.FragmentHeader)
    requires Fragments.WireHeader(h)
    ensures var b := Fragments.HeaderBytes(h);
      && |b| == 9 && b[0] == 0xF7 && b[5] == h.fragmentIndex && b[6] == h.totalFragments
      && IsBE(b[1..5], h.groupId) && IsBE(b[7..9], h.v6aLength)
  {
    hide ToBE, IsBE;
    ToBEIs(h.groupId, 4);
    ToBEIs(h.v6aLength, 2);
    assert Fragments.HeaderBytes(h)[1..5] == ToBE(h.groupId, 4);
    assert Fragments.HeaderBytes(h)[7..9] == ToBE(h.v6aLength, 2);
  }

  lemma EnvelopeLayout(p: Envelopes.Envelope)
    requires Envelopes.ValidEnvelope(p)
    ensures BitChatPacket.IsPrefixedHex(p.sourceNodeId) && BitChatPacket.IsPrefixedHex(p.destinationNodeId)
    ensures BitChatPacket.IsPrefixedHex(p.packetId)
    ensures var b := Envelopes.EnvelopeBytes(p);
      && |b| == 28 + |p.payload| && b[0] == 1 && b[1] == p.packetType && b[2] == p.ttl && b[27] == p.flags
      && IsBE(b[3..11], BitChatPacket.IdValue(p.sourceNodeId))
      && IsBE(b[11..19], BitChatPacket.IdValue(p.destinationNodeId))
      && IsBE(b[19..27], BitChatPacket.IdValue(p.packetId)) && b[28..] == p.payload
  {
    BitChatPacket.ReadThenFormat(p.sourceNodeId);
    BitChatPacket.ReadThenFormat(p.destinationNodeId);
    BitChatPacket.ReadThenFormat(p.packetId);
    ToBEIs(BitChatPacket.IdValue(p.sourceNodeId), 8);
    ToBEIs(BitChatPacket.IdValue(p.destinationNodeId), 8);
    ToBEIs(BitChatPacket.IdValue(p.packetId), 8);
    hide ToBE, IsBE, BitChatPacket.IdValue, BitChatPacket.IsPrefixedHex;
    Envelopes.EnvelopeFields(p);
    hide Envelopes.EnvelopeBytes, BitChatPacket.IsValidId;
  }

  /** An acknowledgement names its id, a rejection its group and reason; both ignore what follows. */
  lemma AnswerLayout(payload: seq<byte>)
    ensures Payloads.ParseAckPayload(payload).Some? <==> |payload| >= 8
    ensures |payload| >= 8 ==>
      var id := Payloads.ParseAckPayload(payload).value;
      BitChatPacket.IsPrefixedHex(id) && IsBE(payload[..8], BitChatPacket.IdValue(id))
    ensures Payloads.ParseNackPayload(payload).Some? <==> |payload| >= 10
    ensures |payload| >= 10 ==>
      var n := Payloads.ParseNackPayload(payload).value; IsBE(payload[..4], n.groupId) && payload[4] == n.reason
  {
    if |payload| >= 8 {
      Payloads.AckIsUnambiguous(payload);
      ToBEIs(BitChatPacket.IdValue(Payloads.ParseAckPayload(payload).value), 8);
    }
    if |payload| >= 10 {
      ToFromBE(payload[..4]);
      ToBEIs(FromBE(payload[..4]), 4);
    }
    hide ToBE, FromBE, IsBE, BitChatPacket.FormatId;
  }

  lemma RejectionLayout(n: Payloads.Nack)
    requires n.reason < 256
    ensures var b := Payloads.NackBytes(n);
      |b| == 10 && IsBE(b[..4], n.groupId) && b[4] == n.reason && forall i :: 5 <= i < 10 ==> b[i] == 0
  {
    hide ToBE, IsBE;
    ToBEIs(n.groupId, 4);
    assert Payloads.NackBytes(n)[..4] == ToBE(n.groupId, 4);
  }

  lemma ControlLayout(p: Control.TxControl)
    requires Control.Encodable(p)
    ensures var b := Control.EncodeTxControl(p).value;
      |b| == 9 && b[0] == p.op && IsBE(b[1..5], p.txId) && IsBE(b[5..9], p.requestId)
  {
    hide ToBE, IsBE;
    var b := Control.EncodeTxControl(p).value;
    ToBEIs(p.txId, 4);
    ToBEIs(p.requestId, 4);
    assert b[1..5] == ToBE(p.txId, 4) && b[5..9] == ToBE(p.requestId, 4);
  }

  /** The announcements that are accepted are those of the nodes they name. */
  lemma AnnounceAccepted(payload: seq<byte>, node: nat)
    ensures PeerMap.DecodeAnnounce(payload) == Some(node) <==> node < TWO_64 && payload == PeerMap.AnnounceBytes(node)
    ensures node < TWO_64 ==> IsBE(PeerMap.AnnounceBytes(node)[..8], node) && PeerMap.AnnounceBytes(node)[8] == 1
  {
    hide IsBE;
    Pow256Values();
    ToBEIs(node, 8);
    assert PeerMap.AnnounceBytes(node)[..8] == ToBE(node, 8);
    if node < TWO_64 { PeerMap.AnnounceRoundTrip(node); }
    if PeerMap.DecodeAnnounce(payload) == Some(node) {
      FromBEBound(payload[..8]);
      ToFromBE(payload[..8]);
      assert payload == payload[..8] + [payload[8]];
    }
    hide ToBE, FromBE;
  }

  // Text -------------------------------------------------------------------------------------------------------

  /** The bytes of a code point, as table 3-6 of the Unicode standard and section 3 of RFC 3629 have them. */
  lemma CodeForm(code: nat)
    requires code < 0x11_0000
    ensures var b := Utf8.EncodeCode(code);
      && |b| == (if code < 0x80 then 1 else if code < 0x800 then 2 else if code < 0x1_0000 then 3 else 4)
      && (forall i :: 1 <= i < |b| ==> 0x80 <= b[i] <= 0xBF)
      && (|b| == 1 ==> b[0] == code)
      && (|b| == 2 ==> 0xC2 <= b[0] <= 0xDF && code == (b[0] as int - 0xC0) * 0x40 + b[1] as int - 0x80)
      && (|b| == 3 ==> 0xE0 <= b[0] <= 0xEF
                       && code == (b[0] as int - 0xE0) * 0x1000 + (b[1] as int - 0x80) * 0x40 + b[2] as int - 0x80)
      && (|b| == 4 ==> 0xF0 <= b[0] <= 0xF4
                       && code == (b[0] as int - 0xF0) * 0x4_0000 + (b[1] as int - 0x80) * 0x1000
                                  + (b[2] as int - 0x80) * 0x40 + b[3] as int - 0x80)
  {
    Utf8.Digits(code);
  }

  /** A string is encoded code point by code point; a pair of surrogates is one of them. */
  lemma FirstCodeForm(s: seq<Utf8.unit>)
    requires s != []
    ensures if |s| >= 2 && 0xD800 <= s[0] <= 0xDBFF && 0xDC00 <= s[1] <= 0xDFFF then
              var code := 0x1_0000 + (s[0] as int - 0xD800) * 0x400 + (s[1] as int - 0xDC00);
              Utf8.Encoding(s) == Utf8.EncodeCode(code) + Utf8.Encoding(s[2..])
            else Utf8.Encoding(s) == Utf8.EncodeCode(s[0]) + Utf8.Encoding(s[1..])
  {
    hide Utf8.EncodeCode, Utf8.Encoding;
    EncodingStep(s);
  }

  lemma EncodingStep(s: seq<Utf8.unit>)
    requires s != []
    ensures Utf8.Encoding(s) == Utf8.EncodeCode(Utf8.FirstCode(s)) + Utf8.Encoding(s[Utf8.FirstWidth(s)..])
  {
    hide Utf8.EncodeCode, Utf8.FirstCode, Utf8.FirstWidth;
  }

  // Hashes -------------------------------------------------------------------------------------------------------

  /** Binary digit k of a number. */
  function Bit(x: nat, k: nat): nat {
    if k == 0 then x % 2 else Bit(x / 2, k - 1)
  }

  /** The exclusive or, digit by digit. */
  lemma {:induction false} XorBits(a: nat, b: nat, k: nat)
    ensures Bit(Messages.Xor(a, b), k) == if Bit(a, k) == Bit(b, k) then 0 else 1
    decreases k
  {
    hide Messages.Xor;
    XorStep(a, b);
    if k > 0 {
      XorBits(a / 2, b / 2, k - 1);
      assert Messages.Xor(a, b) / 2 == Messages.Xor(a / 2, b / 2);
    }
  }

  lemma XorStep(a: nat, b: nat)
    ensures Messages.Xor(a, b) == 2 * Messages.Xor(a / 2, b / 2) + (a + b) % 2
  {
  }

  lemma BasisXorA()
    ensures Messages.Xor(Messages.FNV_OFFSET_BASIS, 0x61) == 0xcbf29ce484222344
  {
    hide Messages.Xor;
    Messages.XorZero(0x197e539c9084446);
    XorStep(0x32fca739210888c, 1);
    XorStep(0x65f94e724211119, 3);
    XorStep(0xcbf29ce48422232, 6);
    XorStep(0x197e539c90844464, 12);
    XorStep(0x32fca739210888c9, 24);
    XorStep(0x65f94e7242111192, 48);
    XorStep(0xcbf29ce484222325, 97);
  }

  /** Two published values of 64-bit FNV-1a: of nothing, and of the letter a. */
  lemma HashVectors()
    ensures Messages.Fnv1a64([]) == 0xcbf29ce484222325
    ensures Messages.Fnv1a64([0x61]) == 0xaf63dc4c8601ec8c
  {
    hide Messages.Xor;
    BasisXorA();
    var bytes: seq<byte> := [0x61];
    assert bytes[..0] == [];
    assert Messages.Fnv1a64(bytes) == Messages.Xor(Messages.Fnv1a64(bytes[..0]), 0x61) * Messages.FNV_PRIME % TWO_64;
  }

  // Identifiers --------------------------------------------------------------------------------------------------

  predicate IsBlank(s: string) {
    forall i :: 0 <= i < |s| ==> BitChatPacket.IsSpace(s[i])
  }

  lemma {:induction false} TrimsLeft(before: string, s: string)
    requires IsBlank(before) && s != "" && !BitChatPacket.IsSpace(s[0])
    ensures BitChatPacket.TrimLeft(before + s) == s
  {
    if before == "" {
      assert before + s == s;
    } else {
      TrimsLeft(before[1..], s);
      assert (before + s)[1..] == before[1..] + s;
    }
  }

  lemma {:induction false} TrimsRight(s: string, after: string)
    requires IsBlank(after) && s != "" && !BitChatPacket.IsSpace(s[|s| - 1])
    ensures BitChatPacket.TrimRight(s + after) == s
  {
    if after == "" {
      assert s + after == s;
    } else {
      TrimsRight(s, after[..|after| - 1]);
      assert (s + after)[..|s + after| - 1] == s + after[..|after| - 1];
    }
  }

  lemma {:induction false} DecimalReads(v: nat)
    ensures var d := Reassembler.Decimal(v);
      && d != "" && BitChatPacket.IsDecimalString(d) && BitChatPacket.IsHexString(d)
      && BitChatPacket.ParseDigits(d, 10) == v
  {
    if v >= 10 {
      DecimalReads(v / 10);
      var d := Reassembler.Decimal(v);
      assert d[..|d| - 1] == Reassembler.Decimal(v / 10);
    }
    DecimalDigit(v % 10);
  }

  lemma DecimalDigit(d: nat)
    requires d < 10
    ensures '0' <= "0123456789"[d] <= '9' && BitChatPacket.DigitValue("0123456789"[d]) == d
  {
  }

  /** A decimal number is read, between blanks, exactly if it has at most 64 bits. */
  lemma ReadsDecimal(before: string, v: nat, after: string)
    requires IsBlank(before) && IsBlank(after)
    ensures var r := BitChatPacket.NormalizeString(before + Reassembler.Decimal(v) + after);
      if v < TWO_64 then r == Ok(BitChatPacket.FormatId(v)) else r.Err?
  {
    var d := Reassembler.Decimal(v);
    DecimalReads(v);
    hide Reassembler.Decimal, BitChatPacket.ParseDigits, BitChatPacket.FormatId;
    assert !BitChatPacket.IsSpace(d[0]) && !BitChatPacket.IsSpace(d[|d| - 1]) by { assert '0' <= d[0] <= '9'; }
    Trims(before, d, after);
    hide BitChatPacket.TrimLeft, BitChatPacket.TrimRight, BitChatPacket.IsSpace, IsBlank;
    assert |d| > 2 ==> d[..2][1] == d[1];
  }

  /** So is a canonical spelling. */
  lemma ReadsCanonical(before: string, v: nat, after: string)
    requires IsBlank(before) && IsBlank(after) && v < TWO_64
    ensures BitChatPacket.NormalizeString(before + BitChatPacket.FormatId(v) + after) == Ok(BitChatPacket.FormatId(v))
  {
    var id := BitChatPacket.FormatId(v);
    BitChatPacket.FormatThenRead(v);
    assert id[17] == id[2..][15];
    hide BitChatPacket.ParseDigits, BitChatPacket.FormatId;
    Trims(before, id, after);
    hide BitChatPacket.TrimLeft, BitChatPacket.TrimRight, BitChatPacket.IsSpace, IsBlank;
  }

  lemma Trims(before: string, s: string, after: string)
    requires IsBlank(before) && IsBlank(after) && s != ""
    requires !BitChatPacket.IsSpace(s[0]) && !BitChatPacket.IsSpace(s[|s| - 1])
    ensures BitChatPacket.TrimLeft(BitChatPacket.TrimRight(before + s + after)) == s
  {
    TrimsRight(before + s, after);
    TrimsLeft(before, s);
  }
}
