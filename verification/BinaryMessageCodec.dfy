/**
 * The V6A semantic packet: an 18-byte header (version, type, language, emotion, confidence, voice
 * profile, hashed message id, text length) followed by the text in UTF-8.
 */
module BinaryMessageCodec {
  import opened Wrappers
  import opened Bytes
  import opened Utf8
  import BitChatPacket

  const PROTOCOL_VERSION: byte := 2
  const MSG_TYPE_TEXT: byte := 1
  const HEADER_SIZE := 18

  /** Registries: the code of a label is its position. */
  const LANGUAGES: seq<string> := ["unknown", "en", "hi", "bn", "gu", "mr", "kn", "ml", "ta", "te", "or"]
  const EMOTIONS: seq<string> := ["neutral", "happy", "sad", "angry"]
  const VOICE_PROFILES: seq<string> := ["default"]

  /** A message to be sent; `confidence` is the rounded and clamped byte. */
  datatype SemanticMessage = SemanticMessage(
    messageId: seq<unit>, text: seq<unit>, language: string, emotion: string, confidence: byte, voiceProfile: string)

  /** A decoded message; its id is the canonical spelling of the 64-bit hash. */
  datatype ReceivedMessage = ReceivedMessage(
    messageId: string, text: seq<unit>, language: string, emotion: string, confidence: byte, voiceProfile: string)

  predicate IsSpaceUnit(u: unit) {
    u in {0x09, 0x0A, 0x0B, 0x0C, 0x0D, 0x20, 0xA0, 0x1680, 0x2028, 0x2029, 0x202F, 0x205F, 0x3000, 0xFEFF}
    || 0x2000 <= u <= 0x200A
  }

  /** `!text.trim()` */
  predicate IsBlank(s: seq<unit>) {
    forall i :: 0 <= i < |s| ==> IsSpaceUnit(s[i])
  }

  function IndexFrom(labels: seq<string>, name: string, i: nat): Option<nat>
    decreases |labels| - i
  {
    if i >= |labels| then None else if labels[i] == name then Some(i) else IndexFrom(labels, name, i + 1)
  }

  function CodeOf(labels: seq<string>, name: string): Option<nat> {
    IndexFrom(labels, name, 0)
  }

  /** Unregistered labels are sent under the first code of their registry. */
  function WireCode(labels: seq<string>, name: string): nat {
    var c := CodeOf(labels, name);
    if c.Some? then c.value else 0
  }

  // Hashing ------------------------------------------------------------------------------------------

  const FNV_OFFSET_BASIS := 0xcbf29ce484222325
  const FNV_PRIME := 0x100000001b3

  /** Bitwise exclusive or. */
  function Xor(a: nat, b: nat): nat
    decreases a + b
  {
    if a == 0 && b == 0 then 0 else 2 * Xor(a / 2, b / 2) + (a + b) % 2
  }

  lemma {:induction false} XorZero(a: nat)
    ensures Xor(a, 0) == a
  {
    if a > 0 { XorZero(a / 2); }
  }

  /** FNV-1a over 64 bits. */
  function Fnv1a64(bytes: seq<byte>): (h: nat)
    ensures h < TWO_64
  {
    if bytes == [] then FNV_OFFSET_BASIS
    else Xor(Fnv1a64(bytes[..|bytes| - 1]), bytes[|bytes| - 1]) * FNV_PRIME % TWO_64
  }

  function HashMessageId(messageId: seq<unit>): (h: nat)
    ensures h < TWO_64
  {
    Fnv1a64(Encoding(messageId))
  }

  method HashBytes(bytes: seq<byte>) returns (hash: nat)
    ensures hash == Fnv1a64(bytes)
  {
    hash := FNV_OFFSET_BASIS;
    var i := 0;
    while i < |bytes|
      invariant 0 <= i <= |bytes| && hash == Fnv1a64(bytes[..i])
    {
      assert bytes[..i + 1][..i] == bytes[..i];
      hash := Xor(hash, bytes[i]) * FNV_PRIME % TWO_64;
      i := i + 1;
    }
    assert bytes[..i] == bytes;
  }

  // Encoding -----------------------------------------------------------------------------------------

  function ValidateMessage(m: SemanticMessage): Result<()> {
    if m.messageId == [] then Err("MISSING_MESSAGE_ID")
    else if IsBlank(m.text) then Err("EMPTY_TEXT")
    else if CodeOf(EMOTIONS, m.emotion).None? then Err("INVALID_EMOTION")
    else if CodeOf(VOICE_PROFILES, m.voiceProfile).None? then Err("INVALID_VOICE_PROFILE")
    else Ok(())
  }

  function TagBytes(m: SemanticMessage): (s: seq<byte>)
    ensures |s| == 6
  {
    [PROTOCOL_VERSION, MSG_TYPE_TEXT, WireCode(LANGUAGES, m.language) % 256, WireCode(EMOTIONS, m.emotion) % 256,
     m.confidence, WireCode(VOICE_PROFILES, m.voiceProfile) % 256]
  }

  function HeaderBytes(m: SemanticMessage): (s: seq<byte>)
    ensures |s| == HEADER_SIZE
  {
    TagBytes(m) + ToBE(HashMessageId(m.messageId), 8) + ToBE(|Encoding(m.text)|, 4)
  }

  /** The packet that buildPacket writes. */
  function PacketOf(m: SemanticMessage): seq<byte> {
    HeaderBytes(m) + Encoding(m.text)
  }

  function CheckTags(data: seq<byte>): (r: Result<()>)
    requires |data| >= HEADER_SIZE
    ensures r.Ok? ==> data[2] < |LANGUAGES| && data[3] < |EMOTIONS| && data[5] < |VOICE_PROFILES|
  {
    if data[0] != PROTOCOL_VERSION then Err("UNSUPPORTED_VERSION")
    else if data[1] != MSG_TYPE_TEXT then Err("INVALID_MESSAGE_TYPE")
    else if data[2] >= |LANGUAGES| then Err("INVALID_LANGUAGE")
    else if data[3] >= |EMOTIONS| then Err("INVALID_EMOTION")
    else if data[5] >= |VOICE_PROFILES| then Err("INVALID_VOICE_PROFILE")
    else Ok(())
  }

  function DecodeTextField(data: seq<byte>): Result<seq<unit>>
    requires |data| >= HEADER_SIZE
  {
    var textLength := ToInt32(FromBE(data[14..18]));
    if textLength == 0 then Err("EMPTY_TEXT")
    else if |data| < HEADER_SIZE + textLength then Err("PACKET_TRUNCATED")
    else
      match Decoding(Slice(data, HEADER_SIZE, HEADER_SIZE + textLength))
      case Err(e) => Err("INVALID_UTF8")
      case Ok(text) => if IsBlank(text) then Err("EMPTY_TEXT") else Ok(text)
  }

  function Decode(data: seq<byte>): Result<ReceivedMessage> {
    if |data| < HEADER_SIZE then Err("PACKET_TOO_SHORT")
    else
      match CheckTags(data)
      case Err(e) => Err(e)
      case Ok(_) =>
        match DecodeTextField(data)
        case Err(e) => Err(e)
        case Ok(text) =>
          Ok(ReceivedMessage(BitChatPacket.FormatId(FromBE(data[6..14])), text, LANGUAGES[data[2]],
                             EMOTIONS[data[3]], data[4], VOICE_PROFILES[data[5]]))
  }

  /** What the receiver of m's packet should see. */
  function AsReceived(m: SemanticMessage): ReceivedMessage {
    ReceivedMessage(BitChatPacket.FormatId(HashMessageId(m.messageId)), m.text,
                    if CodeOf(LANGUAGES, m.language).Some? then m.language else "unknown",
                    m.emotion, m.confidence, m.voiceProfile)
  }

  lemma {:induction false} IndexFromMeaning(labels: seq<string>, name: string, i: nat)
    ensures IndexFrom(labels, name, i).Some? ==>
      var c := IndexFrom(labels, name, i).value; i <= c < |labels| && labels[c] == name
    ensures IndexFrom(labels, name, i).None? ==> forall j :: i <= j < |labels| ==> labels[j] != name
    decreases |labels| - i
  {
    if i < |labels| && labels[i] != name {
      IndexFromMeaning(labels, name, i + 1);
    }
  }

  /** A registered label comes back from its code; an unregistered one comes back as the first label. */
  lemma LabelRoundTrip(labels: seq<string>, name: string)
    requires 0 < |labels| <= 256
    ensures WireCode(labels, name) < |labels|
    ensures labels[WireCode(labels, name)] == if CodeOf(labels, name).Some? then name else labels[0]
  {
    IndexFromMeaning(labels, name, 0);
  }

  lemma EncodingNotEmpty(s: seq<unit>)
    ensures Encoding(s) == [] <==> s == []
  {
  }

  lemma HeaderFields(m: SemanticMessage, text: seq<byte>)
    ensures var p := HeaderBytes(m) + text;
      p[..6] == TagBytes(m) && p[6..14] == ToBE(HashMessageId(m.messageId), 8)
      && p[14..18] == ToBE(|Encoding(m.text)|, 4) && p[18..] == text
  {
    hide TagBytes, HashMessageId, Encoding, ToBE;
  }

  lemma TagFields(m: SemanticMessage, p: seq<byte>)
    requires |p| >= 6 && p[..6] == TagBytes(m)
    ensures p[0] == PROTOCOL_VERSION && p[1] == MSG_TYPE_TEXT && p[2] == WireCode(LANGUAGES, m.language)
    ensures p[3] == WireCode(EMOTIONS, m.emotion) && p[4] == m.confidence
      && p[5] == WireCode(VOICE_PROFILES, m.voiceProfile)
  {
    LabelRoundTrip(LANGUAGES, m.language);
    LabelRoundTrip(EMOTIONS, m.emotion);
    LabelRoundTrip(VOICE_PROFILES, m.voiceProfile);
    assert forall i :: 0 <= i < 6 ==> p[i] == p[..6][i];
    hide WireCode;
  }

  lemma TextFieldOf(p: seq<byte>, e: seq<byte>, text: seq<unit>)
    requires |p| == HEADER_SIZE + |e| && p[14..18] == ToBE(|e|, 4) && p[HEADER_SIZE..] == e
    requires 0 < |e| < TWO_31 && Decoding(e) == Ok(text) && !IsBlank(text)
    ensures DecodeTextField(p) == Ok(text)
  {
    LengthField(|e|);
    SliceTail(p, HEADER_SIZE);
    hide Decoding, ToInt32, ToBE, FromBE, IsBlank, Slice;
  }

  /** The text section of a packet, as decode reads it. */
  lemma TextFieldRoundTrip(m: SemanticMessage)
    requires 0 < |Encoding(m.text)| < TWO_31 && !IsBlank(m.text)
    ensures DecodeTextField(PacketOf(m)) == Ok(m.text)
  {
    HeaderFields(m, Encoding(m.text));
    RoundTrip(m.text);
    TextFieldOf(PacketOf(m), Encoding(m.text), m.text);
    hide HeaderBytes, Encoding, Decoding, ToBE, IsBlank, DecodeTextField;
  }

  lemma IdField(m: SemanticMessage)
    ensures FromBE(PacketOf(m)[6..14]) == HashMessageId(m.messageId)
  {
    HeaderFields(m, Encoding(m.text));
    Pow256Values();
    FromToBE(HashMessageId(m.messageId), 8);
    hide HeaderBytes, Encoding, HashMessageId, ToBE, FromBE;
  }

  /** The tags of a packet are accepted and name the labels they were made from. */
  lemma TagsRoundTrip(m: SemanticMessage)
    ensures var p := PacketOf(m);
      && CheckTags(p).Ok? && p[4] == m.confidence
      && LANGUAGES[p[2]] == (if CodeOf(LANGUAGES, m.language).Some? then m.language else "unknown")
      && EMOTIONS[p[3]] == (if CodeOf(EMOTIONS, m.emotion).Some? then m.emotion else EMOTIONS[0])
      && VOICE_PROFILES[p[5]]
        == (if CodeOf(VOICE_PROFILES, m.voiceProfile).Some? then m.voiceProfile else VOICE_PROFILES[0])
  {
    HeaderFields(m, Encoding(m.text));
    TagFields(m, PacketOf(m));
    LabelRoundTrip(LANGUAGES, m.language);
    LabelRoundTrip(EMOTIONS, m.emotion);
    LabelRoundTrip(VOICE_PROFILES, m.voiceProfile);
    hide PacketOf, HeaderBytes, TagBytes, Encoding, HashMessageId, WireCode, CodeOf;
  }

  /**
   * Every valid message comes back with its text, labels and confidence, and with the hash of its
   * id in canonical spelling; only an unregistered language turns into "unknown".
   */
  lemma PacketRoundTrip(m: SemanticMessage)
    requires ValidateMessage(m).Ok? && |Encoding(m.text)| < TWO_31
    ensures Decode(PacketOf(m)) == Ok(AsReceived(m))
  {
    EncodingNotEmpty(m.text);
    TagsRoundTrip(m);
    TextFieldRoundTrip(m);
    IdField(m);
    assert |PacketOf(m)| >= HEADER_SIZE;
    hide PacketOf, CheckTags, DecodeTextField, HashMessageId, Encoding, FromBE, CodeOf;
  }

  method HashId(messageId: seq<unit>) returns (hash: nat)
    ensures hash == HashMessageId(messageId)
  {
    var bytes := EncodeText(messageId);
    hash := HashBytes(bytes);
  }

  method BuildPacket(m: SemanticMessage) returns (packet: seq<byte>)
    ensures packet == PacketOf(m)
  {
    hide TagBytes, HashMessageId, ToBE;
    var textBytes := EncodeText(m.text);
    var compactId := HashId(m.messageId);
    var buf := new byte[HEADER_SIZE + |textBytes|];
    AppendBytes(buf, 0, TagBytes(m));
    AppendUIntBE(buf, 6, compactId, 8);
    AppendUIntBE(buf, 14, |textBytes|, 4);
    AppendBytes(buf, HEADER_SIZE, textBytes);
    packet := buf[..];
    assert buf[..|packet|] == packet;
  }

  /** getEncodedByteLength is exact. */
  method EncodedByteLength(m: SemanticMessage) returns (n: nat)
    ensures n == |PacketOf(m)|
  {
    var t := ByteLength(m.text);
    n := HEADER_SIZE + t;
  }
}
