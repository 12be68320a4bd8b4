/** The BITCHAT mesh envelope: a 28-byte header (version, type, ttl, three 64-bit ids, flags) and a payload. */
module BitChatPacketCodec {
  import opened Wrappers
  import opened Bytes
  import opened BitChatPacket

  const HEADER_SIZE := 28
  const PROTOCOL_VERSION := 1
  const VALID_PACKET_TYPES: set<int> := {1, 2, 3}

  datatype Envelope = Envelope(
    version: int, packetType: int, ttl: int, sourceNodeId: string, destinationNodeId: string, packetId: string,
    flags: int, payload: seq<byte>)

  /** The envelopes that encode accepts. */
  predicate ValidEnvelope(p: Envelope) {
    && p.version == PROTOCOL_VERSION && p.packetType in VALID_PACKET_TYPES
    && 0 <= p.ttl <= 255 && 0 <= p.flags <= 255
    && IsValidId(p.sourceNodeId) && IsValidId(p.destinationNodeId) && IsValidId(p.packetId)
  }

  /** The eight bytes of a canonical id. */
  function IdBytes(id: string): (s: seq<byte>)
    requires IsValidId(id)
    ensures |s| == 8
  {
    ReadThenFormat(id);
    ToBE(IdValue(id), 8)
  }

  function EnvelopeBytes(p: Envelope): (s: seq<byte>)
    requires ValidEnvelope(p)
    ensures |s| == HEADER_SIZE + |p.payload|
  {
    [p.version, p.packetType, p.ttl]
    + IdBytes(p.sourceNodeId) + IdBytes(p.destinationNodeId) + IdBytes(p.packetId) + [p.flags] + p.payload
  }

  function Encode(p: Envelope): (r: Result<seq<byte>>)
    ensures r.Ok? <==> ValidEnvelope(p)
    ensures r.Ok? ==> |r.value| == HEADER_SIZE + |p.payload|
  {
    if p.version != PROTOCOL_VERSION then Err("Invalid BitChat version")
    else if p.packetType !in VALID_PACKET_TYPES then Err("Invalid BitChat packet type")
    else if p.ttl < 0 || p.ttl > 255 then Err("Invalid TTL")
    else if !IsValidId(p.sourceNodeId) then Err("Invalid sourceNodeId")
    else if !IsValidId(p.destinationNodeId) then Err("Invalid destinationNodeId")
    else if !IsValidId(p.packetId) then Err("Invalid packetId")
    else if p.flags < 0 || p.flags > 255 then Err("Invalid flags")
    else Ok(EnvelopeBytes(p))
  }

  function Decode(b: seq<byte>): Result<Envelope> {
    if |b| < HEADER_SIZE then Err("BitChat packet too short")
    else if b[0] != PROTOCOL_VERSION then Err("Unsupported BitChat version")
    else if b[1] !in VALID_PACKET_TYPES then Err("Unknown BitChat packet type")
    else
      Ok(Envelope(b[0], b[1], b[2], FormatId(FromBE(b[3..11])), FormatId(FromBE(b[11..19])),
                  FormatId(FromBE(b[19..27])), b[27], b[28..]))
  }

  lemma IdRoundTrip(id: string)
    requires IsValidId(id)
    ensures FormatId(FromBE(IdBytes(id))) == id
  {
    ReadThenFormat(id);
    Pow256Values();
    FromToBE(IdValue(id), 8);
  }

  lemma BytesRoundTrip(s: seq<byte>)
    requires |s| == 8
    ensures IsValidId(FormatId(FromBE(s))) && IdBytes(FormatId(FromBE(s))) == s
  {
    Pow256Values();
    FromBEBound(s);
    FormatThenRead(FromBE(s));
    ToFromBE(s);
  }

  lemma EnvelopeFields(p: Envelope)
    requires ValidEnvelope(p)
    ensures var b := EnvelopeBytes(p);
      && b[0] == p.version && b[1] == p.packetType && b[2] == p.ttl && b[27] == p.flags && b[28..] == p.payload
      && b[3..11] == IdBytes(p.sourceNodeId) && b[11..19] == IdBytes(p.destinationNodeId)
      && b[19..27] == IdBytes(p.packetId)
  {
    hide IdBytes, IsValidId;
  }

  /** Every valid envelope comes back unchanged. */
  lemma EnvelopeRoundTrip(p: Envelope)
    requires Encode(p).Ok?
    ensures Decode(Encode(p).value) == Ok(p)
  {
    EnvelopeFields(p);
    IdRoundTrip(p.sourceNodeId);
    IdRoundTrip(p.destinationNodeId);
    IdRoundTrip(p.packetId);
    assert Encode(p).value == EnvelopeBytes(p);
    hide EnvelopeBytes, IdBytes, FromBE, FormatId, IsValidId, Encode;
  }

  /** Every accepted byte string is the encoding of what it decodes to. */
  lemma AcceptedIsEncoded(b: seq<byte>, p: Envelope)
    requires Decode(b) == Ok(p)
    ensures Encode(p) == Ok(b)
  {
    BytesRoundTrip(b[3..11]);
    BytesRoundTrip(b[11..19]);
    BytesRoundTrip(b[19..27]);
    EnvelopeJoin(b);
    hide IdBytes, FromBE, FormatId, IsValidId;
  }

  lemma EnvelopeJoin(b: seq<byte>)
    requires |b| >= HEADER_SIZE
    ensures b == [b[0], b[1], b[2]] + b[3..11] + b[11..19] + b[19..27] + [b[27]] + b[28..]
  {
  }

  method EncodeEnvelope(p: Envelope) returns (r: Result<seq<byte>>)
    ensures r == Encode(p)
  {
    if p.version != PROTOCOL_VERSION {
      return Err("Invalid BitChat version");
    }
    if p.packetType !in VALID_PACKET_TYPES {
      return Err("Invalid BitChat packet type");
    }
    if p.ttl < 0 || p.ttl > 255 {
      return Err("Invalid TTL");
    }
    if !IsValidId(p.sourceNodeId) {
      return Err("Invalid sourceNodeId");
    }
    if !IsValidId(p.destinationNodeId) {
      return Err("Invalid destinationNodeId");
    }
    if !IsValidId(p.packetId) {
      return Err("Invalid packetId");
    }
    if p.flags < 0 || p.flags > 255 {
      return Err("Invalid flags");
    }
    ReadThenFormat(p.sourceNodeId);
    ReadThenFormat(p.destinationNodeId);
    ReadThenFormat(p.packetId);
    var buf := new byte[HEADER_SIZE + |p.payload|];
    buf[0], buf[1], buf[2] := p.version, p.packetType, p.ttl;
    assert buf[..3] == [p.version, p.packetType, p.ttl];
    AppendUIntBE(buf, 3, IdValue(p.sourceNodeId), 8);
    AppendUIntBE(buf, 11, IdValue(p.destinationNodeId), 8);
    AppendUIntBE(buf, 19, IdValue(p.packetId), 8);
    AppendBytes(buf, 27, [p.flags]);
    AppendBytes(buf, HEADER_SIZE, p.payload);
    assert buf[..HEADER_SIZE + |p.payload|] == buf[..];
    r := Ok(buf[..]);
  }

  method DecodeEnvelope(b: seq<byte>) returns (r: Result<Envelope>)
    ensures r == Decode(b)
  {
    if |b| < HEADER_SIZE {
      return Err("BitChat packet too short");
    }
    if b[0] != PROTOCOL_VERSION {
      return Err("Unsupported BitChat version");
    }
    if b[1] !in VALID_PACKET_TYPES {
      return Err("Unknown BitChat packet type");
    }
    var source := ReadUIntBE(b, 3, 8);
    var destination := ReadUIntBE(b, 11, 8);
    var packetId := ReadUIntBE(b, 19, 8);
    r := Ok(Envelope(b[0], b[1], b[2], FormatId(source), FormatId(destination), FormatId(packetId), b[27], b[28..]));
  }
}
