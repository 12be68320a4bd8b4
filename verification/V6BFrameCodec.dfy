/** The V6B transport frame: version, type, sequence number, payload length, payload of at most 499 bytes. */
module V6BFrameCodec {
  import opened Wrappers
  import opened Bytes

  const V6B_VERSION: byte := 3
  const V6B_HEADER_SIZE := 10
  const V6B_MAX_FRAME_SIZE := 509
  const V6B_MAX_PAYLOAD_SIZE := 499
  const V6B_FRAME_BITCHAT := 2
  const V6B_VALID_FRAME_TYPES: set<int> := {1, 2, 0x10, 0x11, 0x12, 0x21, 0x22}

  datatype Frame = Frame(frameType: int, sequence: int, payloadLength: int, payload: seq<byte>)

  function FrameBytes(sequence: nat, frameType: int, payload: seq<byte>): (s: seq<byte>)
    ensures |s| == V6B_HEADER_SIZE + |payload|
  {
    [V6B_VERSION, frameType % 256] + ToBE(sequence, 4) + ToBE(|payload|, 4) + payload
  }

  function Encode(sequence: int, frameType: int, payload: seq<byte>): (r: Result<seq<byte>>)
    ensures r.Ok? ==> |r.value| == V6B_HEADER_SIZE + |payload| <= V6B_MAX_FRAME_SIZE
  {
    if sequence < 0 || sequence > 0xffffffff then Err("INVALID_SEQUENCE")
    else if frameType !in V6B_VALID_FRAME_TYPES then Err("INVALID_FRAME_TYPE")
    else if |payload| > V6B_MAX_PAYLOAD_SIZE then Err("PAYLOAD_TOO_LARGE")
    else Ok(FrameBytes(sequence, frameType, payload))
  }

  /** The sequence number is read as a signed 32-bit number. */
  function Decode(data: seq<byte>): Result<Frame> {
    if |data| < V6B_HEADER_SIZE then Err("FRAME_TOO_SHORT")
    else if data[0] != V6B_VERSION then Err("UNSUPPORTED_VERSION")
    else if data[1] !in V6B_VALID_FRAME_TYPES then Err("INVALID_FRAME_TYPE")
    else
      var sequence, payloadLength := ToInt32(FromBE(data[2..6])), ToInt32(FromBE(data[6..10]));
      if payloadLength > V6B_MAX_PAYLOAD_SIZE then Err("PAYLOAD_TOO_LARGE")
      else if |data| < V6B_HEADER_SIZE + payloadLength then Err("FRAME_TRUNCATED")
      else Ok(Frame(data[1], sequence, payloadLength, Slice(data, V6B_HEADER_SIZE, V6B_HEADER_SIZE + payloadLength)))
  }

  lemma FrameFields(sequence: nat, frameType: int, payload: seq<byte>, tail: seq<byte>)
    requires frameType in V6B_VALID_FRAME_TYPES
    ensures var d := FrameBytes(sequence, frameType, payload) + tail;
      && d[0] == V6B_VERSION && d[1] == frameType
      && d[2..6] == ToBE(sequence, 4) && d[6..10] == ToBE(|payload|, 4)
      && Slice(d, V6B_HEADER_SIZE, V6B_HEADER_SIZE + |payload|) == payload
  {
    var d := FrameBytes(sequence, frameType, payload) + tail;
    assert d[V6B_HEADER_SIZE..V6B_HEADER_SIZE + |payload|] == payload;
    hide ToBE;
  }

  lemma SequenceField(sequence: nat)
    requires sequence < TWO_32
    ensures ToInt32(FromBE(ToBE(sequence, 4))) == ToInt32(sequence)
  {
    Pow256Values();
    FromToBE(sequence, 4);
  }

  /**
   * A frame comes back with its type and payload, whatever bytes follow it; its sequence number
   * comes back modulo 2^32, as a signed number.
   */
  lemma FrameRoundTrip(sequence: int, frameType: int, payload: seq<byte>, tail: seq<byte>)
    requires Encode(sequence, frameType, payload).Ok?
    ensures Decode(Encode(sequence, frameType, payload).value + tail)
         == Ok(Frame(frameType, ToInt32(sequence), |payload|, payload))
  {
    FrameFields(sequence, frameType, payload, tail);
    SequenceField(sequence);
    LengthField(|payload|);
    hide FrameBytes, Slice, ToInt32, FromBE, ToBE;
  }

  /** The sequence number itself survives exactly below 2^31. */
  lemma SequenceSurvives(sequence: int, frameType: int, payload: seq<byte>)
    requires Encode(sequence, frameType, payload).Ok?
    ensures Decode(Encode(sequence, frameType, payload).value).Ok?
    ensures Decode(Encode(sequence, frameType, payload).value).value.sequence == sequence <==> sequence < TWO_31
  {
    var f := Encode(sequence, frameType, payload).value;
    FrameRoundTrip(sequence, frameType, payload, []);
    assert f + [] == f;
    hide Decode, Encode;
  }

  lemma FieldsJoin(data: seq<byte>, n: nat)
    requires 10 <= n <= |data|
    ensures data[..n] == [data[0], data[1]] + data[2..6] + data[6..10] + data[10..n]
  {
  }

  /** Whatever is accepted with a non-negative length starts with the frame that encode would write. */
  lemma AcceptedIsWritten(data: seq<byte>)
    requires Decode(data).Ok? && Decode(data).value.payloadLength >= 0
    ensures var f := Decode(data).value;
      && |f.payload| == f.payloadLength
      && Encode(FromBE(data[2..6]), f.frameType, f.payload) == Ok(data[..V6B_HEADER_SIZE + f.payloadLength])
  {
    var f := Decode(data).value;
    var n := V6B_HEADER_SIZE + f.payloadLength;
    Pow256Values();
    FromBEBound(data[2..6]);
    FromBEBound(data[6..10]);
    ToFromBE(data[2..6]);
    ToFromBE(data[6..10]);
    assert f.payload == data[V6B_HEADER_SIZE..n] && data[1] == f.frameType && data[0] == V6B_VERSION;
    assert FromBE(data[6..10]) == f.payloadLength;
    FieldsJoin(data, n);
    hide ToBE, FromBE, ToInt32, Slice, Decode;
  }

  method EncodeFrame(sequence: int, frameType: int, payload: seq<byte>) returns (r: Result<seq<byte>>)
    ensures r == Encode(sequence, frameType, payload)
  {
    if sequence < 0 || sequence > 0xffffffff {
      return Err("INVALID_SEQUENCE");
    }
    if frameType !in V6B_VALID_FRAME_TYPES {
      return Err("INVALID_FRAME_TYPE");
    }
    if |payload| > V6B_MAX_PAYLOAD_SIZE {
      return Err("PAYLOAD_TOO_LARGE");
    }
    var frame := new byte[V6B_HEADER_SIZE + |payload|];
    AppendBytes(frame, 0, [V6B_VERSION, frameType]);
    assert frame[..2] == [V6B_VERSION, frameType];
    AppendUIntBE(frame, 2, sequence, 4);
    AppendUIntBE(frame, 6, |payload|, 4);
    AppendBytes(frame, V6B_HEADER_SIZE, payload);
    assert frame[..V6B_HEADER_SIZE + |payload|] == frame[..];
    r := Ok(frame[..]);
  }
}
