/** The payloads of acknowledgement and rejection frames. */
module ReliabilityPayloads {
  import opened Wrappers
  import opened Bytes
  import opened BitChatPacket

  const ACK_PAYLOAD_SIZE := 8
  const NACK_PAYLOAD_SIZE := 10

  datatype Nack = Nack(groupId: nat, reason: nat)

  function AckBytes(messageId: string): (s: seq<byte>)
    requires IsPrefixedHex(messageId)
    ensures |s| == ACK_PAYLOAD_SIZE
  {
    ToBE(IdValue(messageId), 8)
  }

  function ParseAckPayload(payload: seq<byte>): Option<string> {
    if |payload| < ACK_PAYLOAD_SIZE then None else Some(FormatId(FromBE(payload[..8])))
  }

  function NackBytes(n: Nack): (s: seq<byte>)
    ensures |s| == NACK_PAYLOAD_SIZE
  {
    ToBE(n.groupId, 4) + [n.reason % 256] + [0, 0, 0, 0, 0]
  }

  function ParseNackPayload(payload: seq<byte>): Option<Nack> {
    if |payload| < NACK_PAYLOAD_SIZE then None else Some(Nack(FromBE(payload[..4]), payload[4]))
  }

  method BuildAckPayload(messageId: string) returns (payload: seq<byte>)
    requires IsPrefixedHex(messageId)
    ensures payload == AckBytes(messageId)
  {
    var buf := new byte[ACK_PAYLOAD_SIZE];
    WriteUIntBE(buf, 0, IdValue(messageId), 8);
    payload := buf[..];
  }

  method BuildNackPayload(n: Nack) returns (payload: seq<byte>)
    ensures payload == NackBytes(n)
  {
    var buf := new byte[NACK_PAYLOAD_SIZE](_ => 0);
    WriteUIntBE(buf, 0, n.groupId, 4);
    buf[4] := n.reason % 256;
    payload := buf[..];
  }

  /** An identifier survives the acknowledgement frame, whatever bytes follow it. */
  lemma AckRoundTrip(messageId: string, tail: seq<byte>)
    requires IsValidId(messageId)
    ensures IsPrefixedHex(messageId) && ParseAckPayload(AckBytes(messageId) + tail) == Some(messageId)
  {
    ReadThenFormat(messageId);
    Pow256Values();
    FromToBE(IdValue(messageId), 8);
    assert (AckBytes(messageId) + tail)[..8] == AckBytes(messageId);
  }

  /** Every payload that parses is the acknowledgement of the identifier it parses to. */
  lemma AckIsUnambiguous(payload: seq<byte>)
    requires ParseAckPayload(payload).Some?
    ensures var id := ParseAckPayload(payload).value; IsValidId(id) && IsPrefixedHex(id) && AckBytes(id) == payload[..8]
  {
    Pow256Values();
    FromBEBound(payload[..8]);
    FormatThenRead(FromBE(payload[..8]));
    ToFromBE(payload[..8]);
  }

  /** Writing v in n bytes drops a multiple of 256^n. */
  lemma {:induction false} DroppedHigh(v: nat, n: nat) returns (q: nat)
    ensures v == Pow256(n) * q + FromBE(ToBE(v, n))
  {
    if n == 0 {
      q := v;
    } else {
      q := DroppedHigh(v / 256, n - 1);
      assert ToBE(v, n)[..n - 1] == ToBE(v / 256, n - 1);
      assert 256 * (Pow256(n - 1) * q) == Pow256(n) * q;
    }
  }

  lemma FromBEOfWrapped(v: nat, n: nat)
    ensures FromBE(ToBE(v, n)) == v % Pow256(n)
  {
    var q := DroppedHigh(v, n);
    FromBEBound(ToBE(v, n));
    DivUnique(v, Pow256(n), q, FromBE(ToBE(v, n)));
  }

  /** Rejections come back modulo the widths of their fields, so unchanged exactly when they fit. */
  lemma NackRoundTrip(n: Nack)
    ensures ParseNackPayload(NackBytes(n)) == Some(Nack(n.groupId % TWO_32, n.reason % 256))
    ensures ParseNackPayload(NackBytes(n)) == Some(n) <==> n.groupId < TWO_32 && n.reason < 256
  {
    Pow256Values();
    FromBEOfWrapped(n.groupId, 4);
    assert NackBytes(n)[..4] == ToBE(n.groupId, 4);
  }
}
