/** The nine-byte control payload of the half-duplex handshake. */
module TxControlCodec {
  import opened Wrappers
  import opened Bytes

  const TX_OP_REQUEST := 1
  const TX_OP_GRANT := 2
  const TX_OP_RELEASE := 3
  const TX_CONTROL_PAYLOAD_SIZE := 9

  datatype TxControl = TxControl(op: int, txId: int, requestId: int)

  predicate Encodable(p: TxControl) {
    0 <= p.op <= 0xff && 0 <= p.txId <= 0xffffffff && 0 <= p.requestId <= 0xffffffff
  }

  function EncodeTxControl(p: TxControl): (r: Result<seq<byte>>)
    ensures r.Ok? <==> Encodable(p)
  {
    if p.op < 0 || p.op > 0xff then Err("Invalid TX control op")
    else if p.txId < 0 || p.txId > 0xffffffff then Err("Invalid TX control txId")
    else if p.requestId < 0 || p.requestId > 0xffffffff then Err("Invalid TX control requestId")
    else Ok([p.op] + ToBE(p.txId, 4) + ToBE(p.requestId, 4))
  }

  predicate KnownOp(op: int) {
    op == TX_OP_REQUEST || op == TX_OP_GRANT || op == TX_OP_RELEASE
  }

  function DecodeTxControl(data: seq<byte>): Option<TxControl> {
    if |data| != TX_CONTROL_PAYLOAD_SIZE || !KnownOp(data[0]) then None
    else Some(TxControl(data[0], FromBE(data[1..5]), FromBE(data[5..9])))
  }

  predicate IsGrantAccepted(p: TxControl) {
    p.op == TX_OP_GRANT && p.txId != 0
  }

  /** An encodable payload comes back unchanged exactly when its op is known, and is dropped otherwise. */
  lemma TxControlRoundTrip(p: TxControl)
    requires Encodable(p)
    ensures DecodeTxControl(EncodeTxControl(p).value) == if KnownOp(p.op) then Some(p) else None
  {
    Pow256Values();
    FromToBE(p.txId, 4);
    FromToBE(p.requestId, 4);
    var d := EncodeTxControl(p).value;
    assert d[1..5] == ToBE(p.txId, 4) && d[5..9] == ToBE(p.requestId, 4);
  }

  /** Whatever decodes is the encoding of what it decodes to. */
  lemma TxControlAccepted(data: seq<byte>)
    requires DecodeTxControl(data).Some?
    ensures EncodeTxControl(DecodeTxControl(data).value) == Ok(data)
  {
    Pow256Values();
    FromBEBound(data[1..5]);
    FromBEBound(data[5..9]);
    ToFromBE(data[1..5]);
    ToFromBE(data[5..9]);
    assert data == [data[0]] + data[1..5] + data[5..9];
  }
}

/** One side of a direct link: who may transmit, as this side sees it. */
module TxOwnership {
  import opened Wrappers
  import opened Bytes
  import opened TxControlCodec

  datatype Owner = NONE | SELF | REMOTE

  /**
   * `pending` is the resolver of our own request, `owning` says that the peer is recorded as the
   * owning one, `unsettled` counts grant transmissions that may still be reported as failed.
   */
  datatype Party = Party(owner: Owner, txId: int, pending: bool, counter: nat, owning: bool, unsettled: nat)

  function Idle(counter: nat): Party {
    Party(NONE, 0, false, counter, false, 0)
  }

  /** `++counter >>> 0` */
  function NextRequestId(p: Party): int {
    (p.counter + 1) % TWO_32
  }

  /** `(++counter & 0xffffffff) || 1`, a signed 32-bit number. */
  function NextGrantId(p: Party): (id: int)
    ensures id != 0
  {
    var id := ToInt32(p.counter + 1);
    if id == 0 then 1 else id
  }

  /** requestTxOwnership: the party, and the request sent. A failed transmission takes the request back. */
  function Request(p: Party, delivered: bool): (Party, seq<TxControl>) {
    if p.owner != NONE || p.pending then (p, [])
    else
      (p.(counter := p.counter + 1, pending := delivered),
       if delivered then [TxControl(TX_OP_REQUEST, 0, NextRequestId(p))] else [])
  }

  function Release(p: Party, delivered: bool): (Party, seq<TxControl>) {
    (p.(txId := 0, owner := NONE), if p.owner == SELF && delivered then [TxControl(TX_OP_RELEASE, p.txId, 0)] else [])
  }

  /** A grant whose token is negative cannot be encoded: nothing is sent and the grant will be reverted. */
  function OnRequest(p: Party, requestId: int): (Party, seq<TxControl>) {
    if p.owner == NONE then
      var id := NextGrantId(p);
      (p.(counter := p.counter + 1, txId := 0, owning := true, owner := REMOTE, unsettled := p.unsettled + 1),
       if id >= 0 then [TxControl(TX_OP_GRANT, id, requestId)] else [])
    else (p, [TxControl(TX_OP_GRANT, 0, requestId)])
  }

  function OnGrant(p: Party, c: TxControl): Party {
    if !p.pending then p
    else if IsGrantAccepted(c) then p.(pending := false, txId := c.txId, owning := true, owner := SELF)
    else p.(pending := false)
  }

  function OnRelease(p: Party): Party {
    if p.owner == REMOTE then p.(owning := false, owner := NONE) else p
  }

  function OnControl(p: Party, c: TxControl): (Party, seq<TxControl>) {
    if c.op == TX_OP_REQUEST then OnRequest(p, c.requestId)
    else if c.op == TX_OP_GRANT then (OnGrant(p, c), [])
    else if c.op == TX_OP_RELEASE then (OnRelease(p), [])
    else (p, [])
  }

  function OnWatchdog(p: Party): Party {
    if p.owner == REMOTE then p.(owner := NONE) else p
  }

  /** The transmission of a grant settles; on failure the grant is reverted, whatever happened since. */
  function OnGrantSettled(p: Party, ok: bool): Party {
    if p.unsettled == 0 then p
    else
      var p1 := p.(unsettled := p.unsettled - 1);
      if ok then p1 else p1.(owning := false, owner := NONE)
  }

  function OnDisconnect(p: Party): Party {
    if p.owning then p.(owning := false, txId := 0, owner := NONE) else p
  }

  class TxLink {
    var owner: Owner
    var txId: int
    var pending: bool
    var counter: nat
    var owning: bool
    var unsettled: nat
    var sent: seq<TxControl>

    ghost function Contents(): Party
      reads this
    {
      Party(owner, txId, pending, counter, owning, unsettled)
    }

    constructor (counter: nat)
      ensures Contents() == Idle(counter) && sent == []
    {
      owner, txId, pending, this.counter, owning, unsettled, sent := NONE, 0, false, counter, false, 0, [];
    }

    method RequestTxOwnership(delivered: bool)
      modifies this
      ensures Contents() == Request(old(Contents()), delivered).0
        && sent == old(sent) + Request(old(Contents()), delivered).1
    {
      if owner == SELF || owner == REMOTE || pending {
        return;
      }
      counter := counter + 1;
      var requestId := counter % TWO_32;
      pending := true;
      if delivered {
        sent := sent + [TxControl(TX_OP_REQUEST, 0, requestId)];
      } else {
        pending := false;
      }
    }

    method ReleaseTxOwnership(delivered: bool)
      modifies this
      ensures Contents() == Release(old(Contents()), delivered).0
        && sent == old(sent) + Release(old(Contents()), delivered).1
    {
      var wasOwner := owner == SELF;
      var ownedTxId := txId;
      txId := 0;
      owner := NONE;
      if wasOwner && delivered {
        sent := sent + [TxControl(TX_OP_RELEASE, ownedTxId, 0)];
      }
    }

    /** The bounded wait for an answer is over. */
    method RequestTimedOut()
      modifies this
      ensures Contents() == old(Contents()).(pending := false) && sent == old(sent)
    {
      pending := false;
    }

    method RemoteWatchdogFired()
      modifies this
      ensures Contents() == OnWatchdog(old(Contents())) && sent == old(sent)
    {
      if owner == REMOTE {
        owner := NONE;
      }
    }

    /** The transmission of a grant has settled; a failure reverts it, whatever happened since. */
    method GrantSettled(ok: bool)
      requires unsettled > 0
      modifies this
      ensures Contents() == OnGrantSettled(old(Contents()), ok) && sent == old(sent)
    {
      unsettled := unsettled - 1;
      if !ok {
        owning := false;
        owner := NONE;
      }
    }

    method Disconnected()
      modifies this
      ensures Contents() == OnDisconnect(old(Contents())) && sent == old(sent)
    {
      if owning {
        owning := false;
        txId := 0;
        owner := NONE;
      }
    }

    method HandleTxControl(payload: seq<byte>)
      modifies this
      ensures match DecodeTxControl(payload)
        case None => Contents() == old(Contents()) && sent == old(sent)
        case Some(c) =>
          Contents() == OnControl(old(Contents()), c).0 && sent == old(sent) + OnControl(old(Contents()), c).1
    {
      var decoded := DecodeTxControl(payload);
      if decoded.None? {
        return;
      }
      var ctrl := decoded.value;
      if ctrl.op == TX_OP_REQUEST {
        if owner == NONE {
          counter := counter + 1;
          var grantedTxId := ToInt32(counter);
          if grantedTxId == 0 { grantedTxId := 1; }
          txId := 0;
          owning := true;
          owner := REMOTE;
          unsettled := unsettled + 1;
          if grantedTxId >= 0 {
            sent := sent + [TxControl(TX_OP_GRANT, grantedTxId, ctrl.requestId)];
          }
        } else {
          sent := sent + [TxControl(TX_OP_GRANT, 0, ctrl.requestId)];
        }
      } else if ctrl.op == TX_OP_GRANT {
        if pending {
          pending := false;
          if IsGrantAccepted(ctrl) {
            txId := ctrl.txId;
            owning := true;
            owner := SELF;
          }
        }
      } else if owner == REMOTE {
        owning := false;
        owner := NONE;
      }
    }
  }
}
