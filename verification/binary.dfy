/**
  The client/server wire format of data/binary.go: a frame is split into a
  `BinaryData` record whose layout depends on the traffic direction.

  - Inbound (client to server):  [target][messageType][payload ...]
  - Outbound (server to client): [uuid: 16 bytes][messageType][payload ...]
 */
module Binary {
  import opened Wrappers

  type Byte = bv8
  type Bytes = seq<Byte>

  // Traffic directions, numbered by iota in data/binary.go.
  const INBOUND: int := 0
  const OUTBOUND: int := 1

  // Message types of the data package.
  const NEW_CONNECT: Byte := 0
  const EXIT_CONNECT: Byte := 1

  /** Width of the sender UUID that heads an outbound frame. */
  const UUID_LENGTH: nat := 16

  /** The parsed frame. Fields a direction does not use keep Go's zero value. */
  datatype BinaryData = BinaryData(
    traffic: int,
    uuid: Bytes,
    target: Byte,
    messageType: Byte,
    payload: Bytes)

  /** Go's zero value of `BinaryData`: nil slices read as empty sequences. */
  const ZERO: BinaryData := BinaryData(0, [], 0, 0, [])

  /** Why a frame could not be decoded: it was shorter than its header. */
  datatype DecodeError = MalformedFrame(needed: nat, got: nat)

  /**
    The shortest frame each direction can be sliced from. The Go code indexes
    without checking, so anything shorter makes it panic (`b[2:]` and `b[17:]`
    need that many bytes of length, whatever the capacity); an unknown
    direction reads nothing.
   */
  function MinLength(t: int): nat {
    if t == INBOUND then 2
    else if t == OUTBOUND then UUID_LENGTH + 1
    else 0
  }

  /** Lays out an inbound frame: the inverse of the inbound parse. */
  function EncodeInbound(target: Byte, messageType: Byte, payload: Bytes): Bytes {
    [target, messageType] + payload
  }

  /** Lays out an outbound frame: the inverse of the outbound parse. */
  function EncodeOutbound(uuid: Bytes, messageType: Byte, payload: Bytes): Bytes {
    uuid + [messageType] + payload
  }

  /**
    `NewBinaryData(b, t)` as written: a record and an error that is always nil.
    The precondition is the bounds check the source leaves to the Go runtime.
   */
  function NewBinaryData(b: Bytes, t: int): (r: (BinaryData, Option<DecodeError>))
    requires |b| >= MinLength(t)
    ensures r.1 == None
    ensures t == INBOUND ==>
      && r.0.traffic == INBOUND
      && r.0.uuid == []
      && EncodeInbound(r.0.target, r.0.messageType, r.0.payload) == b
    ensures t == OUTBOUND ==>
      && r.0.traffic == OUTBOUND
      && r.0.target == 0
      && |r.0.uuid| == UUID_LENGTH
      && EncodeOutbound(r.0.uuid, r.0.messageType, r.0.payload) == b
    ensures t != INBOUND && t != OUTBOUND ==> r.0 == ZERO
  {
    var p :=
      if t == INBOUND then
        ZERO.(traffic := t, target := b[0], messageType := b[1], payload := b[2..])
      else if t == OUTBOUND then
        ZERO.(traffic := t, uuid := b[..UUID_LENGTH], messageType := b[UUID_LENGTH],
              payload := b[UUID_LENGTH + 1..])
      else
        ZERO;
    (p, None)
  }

  /** Parsing an inbound layout gives back exactly the fields it was built from. */
  lemma InboundRoundTrip(target: Byte, messageType: Byte, payload: Bytes)
    ensures NewBinaryData(EncodeInbound(target, messageType, payload), INBOUND)
         == (BinaryData(INBOUND, [], target, messageType, payload), None)
  {
  }

  /** Parsing an outbound layout gives back exactly the fields it was built from. */
  lemma OutboundRoundTrip(uuid: Bytes, messageType: Byte, payload: Bytes)
    requires |uuid| == UUID_LENGTH
    ensures NewBinaryData(EncodeOutbound(uuid, messageType, payload), OUTBOUND)
         == (BinaryData(OUTBOUND, uuid, 0, messageType, payload), None)
  {
    var b := EncodeOutbound(uuid, messageType, payload);
    assert b[..UUID_LENGTH] == uuid;
    assert b[UUID_LENGTH + 1..] == payload;
  }

  /**
    An unknown direction yields the zero record with a nil error, and that
    record is the same one a two-byte inbound frame of zeros parses to: a
    caller cannot tell the two apart.
   */
  lemma UnknownTrafficLooksInbound(b: Bytes, t: int)
    requires t != INBOUND && t != OUTBOUND
    ensures NewBinaryData(b, t) == NewBinaryData([0, 0], INBOUND)
  {
  }

  /**
    The checked decoder: a frame shorter than its header is reported as
    `MalformedFrame` instead of indexing past its end; every other frame
    decodes to what `NewBinaryData` returns.
   */
  function Decode(b: Bytes, t: int): (r: Result<BinaryData, DecodeError>)
    ensures r.Failure? <==> |b| < MinLength(t)
    ensures r.Failure? ==> r.error == MalformedFrame(MinLength(t), |b|)
    ensures r.Success? ==> r.value == NewBinaryData(b, t).0
  {
    if |b| < MinLength(t) then Failure(MalformedFrame(MinLength(t), |b|))
    else Success(NewBinaryData(b, t).0)
  }
}
