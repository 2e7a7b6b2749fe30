# iguagile-engine relay core, modelled in Dafny

iguagile-engine is a real-time relay server for multiplayer sessions. Clients join a
room and send binary frames. The server re-addresses each frame under the sender's id and
fans it out to the other members. Frames sent with a "buffered" addressing mode are also
kept, and the room replays them to every client that joins later.

This project models two sequential pieces of that engine:

- `binary.dfy`, module `Binary`, models `data/binary.go`: the `BinaryData` record and the
  parser `NewBinaryData`. An inbound frame (client to server) is
  `[target][messageType][payload…]`. An outbound frame (server to client) is
  `[16-byte UUID][messageType][payload…]`. Bytes are `bv8`.
- `relay.dfy`, module `Relay`, holds `RoomState`, the `Room` struct: an opaque id, the member set and the
  replay buffer. It also holds the client handle and the effect log the room writes through
  the `Client` interface. The buffer is a Go map keyed by a fresh pointer per insertion, so
  it is a `multiset`: equal messages are separate entries, and no order is kept.
- `room.dfy`, module `Room`, models `iguagile/room.go`: the addressing and message-type
  constants, `Receive` (re-address and dispatch), and `Register` (announce, admit, replay,
  buffer).
- `wrappers.dfy` holds `Option` and `Result`.

Operations are pure. Each returns the new room and the list of effects it performed:
`SendToOthers`, `SendToAll`, `Send`, `AddBuffer`, and `Admit` for `r.clients[client] = true`.
The `Client` implementation is not part of this model, so the log gets its meaning from
these assumptions about it:

- `SendToOtherClients` delivers to every current room member except the caller.
- `SendToAllClients` delivers to every current member.
- `Send` delivers to the caller only.
- `AddBuffer` inserts the message into the room's replay buffer.

`Relay.Run` replays a log on a room. `Relay.Inbox` gives, for one client, the messages the
log delivers to it, in order. The delivery and replay properties are stated through these
two functions.

Where the system's design description and the code disagree, the model follows the code:

- Addressing values are allClients=0, otherClients=1, allClientsBuffered=2 and
  otherClientsBuffered=3, as the Go constants number them.
- The replay buffer is unordered, not a sequence.
- The join notice is buffered with a direct `AddBuffer`, not through an addressing mode.
- A frame shorter than its header makes the code panic; it does not fail with a decode
  error (see Findings).

`NewBinaryData` and `Receive` therefore require `|b| >= 2` for inbound frames and
`|b| >= 17` for outbound frames. Those are the slice bounds the Go runtime enforces.
`b[2:]` and `b[17:]` need that much length, whatever the slice's capacity.

## Model

| member | source | states |
|---|---|---|
| Binary.NewBinaryData | data/binary.go:25-42 | The error is always nil. An inbound parse has Traffic = Inbound and an empty UUID, and `[Target, MessageType] ++ Payload` is the input. An outbound parse has Traffic = Outbound, Target = 0 and a 16-byte UUID, and `UUID ++ [MessageType] ++ Payload` is the input. An unknown direction yields the zero record. The precondition is the Go bounds check. |
| Binary.InboundRoundTrip | data/binary.go:29-33 | Parsing an inbound layout built from (target, type, payload) gives back exactly those fields, with Traffic = Inbound and an empty UUID. |
| Binary.OutboundRoundTrip | data/binary.go:34-38 | Parsing an outbound layout built from a 16-byte UUID, a type and a payload gives back exactly those fields, with Target left at zero. |
| Binary.UnknownTrafficLooksInbound | data/binary.go:26-41 | For any direction other than Inbound or Outbound, the result (zero record, nil error) equals the parse of the inbound frame `[0, 0]`, so a caller cannot tell the two apart. |
| Binary.Decode | data/binary.go:25-42 | Checked parse: it fails with MalformedFrame(needed, got) exactly when the frame is shorter than its direction's header, and otherwise returns what NewBinaryData returns. |
| Room.NewRoom | iguagile/room.go:19-29 | A new room carries the supplied id, has no members and an empty buffer. |
| Room.FirstJoiner | iguagile/room.go:19-29 | The first client to register in a new room is replayed nothing and its notice reaches nobody; afterwards it is the only member and its notice is the only buffered message. |
| Room.Relayed | iguagile/room.go:74 | Whatever the payload, the relayed message begins with the id of the session it arrived on. |
| Room.RelayedParsesAsOutbound | iguagile/room.go:74 | With a 16-byte client id, the relayed message parses as an outbound frame whose UUID is the sender's id and whose type and payload are the inbound frame's. |
| Room.Dispatch | iguagile/room.go:74-88 | Membership is unchanged. The buffer grows by the relayed message exactly for buffered targets. Every effect is invoked on the sender and carries the relayed message. There are 1 effect for an unbuffered target, 2 for a buffered one (send first, then buffer) and none for an unknown target. The returned room is what running the log gives. |
| Room.DispatchDelivers | iguagile/room.go:75-88 | A client receives the relayed message exactly once if it is a member the target addresses: every member for all/allBuffered, every member but the sender for others/othersBuffered. Otherwise it receives nothing. |
| Room.Receive | iguagile/room.go:69-89 | For a frame of at least two bytes, the relayed message is the sender id followed by the frame minus its target byte. The buffer grows by it exactly when byte 0 is a buffered target, and membership is unchanged. There are effects iff byte 0 is a known target. The result agrees with running its log. |
| Room.ReceiveDelivers | iguagile/room.go:75-88 | The delivery rule by byte 0 of the frame. There is no self-echo for others/othersBuffered, and a member sender gets a full echo for all/allBuffered. |
| Room.ReceiveChecked | iguagile/room.go:70-73 | A frame shorter than two bytes is dropped: no effect, room unchanged. Any other frame is handled exactly as Receive handles it. |
| Room.OneByteFrame | data/binary.go:31-32 | A one-byte frame is outside Receive's domain (the Go code panics there). The checked decoder reports MalformedFrame(2, 1), and the checked receive drops it. |
| Room.Register | iguagile/room.go:58-67 | The replay order is some enumeration of the buffer, each entry once. The log is: announce to the others, admit, one Send per replayed entry, then buffer the notice. Afterwards the member set is the old one plus the newcomer (nobody removed), and the buffer is the old one plus the notice. The returned room is what running the log gives. |
| Room.RegisterRuns | iguagile/room.go:60-66 | Running the Register log admits exactly the newcomer and buffers exactly its notice; the unicast replay changes nothing. |
| Room.RegisterDelivers | iguagile/room.go:60-66 | The newcomer receives exactly the replayed buffer, as a multiset equal to the old buffer. It is not sent its own notice. Every other existing member receives the notice exactly once. A non-member receives nothing. |
| Room.AnnouncementParsesAsOutbound | iguagile/room.go:60 | With a 16-byte client id, the join notice parses as an outbound frame with the client's id as UUID, type newConnection and an empty payload. |
| Room.ReceiveAllBuffers | iguagile/room.go:80-85 | A run of received frames never changes membership. It grows the buffer by exactly the reference multiset BufferedBy: one sender-id-prefixed message per well-formed frame with a buffered target. |
| Room.LateJoinerReplay | iguagile/room.go:63-85 | A client joining after a run of frames receives each message that was buffered before the run, and each buffered message of the run, exactly once. |

## Left out

- Room creation's UUID generation (iguagile/room.go:20-23) calls a foreign library. `Room.NewRoom` takes the id as a parameter, and the error log there is not modelled.
- `go client.Run()` (iguagile/room.go:59) and all concurrency are left out. The model is single-threaded, so interleavings of Register and Receive on one room are not modelled.
- Logging is not modelled: the logger field, the err log in Receive and the default-case log. Unknown targets are simply dropped.
- The write/pong timeouts and the maximum message size (iguagile/room.go:44-56) are unused by the modelled logic.
- The `Client` implementation is not part of this model. Its delivery semantics and `AddBuffer`'s insertion into the room buffer are assumptions, listed above.
- Go `append` aliasing on the slice `GetID()` returns (iguagile/room.go:60, :74) is left out. Sequences are immutable values here.
- Exit-connection handling, host migration and object-authority transfer have no code in the modelled files. Only the `EXIT_CONNECTION` constant is kept.
- iguagile/tcp_test.go is a socket-level integration test. It uses a 2-byte client id and other definitions that are not part of this model.
- Room.Register: replay order is whatever the map iteration yields. The model proves only that every buffered entry is replayed once, not any particular order, because Go fixes none.

## Findings

| source | as written | input that shows it | evidently intended | confidence | as-written member | corrected member |
|---|---|---|---|---|---|---|
| data/binary.go:31-33 | An inbound frame shorter than two bytes is sliced without a length check, so `NewBinaryData` panics. It never returns an error, so the `err != nil` branch of Receive (iguagile/room.go:71-73) cannot run, and a client can crash the server with a one-byte frame. That branch also only logs and has no `return`: had the parser reported the error with a zero record, Receive would go on to lines 74-88 and broadcast `id ++ [0]` to all clients as target 0. | the one-byte inbound frame `[0x01]` | report a malformed frame, and have Receive return after logging it, so the frame is dropped without disturbing the room | medium, not executed | Room.Receive (precondition; Room.OneByteFrame) | Room.ReceiveChecked (with Binary.Decode) |
