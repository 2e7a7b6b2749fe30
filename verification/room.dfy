/**
  The relay logic of iguagile/room.go: `Receive` re-addresses an inbound
  frame under the sender's id and fans it out by its target byte;
  `Register` admits a client, announces it and replays the buffer to it.
  Both are pure: they return the new room and the log of effects they cause.
 */
module Room {
  import opened Wrappers
  import opened Binary
  import opened Relay

  // Addressing modes, numbered as the Go constants are (by iota).
  const ALL_CLIENTS: Byte := 0
  const OTHER_CLIENTS: Byte := 1
  const ALL_CLIENTS_BUFFERED: Byte := 2
  const OTHER_CLIENTS_BUFFERED: Byte := 3

  // Message types the room itself emits.
  const NEW_CONNECTION: Byte := 0
  const EXIT_CONNECTION: Byte := 1

  /** A room with no members and an empty buffer; the UUID is supplied. */
  function NewRoom(uid: Bytes): (r: RoomState)
    ensures r.id == uid
    ensures r.clients == {}
    ensures r.buffer == multiset{}
  {
    RoomState(uid, {}, multiset{})
  }

  /** Targets whose messages are kept for later joiners. */
  predicate IsBuffered(target: Byte) {
    target == ALL_CLIENTS_BUFFERED || target == OTHER_CLIENTS_BUFFERED
  }

  /** Targets the room understands; every other value is dropped. */
  predicate IsKnownTarget(target: Byte) {
    target == ALL_CLIENTS || target == OTHER_CLIENTS || IsBuffered(target)
  }

  /**
    The addressing modes as a recipient rule: does a frame the sender
    addresses with `target` reach room member `x`?
   */
  predicate Addressed(target: Byte, sender: Client, x: Client) {
    || target == ALL_CLIENTS
    || target == ALL_CLIENTS_BUFFERED
    || ((target == OTHER_CLIENTS || target == OTHER_CLIENTS_BUFFERED) && x != sender)
  }

  /**
    The outbound message built from a parsed inbound frame: the sender's id as
    the session knows it, then the message type and payload. Whatever the
    payload holds, the message starts with the sender's own id.
   */
  function Relayed(sender: Client, d: BinaryData): (m: Bytes)
    ensures |m| > |sender.id|
    ensures m[..|sender.id|] == sender.id
  {
    sender.id + [d.messageType] + d.payload
  }

  /** Re-addresses a parsed inbound frame: the switch of `Receive`. */
  function Dispatch(room: RoomState, sender: Client, d: BinaryData): (r: (RoomState, seq<Event>))
    ensures r.0 == Run(room, r.1)
    ensures r.0.clients == room.clients
    ensures r.0.buffer == room.buffer
      + (if IsBuffered(d.target) then multiset{Relayed(sender, d)} else multiset{})
    ensures forall e <- r.1 :: !e.Admit? && e.caller == sender && e.message == Relayed(sender, d)
    ensures |r.1| == if IsBuffered(d.target) then 2 else if IsKnownTarget(d.target) then 1 else 0
    ensures IsBuffered(d.target) ==> !r.1[0].AddBuffer? && r.1[1].AddBuffer?
    ensures !IsBuffered(d.target) ==> forall e <- r.1 :: !e.AddBuffer?
  {
    var m := Relayed(sender, d);
    if d.target == OTHER_CLIENTS then
      (room, [SendToOthers(sender, m)])
    else if d.target == ALL_CLIENTS then
      (room, [SendToAll(sender, m)])
    else if d.target == OTHER_CLIENTS_BUFFERED then
      RunShort(room, SendToOthers(sender, m), AddBuffer(sender, m));
      (room.(buffer := room.buffer + multiset{m}), [SendToOthers(sender, m), AddBuffer(sender, m)])
    else if d.target == ALL_CLIENTS_BUFFERED then
      RunShort(room, SendToAll(sender, m), AddBuffer(sender, m));
      (room.(buffer := room.buffer + multiset{m}), [SendToAll(sender, m), AddBuffer(sender, m)])
    else
      (room, [])
  }

  /**
    Each client receives the relayed message exactly once if it is a member
    the target addresses, and nothing otherwise.
   */
  lemma DispatchDelivers(room: RoomState, sender: Client, d: BinaryData, x: Client)
    ensures Inbox(room, Dispatch(room, sender, d).1, x)
         == if x in room.clients && Addressed(d.target, sender, x) then [Relayed(sender, d)] else []
  {
    var m := Relayed(sender, d);
    InboxShort(room, SendToOthers(sender, m), AddBuffer(sender, m), x);
    InboxShort(room, SendToAll(sender, m), AddBuffer(sender, m), x);
  }

  /**
    With a 16-byte client id, the relayed message is a well-formed outbound
    frame whose UUID is the sender's id and whose type and payload are the
    inbound frame's.
   */
  lemma RelayedParsesAsOutbound(sender: Client, d: BinaryData)
    requires |sender.id| == UUID_LENGTH
    ensures NewBinaryData(Relayed(sender, d), OUTBOUND)
         == (BinaryData(OUTBOUND, sender.id, 0, d.messageType, d.payload), None)
  {
  }

  /**
    `Receive` as written: the frame is parsed without a length check, so a
    frame of fewer than two bytes is outside its domain (the Go code panics).
    The relayed message is the sender's id followed by the frame minus its
    target byte.
   */
  function Receive(room: RoomState, sender: Client, data: Bytes): (r: (RoomState, seq<Event>))
    requires |data| >= MinLength(INBOUND)
    ensures r.0 == Run(room, r.1)
    ensures r.0.clients == room.clients
    ensures r.0.buffer == room.buffer
      + (if IsBuffered(data[0]) then multiset{sender.id + data[1..]} else multiset{})
    ensures forall e <- r.1 :: !e.Admit? && e.caller == sender && e.message == sender.id + data[1..]
    ensures IsKnownTarget(data[0]) <==> r.1 != []
  {
    var (d, err) := NewBinaryData(data, INBOUND);
    assert data == [data[0], data[1]] + data[2..];
    assert Relayed(sender, d) == sender.id + data[1..];
    Dispatch(room, sender, d)
  }

  /** Delivery rule of `Receive`, addressed by the frame's first byte. */
  lemma ReceiveDelivers(room: RoomState, sender: Client, data: Bytes, x: Client)
    requires |data| >= MinLength(INBOUND)
    ensures Inbox(room, Receive(room, sender, data).1, x)
         == if x in room.clients && Addressed(data[0], sender, x) then [sender.id + data[1..]] else []
    ensures (data[0] == OTHER_CLIENTS || data[0] == OTHER_CLIENTS_BUFFERED)
         ==> Inbox(room, Receive(room, sender, data).1, sender) == []
    ensures (data[0] == ALL_CLIENTS || data[0] == ALL_CLIENTS_BUFFERED) && sender in room.clients
         ==> Inbox(room, Receive(room, sender, data).1, sender) == [sender.id + data[1..]]
  {
    var d := NewBinaryData(data, INBOUND).0;
    assert data == [data[0], data[1]] + data[2..];
    assert Relayed(sender, d) == sender.id + data[1..];
    DispatchDelivers(room, sender, d, x);
    DispatchDelivers(room, sender, d, sender);
  }

  /**
    `Receive` with a length check and the design's "log and drop" rule for
    malformed frames: a frame too short to hold its header is dropped with no
    effect and the room unchanged, rather than going on to be dispatched;
    every other frame is handled as `Receive` handles it.
   */
  function ReceiveChecked(room: RoomState, sender: Client, data: Bytes): (r: (RoomState, seq<Event>))
    ensures |data| < MinLength(INBOUND) ==> r == (room, [])
    ensures |data| >= MinLength(INBOUND) ==> r == Receive(room, sender, data)
  {
    match Decode(data, INBOUND)
    case Failure(_) => (room, [])
    case Success(d) => Dispatch(room, sender, d)
  }

  /**
    A one-byte frame: as written it is outside `Receive`'s domain, where the
    Go runtime panics; the checked path drops it.
   */
  lemma OneByteFrame(room: RoomState, sender: Client)
    ensures |[OTHER_CLIENTS]| < MinLength(INBOUND)
    ensures Decode([OTHER_CLIENTS], INBOUND) == Failure(MalformedFrame(2, 1))
    ensures ReceiveChecked(room, sender, [OTHER_CLIENTS]) == (room, [])
  {
  }

  /** The join notice: the client's id followed by the new-connection type. */
  function Announcement(c: Client): Bytes {
    c.id + [NEW_CONNECTION]
  }

  /**
    The effects of `Register` when the buffer is replayed in order `replay`:
    announce to the others, admit, replay to the newcomer, buffer the notice.
   */
  function RegisterLog(c: Client, replay: seq<Bytes>): seq<Event> {
    [SendToOthers(c, Announcement(c)), Admit(c)] + SendEach(c, replay) + [AddBuffer(c, Announcement(c))]
  }

  /**
    `Register`: the buffer is a map, so the replay loop visits its entries in
    an order the runtime picks; `replay` is the order this run took.
   */
  method Register(room: RoomState, c: Client) returns (room': RoomState, log: seq<Event>, replay: seq<Bytes>)
    ensures multiset(replay) == room.buffer
    ensures log == RegisterLog(c, replay)
    ensures room' == Run(room, log)
    ensures room'.clients == room.clients + {c}
    ensures room'.buffer == room.buffer + multiset{Announcement(c)}
    ensures room'.id == room.id
  {
    var announcement := Announcement(c);
    log := [SendToOthers(c, announcement)];
    room' := room.(clients := room.clients + {c});
    log := log + [Admit(c)];
    var rest := room'.buffer;
    replay := [];
    while rest != multiset{}
      invariant multiset(replay) + rest == room.buffer
      invariant log == [SendToOthers(c, announcement), Admit(c)] + SendEach(c, replay)
      decreases |rest|
    {
      var m :| m in rest;
      assert SendEach(c, replay + [m]) == SendEach(c, replay) + [Send(c, m)];
      log := log + [Send(c, m)];
      replay := replay + [m];
      rest := rest - multiset{m};
    }
    log := log + [AddBuffer(c, announcement)];
    room' := room'.(buffer := room'.buffer + multiset{announcement});
    RegisterRuns(room, c, replay);
  }

  /** Running the `Register` log admits `c` and buffers its notice, nothing else. */
  lemma RegisterRuns(room: RoomState, c: Client, replay: seq<Bytes>)
    ensures Run(room, RegisterLog(c, replay))
         == room.(clients := room.clients + {c}, buffer := room.buffer + multiset{Announcement(c)})
  {
    var head := [SendToOthers(c, Announcement(c)), Admit(c)];
    var tail := [AddBuffer(c, Announcement(c))];
    var admitted := room.(clients := room.clients + {c});
    RunAppend(room, head + SendEach(c, replay), tail);
    RunAppend(room, head, SendEach(c, replay));
    RunShort(room, head[0], head[1]);
    RunSendEach(admitted, c, replay);
  }

  /**
    Who hears what during `Register`: the newcomer receives the replayed
    buffer and not its own notice; every other current member receives the
    notice once; a client outside the room receives nothing.
   */
  lemma RegisterDelivers(room: RoomState, c: Client, replay: seq<Bytes>, x: Client)
    requires multiset(replay) == room.buffer
    ensures multiset(Inbox(room, RegisterLog(c, replay), c)) == room.buffer
    ensures Inbox(room, RegisterLog(c, replay), c) == replay
    ensures x != c && x in room.clients ==> Inbox(room, RegisterLog(c, replay), x) == [Announcement(c)]
    ensures x != c && x !in room.clients ==> Inbox(room, RegisterLog(c, replay), x) == []
  {
    RegisterInbox(room, c, replay, c);
    RegisterInbox(room, c, replay, x);
  }

  lemma RegisterInbox(room: RoomState, c: Client, replay: seq<Bytes>, x: Client)
    ensures Inbox(room, RegisterLog(c, replay), x)
         == (if x != c && x in room.clients then [Announcement(c)] else [])
          + (if x == c then replay else [])
  {
    var head := [SendToOthers(c, Announcement(c)), Admit(c)];
    var tail := [AddBuffer(c, Announcement(c))];
    var admitted := room.(clients := room.clients + {c});
    InboxAppend(room, head + SendEach(c, replay), tail, x);
    InboxAppend(room, head, SendEach(c, replay), x);
    RunAppend(room, head, SendEach(c, replay));
    RunShort(room, head[0], head[1]);
    RunSendEach(admitted, c, replay);
    InboxSendEach(admitted, c, replay, x);
    assert tail[1..] == [];
  }

  /** With a 16-byte client id the notice parses as an outbound new-connection frame. */
  lemma AnnouncementParsesAsOutbound(c: Client)
    requires |c.id| == UUID_LENGTH
    ensures NewBinaryData(Announcement(c), OUTBOUND)
         == (BinaryData(OUTBOUND, c.id, 0, NEW_CONNECTION, []), None)
  {
  }

  /** An inbound frame as it arrives at the room, with the session it came on. */
  datatype Frame = Frame(sender: Client, data: Bytes)

  /** The room after receiving `frames` one by one on the checked path. */
  function ReceiveAll(room: RoomState, frames: seq<Frame>): RoomState
    decreases |frames|
  {
    if frames == [] then room
    else ReceiveAll(ReceiveChecked(room, frames[0].sender, frames[0].data).0, frames[1..])
  }

  /**
    Reference definition of what a run of frames leaves for later joiners:
    for each well-formed frame with a buffered target, the sender's id
    followed by the frame minus its target byte.
   */
  function BufferedBy(frames: seq<Frame>): multiset<Bytes>
    decreases |frames|
  {
    if frames == [] then multiset{}
    else
      var f := frames[0];
      (if |f.data| >= 2 && IsBuffered(f.data[0]) then multiset{f.sender.id + f.data[1..]} else multiset{})
      + BufferedBy(frames[1..])
  }

  /** Receiving never changes membership and grows the buffer by exactly `BufferedBy`. */
  lemma {:induction false} ReceiveAllBuffers(room: RoomState, frames: seq<Frame>)
    ensures ReceiveAll(room, frames).clients == room.clients
    ensures ReceiveAll(room, frames).buffer == room.buffer + BufferedBy(frames)
    decreases |frames|
  {
    if frames != [] {
      var next := ReceiveChecked(room, frames[0].sender, frames[0].data).0;
      ReceiveAllBuffers(next, frames[1..]);
    }
  }

  /**
    Replay completeness: a client joining after a run of frames receives,
    each exactly once, every message buffered before the run and every
    buffered message of the run.
   */
  lemma {:induction false} LateJoinerReplay(room: RoomState, frames: seq<Frame>, c: Client, replay: seq<Bytes>)
    requires multiset(replay) == ReceiveAll(room, frames).buffer
    ensures multiset(Inbox(ReceiveAll(room, frames), RegisterLog(c, replay), c))
         == room.buffer + BufferedBy(frames)
  {
    ReceiveAllBuffers(room, frames);
    RegisterDelivers(ReceiveAll(room, frames), c, replay, c);
  }

  /**
    The first client to join a fresh room is announced to nobody and
    replayed nothing; only its own notice is left in the buffer.
   */
  lemma FirstJoiner(uid: Bytes, c: Client, replay: seq<Bytes>, x: Client)
    requires multiset(replay) == NewRoom(uid).buffer
    ensures replay == []
    ensures Inbox(NewRoom(uid), RegisterLog(c, replay), x) == []
    ensures Run(NewRoom(uid), RegisterLog(c, replay)).clients == {c}
    ensures Run(NewRoom(uid), RegisterLog(c, replay)).buffer == multiset{Announcement(c)}
  {
    RegisterInbox(NewRoom(uid), c, replay, x);
    RegisterRuns(NewRoom(uid), c, replay);
  }
}
