/**
  The state of a room (the `Room` struct of iguagile/room.go) and the
  effects its operations have through the `Client` interface.

  The `Client` implementation is not part of this model. Its primitives are
  recorded as events in a log, and the log is given a meaning under the
  following assumptions about that implementation:
  - `SendToOtherClients` delivers to every room member except the caller;
  - `SendToAllClients` delivers to every room member;
  - `Send` delivers to the caller alone;
  - `AddBuffer` inserts the message into the room's replay buffer.
 */
module Relay {
  import opened Binary

  /**
    A connected client: `handle` is the identity of the session object (the
    Go map key), `id` is what its `GetID()` returns.
   */
  datatype Client = Client(handle: nat, id: Bytes)

  /**
    A room: its opaque id, the member set and the replay buffer. The buffer is
    a Go map keyed by a fresh pointer per insertion, so equal messages are
    separate entries and no order is kept: a multiset.
   */
  datatype RoomState = RoomState(id: Bytes, clients: set<Client>, buffer: multiset<Bytes>)

  /**
    One step an operation takes: a `Client` primitive invoked on `caller`, or
    the room admitting a member (`r.clients[client] = true`).
   */
  datatype Event =
    | SendToOthers(caller: Client, message: Bytes)
    | SendToAll(caller: Client, message: Bytes)
    | Send(caller: Client, message: Bytes)
    | AddBuffer(caller: Client, message: Bytes)
    | Admit(client: Client)

  /** The room after one event. */
  function Step(r: RoomState, e: Event): RoomState {
    match e
    case Admit(c) => r.(clients := r.clients + {c})
    case AddBuffer(_, m) => r.(buffer := r.buffer + multiset{m})
    case _ => r
  }

  /** The room after a whole log, event by event. */
  function Run(r: RoomState, log: seq<Event>): RoomState
    decreases |log|
  {
    if log == [] then r else Run(Step(r, log[0]), log[1..])
  }

  /** Who receives the message of `e` when the room has these members. */
  function Recipients(e: Event, members: set<Client>): set<Client> {
    match e
    case SendToOthers(caller, _) => members - {caller}
    case SendToAll(_, _) => members
    case Send(caller, _) => {caller}
    case _ => {}
  }

  /** The messages `x` receives, in order, while `log` runs on room `r`. */
  function Inbox(r: RoomState, log: seq<Event>, x: Client): seq<Bytes>
    decreases |log|
  {
    if log == [] then []
    else
      var e := log[0];
      (if !e.Admit? && x in Recipients(e, r.clients) then [e.message] else [])
      + Inbox(Step(r, e), log[1..], x)
  }

  /** One `Send` to `c` per message, in the order given. */
  function SendEach(c: Client, messages: seq<Bytes>): (log: seq<Event>)
    ensures |log| == |messages|
  {
    seq(|messages|, i requires 0 <= i < |messages| => Send(c, messages[i]))
  }

  /** Logs of one and two events, unrolled. */
  lemma RunShort(r: RoomState, e1: Event, e2: Event)
    ensures Run(r, [e1]) == Step(r, e1)
    ensures Run(r, [e1, e2]) == Step(Step(r, e1), e2)
  {
    assert [e1][1..] == [];
    assert [e1, e2][1..] == [e2];
    assert [e2][1..] == [];
    assert Run(Step(r, e1), [e2]) == Step(Step(r, e1), e2);
  }

  /** What one client receives from a two-event log, split after the first event. */
  lemma InboxShort(r: RoomState, e1: Event, e2: Event, x: Client)
    ensures Inbox(r, [e1, e2], x) == Inbox(r, [e1], x) + Inbox(Step(r, e1), [e2], x)
  {
  }

  lemma {:induction false} RunAppend(r: RoomState, a: seq<Event>, b: seq<Event>)
    ensures Run(r, a + b) == Run(Run(r, a), b)
    decreases |a|
  {
    if a == [] {
      assert a + b == b;
    } else {
      assert (a + b)[0] == a[0];
      assert (a + b)[1..] == a[1..] + b;
      RunAppend(Step(r, a[0]), a[1..], b);
    }
  }

  /** What a member receives over two logs run one after the other. */
  lemma {:induction false} InboxAppend(r: RoomState, a: seq<Event>, b: seq<Event>, x: Client)
    ensures Inbox(r, a + b, x) == Inbox(r, a, x) + Inbox(Run(r, a), b, x)
    decreases |a|
  {
    if a == [] {
      assert a + b == b;
    } else {
      assert (a + b)[0] == a[0];
      assert (a + b)[1..] == a[1..] + b;
      InboxAppend(Step(r, a[0]), a[1..], b, x);
    }
  }

  /** Unicast sends leave the room as it was. */
  lemma {:induction false} RunSendEach(r: RoomState, c: Client, messages: seq<Bytes>)
    ensures Run(r, SendEach(c, messages)) == r
    decreases |messages|
  {
    if messages != [] {
      assert SendEach(c, messages)[1..] == SendEach(c, messages[1..]);
      RunSendEach(r, c, messages[1..]);
    }
  }

  /** Unicast sends reach their target, in order, and nobody else. */
  lemma {:induction false} InboxSendEach(r: RoomState, c: Client, messages: seq<Bytes>, x: Client)
    ensures Inbox(r, SendEach(c, messages), x) == if x == c then messages else []
    decreases |messages|
  {
    if messages != [] {
      assert SendEach(c, messages)[1..] == SendEach(c, messages[1..]);
      InboxSendEach(r, c, messages[1..], x);
      if x == c {
        assert messages == [messages[0]] + messages[1..];
      }
    }
  }
}
