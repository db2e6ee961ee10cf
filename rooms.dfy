/** The pub/sub surface of backend/src/ws/socket.js: the handshake
    middleware that admits or rejects a connection, and the `room:join`,
    `room:leave` and `chat:send` handlers over the connection-to-rooms
    membership relation the transport keeps. As in the transport, an
    admitted connection starts in the room named by its own id, and leaves
    every room when it disconnects. */
module Rooms {
  import opened Js

  type SocketId = string

  const DefaultRoom: string := "lobby"
  const MaxMessageLength: nat := 200

  datatype Handshake = Admitted(user: Claims) | Rejected(error: string)

  /** `socket.handshake.auth?.token || socket.handshake.headers?.token || null`. */
  function HandshakeToken(authToken: Arg, headerToken: Arg): (r: Option<string>)
    ensures r.Some? ==> r.value != ""
    ensures Truthy(authToken) ==> r == Some(authToken.s)
    ensures !Truthy(authToken) && Truthy(headerToken) ==> r == Some(headerToken.s)
    ensures r.None? <==> !Truthy(authToken) && !Truthy(headerToken)
  {
    if Truthy(authToken) then Some(authToken.s)
    else if Truthy(headerToken) then Some(headerToken.s)
    else None
  }

  /** The `io.use` middleware: "Missing token" without a token, "Invalid
      token" when verification fails, admission with the decoded claims
      otherwise. */
  function Authorize(authToken: Arg, headerToken: Arg, verify: Verifier): (r: Handshake)
    ensures r == Rejected("Missing token") <==> HandshakeToken(authToken, headerToken).None?
    ensures r == Rejected("Invalid token") <==>
              HandshakeToken(authToken, headerToken).Some? && verify(HandshakeToken(authToken, headerToken).value).None?
    ensures r.Admitted? <==>
              HandshakeToken(authToken, headerToken).Some? && verify(HandshakeToken(authToken, headerToken).value).Some?
    ensures r.Admitted? ==> verify(HandshakeToken(authToken, headerToken).value) == Some(r.user)
  {
    match HandshakeToken(authToken, headerToken)
    case None => Rejected("Missing token")
    case Some(token) =>
      match verify(token)
      case None => Rejected("Invalid token")
      case Some(user) => Admitted(user)
  }

  /** The `chat:send` payload, which a client may leave out. */
  datatype ChatPayload = NoPayload | Payload(room: Arg, message: Arg)

  /** `String(payload?.room || "lobby")`. */
  function ChatRoom(p: ChatPayload): (room: string)
    ensures room != ""
    ensures p.Payload? && Truthy(p.room) ==> room == p.room.s
    ensures p.NoPayload? || !Truthy(p.room) ==> room == "lobby"
  {
    if p.Payload? then OrDefault(p.room, DefaultRoom) else DefaultRoom
  }

  /** `String(payload?.message || "").slice(0, 200)`. */
  function ChatText(p: ChatPayload): (text: string)
    ensures |text| <= MaxMessageLength
    ensures p.Payload? && Truthy(p.message) ==> text == Take(p.message.s, MaxMessageLength)
    ensures p.NoPayload? || !Truthy(p.message) ==> text == ""
  {
    if p.Payload? then Take(OrDefault(p.message, ""), MaxMessageLength) else ""
  }

  /** The `chat:message` event broadcast to a room. */
  datatype ChatMessage = ChatMessage(from: Option<string>, room: string, message: string, ts: Timestamp)

  /** The acknowledgements sent to a client that passed a callback. */
  datatype Ack = RoomAck(ok: bool, room: Arg) | SendAck(ok: bool)

  /** The connections currently in `room`. */
  function Members(rooms: map<SocketId, set<string>>, room: string): (m: set<SocketId>)
    ensures forall s :: s in m <==> s in rooms && room in rooms[s]
  {
    set s | s in rooms && room in rooms[s]
  }

  /** The relation after connection `s` joins `room`. */
  function Joined(rooms: map<SocketId, set<string>>, s: SocketId, room: string): map<SocketId, set<string>>
    requires s in rooms
  {
    rooms[s := rooms[s] + {room}]
  }

  /** The relation after connection `s` leaves `room`. */
  function Left(rooms: map<SocketId, set<string>>, s: SocketId, room: string): map<SocketId, set<string>>
    requires s in rooms
  {
    rooms[s := rooms[s] - {room}]
  }

  /** A join adds the joiner to that room's audience and changes no other
      room's audience. */
  lemma JoinChangesOneAudience(rooms: map<SocketId, set<string>>, s: SocketId, room: string, other: string)
    requires s in rooms
    ensures Members(Joined(rooms, s, room), room) == Members(rooms, room) + {s}
    ensures other != room ==> Members(Joined(rooms, s, room), other) == Members(rooms, other)
  {
    var after := Joined(rooms, s, room);
    assert Members(after, room) == Members(rooms, room) + {s} by {
      forall t ensures t in Members(after, room) <==> t in Members(rooms, room) + {s} {
        if t == s { assert room in after[s]; }
      }
    }
  }

  /** A leave removes the leaver from that room's audience only. */
  lemma LeaveChangesOneAudience(rooms: map<SocketId, set<string>>, s: SocketId, room: string, other: string)
    requires s in rooms
    ensures Members(Left(rooms, s, room), room) == Members(rooms, room) - {s}
    ensures other != room ==> Members(Left(rooms, s, room), other) == Members(rooms, other)
  {
  }

  /** Leaving a room one was not in before joining it restores the relation. */
  lemma JoinThenLeave(rooms: map<SocketId, set<string>>, s: SocketId, room: string)
    requires s in rooms && room !in rooms[s]
    ensures Left(Joined(rooms, s, room), s, room) == rooms
  {
    assert rooms[s] + {room} - {room} == rooms[s];
  }

  class RoomServer {
    /** `socket.user` of every admitted connection. */
    var users: map<SocketId, Claims>
    /** The rooms each admitted connection is in. */
    var rooms: map<SocketId, set<string>>

    ghost predicate Valid()
      reads this
    {
      users.Keys == rooms.Keys
    }

    constructor ()
      ensures Valid() && users == map[] && rooms == map[]
    {
      users := map[];
      rooms := map[];
    }

    /** A new connection's handshake: admitted connections are recorded
        with their claims and start in their own room; rejected ones change
        nothing. */
    method Connect(s: SocketId, authToken: Arg, headerToken: Arg, verify: Verifier) returns (r: Handshake)
      requires Valid() && s !in users
      modifies this
      ensures Valid()
      ensures r == Authorize(authToken, headerToken, verify)
      ensures r.Admitted? ==> users == old(users)[s := r.user] && rooms == old(rooms)[s := {s}]
      ensures r.Rejected? ==> users == old(users) && rooms == old(rooms)
    {
      r := Authorize(authToken, headerToken, verify);
      if r.Admitted? {
        users := users[s := r.user];
        rooms := rooms[s := {s}];
      }
    }

    /** `room:join`: the connection joins room `String(room)`, no other
        membership changes, and a callback gets `{ok: true, room}` with the
        room argument as sent. */
    method Join(s: SocketId, room: Arg, hasAck: bool) returns (ack: Option<Ack>)
      requires Valid() && s in users
      modifies this
      ensures Valid() && users == old(users)
      ensures rooms == Joined(old(rooms), s, ToStr(room))
      ensures ack == if hasAck then Some(RoomAck(true, room)) else None
    {
      rooms := rooms[s := rooms[s] + {ToStr(room)}];
      ack := if hasAck then Some(RoomAck(true, room)) else None;
    }

    /** `room:leave`: the connection leaves room `String(room)` only. */
    method Leave(s: SocketId, room: Arg, hasAck: bool) returns (ack: Option<Ack>)
      requires Valid() && s in users
      modifies this
      ensures Valid() && users == old(users)
      ensures rooms == Left(old(rooms), s, ToStr(room))
      ensures ack == if hasAck then Some(RoomAck(true, room)) else None
    {
      rooms := rooms[s := rooms[s] - {ToStr(room)}];
      ack := if hasAck then Some(RoomAck(true, room)) else None;
    }

    /** `chat:send`: the message goes, from the sender's `sub`, to exactly
        the connections now in the normalised room (the sender only if it is
        a member); a callback gets `{ok: true}`. Nothing changes. */
    method Send(s: SocketId, payload: ChatPayload, hasAck: bool, now: Timestamp)
      returns (msg: ChatMessage, recipients: set<SocketId>, ack: Option<Ack>)
      requires Valid() && s in users
      ensures msg == ChatMessage(users[s].sub, ChatRoom(payload), ChatText(payload), now)
      ensures forall t :: t in recipients <==> t in rooms && msg.room in rooms[t]
      ensures s in recipients <==> ChatRoom(payload) in rooms[s]
      ensures recipients <= users.Keys
      ensures ack == if hasAck then Some(SendAck(true)) else None
    {
      var room := ChatRoom(payload);
      var text := ChatText(payload);
      msg := ChatMessage(users[s].sub, room, text, now);
      recipients := Members(rooms, room);
      ack := if hasAck then Some(SendAck(true)) else None;
    }

    /** `disconnect`: the connection and all its memberships go. */
    method Disconnect(s: SocketId)
      requires Valid()
      modifies this
      ensures Valid()
      ensures users == old(users) - {s} && rooms == old(rooms) - {s}
      ensures forall room :: s !in Members(rooms, room)
    {
      users := users - {s};
      rooms := rooms - {s};
    }
  }
}
