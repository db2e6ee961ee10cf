/** The raw duplex channel of backend/src/ws/ws.js: the reply each inbound
    frame gets, and the `isAlive` flag per connection that `pong` events set
    and the 30-second heartbeat clears or acts on. JSON text parsing is left
    abstract: a frame arrives either unparseable or as a parsed value. */
module RawWs {
  import opened Js

  const Path: string := "/ws"

  datatype Json =
    | JNull
    | JBool(b: bool)
    | JNum(n: int)
    | JStr(s: string)
    | JArr(elems: seq<Json>)
    | JObj(fields: map<string, Json>)

  /** An inbound text frame after `JSON.parse` was tried on it. */
  datatype Inbound = Unparseable(text: string) | Parsed(msg: Json)

  /** What the server sends on a connection. */
  datatype Outbound =
    | RawText(text: string)
    | Pong(at: Timestamp)
    | Echo(data: Json)
    | Unknown(received: Json)
    | Welcome(wsPath: string)

  /** What the `message` listener does: send one frame, or throw. */
  datatype Handled = Sent(reply: Outbound) | Threw(error: string)

  /** `msg.type` / `msg.data` on a value that is not null: a property of an
      object, undefined (None) on anything else. */
  function Property(msg: Json, key: string): (r: Option<Json>)
    requires !msg.JNull?
    ensures r.Some? <==> msg.JObj? && key in msg.fields
  {
    if msg.JObj? && key in msg.fields then Some(msg.fields[key]) else None
  }

  /** The frame is an object whose `type` property is the string `t`. */
  predicate TypeIs(msg: Json, t: string) {
    msg.JObj? && "type" in msg.fields && msg.fields["type"] == JStr(t)
  }

  /** `msg.data ?? null`. */
  function DataOrNull(msg: Json): Json
    requires !msg.JNull?
  {
    match Property(msg, "data")
    case Some(d) => d
    case None => JNull
  }

  /** The `message` listener as written: `msg.type` is read on whatever
      `JSON.parse` returned, so the frame `null` throws a TypeError and gets
      no reply. */
  function HandleMessageAsWritten(inb: Inbound, now: Timestamp): (h: Handled)
    ensures inb == Parsed(JNull) ==> h.Threw?
  {
    match inb
    case Unparseable(text) => Sent(RawText(text))
    case Parsed(msg) =>
      if msg.JNull? then Threw("TypeError: Cannot read properties of null (reading 'type')")
      else if TypeIs(msg, "ping") then Sent(Pong(now))
      else if TypeIs(msg, "echo") then Sent(Echo(DataOrNull(msg)))
      else Sent(Unknown(msg))
  }

  /** The listener as evidently intended: every frame, `null` included, gets
      exactly one reply. Text that does not parse is sent back verbatim;
      `{type:"ping"}` gets a pong; `{type:"echo"}` gets its `data` (null when
      absent); every other value, null included, is answered `unknown` with
      the value attached. */
  function HandleMessage(inb: Inbound, now: Timestamp): (out: Outbound)
    ensures inb.Unparseable? ==> out == RawText(inb.text)
    ensures out.RawText? ==> inb == Unparseable(out.text)
    ensures out.Pong? <==> inb.Parsed? && TypeIs(inb.msg, "ping")
    ensures out.Pong? ==> out.at == now
    ensures out.Echo? <==> inb.Parsed? && TypeIs(inb.msg, "echo")
    ensures out.Echo? ==> if "data" in inb.msg.fields then out.data == inb.msg.fields["data"] else out.data == JNull
    ensures out.Unknown? ==> inb.Parsed? && out.received == inb.msg
    ensures !out.Welcome?
  {
    match inb
    case Unparseable(text) => RawText(text)
    case Parsed(msg) =>
      if msg.JNull? then Unknown(JNull)
      else if TypeIs(msg, "ping") then Pong(now)
      else if TypeIs(msg, "echo") then Echo(DataOrNull(msg))
      else Unknown(msg)
  }

  /** On every frame but `null` the listener as written sends exactly the
      reply of the intended protocol. */
  lemma AsWrittenAgreesExceptNull(inb: Inbound, now: Timestamp)
    requires inb != Parsed(JNull)
    ensures HandleMessageAsWritten(inb, now) == Sent(HandleMessage(inb, now))
  {
  }

  /** The frame `null` is the one the listener as written fails on. */
  lemma NullFrameThrows(now: Timestamp)
    ensures HandleMessageAsWritten(Parsed(JNull), now).Threw?
    ensures HandleMessage(Parsed(JNull), now) == Unknown(JNull)
  {
  }

  type ConnId = nat

  /** Connections that answered the last ping (or have not been pinged). */
  function Responsive(alive: map<ConnId, bool>): set<ConnId> {
    set c | c in alive && alive[c]
  }

  function Unresponsive(alive: map<ConnId, bool>): set<ConnId> {
    set c | c in alive && !alive[c]
  }

  /** One heartbeat tick: a connection whose flag is false is terminated,
      every other one has its flag cleared (and is pinged). */
  function Sweep(alive: map<ConnId, bool>): (r: map<ConnId, bool>)
    ensures forall c :: c in r <==> c in alive && alive[c]
    ensures forall c :: c in r ==> !r[c]
  {
    map c | c in alive && alive[c] :: false
  }

  /** A `pong` arrives from each connection in `from`. */
  function PongAll(alive: map<ConnId, bool>, from: set<ConnId>): (r: map<ConnId, bool>)
    ensures r.Keys == alive.Keys
    ensures forall c :: c in r ==> r[c] == (alive[c] || c in from)
  {
    map c | c in alive :: alive[c] || c in from
  }

  /** Successive heartbeat periods: each a tick followed by the pongs that
      answer it. */
  function Rounds(alive: map<ConnId, bool>, answers: seq<set<ConnId>>): map<ConnId, bool>
  {
    if answers == [] then alive
    else PongAll(Sweep(Rounds(alive, answers[..|answers| - 1])), answers[|answers| - 1])
  }

  /** A live peer that answers every ping is never terminated. */
  lemma {:induction false} AnsweringPeerSurvives(alive: map<ConnId, bool>, c: ConnId, answers: seq<set<ConnId>>)
    requires c in alive && alive[c]
    requires forall i :: 0 <= i < |answers| ==> c in answers[i]
    ensures c in Rounds(alive, answers) && Rounds(alive, answers)[c]
  {
    if answers != [] {
      AnsweringPeerSurvives(alive, c, answers[..|answers| - 1]);
    }
  }

  /** A peer that lets one ping go unanswered is terminated on the next tick. */
  lemma MissedPongTerminates(alive: map<ConnId, bool>, c: ConnId, answers: seq<set<ConnId>>)
    requires answers != [] && c !in answers[|answers| - 1]
    ensures c !in Sweep(Rounds(alive, answers))
  {
  }

  /** The connections of the `ws` server and their `isAlive` flags. */
  class WsServer {
    var alive: map<ConnId, bool>

    constructor ()
      ensures alive == map[]
    {
      alive := map[];
    }

    /** A new connection starts alive and is sent the welcome frame. */
    method Connect(c: ConnId) returns (welcome: Outbound)
      requires c !in alive
      modifies this
      ensures alive == old(alive)[c := true]
      ensures welcome == Welcome(Path)
    {
      alive := alive[c := true];
      welcome := Welcome(Path);
    }

    /** `socket.on("pong")`: the connection is alive again. */
    method OnPong(c: ConnId)
      requires c in alive
      modifies this
      ensures alive == old(alive)[c := true]
    {
      alive := alive[c := true];
    }

    /** The connection closes and leaves `wss.clients`. */
    method OnClose(c: ConnId)
      modifies this
      ensures alive == old(alive) - {c}
    {
      alive := alive - {c};
    }

    /** One heartbeat tick: `wss.clients.forEach`, terminating each
        connection whose flag is false and clearing and pinging the rest. */
    method Heartbeat() returns (pinged: set<ConnId>, terminated: set<ConnId>)
      modifies this
      ensures alive == Sweep(old(alive))
      ensures pinged == Responsive(old(alive)) && terminated == Unresponsive(old(alive))
    {
      var todo := alive.Keys;
      pinged, terminated := {}, {};
      while todo != {}
        invariant todo <= old(alive).Keys
        invariant alive.Keys <= old(alive).Keys
        invariant forall c :: c in todo ==> c in alive && alive[c] == old(alive)[c]
        invariant forall c :: c in old(alive) && c !in todo ==>
                    (c in alive <==> old(alive)[c]) && (c in alive ==> !alive[c])
        invariant pinged == set c | c in old(alive) && c !in todo && old(alive)[c]
        invariant terminated == set c | c in old(alive) && c !in todo && !old(alive)[c]
        decreases todo
      {
        var c :| c in todo;
        if !alive[c] {
          alive := alive - {c};
          terminated := terminated + {c};
        } else {
          alive := alive[c := false];
          pinged := pinged + {c};
        }
        todo := todo - {c};
      }
    }
  }
}
