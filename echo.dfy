/** The streaming remote-call service of backend/src/grpc/server.js:
    `SayHello` (unary) and `StreamTime` (server streaming). The periodic
    timer of a `StreamTime` call is modelled by its running flag; timer
    ticks and the call's `cancelled`, `error` and `end` events are explicit
    events applied one at a time. */
module Echo {
  import opened Js

  const DefaultName: string := "world"
  const MaxNameLength: nat := 50
  const Greeting: string := "Hello "
  const Signature: string := " (from gRPC)"

  /** `String(call.request.name || "world").slice(0, 50)`: the name greeted. */
  function GreetedName(name: string): (r: string)
    ensures 1 <= |r| <= MaxNameLength
    ensures name == "" ==> r == "world"
    ensures name != "" ==> r == name[..Min(|name|, MaxNameLength)]
  {
    Take(if name != "" then name else DefaultName, MaxNameLength)
  }

  /** The `message` of the `SayHello` reply. */
  function SayHello(name: string): (message: string)
    ensures |message| <= |Greeting| + MaxNameLength + |Signature|
  {
    Greeting + GreetedName(name) + Signature
  }

  /** Reads the greeted name back out of a `SayHello` message. */
  function NameInGreeting(message: string): (r: Option<string>)
  {
    if |message| >= |Greeting| + |Signature|
       && message[..|Greeting|] == Greeting
       && message[|message| - |Signature|..] == Signature
    then Some(message[|Greeting|..|message| - |Signature|])
    else None
  }

  /** Every reply carries exactly the (defaulted, truncated) name it greets. */
  lemma GreetingRoundTrip(name: string)
    ensures NameInGreeting(SayHello(name)) == Some(GreetedName(name))
  {
    var g := GreetedName(name);
    var m := SayHello(name);
    assert m[..|Greeting|] == Greeting;
    assert m[|m| - |Signature|..] == Signature;
    assert m[|Greeting|..|m| - |Signature|] == g;
  }

  /** `Math.max(1, Math.min(10, Number(everySeconds || 1)))`: the tick
      period in seconds, always within [1, 10]. */
  function IntervalSeconds(everySeconds: int): (r: int)
    ensures 1 <= r <= 10
    ensures 1 <= everySeconds <= 10 ==> r == everySeconds
    ensures everySeconds > 10 ==> r == 10
    ensures everySeconds < 1 ==> r == 1
  {
    var every := if everySeconds != 0 then everySeconds else 1;
    if every > 10 then 10 else if every < 1 then 1 else every
  }

  /** What happens to a `StreamTime` call after it opened. */
  datatype CallEvent = Tick(at: Timestamp) | Cancelled | Errored | Ended

  predicate IsStop(e: CallEvent) {
    e.Cancelled? || e.Errored? || e.Ended?
  }

  /** A call's observable state: whether its timer still runs, whether the
      server ended the call, and the `isoTime` messages written so far. */
  datatype CallState = CallState(timerRunning: bool, callEnded: bool, written: seq<Timestamp>)

  /** The state right after `StreamTime` returns: one timer running. */
  const Opened: CallState := CallState(true, false, [])

  /** One event: a tick writes only while the timer runs; `cancelled` and
      `error` clear the timer; `end` clears it and then ends the call. */
  function Step(st: CallState, e: CallEvent): (r: CallState)
    ensures IsStop(e) ==> !r.timerRunning && r.written == st.written
    ensures e.Tick? ==> r.timerRunning == st.timerRunning
  {
    match e
    case Tick(at) => if st.timerRunning then st.(written := st.written + [at]) else st
    case Cancelled => st.(timerRunning := false)
    case Errored => st.(timerRunning := false)
    case Ended => st.(timerRunning := false, callEnded := true)
  }

  function Run(st: CallState, events: seq<CallEvent>): CallState
    decreases |events|
  {
    if events == [] then st else Run(Step(st, events[0]), events[1..])
  }

  /** The timestamps of the ticks that precede the first stop event. */
  function TicksBeforeStop(events: seq<CallEvent>): seq<Timestamp>
  {
    if events == [] || IsStop(events[0]) then []
    else [events[0].at] + TicksBeforeStop(events[1..])
  }

  /** Once the timer is cleared nothing more is written and the timer stays
      cleared, whatever events follow. */
  lemma {:induction false} StoppedStaysSilent(st: CallState, events: seq<CallEvent>)
    requires !st.timerRunning
    ensures Run(st, events).written == st.written
    ensures !Run(st, events).timerRunning
    decreases |events|
  {
    if events != [] {
      StoppedStaysSilent(Step(st, events[0]), events[1..]);
    }
  }

  /** From a running call, what is written is exactly one message per tick
      before the first `cancelled`, `error` or `end`, in order. */
  lemma {:induction false} WritesAreTicksBeforeStop(st: CallState, events: seq<CallEvent>)
    requires st.timerRunning
    ensures Run(st, events).written == st.written + TicksBeforeStop(events)
    decreases |events|
  {
    if events == [] {
      assert st.written + [] == st.written;
    } else if IsStop(events[0]) {
      StoppedStaysSilent(Step(st, events[0]), events[1..]);
      assert st.written + [] == st.written;
    } else {
      var next := Step(st, events[0]);
      WritesAreTicksBeforeStop(next, events[1..]);
      assert next.written == st.written + [events[0].at];
      assert st.written + ([events[0].at] + TicksBeforeStop(events[1..]))
          == st.written + [events[0].at] + TicksBeforeStop(events[1..]);
    }
  }

  /** A call the server has ended never has a running timer. */
  lemma {:induction false} EndedImpliesStopped(st: CallState, events: seq<CallEvent>)
    requires st.callEnded ==> !st.timerRunning
    ensures Run(st, events).callEnded ==> !Run(st, events).timerRunning
    decreases |events|
  {
    if events != [] {
      EndedImpliesStopped(Step(st, events[0]), events[1..]);
    }
  }

  /** Stopping is idempotent: a second `cancelled`, `error` or `end` after
      a stop changes nothing but the ended flag an `end` sets. */
  lemma RepeatedStopIsHarmless(st: CallState, first: CallEvent, second: CallEvent)
    requires IsStop(first) && IsStop(second)
    ensures Step(Step(st, first), second).written == st.written
    ensures !Step(Step(st, first), second).timerRunning
    ensures Step(Step(st, first), second).callEnded <==> st.callEnded || first.Ended? || second.Ended?
  {
  }

  /** One `StreamTime` call and its interval timer. */
  class StreamCall {
    const periodMs: int
    var timerRunning: bool
    var callEnded: bool
    var written: seq<Timestamp>

    function State(): CallState
      reads this
    {
      CallState(timerRunning, callEnded, written)
    }

    ghost predicate Valid()
      reads this
    {
      callEnded ==> !timerRunning
    }

    /** `StreamTime(call)`: creates exactly one timer with the clamped
        period. */
    constructor (everySeconds: int)
      ensures Valid() && State() == Opened
      ensures periodMs == IntervalSeconds(everySeconds) * 1000
    {
      periodMs := IntervalSeconds(everySeconds) * 1000;
      timerRunning := true;
      callEnded := false;
      written := [];
    }

    /** The interval fires: `call.write({isoTime})` while the timer runs. */
    method OnTick(now: Timestamp)
      requires Valid()
      modifies this
      ensures Valid() && State() == Step(old(State()), Tick(now))
    {
      if timerRunning {
        written := written + [now];
      }
    }

    method OnCancelled()
      requires Valid()
      modifies this
      ensures Valid() && State() == Step(old(State()), Cancelled)
    {
      timerRunning := false;
    }

    method OnError()
      requires Valid()
      modifies this
      ensures Valid() && State() == Step(old(State()), Errored)
    {
      timerRunning := false;
    }

    /** `end`: clear the timer, then `call.end()`. */
    method OnEnd()
      requires Valid()
      modifies this
      ensures Valid() && State() == Step(old(State()), Ended)
    {
      timerRunning := false;
      callEnded := true;
    }
  }
}
