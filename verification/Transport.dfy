/** The websocket transport (transport/websocket.py). Its methods are cut at the points where
    gevent may switch to another greenlet; each piece between two such points is a function on the
    transport's observable state, and the class below performs it field by field. */
module Transport {
  import opened Values
  import opened Messages
  import opened Reconnection
  import opened KeepAlive

  datatype ConnectionState = Connecting | Connected | Reconnecting | Disconnected

  /** What is fixed when the connection is built: the reconnection handler, and which callbacks the
      user registered. */
  datatype Config = Config(policy: Option<Policy>, skipNegotiation: bool, onOpen: bool, onClose: bool, onReconnect: bool)

  datatype Event =
    | SendDone            // a message was written, and the handler reset
    | SendLost            // writing a message found the connection closed
    | OnOpen | OnClose | OnReconnect                          // user callbacks
    | Accepted | Rejected                                     // handshake answers
    | LoopSpawned | LoopEnded                                 // a keep-alive loop's greenlet
    | LoopStopped                                             // `connection_checker.stop`
    | StartTried                                              // `connection.start` inside a reconnect
    | Granted(delay: int) | Denied                            // answers of `next`
    | RetryRaised                                             // a deferred retry ended in an exception

  datatype View = View(
    state: ConnectionState,
    handshake: bool,       // handshake_received
    hasSocket: bool,       // _ws is set
    alive: bool,           // connection_alive
    running: bool,         // connection_checker.running
    lastMessage: real,     // connection_checker.last_message
    reconnecting: bool,    // reconnection_handler.reconnecting
    attempt: nat)          // reconnection_handler.attempt_number

  function Initial(now: real): View {
    View(Disconnected, false, false, false, false, now, false, 0)
  }

  function Called(callback: bool, e: Event): seq<Event> {
    if callback then [e] else []
  }

  /* ---------- what each piece does, and the events it leaves behind ---------- */

  /** `send`, when the write succeeds. */
  function Sent(c: Config, v: View, now: real): View {
    if c.policy.Some? then v.(lastMessage := now, reconnecting := false, attempt := 0) else v.(lastMessage := now)
  }

  /** `send`, when the write finds the connection closed: up to the greenlet kill inside
      `handle_reconnect`, or, without a reconnection handler, up to the raised exception. */
  function Lost(c: Config, v: View): View {
    v.(handshake := false, state := Disconnected, reconnecting := v.reconnecting || c.policy.Some?)
  }

  function LostEvents(c: Config, v: View): seq<Event> {
    [SendLost]
    + if c.policy.None? then Called(c.onClose, OnClose) else Called(c.onReconnect && !v.reconnecting, OnReconnect)
  }

  /** `handle_reconnect`, between the greenlet kill and `connection.start`. */
  function Resumed(v: View): View {
    v.(handshake := false)
  }

  /** `start`, behind the negotiation. */
  function Started(v: View): View {
    if v.state == Connected then v else v.(state := Connecting, hasSocket := true)
  }

  /** `handle_reconnect`, when `connection.start` raises: the handler is asked for a delay. */
  function RestartFailed(p: Policy, v: View): View {
    v.(reconnecting := true, attempt := AttemptAfter(p, v.attempt))
  }

  function RestartFailedEvents(p: Policy, v: View): seq<Event> {
    var delay := Grant(p, v.attempt);
    [StartTried, if delay.Some? then Granted(delay.value) else Denied]
  }

  /** `deferred_reconnect`'s except branch. */
  function RetryFailed(v: View): View {
    v.(reconnecting := false, alive := false)
  }

  /** `evaluate_handshake`. After a rejection the state is already disconnected when `stop` looks
      at it, so `stop` does nothing. */
  function Evaluated(c: Config, v: View, accepted: bool): View {
    if !accepted then v.(state := Disconnected)
    else if c.policy.None? then v.(handshake := true, state := Connected)
    else v.(handshake := true, state := Connected, reconnecting := false, running := true)
  }

  function EvaluatedEvents(c: Config, v: View, accepted: bool): seq<Event> {
    if !accepted then [Rejected] + Called(c.onClose, OnClose)
    else [Accepted] + Called(c.policy.Some? && !v.running, LoopSpawned)
  }

  /** `on_message`, before the messages are handed on: a handshake answer. */
  function Answered(c: Config, v: View, accepted: bool): View {
    var w := Evaluated(c, v, accepted);
    if c.onOpen then w.(state := Connected) else w
  }

  function AnsweredEvents(c: Config, v: View, accepted: bool): seq<Event> {
    EvaluatedEvents(c, v, accepted) + Called(c.onOpen, OnOpen)
  }

  /** `on_close` and `on_socket_error`. */
  function Closed(v: View): View {
    v.(state := Disconnected)
  }

  /** `stop` on a connected transport, before and after closing the socket. */
  function StopBegun(v: View): View {
    v.(running := false)
  }

  function StopEnded(v: View): View {
    v.(state := Disconnected, handshake := false)
  }

  /** `stop`, when closing the socket neither raises nor lets another greenlet in. */
  function Stopped(v: View): View {
    if v.state == Connected then StopEnded(StopBegun(v)) else v
  }

  function StoppedEvents(v: View): seq<Event> {
    Called(v.state == Connected, LoopStopped)
  }

  /* ---------- receiving ---------- */

  /** A hub protocol as the transport uses it, over characters or bytes. */
  datatype Protocol<!T> = Protocol(
    parse: seq<T> -> Result<seq<Message>>,
    handshake: seq<T> -> Result<(Value, seq<Message>)>)

  /** `msg.error is None or msg.error == ""`. */
  predicate NoError(error: Value) {
    error == Null || error == Str("")
  }

  /** `on_message`: the state afterwards and the messages handed to the dispatcher, which stops the
      transport when it gets to a Close. A message that cannot be decoded changes nothing here. */
  function OnRaw<T>(c: Config, p: Protocol<T>, v: View, raw: seq<T>): Result<(View, seq<Message>)> {
    if v.handshake then
      var ms := p.parse(raw);
      if ms.Err? then Err(ms.error)
      else Ok((if ReachesClose(ms.value) then Stopped(v) else v, ms.value))
    else
      var answer := p.handshake(raw);
      if answer.Err? then Err(answer.error)
      else
        var (error, ms) := answer.value;
        var w := Answered(c, v, NoError(error));
        Ok((if ReachesClose(ms) then Stopped(w) else w, ms))
  }

  /** The events of a message that could be decoded. */
  function OnRawEvents<T>(c: Config, p: Protocol<T>, v: View, raw: seq<T>): seq<Event>
    requires OnRaw(c, p, v, raw).Ok?
  {
    var ms := OnRaw(c, p, v, raw).value.1;
    if v.handshake then (if ReachesClose(ms) then StoppedEvents(v) else [])
    else
      var accepted := NoError(p.handshake(raw).value.0);
      AnsweredEvents(c, v, accepted) + if ReachesClose(ms) then StoppedEvents(Answered(c, v, accepted)) else []
  }

  /** A handshake answer is accepted exactly when it carries no error or an empty one. An accepted answer
      connects; a rejected one leaves the handshake flag down and disconnects, unless there is an
      `on_open` callback. A Close among the messages behind it ends either with a disconnected transport.
      Nothing but the state, the flag, the checker and the handler's mark changes. */
  lemma HandshakeOutcome<T>(c: Config, p: Protocol<T>, v: View, raw: seq<T>, error: Value, ms: seq<Message>)
    requires !v.handshake && p.handshake(raw) == Ok((error, ms))
    ensures OnRaw(c, p, v, raw).Ok? && OnRaw(c, p, v, raw).value.1 == ms
    ensures var w := OnRaw(c, p, v, raw).value.0;
            var accepted := error == Null || error == Str("");
            && (!ReachesClose(ms) ==>
                  w.handshake == accepted && w.state == if accepted || c.onOpen then Connected else Disconnected)
            && (ReachesClose(ms) ==> !w.handshake && w.state == Disconnected)
            && w.hasSocket == v.hasSocket && w.alive == v.alive && w.lastMessage == v.lastMessage
            && w.attempt == v.attempt
            && w.reconnecting == (v.reconnecting && !(accepted && c.policy.Some?))
            && w.running == ((v.running || (accepted && c.policy.Some?))
                             && !(ReachesClose(ms) && (accepted || c.onOpen)))
  {
  }

  /* ---------- the class ---------- */

  /** What the socket does with one write. */
  datatype WriteOutcome = Written | ConnectionLost | OtherFailure

  /** How `send` leaves its caller: returned, raised, or suspended inside `handle_reconnect`. */
  datatype SendResult = Returned | Raised | Suspended

  class WebsocketTransport<T> {
    const config: Config
    const protocol: Protocol<T>
    const handler: ReconnectionHandler?
    const checker: ConnectionStateChecker
    var state: ConnectionState
    var handshakeReceived: bool
    var hasSocket: bool
    var connectionAlive: bool
    ghost var trace: seq<Event>

    ghost predicate Valid()
      reads this
    {
      && (handler == null <==> config.policy.None?)
      && (handler != null ==> handler.policy == config.policy.value)
    }

    ghost function Observed(): View
      reads this, handler, checker
    {
      View(state, handshakeReceived, hasSocket, connectionAlive, checker.running, checker.lastMessage,
           if handler == null then false else handler.reconnecting,
           if handler == null then 0 else handler.attemptNumber)
    }

    constructor (config: Config, protocol: Protocol<T>, timing: Timing, now: real)
      ensures Valid() && Observed() == Initial(now) && trace == []
      ensures this.config == config && this.protocol == protocol && fresh(checker)
      ensures handler != null ==> fresh(handler)
    {
      this.config, this.protocol := config, protocol;
      this.checker := new ConnectionStateChecker(timing, now);
      var h: ReconnectionHandler? := null;
      if config.policy.Some? {
        h := new ReconnectionHandler(config.policy.value);
      }
      this.handler := h;
      state, handshakeReceived, hasSocket, connectionAlive := Disconnected, false, false, false;
      trace := [];
    }

    method CallOnClose()
      modifies this`trace
      ensures trace == old(trace) + Called(config.onClose, OnClose)
    {
      if config.onClose {
        trace := trace + [OnClose];
      }
    }

    /** `stop`, up to closing the socket, which may let other greenlets in. */
    method BeginStop() returns (begun: bool)
      requires Valid()
      modifies this`trace, checker
      ensures Valid() && begun == (old(state) == Connected)
      ensures Observed() == if begun then StopBegun(old(Observed())) else old(Observed())
      ensures trace == old(trace) + StoppedEvents(old(Observed()))
    {
      begun := state == Connected;
      if begun {
        checker.Stop();
        trace := trace + [LoopStopped];
      }
    }

    /** `stop`, once the socket is closed. */
    method EndStop()
      requires Valid()
      modifies this
      ensures Valid() && Observed() == StopEnded(old(Observed())) && trace == old(trace)
    {
      state := Disconnected;
      handshakeReceived := false;
    }

    /** `stop`, when closing the socket neither raises nor lets another greenlet in. */
    method Stop()
      requires Valid()
      modifies this, checker
      ensures Valid() && Observed() == Stopped(old(Observed()))
      ensures trace == old(trace) + StoppedEvents(old(Observed()))
    {
      var begun := BeginStop();
      if begun {
        EndStop();
      }
    }

    /** `start`, once the negotiation (if any) is done. */
    method Start()
      requires Valid()
      modifies this
      ensures Valid() && Observed() == Started(old(Observed())) && trace == old(trace)
    {
      if state == Connected {
        return;
      }
      state := Connecting;
      hasSocket := true;
    }

    method OnSocketError()
      requires Valid()
      modifies this
      ensures Valid() && Observed() == Closed(old(Observed()))
      ensures trace == old(trace) + Called(config.onClose, OnClose)
    {
      CallOnClose();
      state := Disconnected;
    }

    method OnSocketClose()
      requires Valid()
      modifies this
      ensures Valid() && Observed() == Closed(old(Observed()))
      ensures trace == old(trace) + Called(config.onClose, OnClose)
    {
      state := Disconnected;
      CallOnClose();
    }

    method EvaluateHandshake(error: Value)
      requires Valid()
      modifies this, handler, checker
      ensures Valid() && Observed() == Evaluated(config, old(Observed()), NoError(error))
      ensures trace == old(trace) + EvaluatedEvents(config, old(Observed()), NoError(error))
    {
      if error == Null || error == Str("") {
        trace := trace + [Accepted];
        handshakeReceived := true;
        state := Connected;
        if handler != null {
          handler.reconnecting := false;
          if !checker.running {
            checker.Start();
            trace := trace + [LoopSpawned];
          }
        }
      } else {
        trace := trace + [Rejected];
        OnSocketError();
        Stop();
        state := Disconnected;
      }
    }

    /** `on_message`. The dispatcher's reaction to a Close is included. */
    method OnMessage(raw: seq<T>) returns (r: Result<seq<Message>>)
      requires Valid()
      modifies this, handler, checker
      ensures Valid()
      ensures var expected := OnRaw(config, protocol, old(Observed()), raw);
              if expected.Err? then r == Err(expected.error) && Observed() == old(Observed()) && trace == old(trace)
              else r == Ok(expected.value.1) && Observed() == expected.value.0
                   && trace == old(trace) + OnRawEvents(config, protocol, old(Observed()), raw)
    {
      var messages: seq<Message>;
      if !handshakeReceived {
        var answer := protocol.handshake(raw);
        if answer.Err? {
          return Err(answer.error);
        }
        messages := answer.value.1;
        EvaluateHandshake(answer.value.0);
        if config.onOpen {
          state := Connected;
          trace := trace + [OnOpen];
        }
      } else {
        var parsed := protocol.parse(raw);
        if parsed.Err? {
          return Err(parsed.error);
        }
        messages := parsed.value;
      }
      if ReachesClose(messages) {
        Stop();
      }
      r := Ok(messages);
    }

    /** `send`. Without a socket the attempt to write raises before anything else happens. */
    method Send(outcome: WriteOutcome, now: real) returns (r: SendResult)
      requires Valid()
      modifies this, handler, checker
      ensures Valid()
      ensures if !old(hasSocket) || outcome.OtherFailure? then
                r.Raised? && Observed() == old(Observed()) && trace == old(trace)
              else if outcome.Written? then
                r.Returned? && Observed() == Sent(config, old(Observed()), now) && trace == old(trace) + [SendDone]
              else
                r == (if handler == null then Raised else Suspended)
                && Observed() == Lost(config, old(Observed()))
                && trace == old(trace) + LostEvents(config, old(Observed()))
    {
      if !hasSocket || outcome.OtherFailure? {
        return Raised;
      }
      match outcome {
        case Written =>
          trace := trace + [SendDone];
          checker.lastMessage := now;
          if handler != null {
            handler.Reset();
          }
          r := Returned;
        case ConnectionLost =>
          trace := trace + [SendLost];
          handshakeReceived := false;
          state := Disconnected;
          if handler == null {
            CallOnClose();
            return Raised;
          }
          HandleReconnect();
          r := Suspended;
      }
    }

    /** `handle_reconnect` up to the greenlet kill. Its caller has just left the connected state, so
        `stop` finds nothing to do. */
    method HandleReconnect()
      requires Valid() && handler != null && state == Disconnected
      modifies this, handler, checker
      ensures Valid() && Observed() == old(Observed()).(reconnecting := true)
      ensures trace == old(trace) + Called(config.onReconnect && !old(handler.reconnecting), OnReconnect)
    {
      if !handler.reconnecting && config.onReconnect {
        trace := trace + [OnReconnect];
      }
      handler.reconnecting := true;
      Stop();
    }

    /** `handle_reconnect` after the kill, up to `connection.start`. */
    method ResumeReconnect()
      requires Valid()
      modifies this
      ensures Valid() && Observed() == Resumed(old(Observed())) && trace == old(trace)
    {
      handshakeReceived := false;
    }

    /** `handle_reconnect`, behind a successful `connection.start`. */
    method FinishReconnect()
      requires Valid()
      modifies this
      ensures Valid() && Observed() == Started(old(Observed())) && trace == old(trace) + [StartTried]
    {
      trace := trace + [StartTried];
      Start();
    }

    /** `handle_reconnect`'s except branch: the delay for a deferred retry, or the exception of `next`. */
    method FailReconnect() returns (delay: Option<int>)
      requires Valid() && handler != null
      modifies this, handler
      ensures Valid() && Observed() == RestartFailed(config.policy.value, old(Observed()))
      ensures trace == old(trace) + RestartFailedEvents(config.policy.value, old(Observed()))
      ensures delay == Grant(config.policy.value, old(handler.attemptNumber))
    {
      delay := handler.Next();
      trace := trace + [StartTried, if delay.Some? then Granted(delay.value) else Denied];
    }

    /** `deferred_reconnect`'s except branch. */
    method FailRetry()
      requires Valid() && handler != null
      modifies this, handler
      ensures Valid() && Observed() == RetryFailed(old(Observed())) && trace == old(trace) + [RetryRaised]
    {
      trace := trace + [RetryRaised];
      handler.reconnecting := false;
      connectionAlive := false;
    }
  }
}
