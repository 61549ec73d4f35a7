/** The dispatcher and its handler registry (connection.py). User callbacks are recorded, not run. */
module Dispatch {
  import opened Values
  import opened Messages

  /** A registered handler object: its class, the id it waits for, and which object it is. */
  datatype Handler =
    | StreamHandler(invocationId: Value, key: nat)
    | InvocationHandler(invocationId: Value, key: nat)

  /** Calls of user callbacks, and what the connection does to the transport. */
  datatype Event =
    | Next(key: nat, item: Value)             // next_callback
    | Complete(key: nat, message: Message)    // complete_callback
    | Failed(key: nat, message: Message)      // error_callback
    | Invoked(key: nat, arguments: Value)     // a handler registered with `on`
    | OnError(message: Message)
    | Stopped
    | Registered(handler: Handler)
    | Submitted(message: Message)

  /** `handlers` and `stream_handlers`, and whether an `on_error` callback is set. */
  datatype Registry = Registry(handlers: seq<(string, nat)>, streams: seq<Handler>, onError: bool)

  /* ---------- one message ---------- */

  /** A completion or a cancellation: the messages that end a stream, unless the dispatcher raises. */
  predicate Terminator(m: Message) {
    (m.Completion? && !Raises(m)) || m.CancelInvocation?
  }

  /** The callback a handler gets for a message. */
  function CallOf(h: Handler, m: Message): Event
    requires Terminator(m) || m.StreamItem?
  {
    match m
    case Completion(_, _, _, _) => Complete(h.key, m)
    case StreamItem(_, _, item) => Next(h.key, item)
    case CancelInvocation(_, _) => Failed(h.key, m)
  }

  function CallsOf(fired: seq<Handler>, m: Message): seq<Event>
    requires Terminator(m) || m.StreamItem?
  {
    if fired == [] then [] else [CallOf(fired[0], m)] + CallsOf(fired[1..], m)
  }

  /** The handlers that wait for `id`; items and cancellations look for stream handlers only. */
  function Fired(hs: seq<Handler>, id: Value, streamsOnly: bool): seq<Handler> {
    if hs == [] then [] else FiredOne(hs[0], id, streamsOnly) + Fired(hs[1..], id, streamsOnly)
  }

  function FiredOne(h: Handler, id: Value, streamsOnly: bool): seq<Handler> {
    if h.invocationId == id && (streamsOnly ==> h.StreamHandler?) then [h] else []
  }

  function InvokeAll(hs: seq<(string, nat)>, m: Message): seq<Event>
    requires m.Invocation?
  {
    if hs == [] then []
    else (if Str(hs[0].0) == m.target then [Invoked(hs[0].1, m.arguments)] else []) + InvokeAll(hs[1..], m)
  }

  /** The handlers that wait for another id. */
  function Others(hs: seq<Handler>, id: Value): seq<Handler> {
    if hs == [] then []
    else (if hs[0].invocationId != id then [hs[0]] else []) + Others(hs[1..], id)
  }

  /** `error is not None and len(error) > 0`, when the length exists. */
  predicate Fails(m: Message) {
    m.Completion? && Length(m.error).Ok? && Length(m.error).value > 0
  }

  function Reported(r: Registry, m: Message): seq<Event> {
    if Fails(m) && r.onError then [OnError(m)] else []
  }

  function EventsOf(r: Registry, m: Message): seq<Event> {
    match m
    case Invocation(_, _, _, _) => InvokeAll(r.handlers, m)
    case Completion(_, _, _, _) =>
      if Raises(m) then [] else Reported(r, m) + CallsOf(Fired(r.streams, m.invocationId, false), m)
    case StreamItem(_, _, _) => CallsOf(Fired(r.streams, m.invocationId, true), m)
    case CancelInvocation(_, _) => CallsOf(Fired(r.streams, m.invocationId, true), m)
    case Close(_) => [Stopped]
    case _ => []
  }

  function After(r: Registry, m: Message): Registry {
    if Terminator(m) then r.(streams := Others(r.streams, m.invocationId)) else r
  }

  /* ---------- a batch ---------- */

  /** What happens to the registry: user code registers a handler, or a message is dispatched.
      Registrations may fall between any two messages, also within a batch. */
  datatype Action = Register(handler: Handler) | RegisterOn(event: string, key: nat) | Deliver(message: Message)

  function Act(r: Registry, a: Action): (Registry, seq<Event>) {
    match a
    case Register(h) => (r.(streams := r.streams + [h]), [Registered(h)])
    case RegisterOn(event, key) => (r.(handlers := r.handlers + [(event, key)]), [])
    case Deliver(m) => (After(r, m), EventsOf(r, m))
  }

  function RunActions(r: Registry, acts: seq<Action>): (Registry, seq<Event>)
    decreases |acts|
  {
    if acts == [] then (r, [])
    else
      var (next, events) := Act(r, acts[0]);
      var (last, more) := RunActions(next, acts[1..]);
      (last, events + more)
  }

  function Deliveries(ms: seq<Message>): seq<Action> {
    if ms == [] then [] else [Deliver(ms[0])] + Deliveries(ms[1..])
  }

  class Connection {
    var handlers: seq<(string, nat)>
    var streamHandlers: seq<Handler>
    var onError: bool
    var nextKey: nat
    ghost var trace: seq<Event>

    ghost function Current(): Registry
      reads this
    {
      Registry(handlers, streamHandlers, onError)
    }

    /** Handler objects are distinct. */
    ghost predicate Valid()
      reads this
    {
      DistinctKeys(streamHandlers) && KeysBelow(streamHandlers, nextKey)
      && forall i :: 0 <= i < |handlers| ==> handlers[i].1 < nextKey
    }

    constructor ()
      ensures Valid() && Current() == Registry([], [], false) && trace == []
    {
      handlers, streamHandlers, onError, nextKey, trace := [], [], false, 0, [];
    }

    /** `on`. */
    method On(event: string)
      requires Valid()
      modifies this
      ensures Valid() && Current() == old(Current()).(handlers := old(handlers) + [(event, old(nextKey))])
      ensures (Current(), []) == Act(old(Current()), RegisterOn(event, old(nextKey)))
      ensures trace == old(trace)
    {
      handlers := handlers + [(event, nextKey)];
      nextKey := nextKey + 1;
    }

    method Register(h: Handler)
      requires Valid() && h.key == nextKey
      modifies this
      ensures Valid() && Current() == old(Current()).(streams := old(streamHandlers) + [h])
      ensures trace == old(trace) + [Registered(h)]
      ensures (Current(), [Registered(h)]) == Act(old(Current()), Action.Register(h))
    {
      DistinctAppend(streamHandlers, h);
      streamHandlers := streamHandlers + [h];
      nextKey := nextKey + 1;
      trace := trace + [Registered(h)];
    }

    /** `stream`: the handler is registered before the request is handed to the transport, and stays
        registered when the transport raises. */
    method Stream(event: string, arguments: Value, id: string, headers: Value, accepted: bool)
      returns (r: Result<Handler>)
      requires Valid()
      modifies this
      ensures Valid()
      ensures var h := StreamHandler(Str(id), old(nextKey));
              Current() == old(Current()).(streams := old(streamHandlers) + [h])
              && trace == old(trace) + [Registered(h),
                   Submitted(StreamInvocation(HeadersOrEmpty(headers), Str(id), Str(event), arguments, EMPTY_LIST))]
              && r == if accepted then Ok(h) else Err(ValueError)
    {
      var h := StreamHandler(Str(id), nextKey);
      Register(h);
      trace := trace + [Submitted(StreamInvocation(HeadersOrEmpty(headers), Str(id), Str(event), arguments, EMPTY_LIST))];
      r := if accepted then Ok(h) else Err(ValueError);
    }

    /** `send` with a list of arguments. */
    method Send(running: bool, target: Value, arguments: Value, id: string, headers: Value, onInvocation: bool,
                accepted: bool)
      returns (r: Result<string>)
      requires Valid()
      modifies this
      ensures Valid()
      ensures !running ==> r == Err(ValueError)
      ensures running && !arguments.Arr? ==> r == Err(TypeError)
      ensures !running || !arguments.Arr? ==> Current() == old(Current()) && trace == old(trace)
      ensures running && arguments.Arr? ==>
                var h := InvocationHandler(Str(id), old(nextKey));
                var m := Invocation(HeadersOrEmpty(headers), Str(id), target, arguments);
                Current() == (if onInvocation then old(Current()).(streams := old(streamHandlers) + [h]) else old(Current()))
                && trace == old(trace) + (if onInvocation then [Registered(h)] else []) + [Submitted(m)]
                && r == if accepted then Ok(id) else Err(ValueError)
    {
      if !running {
        return Err(ValueError);
      }
      if !arguments.Arr? {
        return Err(TypeError);
      }
      if onInvocation {
        Register(InvocationHandler(Str(id), nextKey));
      }
      trace := trace + [Submitted(Invocation(HeadersOrEmpty(headers), Str(id), target, arguments))];
      r := if accepted then Ok(id) else Err(ValueError);
    }

    /** `filter(lambda h: h.invocation_id == id and (stream class, if asked for))`. */
    method Matching(id: Value, streamsOnly: bool) returns (fired: seq<Handler>)
      ensures fired == Fired(streamHandlers, id, streamsOnly)
    {
      fired := [];
      for i := 0 to |streamHandlers|
        invariant fired + Fired(streamHandlers[i..], id, streamsOnly) == Fired(streamHandlers, id, streamsOnly)
      {
        assert streamHandlers[i..][1..] == streamHandlers[i + 1..];
        var h := streamHandlers[i];
        Regroup(fired, FiredOne(h, id, streamsOnly), Fired(streamHandlers[i + 1..], id, streamsOnly));
        if h.invocationId == id && (streamsOnly ==> h.StreamHandler?) {
          fired := fired + [h];
        }
      }
    }

    /** The unregistering filter. */
    method Unregister(id: Value)
      modifies this`streamHandlers
      ensures streamHandlers == Others(old(streamHandlers), id)
    {
      var kept: seq<Handler> := [];
      for i := 0 to |streamHandlers|
        invariant streamHandlers == old(streamHandlers)
        invariant kept + Others(streamHandlers[i..], id) == Others(streamHandlers, id)
      {
        assert streamHandlers[i..][1..] == streamHandlers[i + 1..];
        var h := streamHandlers[i];
        Regroup(kept, if h.invocationId != id then [h] else [], Others(streamHandlers[i + 1..], id));
        if h.invocationId != id {
          kept := kept + [h];
        }
      }
      streamHandlers := kept;
    }

    /** The call of each fired handler's callback for `m`, in order. */
    method CallEach(fired: seq<Handler>, m: Message)
      requires Terminator(m) || m.StreamItem?
      modifies this`trace
      ensures trace == old(trace) + CallsOf(fired, m)
    {
      for i := 0 to |fired|
        invariant trace + CallsOf(fired[i..], m) == old(trace) + CallsOf(fired, m)
      {
        assert fired[i..][1..] == fired[i + 1..];
        Regroup(trace, [CallOf(fired[i], m)], CallsOf(fired[i + 1..], m));
        trace := trace + [CallOf(fired[i], m)];
      }
    }

    method CallInvoked(m: Message)
      requires m.Invocation?
      modifies this`trace
      ensures trace == old(trace) + InvokeAll(handlers, m)
    {
      for i := 0 to |handlers|
        invariant trace + InvokeAll(handlers[i..], m) == old(trace) + InvokeAll(handlers, m)
      {
        assert handlers[i..][1..] == handlers[i + 1..];
        var (event, key) := handlers[i];
        if Str(event) == m.target {
          Regroup(trace, [Invoked(key, m.arguments)], InvokeAll(handlers[i + 1..], m));
          trace := trace + [Invoked(key, m.arguments)];
        }
      }
    }

    /** `if message.error is not None and len(message.error) > 0 and self._on_error is not None`. */
    method ReportError(m: Message) returns (raised: bool)
      requires m.Completion?
      modifies this`trace
      ensures raised <==> Raises(m)
      ensures trace == old(trace) + if raised then [] else Reported(Current(), m)
    {
      raised := false;
      if m.error != Null {
        var length := Length(m.error);
        if length.Err? {
          return true;
        }
        if length.value > 0 && onError {
          trace := trace + [OnError(m)];
        }
      }
    }

    /** The completion branch: the error callback, the handlers' callbacks, then unregistering. */
    method DispatchCompletion(m: Message) returns (raised: bool)
      requires Valid() && m.Completion?
      modifies this`streamHandlers, this`trace
      ensures Valid() && (raised <==> Raises(m))
      ensures Current() == After(old(Current()), m)
      ensures trace == old(trace) + EventsOf(old(Current()), m)
    {
      ghost var before := Current();
      raised := ReportError(m);
      if raised {
        return;
      }
      var fired := Matching(m.invocationId, false);
      Regroup(old(trace), Reported(before, m), CallsOf(fired, m));
      CallEach(fired, m);
      OthersDistinct(streamHandlers, m.invocationId, nextKey);
      Unregister(m.invocationId);
    }

    /** What one message does. */
    method Dispatch(m: Message) returns (raised: bool)
      requires Valid()
      modifies this`streamHandlers, this`trace
      ensures Valid() && (raised <==> Raises(m))
      ensures Current() == After(old(Current()), m)
      ensures trace == old(trace) + EventsOf(old(Current()), m)
    {
      raised := false;
      match m {
        case Invocation(_, _, _, _) => CallInvoked(m);
        case Completion(_, _, _, _) => raised := DispatchCompletion(m);
        case StreamItem(_, _, _) =>
          var fired := Matching(m.invocationId, true);
          CallEach(fired, m);
        case CancelInvocation(_, _) =>
          var fired := Matching(m.invocationId, true);
          CallEach(fired, m);
          OthersDistinct(streamHandlers, m.invocationId, nextKey);
          Unregister(m.invocationId);
        case Close(_) => trace := trace + [Stopped];
        case _ =>
      }
    }

    /** `on_message`. */
    method OnMessage(messages: seq<Message>) returns (raised: bool)
      requires Valid()
      modifies this`streamHandlers, this`trace
      ensures Valid() && (raised <==> ReachesRaise(messages))
      ensures var (after, events) := RunActions(old(Current()), Deliveries(Reached(messages)));
              Current() == after && trace == old(trace) + events
    {
      ghost var all := RunActions(Current(), Deliveries(Reached(messages)));
      ghost var done: seq<Event> := [];
      assert messages[0..] == messages && done + all.1 == all.1;
      for i := 0 to |messages|
        invariant Valid() && trace == old(trace) + done && Ender(messages[i..]) == Ender(messages)
        invariant var rest := RunActions(Current(), Deliveries(Reached(messages[i..])));
                  all == (rest.0, done + rest.1)
      {
        assert messages[i..][1..] == messages[i + 1..];
        ghost var before, now := Current(), EventsOf(Current(), messages[i]);
        DeliverFirst(before, messages[i..]);
        raised := Dispatch(messages[i]);
        Regroup(old(trace), done, now);
        Regroup(done, now, RunActions(Current(), Deliveries(Reached(messages[i + 1..]))).1);
        done := done + now;
        if raised || messages[i].Close? {
          return;
        }
      }
      raised := false;
    }
  }

  lemma DeliverFirst(r: Registry, ms: seq<Message>)
    requires ms != []
    ensures var rest := if EndsBatch(ms[0]) then (After(r, ms[0]), []) else RunActions(After(r, ms[0]), Deliveries(Reached(ms[1..])));
            RunActions(r, Deliveries(Reached(ms))) == (rest.0, EventsOf(r, ms[0]) + rest.1)
  {
    var acts := Deliveries(Reached(ms));
    if EndsBatch(ms[0]) {
      assert Reached(ms) == [ms[0]];
      assert [ms[0]][1..] == [];
      assert Deliveries([ms[0]]) == [Deliver(ms[0])] + Deliveries([]);
      assert acts[1..] == [];
    } else {
      assert Reached(ms)[1..] == Reached(ms[1..]);
      assert acts[1..] == Deliveries(Reached(ms[1..]));
    }
  }

  /** Handler objects are distinct. */
  predicate DistinctKeys(hs: seq<Handler>) {
    hs == [] || (NoKey(hs[1..], hs[0].key) && DistinctKeys(hs[1..]))
  }

  predicate KeysBelow(hs: seq<Handler>, bound: nat) {
    forall i :: 0 <= i < |hs| ==> hs[i].key < bound
  }

  predicate NoKey(hs: seq<Handler>, key: nat) {
    forall i :: 0 <= i < |hs| ==> hs[i].key != key
  }

  lemma {:induction false} OthersNoKey(hs: seq<Handler>, id: Value, key: nat)
    requires NoKey(hs, key)
    ensures NoKey(Others(hs, id), key)
  {
    if hs != [] {
      OthersNoKey(hs[1..], id, key);
    }
  }

  lemma {:induction false} OthersDistinct(hs: seq<Handler>, id: Value, bound: nat)
    requires DistinctKeys(hs) && KeysBelow(hs, bound)
    ensures DistinctKeys(Others(hs, id)) && KeysBelow(Others(hs, id), bound)
  {
    if hs != [] {
      var tail := Others(hs[1..], id);
      OthersDistinct(hs[1..], id, bound);
      OthersNoKey(hs[1..], id, hs[0].key);
      assert ([hs[0]] + tail)[1..] == tail && [] + tail == tail;
    }
  }

  lemma {:induction false} DistinctAppend(hs: seq<Handler>, h: Handler)
    requires DistinctKeys(hs) && KeysBelow(hs, h.key)
    ensures DistinctKeys(hs + [h])
  {
    if hs == [] {
      assert hs + [h] == [h];
    } else {
      DistinctAppend(hs[1..], h);
      assert (hs + [h])[1..] == hs[1..] + [h];
    }
  }

  /* ---------- batches ---------- */

  lemma {:induction false} RunConcat(r: Registry, a: seq<Action>, b: seq<Action>)
    ensures var (mid, early) := RunActions(r, a);
            var (last, late) := RunActions(mid, b);
            RunActions(r, a + b) == (last, early + late)
    decreases |a|
  {
    if a == [] {
      assert a + b == b;
      assert [] + RunActions(r, b).1 == RunActions(r, b).1;
    } else {
      var (next, events) := Act(r, a[0]);
      RunConcat(next, a[1..], b);
      assert (a + b)[1..] == a[1..] + b;
      var (mid, more) := RunActions(next, a[1..]);
      Regroup(events, more, RunActions(mid, b).1);
    }
  }

  lemma {:induction false} DeliveriesConcat(a: seq<Message>, b: seq<Message>)
    ensures Deliveries(a + b) == Deliveries(a) + Deliveries(b)
  {
    if a == [] {
      assert a + b == b;
    } else {
      DeliveriesConcat(a[1..], b);
      assert (a + b)[1..] == a[1..] + b;
      Regroup([Deliver(a[0])], Deliveries(a[1..]), Deliveries(b));
    }
  }

  /** One batch or two makes no difference when nothing ends the first; otherwise the joint batch ends
      where the first does. */
  lemma BatchConcat(r: Registry, a: seq<Message>, b: seq<Message>)
    ensures var (mid, early) := RunActions(r, Deliveries(Reached(a)));
            var (last, late) := RunActions(mid, Deliveries(Reached(b)));
            RunActions(r, Deliveries(Reached(a + b))) ==
              if Ender(a).Some? then (mid, early) else (last, early + late)
  {
    ReachedConcat(a, b);
    ReachedConcat(a, []);
    assert a + [] == a;
    if Ender(a).None? {
      DeliveriesConcat(a, Reached(b));
      RunConcat(r, Deliveries(a), Deliveries(Reached(b)));
    }
  }

  /* ---------- what one handler sees ---------- */

  function Delivered(acts: seq<Action>): seq<Message> {
    if acts == [] then []
    else (if acts[0].Deliver? then [acts[0].message] else []) + Delivered(acts[1..])
  }

  /** What one message makes of a registered handler, callback by callback: a completion calls the
      completion callback of both handler classes, an item and a cancellation those of a stream handler.
      A completion whose error is a number or a boolean calls nothing. */
  function Sees(h: Handler, m: Message): seq<Event> {
    match m
    case Completion(_, id, _, error) =>
      if id == h.invocationId && !error.Num? && !error.Bool? then [Complete(h.key, m)] else []
    case StreamItem(_, id, item) =>
      if id == h.invocationId && h.StreamHandler? then [Next(h.key, item)] else []
    case CancelInvocation(_, id) =>
      if id == h.invocationId && h.StreamHandler? then [Failed(h.key, m)] else []
    case _ => []
  }

  /** The message ends this id. */
  predicate Ends(m: Message, id: Value) {
    match m
    case Completion(_, other, _, error) => other == id && !error.Num? && !error.Bool?
    case CancelInvocation(_, other) => other == id
    case _ => false
  }

  /** What a handler registered before `ms` sees of them. */
  function Projection(h: Handler, ms: seq<Message>): seq<Event> {
    if ms == [] then []
    else Sees(h, ms[0]) + if Ends(ms[0], h.invocationId) then [] else Projection(h, ms[1..])
  }

  /** The calls of one handler object's callbacks. */
  function CallsTo(key: nat, events: seq<Event>): seq<Event> {
    if events == [] then [] else CallBy(key, events[0]) + CallsTo(key, events[1..])
  }

  function CallBy(key: nat, e: Event): seq<Event> {
    if (e.Next? || e.Complete? || e.Failed?) && e.key == key then [e] else []
  }

  lemma {:induction false} CallsToConcat(key: nat, a: seq<Event>, b: seq<Event>)
    ensures CallsTo(key, a + b) == CallsTo(key, a) + CallsTo(key, b)
  {
    if a == [] {
      assert a + b == b;
    } else {
      CallsToConcat(key, a[1..], b);
      assert (a + b)[1..] == a[1..] + b;
      Regroup(CallBy(key, a[0]), CallsTo(key, a[1..]), CallsTo(key, b));
    }
  }

  /** The handler object `h` is registered, and no other object is mistaken for it. */
  predicate Once(hs: seq<Handler>, h: Handler) {
    hs != [] && if hs[0].key == h.key then hs[0] == h && NoKey(hs[1..], h.key) else Once(hs[1..], h)
  }

  predicate NeverRegisters(acts: seq<Action>, key: nat) {
    forall i :: 0 <= i < |acts| && acts[i].Register? ==> acts[i].handler.key != key
  }

  lemma {:induction false} CallsOfConcat(a: seq<Handler>, b: seq<Handler>, m: Message)
    requires Terminator(m) || m.StreamItem?
    ensures CallsOf(a + b, m) == CallsOf(a, m) + CallsOf(b, m)
  {
    if a == [] {
      assert a + b == b;
    } else {
      CallsOfConcat(a[1..], b, m);
      assert (a + b)[1..] == a[1..] + b;
      Regroup([CallOf(a[0], m)], CallsOf(a[1..], m), CallsOf(b, m));
    }
  }

  lemma CallsToOne(h: Handler, key: nat, m: Message, streamsOnly: bool)
    requires Terminator(m) || m.StreamItem?
    ensures CallsTo(key, CallsOf(FiredOne(h, m.invocationId, streamsOnly), m)) ==
              if h.key == key && FiredOne(h, m.invocationId, streamsOnly) == [h] then [CallOf(h, m)] else []
  {
    assert [h][1..] == [];
  }

  lemma {:induction false} CallsToOthers(hs: seq<Handler>, key: nat, m: Message, streamsOnly: bool)
    requires NoKey(hs, key) && (Terminator(m) || m.StreamItem?)
    ensures CallsTo(key, CallsOf(Fired(hs, m.invocationId, streamsOnly), m)) == []
  {
    if hs != [] {
      CallsToOthers(hs[1..], key, m, streamsOnly);
      CallsOfConcat(FiredOne(hs[0], m.invocationId, streamsOnly), Fired(hs[1..], m.invocationId, streamsOnly), m);
      CallsToOne(hs[0], key, m, streamsOnly);
      CallsToConcat(key, CallsOf(FiredOne(hs[0], m.invocationId, streamsOnly), m),
                    CallsOf(Fired(hs[1..], m.invocationId, streamsOnly), m));
    }
  }

  lemma {:induction false} CallsToHandler(hs: seq<Handler>, h: Handler, m: Message, streamsOnly: bool)
    requires Once(hs, h) && (Terminator(m) || m.StreamItem?)
    ensures CallsTo(h.key, CallsOf(Fired(hs, m.invocationId, streamsOnly), m)) ==
              if h.invocationId == m.invocationId && (streamsOnly ==> h.StreamHandler?) then [CallOf(h, m)] else []
  {
    if hs[0].key == h.key {
      CallsToOthers(hs[1..], h.key, m, streamsOnly);
    } else {
      CallsToHandler(hs[1..], h, m, streamsOnly);
    }
    CallsOfConcat(FiredOne(hs[0], m.invocationId, streamsOnly), Fired(hs[1..], m.invocationId, streamsOnly), m);
    CallsToOne(hs[0], h.key, m, streamsOnly);
    CallsToConcat(h.key, CallsOf(FiredOne(hs[0], m.invocationId, streamsOnly), m),
                  CallsOf(Fired(hs[1..], m.invocationId, streamsOnly), m));
  }

  lemma {:induction false} InvokedNotCalled(hs: seq<(string, nat)>, m: Message, key: nat)
    requires m.Invocation?
    ensures CallsTo(key, InvokeAll(hs, m)) == []
  {
    if hs != [] {
      InvokedNotCalled(hs[1..], m, key);
      CallsToConcat(key, [Invoked(hs[0].1, m.arguments)], InvokeAll(hs[1..], m));
      assert [] + InvokeAll(hs[1..], m) == InvokeAll(hs[1..], m);
    }
  }

  lemma {:induction false} OthersOnce(hs: seq<Handler>, id: Value, h: Handler)
    requires Once(hs, h)
    ensures if h.invocationId == id then NoKey(Others(hs, id), h.key) else Once(Others(hs, id), h)
  {
    if hs[0].key == h.key {
      OthersNoKey(hs[1..], id, h.key);
    } else {
      OthersOnce(hs[1..], id, h);
    }
    assert Others(hs, id) == [hs[0]] + Others(hs[1..], id) || Others(hs, id) == Others(hs[1..], id);
  }

  /** A handler that is not registered is not called. */
  lemma {:induction false} AbsentSilent(r: Registry, acts: seq<Action>, key: nat)
    requires NoKey(r.streams, key) && NeverRegisters(acts, key)
    ensures CallsTo(key, RunActions(r, acts).1) == []
    ensures NoKey(RunActions(r, acts).0.streams, key)
    decreases |acts|
  {
    if acts != [] {
      var (next, events) := Act(r, acts[0]);
      match acts[0] {
        case Register(_) =>
        case RegisterOn(_, _) =>
        case Deliver(m) =>
          AbsentEvents(r, m, key);
          OthersNoKey(r.streams, if Terminator(m) then m.invocationId else Null, key);
      }
      AbsentSilent(next, acts[1..], key);
      CallsToConcat(key, events, RunActions(next, acts[1..]).1);
    }
  }

  /** The callbacks a message causes, but for the error callback. */
  lemma EventsAreCalls(r: Registry, m: Message, key: nat)
    requires Terminator(m) || m.StreamItem?
    ensures CallsTo(key, EventsOf(r, m)) ==
              CallsTo(key, CallsOf(Fired(r.streams, m.invocationId, !m.Completion?), m))
  {
    var calls := CallsOf(Fired(r.streams, m.invocationId, !m.Completion?), m);
    if m.Completion? {
      CallsToConcat(key, Reported(r, m), calls);
      assert CallsTo(key, Reported(r, m)) == [];
      assert [] + CallsTo(key, calls) == CallsTo(key, calls);
    }
  }

  lemma AbsentEvents(r: Registry, m: Message, key: nat)
    requires NoKey(r.streams, key)
    ensures CallsTo(key, EventsOf(r, m)) == []
  {
    if m.Invocation? {
      InvokedNotCalled(r.handlers, m, key);
    } else if Terminator(m) || m.StreamItem? {
      EventsAreCalls(r, m, key);
      CallsToOthers(r.streams, key, m, !m.Completion?);
    }
  }

  /** A registered handler is called as `Sees` says. */
  lemma PresentEvents(r: Registry, m: Message, h: Handler)
    requires Once(r.streams, h)
    ensures CallsTo(h.key, EventsOf(r, m)) == Sees(h, m)
  {
    if m.Invocation? {
      InvokedNotCalled(r.handlers, m, h.key);
    } else if Terminator(m) || m.StreamItem? {
      EventsAreCalls(r, m, h.key);
      CallsToHandler(r.streams, h, m, !m.Completion?);
    }
  }

  lemma TerminatorEnds(m: Message)
    ensures forall id :: Ends(m, id) <==> Terminator(m) && m.invocationId == id
  {
  }

  lemma {:induction false} OnceAppend(hs: seq<Handler>, h: Handler, other: Handler)
    ensures Once(hs, h) && other.key != h.key ==> Once(hs + [other], h)
    ensures NoKey(hs, h.key) ==> Once(hs + [h], h)
  {
    if hs == [] {
      assert hs + [h] == [h];
    } else {
      OnceAppend(hs[1..], h, other);
      assert (hs + [other])[1..] == hs[1..] + [other];
      assert (hs + [h])[1..] == hs[1..] + [h];
    }
  }

  /** A registered handler sees the projection of what is delivered from now on. */
  lemma {:induction false} PresentSees(r: Registry, acts: seq<Action>, h: Handler)
    requires Once(r.streams, h) && NeverRegisters(acts, h.key)
    ensures CallsTo(h.key, RunActions(r, acts).1) == Projection(h, Delivered(acts))
    decreases |acts|
  {
    if acts != [] {
      var next := Act(r, acts[0]).0;
      RunFirst(r, acts, h.key);
      DeliveredFirst(acts);
      if acts[0].Deliver? {
        StillThere(r, acts[0].message, h);
        if Ends(acts[0].message, h.invocationId) {
          AbsentSilent(next, acts[1..], h.key);
        } else {
          PresentSees(next, acts[1..], h);
        }
        SeesOne(r, acts[0].message, h, RunActions(next, acts[1..]).1, Delivered(acts[1..]));
      } else {
        StaysRegistered(r, acts[0], h);
        PresentSees(next, acts[1..], h);
      }
    }
  }

  lemma RunFirst(r: Registry, acts: seq<Action>, key: nat)
    requires acts != []
    ensures var (next, events) := Act(r, acts[0]);
            CallsTo(key, RunActions(r, acts).1) == CallsTo(key, events) + CallsTo(key, RunActions(next, acts[1..]).1)
  {
    var (next, events) := Act(r, acts[0]);
    CallsToConcat(key, events, RunActions(next, acts[1..]).1);
  }

  lemma StillThere(r: Registry, m: Message, h: Handler)
    requires Once(r.streams, h)
    ensures if Ends(m, h.invocationId) then NoKey(After(r, m).streams, h.key) else Once(After(r, m).streams, h)
  {
    TerminatorEnds(m);
    if Terminator(m) {
      OthersOnce(r.streams, m.invocationId, h);
    }
  }

  lemma StaysRegistered(r: Registry, a: Action, h: Handler)
    requires Once(r.streams, h) && !a.Deliver? && (a.Register? ==> a.handler.key != h.key)
    ensures Once(Act(r, a).0.streams, h) && CallsTo(h.key, Act(r, a).1) == []
  {
    if a.Register? {
      OnceAppend(r.streams, h, a.handler);
    }
  }

  /** One message in front of what a registered handler sees. */
  lemma SeesOne(r: Registry, m: Message, h: Handler, later: seq<Event>, ms: seq<Message>)
    requires Once(r.streams, h)
    requires CallsTo(h.key, later) == if Ends(m, h.invocationId) then [] else Projection(h, ms)
    ensures CallsTo(h.key, EventsOf(r, m)) + CallsTo(h.key, later) == Projection(h, [m] + ms)
  {
    PresentEvents(r, m, h);
    assert ([m] + ms)[1..] == ms;
  }

  /** Per-handler projection: whatever else is registered or dispatched, in any interleaving, a handler
      object's callbacks are called exactly for the messages of its id that are dispatched after its
      registration, in arrival order, up to and including the first completion or cancellation. */
  lemma HandlerProjection(r: Registry, before: seq<Action>, h: Handler, later: seq<Action>)
    requires NoKey(r.streams, h.key) && NeverRegisters(before, h.key) && NeverRegisters(later, h.key)
    ensures CallsTo(h.key, RunActions(r, before + ([Register(h)] + later)).1) == Projection(h, Delivered(later))
  {
    RunConcat(r, before, [Register(h)] + later);
    AbsentSilent(r, before, h.key);
    var (mid, early) := RunActions(r, before);
    OnceAppend(mid.streams, h, h);
    assert ([Register(h)] + later)[1..] == later;
    var (next, _) := Act(mid, Register(h));
    PresentSees(next, later, h);
    CallsToConcat(h.key, [Registered(h)], RunActions(next, later).1);
    CallsToConcat(h.key, early, RunActions(mid, [Register(h)] + later).1);
  }

  /* ---------- in which order ---------- */

  /** One handler alone. */
  lemma OneHandler(h: Handler, event: string, key: nat, m: Message)
    ensures EventsOf(Registry([], [h], false), m) == if m.Close? then [Stopped] else Sees(h, m)
    ensures m.Invocation? ==>
              EventsOf(Registry([(event, key)], [], false), m) ==
                if m.target == Str(event) then [Invoked(key, m.arguments)] else []
  {
    assert [h][1..] == [] && [(event, key)][1..] == [];
    if Terminator(m) || m.StreamItem? {
      var fired := Fired([h], m.invocationId, !m.Completion?);
      assert fired == FiredOne(h, m.invocationId, !m.Completion?) + Fired([], m.invocationId, !m.Completion?);
      if fired != [] {
        assert fired[1..] == [] && CallsOf(fired[1..], m) == [];
      }
    }
  }

  lemma {:induction false} FiredConcat(a: seq<Handler>, b: seq<Handler>, id: Value, streamsOnly: bool)
    ensures Fired(a + b, id, streamsOnly) == Fired(a, id, streamsOnly) + Fired(b, id, streamsOnly)
  {
    if a == [] {
      assert a + b == b;
    } else {
      FiredConcat(a[1..], b, id, streamsOnly);
      assert (a + b)[1..] == a[1..] + b;
      Regroup(FiredOne(a[0], id, streamsOnly), Fired(a[1..], id, streamsOnly), Fired(b, id, streamsOnly));
    }
  }

  lemma {:induction false} InvokeAllConcat(a: seq<(string, nat)>, b: seq<(string, nat)>, m: Message)
    requires m.Invocation?
    ensures InvokeAll(a + b, m) == InvokeAll(a, m) + InvokeAll(b, m)
  {
    if a == [] {
      assert a + b == b;
    } else {
      InvokeAllConcat(a[1..], b, m);
      assert (a + b)[1..] == a[1..] + b;
      Regroup(if Str(a[0].0) == m.target then [Invoked(a[0].1, m.arguments)] else [],
              InvokeAll(a[1..], m), InvokeAll(b, m));
    }
  }

  lemma StreamOrder(on: seq<(string, nat)>, a: seq<Handler>, b: seq<Handler>, m: Message)
    requires Terminator(m) || m.StreamItem?
    ensures EventsOf(Registry(on, a + b, false), m) ==
              EventsOf(Registry(on, a, false), m) + EventsOf(Registry(on, b, false), m)
  {
    var id, streamsOnly := m.invocationId, !m.Completion?;
    FiredConcat(a, b, id, streamsOnly);
    CallsOfConcat(Fired(a, id, streamsOnly), Fired(b, id, streamsOnly), m);
    OnlyCalls(on, a, m);
    OnlyCalls(on, b, m);
    OnlyCalls(on, a + b, m);
  }

  lemma OnlyCalls(on: seq<(string, nat)>, hs: seq<Handler>, m: Message)
    requires Terminator(m) || m.StreamItem?
    ensures EventsOf(Registry(on, hs, false), m) == CallsOf(Fired(hs, m.invocationId, !m.Completion?), m)
  {
  }

  lemma ReportFirst(on: seq<(string, nat)>, hs: seq<Handler>, m: Message)
    ensures EventsOf(Registry(on, hs, true), m) == ErrorReport(m) + EventsOf(Registry(on, hs, false), m)
  {
    if Terminator(m) || m.StreamItem? {
      OnlyCalls(on, hs, m);
    }
  }

  /** Handlers are called in the order of their registration, and the error callback before them. */
  lemma RegistrationOrder(on1: seq<(string, nat)>, on2: seq<(string, nat)>, a: seq<Handler>, b: seq<Handler>, m: Message)
    ensures m.Invocation? ==>
              EventsOf(Registry(on1 + on2, a, false), m) ==
                EventsOf(Registry(on1, a, false), m) + EventsOf(Registry(on2, a, false), m)
    ensures !m.Invocation? && !m.Close? ==>
              EventsOf(Registry(on1, a + b, false), m) ==
                EventsOf(Registry(on1, a, false), m) + EventsOf(Registry(on1, b, false), m)
    ensures EventsOf(Registry(on1, a, true), m) == ErrorReport(m) + EventsOf(Registry(on1, a, false), m)
  {
    ReportFirst(on1, a, m);
    if m.Invocation? {
      InvokeAllConcat(on1, on2, m);
    } else if Terminator(m) || m.StreamItem? {
      StreamOrder(on1, a, b, m);
    }
  }

  /** The error callback is called for a completion whose error is a text, a list or an object that is
      not empty. */
  function ErrorReport(m: Message): seq<Event> {
    match m
    case Completion(_, _, _, Str(text)) => if text == "" then [] else [OnError(m)]
    case Completion(_, _, _, Arr(elems)) => if elems == [] then [] else [OnError(m)]
    case Completion(_, _, _, Obj(fields)) => if fields == [] then [] else [OnError(m)]
    case _ => []
  }

  /** Calls of the error callback, and stops of the connection. */
  function Reports(events: seq<Event>): seq<Event> {
    if events == [] then []
    else (if events[0].OnError? || events[0].Stopped? then [events[0]] else []) + Reports(events[1..])
  }

  function ReportsOn(onError: bool, ms: seq<Message>): seq<Event> {
    if ms == [] then []
    else (if ms[0].Close? then [Stopped] else if onError then ErrorReport(ms[0]) else []) + ReportsOn(onError, ms[1..])
  }

  lemma {:induction false} ReportsConcat(a: seq<Event>, b: seq<Event>)
    ensures Reports(a + b) == Reports(a) + Reports(b)
  {
    if a == [] {
      assert a + b == b;
    } else {
      ReportsConcat(a[1..], b);
      assert (a + b)[1..] == a[1..] + b;
      Regroup(if a[0].OnError? || a[0].Stopped? then [a[0]] else [], Reports(a[1..]), Reports(b));
    }
  }

  lemma {:induction false} CallsReportNothing(fired: seq<Handler>, m: Message)
    requires Terminator(m) || m.StreamItem?
    ensures Reports(CallsOf(fired, m)) == []
  {
    if fired != [] {
      CallsReportNothing(fired[1..], m);
      ReportsConcat([CallOf(fired[0], m)], CallsOf(fired[1..], m));
    }
  }

  lemma {:induction false} InvokesReportNothing(hs: seq<(string, nat)>, m: Message)
    requires m.Invocation?
    ensures Reports(InvokeAll(hs, m)) == []
  {
    if hs != [] {
      InvokesReportNothing(hs[1..], m);
      ReportsConcat(if Str(hs[0].0) == m.target then [Invoked(hs[0].1, m.arguments)] else [], InvokeAll(hs[1..], m));
    }
  }

  lemma ReportsOne(r: Registry, m: Message)
    ensures Reports(EventsOf(r, m)) == if m.Close? then [Stopped] else if r.onError then ErrorReport(m) else []
  {
    if m.Invocation? {
      InvokesReportNothing(r.handlers, m);
    } else if Terminator(m) || m.StreamItem? {
      var calls := CallsOf(Fired(r.streams, m.invocationId, !m.Completion?), m);
      CallsReportNothing(Fired(r.streams, m.invocationId, !m.Completion?), m);
      ReportsConcat(Reported(r, m), calls);
      assert Reports(Reported(r, m)) == Reported(r, m);
    } else if m.Close? {
      assert [Stopped][1..] == [];
    }
  }

  /** On any run the error callback, if there is one, is called exactly for the failed completions that
      are dispatched, and the connection is stopped once for every Close, in order. */
  lemma {:induction false} ReportsProjection(r: Registry, acts: seq<Action>)
    ensures Reports(RunActions(r, acts).1) == ReportsOn(r.onError, Delivered(acts))
    decreases |acts|
  {
    if acts != [] {
      var (next, events) := Act(r, acts[0]);
      ReportsProjection(next, acts[1..]);
      ReportsConcat(events, RunActions(next, acts[1..]).1);
      DeliveredFirst(acts);
      if acts[0].Deliver? {
        ReportsOne(r, acts[0].message);
        assert ([acts[0].message] + Delivered(acts[1..]))[1..] == Delivered(acts[1..]);
      } else {
        assert Reports(events) == [];
      }
    }
  }

  /* ---------- the registry ---------- */

  /** A message that ends `id` is among `ms`. */
  predicate Ended(id: Value, ms: seq<Message>) {
    exists i :: 0 <= i < |ms| && Ends(ms[i], id)
  }

  /** The handlers whose id no delivered message ends. */
  function Unended(hs: seq<Handler>, ms: seq<Message>): seq<Handler> {
    if hs == [] then [] else UnendedOne(hs[0], ms) + Unended(hs[1..], ms)
  }

  function UnendedOne(h: Handler, ms: seq<Message>): seq<Handler> {
    if Ended(h.invocationId, ms) then [] else [h]
  }

  /** The handlers registered by `acts` whose id no later message ends, in registration order. */
  function Survivors(acts: seq<Action>): seq<Handler> {
    if acts == [] then []
    else
      (if acts[0].Register? && !Ended(acts[0].handler.invocationId, Delivered(acts[1..]))
       then [acts[0].handler] else [])
      + Survivors(acts[1..])
  }

  lemma {:induction false} UnendedConcat(a: seq<Handler>, b: seq<Handler>, ms: seq<Message>)
    ensures Unended(a + b, ms) == Unended(a, ms) + Unended(b, ms)
  {
    if a == [] {
      assert a + b == b;
    } else {
      UnendedConcat(a[1..], b, ms);
      assert (a + b)[1..] == a[1..] + b;
      Regroup(UnendedOne(a[0], ms), Unended(a[1..], ms), Unended(b, ms));
    }
  }

  lemma EndedFirst(id: Value, m: Message, ms: seq<Message>)
    ensures Ended(id, [m] + ms) <==> Ends(m, id) || Ended(id, ms)
  {
    var all := [m] + ms;
    assert all[0] == m && forall i :: 0 <= i < |ms| ==> all[i + 1] == ms[i];
    if Ended(id, all) {
      var i :| 0 <= i < |all| && Ends(all[i], id);
      assert i == 0 || all[i] == ms[i - 1];
    }
  }

  lemma {:induction false} UnendedFirst(hs: seq<Handler>, m: Message, ms: seq<Message>)
    ensures Unended(hs, [m] + ms) == Unended(if Terminator(m) then Others(hs, m.invocationId) else hs, ms)
  {
    if hs != [] {
      UnendedFirst(hs[1..], m, ms);
      TerminatorEnds(m);
      EndedFirst(hs[0].invocationId, m, ms);
      if Terminator(m) {
        var tail := Others(hs[1..], m.invocationId);
        assert ([hs[0]] + tail)[1..] == tail;
        assert [] + tail == tail;
      }
    }
  }

  lemma {:induction false} UnendedNone(hs: seq<Handler>)
    ensures Unended(hs, []) == hs
  {
    if hs != [] {
      UnendedNone(hs[1..]);
    }
  }

  lemma AgreeRegister(hs: seq<Handler>, h: Handler, later: seq<Message>, rest: seq<Handler>)
    ensures Unended(hs + [h], later) + rest ==
              Unended(hs, later) + (UnendedOne(h, later) + rest)
  {
    UnendedConcat(hs, [h], later);
    assert [h][1..] == [];
    assert Unended([h], later) == UnendedOne(h, later);
    Regroup(Unended(hs, later), UnendedOne(h, later), rest);
  }

  lemma DeliveredFirst(acts: seq<Action>)
    requires acts != []
    ensures Delivered(acts) ==
              if acts[0].Deliver? then [acts[0].message] + Delivered(acts[1..]) else Delivered(acts[1..])
  {
    assert [] + Delivered(acts[1..]) == Delivered(acts[1..]);
  }

  lemma AgreementStep(r: Registry, acts: seq<Action>)
    requires acts != []
    ensures Unended(Act(r, acts[0]).0.streams, Delivered(acts[1..])) + Survivors(acts[1..]) ==
              Unended(r.streams, Delivered(acts)) + Survivors(acts)
  {
    var later, rest := Delivered(acts[1..]), Survivors(acts[1..]);
    DeliveredFirst(acts);
    match acts[0] {
      case Register(h) => AgreeRegister(r.streams, h, later, rest);
      case RegisterOn(_, _) => assert [] + rest == rest;
      case Deliver(m) => UnendedFirst(r.streams, m, later); assert [] + rest == rest;
    }
  }

  /** Registry agreement: in every reachable state the registry holds exactly the handlers registered
      so far minus those whose id was completed or cancelled afterwards, in registration order. */
  lemma {:induction false} RegistryAgreement(r: Registry, acts: seq<Action>)
    ensures RunActions(r, acts).0.streams == Unended(r.streams, Delivered(acts)) + Survivors(acts)
    decreases |acts|
  {
    if acts == [] {
      UnendedNone(r.streams);
    } else {
      RegistryAgreement(Act(r, acts[0]).0, acts[1..]);
      AgreementStep(r, acts);
    }
  }

  /** A handler object that has left the registry never comes back: it is retired at most once. */
  lemma RetiredForGood(r: Registry, early: seq<Action>, later: seq<Action>, key: nat)
    requires NoKey(RunActions(r, early).0.streams, key) && NeverRegisters(later, key)
    ensures NoKey(RunActions(r, early + later).0.streams, key)
  {
    RunConcat(r, early, later);
    AbsentSilent(RunActions(r, early).0, later, key);
  }

  /* ---------- whole batches ---------- */

  /** What one `on_message` call does, with the registrations that fall into it: up to and including the
      delivery that ends the batch. */
  function Performed(acts: seq<Action>): seq<Action> {
    if acts == [] then []
    else if acts[0].Deliver? && EndsBatch(acts[0].message) then [acts[0]]
    else [acts[0]] + Performed(acts[1..])
  }

  /** Many calls one after the other; a registration between two calls is a call without messages. */
  function History(calls: seq<seq<Action>>): seq<Action> {
    if calls == [] then [] else Performed(calls[0]) + History(calls[1..])
  }

  /** The messages the dispatcher gets to, of those handed to it. */
  function Received(calls: seq<seq<Action>>): seq<Message> {
    if calls == [] then [] else Reached(Delivered(calls[0])) + Received(calls[1..])
  }

  /** A call of `on_message` without registrations performs what the method does. */
  lemma {:induction false} PerformedDeliveries(ms: seq<Message>)
    ensures Performed(Deliveries(ms)) == Deliveries(Reached(ms))
  {
    if ms != [] {
      var tail := Deliveries(ms[1..]);
      assert Deliveries(ms)[1..] == tail;
      PerformedDeliveries(ms[1..]);
      if EndsBatch(ms[0]) {
        assert [ms[0]][1..] == [];
        assert Deliveries([ms[0]]) == [Deliver(ms[0])] + Deliveries([]);
      } else {
        assert ([ms[0]] + Reached(ms[1..]))[1..] == Reached(ms[1..]);
      }
    }
  }

  lemma {:induction false} DeliveredConcat(a: seq<Action>, b: seq<Action>)
    ensures Delivered(a + b) == Delivered(a) + Delivered(b)
  {
    if a == [] {
      assert a + b == b;
    } else {
      DeliveredConcat(a[1..], b);
      assert (a + b)[1..] == a[1..] + b;
      DeliveredFirst(a);
      DeliveredFirst(a + b);
      if a[0].Deliver? {
        Regroup([a[0].message], Delivered(a[1..]), Delivered(b));
      }
    }
  }

  lemma {:induction false} DeliveredPerformed(acts: seq<Action>)
    ensures Delivered(Performed(acts)) == Reached(Delivered(acts))
  {
    if acts != [] {
      DeliveredPerformed(acts[1..]);
      DeliveredFirst(acts);
      DeliveredFirst(Performed(acts));
      var ms := Delivered(acts[1..]);
      if acts[0].Deliver? {
        assert ([acts[0].message] + ms)[1..] == ms;
        if EndsBatch(acts[0].message) {
          assert Performed(acts)[1..] == [];
          assert Delivered([]) == [];
        } else {
          assert Performed(acts)[1..] == Performed(acts[1..]);
        }
      } else {
        assert Performed(acts)[1..] == Performed(acts[1..]);
      }
    }
  }

  lemma {:induction false} DeliveredHistory(calls: seq<seq<Action>>)
    ensures Delivered(History(calls)) == Received(calls)
  {
    if calls != [] {
      DeliveredHistory(calls[1..]);
      DeliveredPerformed(calls[0]);
      DeliveredConcat(Performed(calls[0]), History(calls[1..]));
    }
  }

  lemma EnderFirst(a: seq<Action>)
    requires a != [] && Ender(Delivered(a)).None?
    ensures !(a[0].Deliver? && EndsBatch(a[0].message)) && Ender(Delivered(a[1..])).None?
  {
    DeliveredFirst(a);
    if a[0].Deliver? {
      assert ([a[0].message] + Delivered(a[1..]))[1..] == Delivered(a[1..]);
    }
  }

  lemma {:induction false} PerformedConcat(a: seq<Action>, b: seq<Action>)
    requires Ender(Delivered(a)).None?
    ensures Performed(a + b) == a + Performed(b)
  {
    if a == [] {
      assert a + b == b;
    } else {
      EnderFirst(a);
      PerformedConcat(a[1..], b);
      assert (a + b)[1..] == a[1..] + b;
      Regroup([a[0]], a[1..], Performed(b));
    }
  }

  lemma {:induction false} HistoryConcat(a: seq<seq<Action>>, b: seq<seq<Action>>)
    ensures History(a + b) == History(a) + History(b)
  {
    if a == [] {
      assert a + b == b;
    } else {
      HistoryConcat(a[1..], b);
      assert (a + b)[1..] == a[1..] + b;
      Regroup(Performed(a[0]), History(a[1..]), History(b));
    }
  }

  lemma {:induction false} PerformedNever(acts: seq<Action>, key: nat)
    requires NeverRegisters(acts, key)
    ensures NeverRegisters(Performed(acts), key)
  {
    if acts != [] {
      PerformedNever(acts[1..], key);
    }
  }

  lemma NeverConcat(a: seq<Action>, b: seq<Action>, key: nat)
    requires NeverRegisters(a, key) && NeverRegisters(b, key)
    ensures NeverRegisters(a + b, key)
  {
  }

  predicate NeverIn(calls: seq<seq<Action>>, key: nat) {
    forall i :: 0 <= i < |calls| ==> NeverRegisters(calls[i], key)
  }

  lemma {:induction false} HistoryNever(calls: seq<seq<Action>>, key: nat)
    requires NeverIn(calls, key)
    ensures NeverRegisters(History(calls), key)
  {
    if calls != [] {
      HistoryNever(calls[1..], key);
      PerformedNever(calls[0], key);
      NeverConcat(Performed(calls[0]), History(calls[1..]), key);
    }
  }

  /** The call of `on_message` (or the pause between two) into which a registration falls. */
  function Around(first: seq<Action>, h: Handler, second: seq<Action>): seq<Action> {
    first + ([Register(h)] + second)
  }

  lemma HistoryAround(earlier: seq<seq<Action>>, first: seq<Action>, h: Handler, second: seq<Action>,
                      later: seq<seq<Action>>)
    requires Ender(Delivered(first)).None?
    ensures History(earlier + ([Around(first, h, second)] + later)) ==
              (History(earlier) + first) + ([Register(h)] + (Performed(second) + History(later)))
  {
    var call := Around(first, h, second);
    HistoryConcat(earlier, [call] + later);
    assert ([call] + later)[1..] == later;
    PerformedConcat(first, [Register(h)] + second);
    assert ([Register(h)] + second)[1..] == second;
    Regroup(first, [Register(h)], Performed(second));
    Regroup(History(earlier), first, [Register(h)] + (Performed(second) + History(later)));
    Regroup([Register(h)], Performed(second), History(later));
    Regroup(first, [Register(h)] + Performed(second), History(later));
  }

  /** The projection over whole calls of `on_message`: a handler registered anywhere, between two calls
      or in the middle of one, sees of its id what the dispatcher gets to in the rest of that call and in
      all later ones, each cut where it ends, up to the first completion or cancellation. */
  lemma CallProjection(r: Registry, earlier: seq<seq<Action>>, first: seq<Action>, h: Handler, second: seq<Action>,
                       later: seq<seq<Action>>)
    requires NoKey(r.streams, h.key) && NeverIn(earlier, h.key) && NeverIn(later, h.key)
    requires NeverRegisters(first, h.key) && NeverRegisters(second, h.key) && Ender(Delivered(first)).None?
    ensures CallsTo(h.key, RunActions(r, History(earlier + ([Around(first, h, second)] + later))).1) ==
              Projection(h, Reached(Delivered(second)) + Received(later))
  {
    HistoryAround(earlier, first, h, second, later);
    HistoryNever(earlier, h.key);
    HistoryNever(later, h.key);
    PerformedNever(second, h.key);
    NeverConcat(History(earlier), first, h.key);
    NeverConcat(Performed(second), History(later), h.key);
    HandlerProjection(r, History(earlier) + first, h, Performed(second) + History(later));
    DeliveredConcat(Performed(second), History(later));
    DeliveredPerformed(second);
    DeliveredHistory(later);
  }

  /* ---------- handlers registered with `on` ---------- */

  /** The arguments one `on` handler is called with. */
  function InvocationsOf(key: nat, events: seq<Event>): seq<Value> {
    if events == [] then [] else InvocationBy(key, events[0]) + InvocationsOf(key, events[1..])
  }

  function InvocationBy(key: nat, e: Event): seq<Value> {
    if e.Invoked? && e.key == key then [e.arguments] else []
  }

  /** The arguments of the invocations of one target. */
  function ArgumentsFor(event: string, ms: seq<Message>): seq<Value> {
    if ms == [] then []
    else (if ms[0].Invocation? && ms[0].target == Str(event) then [ms[0].arguments] else [])
         + ArgumentsFor(event, ms[1..])
  }

  predicate OnceOn(hs: seq<(string, nat)>, event: string, key: nat) {
    hs != [] && if hs[0].1 == key then hs[0].0 == event && NoOn(hs[1..], key) else OnceOn(hs[1..], event, key)
  }

  predicate NoOn(hs: seq<(string, nat)>, key: nat) {
    forall i :: 0 <= i < |hs| ==> hs[i].1 != key
  }

  predicate NeverOn(acts: seq<Action>, key: nat) {
    forall i :: 0 <= i < |acts| && acts[i].RegisterOn? ==> acts[i].key != key
  }

  lemma {:induction false} InvocationsConcat(key: nat, a: seq<Event>, b: seq<Event>)
    ensures InvocationsOf(key, a + b) == InvocationsOf(key, a) + InvocationsOf(key, b)
  {
    if a == [] {
      assert a + b == b;
    } else {
      InvocationsConcat(key, a[1..], b);
      assert (a + b)[1..] == a[1..] + b;
      Regroup(InvocationBy(key, a[0]), InvocationsOf(key, a[1..]), InvocationsOf(key, b));
    }
  }

  lemma {:induction false} InvokedOnce(hs: seq<(string, nat)>, event: string, key: nat, m: Message)
    requires m.Invocation?
    ensures NoOn(hs, key) ==> InvocationsOf(key, InvokeAll(hs, m)) == []
    ensures OnceOn(hs, event, key) ==>
              InvocationsOf(key, InvokeAll(hs, m)) == if m.target == Str(event) then [m.arguments] else []
  {
    if hs != [] {
      InvokedOnce(hs[1..], event, key, m);
      var head: seq<Event> := if Str(hs[0].0) == m.target then [Invoked(hs[0].1, m.arguments)] else [];
      InvocationsConcat(key, head, InvokeAll(hs[1..], m));
    }
  }

  lemma {:induction false} CallsNotInvoked(fired: seq<Handler>, m: Message, key: nat)
    requires Terminator(m) || m.StreamItem?
    ensures InvocationsOf(key, CallsOf(fired, m)) == []
  {
    if fired != [] {
      CallsNotInvoked(fired[1..], m, key);
      InvocationsConcat(key, [CallOf(fired[0], m)], CallsOf(fired[1..], m));
    }
  }

  lemma InvocationsOfEvents(r: Registry, event: string, key: nat, m: Message)
    ensures NoOn(r.handlers, key) ==> InvocationsOf(key, EventsOf(r, m)) == []
    ensures OnceOn(r.handlers, event, key) ==>
              InvocationsOf(key, EventsOf(r, m)) ==
                if m.Invocation? && m.target == Str(event) then [m.arguments] else []
  {
    if m.Invocation? {
      InvokedOnce(r.handlers, event, key, m);
    } else if Terminator(m) || m.StreamItem? {
      var fired := Fired(r.streams, m.invocationId, !m.Completion?);
      CallsNotInvoked(fired, m, key);
      InvocationsConcat(key, Reported(r, m), CallsOf(fired, m));
    }
  }

  lemma {:induction false} OnceOnAppend(hs: seq<(string, nat)>, event: string, key: nat, other: (string, nat))
    ensures OnceOn(hs, event, key) && other.1 != key ==> OnceOn(hs + [other], event, key)
    ensures NoOn(hs, key) ==> OnceOn(hs + [(event, key)], event, key)
  {
    if hs == [] {
      assert hs + [(event, key)] == [(event, key)];
    } else {
      OnceOnAppend(hs[1..], event, key, other);
      assert (hs + [other])[1..] == hs[1..] + [other];
      assert (hs + [(event, key)])[1..] == hs[1..] + [(event, key)];
    }
  }

  lemma {:induction false} OnAbsent(r: Registry, acts: seq<Action>, key: nat)
    requires NeverOn(acts, key) && NoOn(r.handlers, key)
    ensures NoOn(RunActions(r, acts).0.handlers, key)
    ensures InvocationsOf(key, RunActions(r, acts).1) == []
    decreases |acts|
  {
    if acts != [] {
      var (next, events) := Act(r, acts[0]);
      InvocationsConcat(key, events, RunActions(next, acts[1..]).1);
      if acts[0].Deliver? {
        InvocationsOfEvents(r, "", key, acts[0].message);
      }
      OnAbsent(next, acts[1..], key);
    }
  }

  lemma {:induction false} OnPresent(r: Registry, acts: seq<Action>, event: string, key: nat)
    requires NeverOn(acts, key) && OnceOn(r.handlers, event, key)
    ensures InvocationsOf(key, RunActions(r, acts).1) == ArgumentsFor(event, Delivered(acts))
    decreases |acts|
  {
    if acts != [] {
      var (next, events) := Act(r, acts[0]);
      var later := Delivered(acts[1..]);
      InvocationsConcat(key, events, RunActions(next, acts[1..]).1);
      DeliveredFirst(acts);
      match acts[0] {
        case Register(h) =>
        case RegisterOn(e, k) => OnceOnAppend(r.handlers, event, key, (e, k));
        case Deliver(m) =>
          InvocationsOfEvents(r, event, key, m);
          assert ([m] + later)[1..] == later;
      }
      OnPresent(next, acts[1..], event, key);
    }
  }

  /** A handler registered with `on` is called, in order, with the arguments of exactly the invocations
      of its target that are dispatched after its registration, and never retires. */
  lemma OnProjection(r: Registry, before: seq<Action>, event: string, key: nat, later: seq<Action>)
    requires NoOn(r.handlers, key) && NeverOn(before, key) && NeverOn(later, key)
    ensures InvocationsOf(key, RunActions(r, before + ([RegisterOn(event, key)] + later)).1) ==
              ArgumentsFor(event, Delivered(later))
  {
    RunConcat(r, before, [RegisterOn(event, key)] + later);
    OnAbsent(r, before, key);
    var (mid, early) := RunActions(r, before);
    OnceOnAppend(mid.handlers, event, key, (event, key));
    assert ([RegisterOn(event, key)] + later)[1..] == later;
    var next := Act(mid, RegisterOn(event, key)).0;
    OnPresent(next, later, event, key);
    var late := RunActions(next, later).1;
    assert RunActions(mid, [RegisterOn(event, key)] + later).1 == [] + late == late;
    InvocationsConcat(key, early, late);
  }
}
