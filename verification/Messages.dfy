/** The hub messages (messages/__init__.py): one constructor per message class, and the
    attribute dictionary each class's `__init__` fills in, in assignment order. */
module Messages {
  import opened Values

  datatype MessageType =
    | INVOCATION | STREAM_ITEM | COMPLETION | STREAM_INVOCATION | CANCEL_INVOCATION | PING | CLOSE
    | INVOCATION_BINDING_FAILURE

  function Code(t: MessageType): int {
    match t
    case INVOCATION => 1
    case STREAM_ITEM => 2
    case COMPLETION => 3
    case STREAM_INVOCATION => 4
    case CANCEL_INVOCATION => 5
    case PING => 6
    case CLOSE => 7
    case INVOCATION_BINDING_FAILURE => -1
  }

  /** `MessageType(v)`: look an enumeration member up by its value. */
  function TypeOfValue(v: Value): (r: Result<MessageType>)
    ensures forall t :: r == Ok(t) <==> EqualsInt(v, Code(t))
    ensures r.Err? ==> r.error == ValueError
  {
    if EqualsInt(v, 1) then Ok(INVOCATION)
    else if EqualsInt(v, 2) then Ok(STREAM_ITEM)
    else if EqualsInt(v, 3) then Ok(COMPLETION)
    else if EqualsInt(v, 4) then Ok(STREAM_INVOCATION)
    else if EqualsInt(v, 5) then Ok(CANCEL_INVOCATION)
    else if EqualsInt(v, 6) then Ok(PING)
    else if EqualsInt(v, 7) then Ok(CLOSE)
    else if EqualsInt(v, -1) then Ok(INVOCATION_BINDING_FAILURE)
    else Err(ValueError)
  }

  datatype Message =
    | Invocation(headers: Value, invocationId: Value, target: Value, arguments: Value)
    | InvocationClientStream(headers: Value, streamIds: Value, target: Value, arguments: Value)
    | StreamItem(headers: Value, invocationId: Value, item: Value)
    | Completion(headers: Value, invocationId: Value, result: Value, error: Value)
    | CompletionClientStream(headers: Value, invocationId: Value)
    | StreamInvocation(headers: Value, invocationId: Value, target: Value, arguments: Value, streamIds: Value)
    | CancelInvocation(headers: Value, invocationId: Value)
    | Ping
    | Close(error: Value)
    | BindingFailure

  const EMPTY_OBJECT := Obj([])
  const EMPTY_LIST := Arr([])

  /** `headers if headers is not None else {}`. */
  function HeadersOrEmpty(h: Value): Value {
    if h == Null then EMPTY_OBJECT else h
  }

  /** What every message looks like when its constructor returns. */
  predicate AsConstructed(m: Message) {
    && (m.Ping? || m.Close? || m.BindingFailure? || m.headers != Null)
    && (m.StreamInvocation? ==> m.streamIds == EMPTY_LIST)
  }

  function TypeOf(m: Message): MessageType {
    match m
    case Invocation(_, _, _, _) => INVOCATION
    case InvocationClientStream(_, _, _, _) => INVOCATION
    case StreamItem(_, _, _) => STREAM_ITEM
    case Completion(_, _, _, _) => COMPLETION
    case CompletionClientStream(_, _) => COMPLETION
    case StreamInvocation(_, _, _, _, _) => STREAM_INVOCATION
    case CancelInvocation(_, _) => CANCEL_INVOCATION
    case Ping => PING
    case Close(_) => CLOSE
    case BindingFailure => INVOCATION_BINDING_FAILURE
  }

  /** An attribute holds either the message type (an enumeration member) or plain data. */
  datatype Attr = Tag(t: MessageType) | Data(v: Value)

  /** The object's `__dict__` after construction. */
  function Attributes(m: Message): Dict<Attr> {
    var tag := (Type, Tag(TypeOf(m)));
    match m
    case Invocation(h, id, target, args) =>
      [tag, (Headers, Data(h)), (InvocationIdAttr, Data(id)), (Target, Data(target)), (Arguments, Data(args))]
    case InvocationClientStream(h, ids, target, args) =>
      [tag, (Headers, Data(h)), (Target, Data(target)), (Arguments, Data(args)), (StreamIdsAttr, Data(ids))]
    case StreamItem(h, id, item) =>
      [tag, (Headers, Data(h)), (InvocationIdAttr, Data(id)), (Item, Data(item))]
    case Completion(h, id, result, error) =>
      [tag, (Headers, Data(h)), (InvocationIdAttr, Data(id)), (ResultKey, Data(result)), (ErrorKey, Data(error))]
    case CompletionClientStream(h, id) =>
      [tag, (Headers, Data(h)), (InvocationIdAttr, Data(id))]
    case StreamInvocation(h, id, target, args, ids) =>
      [tag, (Headers, Data(h)), (InvocationIdAttr, Data(id)), (Target, Data(target)), (Arguments, Data(args)),
       (StreamIdsAttr, Data(ids))]
    case CancelInvocation(h, id) =>
      [tag, (Headers, Data(h)), (InvocationIdAttr, Data(id))]
    case Ping => [tag]
    case Close(error) => [tag, (ErrorKey, Data(error))]
    case BindingFailure => [tag]
  }

  /** Every plain attribute value can be represented by the codecs. */
  ghost predicate RepresentableMessage(m: Message) {
    forall a | a in Attributes(m) && a.1.Data? :: Representable(a.1.v)
  }

  /* ---------- what the dispatcher gets to in a batch ---------- */

  /** A completion whose error is neither missing nor has a length: the dispatcher raises a TypeError
      before it does anything with it. */
  predicate Raises(m: Message) {
    m.Completion? && m.error != Null && Length(m.error).Err?
  }

  predicate EndsBatch(m: Message) {
    m.Close? || Raises(m)
  }

  /** A batch is cut behind the first message that ends it. */
  function Reached(ms: seq<Message>): seq<Message> {
    if ms == [] then [] else if EndsBatch(ms[0]) then [ms[0]] else [ms[0]] + Reached(ms[1..])
  }

  /** The message that ends the batch, if one does. */
  function Ender(ms: seq<Message>): Option<Message> {
    if ms == [] then None else if EndsBatch(ms[0]) then Some(ms[0]) else Ender(ms[1..])
  }

  predicate ReachesClose(ms: seq<Message>) {
    Ender(ms).Some? && Ender(ms).value.Close?
  }

  predicate ReachesRaise(ms: seq<Message>) {
    Ender(ms).Some? && Raises(Ender(ms).value)
  }

  lemma {:induction false} ReachedConcat(a: seq<Message>, b: seq<Message>)
    ensures Reached(a + b) == if Ender(a).Some? then Reached(a) else a + Reached(b)
    ensures Ender(a + b) == if Ender(a).Some? then Ender(a) else Ender(b)
  {
    if a == [] {
      assert a + b == b;
    } else {
      assert (a + b)[1..] == a[1..] + b;
      if !EndsBatch(a[0]) {
        ReachedConcat(a[1..], b);
      }
    }
  }

  /** A Close, or a completion whose error is a number or a boolean. */
  predicate LastOfBatch(m: Message) {
    match m
    case Close(_) => true
    case Completion(_, _, _, error) => error.Num? || error.Bool?
    case _ => false
  }

  /** What the dispatcher gets to is the batch, or its part up to and including its first such message. */
  lemma {:induction false} ReachedIs(ms: seq<Message>)
    ensures Reached(ms) <= ms
    ensures forall i :: 0 <= i < |Reached(ms)| - 1 ==> !LastOfBatch(ms[i])
    ensures Reached(ms) != ms ==> Reached(ms) != [] && LastOfBatch(ms[|Reached(ms)| - 1])
    ensures ReachesClose(ms) <==> Reached(ms) != [] && ms[|Reached(ms)| - 1].Close?
  {
    if ms != [] && !EndsBatch(ms[0]) {
      var rest := ms[1..];
      ReachedIs(rest);
      assert ms == [ms[0]] + rest;
      assert forall i :: 0 < i < |ms| ==> ms[i] == rest[i - 1];
    }
  }
}
