/** The MessagePack hub protocol (protocol/msgpack.py). `msgpack.packb` and `msgpack.unpackb` are
    a parameter; what the proofs need of them is `Lawful`. */
module MsgPack {
  import opened Values
  import opened Messages
  import opened Framing
  import opened LengthPrefix
  import opened FrameReader
  import Json

  const RS: byte := 0x1E

  datatype PackCodec = PackCodec(pack: Value -> seq<byte>, unpack: seq<byte> -> Result<Value>) {
    ghost predicate Lawful() {
      forall v | Packable(v) :: unpack(pack(v)) == Ok(v) && pack(v) != []
    }
  }

  /** The values MessagePack has a format for: 64-bit integers, 32-bit lengths, no key twice under
      either spelling. */
  ghost predicate Packable(v: Value) {
    match v
    case Num(n) => -0x8000_0000_0000_0000 <= n < 0x1_0000_0000_0000_0000
    case Str(s) => 4 * |s| < 0x1_0000_0000
    case Arr(elems) => |elems| < 0x1_0000_0000 && forall e | e in elems :: Packable(e)
    case Obj(fields) =>
      |fields| < 0x1_0000_0000 && Distinct(fields) && forall f | f in fields :: PackableKey(f.0) && Packable(f.1)
    case _ => true
  }

  predicate PackableKey(k: Key) {
    Spelled(k) && (k.Name? ==> 4 * |k.name| < 0x1_0000_0000)
  }

  ghost predicate PackableMessage(m: Message) {
    forall a | a in Attributes(m) && a.1.Data? :: Packable(a.1.v)
  }

  /* ---------- positional encoding ---------- */

  const PRIORITY: seq<Key> :=
    [Type, Headers, InvocationIdAttr, Target, Arguments, Item, ResultKind, ResultKey, StreamIdsAttr]

  /** The attributes an object has among `keys`, in that order; the type by its value. */
  function InOrder(keys: seq<Key>, data: Dict<Attr>): seq<Value> {
    if keys == [] then [] else Under(keys[0], data) + InOrder(keys[1..], data)
  }

  function Under(k: Key, data: Dict<Attr>): seq<Value> {
    var a := Find(data, k);
    if a.None? then [] else [Json.LowerAttr(a.value)]
  }

  /** The loop over attribute names. */
  method Collect(keys: seq<Key>, data: Dict<Attr>) returns (result: seq<Value>)
    ensures result == InOrder(keys, data)
  {
    result := [];
    for i := 0 to |keys|
      invariant result + InOrder(keys[i..], data) == InOrder(keys, data)
    {
      assert keys[i..][1..] == keys[i + 1..];
      Regroup(result, Under(keys[i], data), InOrder(keys[i + 1..], data));
      var a := Find(data, keys[i]);
      if a.Some? {
        result := result + [Json.LowerAttr(a.value)];
      }
    }
  }

  /** `_encode_message`. */
  method EncodeMessage(data: Dict<Attr>) returns (result: seq<Value>)
    ensures result == InOrder(PRIORITY, data)
  {
    result := Collect(PRIORITY, data);
  }

  function Encoded(m: Message): seq<Value> {
    InOrder(PRIORITY, Attributes(m))
  }

  /** The arrays the encoder produces, class by class: no result kind, no error, no stream ids
      behind an invocation. */
  function Layout(m: Message): seq<Value> {
    var t := Num(Code(TypeOf(m)));
    match m
    case Invocation(h, id, target, args) => [t, h, id, target, args]
    case InvocationClientStream(h, ids, target, args) => [t, h, target, args, ids]
    case StreamItem(h, id, item) => [t, h, id, item]
    case Completion(h, id, result, _) => [t, h, id, result]
    case CompletionClientStream(h, id) => [t, h, id]
    case StreamInvocation(h, id, target, args, ids) => [t, h, id, target, args, ids]
    case CancelInvocation(h, id) => [t, h, id]
    case Ping => [t]
    case Close(_) => [t]
    case BindingFailure => [t]
  }

  /** The arrays the protocol prescribes for messages on the wire; the result kind is 1 for an
      error, 2 for no result, 3 for a result. */
  function Prescribed(m: Message): seq<Value> {
    var t := Num(Code(TypeOf(m)));
    match m
    case Invocation(h, id, target, args) => [t, h, id, target, args, EMPTY_LIST]
    case InvocationClientStream(h, ids, target, args) => [t, h, Null, target, args, ids]
    case StreamItem(h, id, item) => [t, h, id, item]
    case Completion(h, id, result, error) =>
      if error != Null then [t, h, id, Num(1), error]
      else if result == Null then [t, h, id, Num(2)]
      else [t, h, id, Num(3), result]
    case CompletionClientStream(h, id) => [t, h, id, Num(2)]
    case StreamInvocation(h, id, target, args, ids) => [t, h, id, target, args, ids]
    case CancelInvocation(h, id) => [t, h, id]
    case Ping => [t]
    case Close(error) => [t, error]
    case BindingFailure => [t]
  }

  /* ---------- positional decoding ---------- */

  /** `_decode_message` on a list; an index past its end is the source's IndexError. */
  function DecodeList(raw: seq<Value>): Result<Message> {
    if |raw| == 0 then Err(IndexError)
    else if EqualsInt(raw[0], 1) then
      if |raw| <= 5 then Err(IndexError)
      else
        var n := Length(raw[5]);
        if n.Err? then Err(n.error)
        else if n.value > 0 then Ok(InvocationClientStream(HeadersOrEmpty(raw[1]), raw[5], raw[3], raw[4]))
        else Ok(Invocation(HeadersOrEmpty(raw[1]), raw[2], raw[3], raw[4]))
    else if EqualsInt(raw[0], 2) then
      if |raw| <= 3 then Err(IndexError) else Ok(StreamItem(HeadersOrEmpty(raw[1]), raw[2], raw[3]))
    else if EqualsInt(raw[0], 3) then
      if |raw| <= 3 then Err(IndexError)
      else if EqualsInt(raw[3], 1) then
        if |raw| <= 4 then Err(IndexError) else Ok(Completion(HeadersOrEmpty(raw[1]), raw[2], Null, raw[4]))
      else if EqualsInt(raw[3], 2) then
        Ok(Completion(HeadersOrEmpty(raw[1]), raw[2], Null, Null))
      else if EqualsInt(raw[3], 3) then
        if |raw| <= 4 then Err(IndexError) else Ok(Completion(HeadersOrEmpty(raw[1]), raw[2], raw[4], Null))
      else Err(ValueError)
    else if EqualsInt(raw[0], 4) then
      if |raw| <= 4 then Err(IndexError)
      else Ok(StreamInvocation(HeadersOrEmpty(raw[1]), raw[2], raw[3], raw[4], EMPTY_LIST))
    else if EqualsInt(raw[0], 5) then
      if |raw| <= 2 then Err(IndexError) else Ok(CancelInvocation(HeadersOrEmpty(raw[1]), raw[2]))
    else if EqualsInt(raw[0], 6) then Ok(Ping)
    else if EqualsInt(raw[0], 7) then
      if |raw| <= 1 then Err(IndexError) else Ok(Close(raw[1]))
    else Err(ValueError)
  }

  /** `_decode_message`: a value that cannot be indexed by position, or whose first element is a
      character, is no message. */
  function DecodeMessage(values: Value): Result<Message> {
    match values
    case Arr(raw) => DecodeList(raw)
    case Str(s) => if s == "" then Err(IndexError) else Err(ValueError)
    case Obj(_) => Err(KeyError)
    case _ => Err(TypeError)
  }

  /** The messages that have a wire form of their own: one client stream has at least one id. */
  predicate Sendable(m: Message) {
    AsConstructed(m) && !m.BindingFailure? && !m.CompletionClientStream?
    && (m.InvocationClientStream? ==> Length(m.streamIds).Ok? && Length(m.streamIds).value > 0)
  }

  /** A completion that carries what the protocol forbids: a result and an error. */
  predicate Overloaded(m: Message) {
    m.Completion? && m.result != Null && m.error != Null
  }

  /** The decoder reads the prescribed arrays correctly, whatever elements follow; of an overloaded
      completion only the error is on the wire. */
  lemma DecodePrescribed(m: Message, extra: seq<Value>)
    requires Sendable(m)
    ensures DecodeMessage(Arr(Prescribed(m) + extra)) == Ok(m) <==> !Overloaded(m)
    ensures Overloaded(m) ==> DecodeMessage(Arr(Prescribed(m) + extra)) == Ok(m.(result := Null))
  {
  }

  /** How many elements of its array the decoder needs: all but the stream ids of a stream invocation. */
  function Needed(m: Message): nat {
    |Prescribed(m)| - if m.StreamInvocation? then 1 else 0
  }

  /** An array that ends too early raises an IndexError, a first element that is no type a ValueError, and
      null headers are read as empty ones. */
  lemma DecodeOthers(m: Message, n: nat, raw: seq<Value>)
    requires Sendable(m)
    ensures n < Needed(m) ==> DecodeMessage(Arr(Prescribed(m)[..n])) == Err(IndexError)
    ensures raw != [] && raw[0] != Bool(true) && (forall k :: 1 <= k <= 7 ==> raw[0] != Num(k)) ==>
              DecodeMessage(Arr(raw)) == Err(ValueError)
    ensures !m.Ping? && !m.Close? && m.headers == Obj([]) && !Overloaded(m) ==>
              DecodeMessage(Arr(Prescribed(m)[1 := Null])) == Ok(m)
  {
    if n < Needed(m) {
      TooShort(m, n);
    }
    if !m.Ping? && !m.Close? && m.headers == Obj([]) && !Overloaded(m) {
      NullHeaders(m);
    }
  }

  /** What is no array is no message: a value without positions raises a TypeError, a map a KeyError, and
      a string an IndexError or a ValueError. */
  lemma DecodeNoArray(v: Value)
    requires !v.Arr?
    ensures DecodeMessage(v) ==
              Err(if v == Str("") then IndexError else if v.Str? then ValueError
                  else if v.Obj? then KeyError else TypeError)
  {
  }

  lemma TooShort(m: Message, n: nat)
    requires Sendable(m) && n < Needed(m)
    ensures DecodeMessage(Arr(Prescribed(m)[..n])) == Err(IndexError)
  {
  }

  lemma NullHeaders(m: Message)
    requires Sendable(m) && !m.Ping? && !m.Close? && m.headers == Obj([]) && !Overloaded(m)
    ensures DecodeMessage(Arr(Prescribed(m)[1 := Null])) == Ok(m)
  {
  }

  /** How many of the first `i` names each class has; its attributes come in the order of the names. */
  function Count(m: Message, i: nat): nat {
    match m
    case Invocation(_, _, _, _) => if i <= 5 then i else 5
    case InvocationClientStream(_, _, _, _) => if i <= 2 then i else if i <= 5 then i - 1 else if i <= 8 then 4 else 5
    case StreamItem(_, _, _) => if i <= 3 then i else if i <= 5 then 3 else 4
    case Completion(_, _, _, _) => if i <= 3 then i else if i <= 7 then 3 else 4
    case StreamInvocation(_, _, _, _, _) => if i <= 5 then i else if i <= 8 then 5 else 6
    case CancelInvocation(_, _) => if i <= 3 then i else 3
    case CompletionClientStream(_, _) => if i <= 3 then i else 3
    case _ => if i == 0 then 0 else 1
  }

  lemma CountSteps(m: Message, i: nat)
    requires i < |PRIORITY|
    ensures Count(m, i) <= Count(m, i + 1) <= |Layout(m)| && Count(m, i + 1) <= Count(m, i) + 1
    ensures Count(m, 0) == 0 && Count(m, |PRIORITY|) == |Layout(m)|
  {
  }

  /** The name at `i` is that of the next attribute of the layout. */
  lemma NextPiece(m: Message, i: nat)
    requires i < |PRIORITY| && Count(m, i) < Count(m, i + 1)
    ensures Under(PRIORITY[i], Attributes(m)) == [Layout(m)[Count(m, i)]]
  {
    Json.AttributesDistinct(m);
    FindAt(Attributes(m), Count(m, i));
  }

  lemma NoPiece(m: Message, i: nat)
    requires i < |PRIORITY| && Count(m, i) == Count(m, i + 1)
    ensures Under(PRIORITY[i], Attributes(m)) == []
  {
    FindAbsent(Attributes(m), PRIORITY[i]);
  }

  lemma PieceAt(m: Message, i: nat)
    requires i < |PRIORITY|
    ensures Count(m, i) <= Count(m, i + 1) <= |Layout(m)|
    ensures Under(PRIORITY[i], Attributes(m)) == Layout(m)[Count(m, i)..Count(m, i + 1)]
  {
    CountSteps(m, i);
    if Count(m, i) < Count(m, i + 1) {
      NextPiece(m, i);
    } else {
      NoPiece(m, i);
    }
  }

  /** The name at `i` contributes the piece of `layout` between two counts. */
  predicate Piece(keys: seq<Key>, data: Dict<Attr>, layout: seq<Value>, counts: seq<nat>, i: nat)
    requires i < |keys| && |counts| == |keys| + 1
  {
    counts[i] <= counts[i + 1] <= |layout| && Under(keys[i], data) == layout[counts[i]..counts[i + 1]]
  }

  /** If each name contributes the piece of `layout` between its two counts, all of them give it whole. */
  lemma {:induction false} InOrderPieces(keys: seq<Key>, data: Dict<Attr>, layout: seq<Value>, counts: seq<nat>)
    requires |counts| == |keys| + 1 && counts[|keys|] == |layout|
    requires forall i: nat :: i < |keys| ==> Piece(keys, data, layout, counts, i)
    ensures counts[0] <= |layout| && InOrder(keys, data) == layout[counts[0]..]
  {
    if keys != [] {
      assert Piece(keys, data, layout, counts, 0);
      forall i: nat | i < |keys| - 1 ensures Piece(keys[1..], data, layout, counts[1..], i) {
        assert Piece(keys, data, layout, counts, i + 1);
      }
      InOrderPieces(keys[1..], data, layout, counts[1..]);
      assert layout[counts[0]..counts[1]] + layout[counts[1]..] == layout[counts[0]..];
    }
  }

  lemma EncodedLayout(m: Message)
    ensures Encoded(m) == Layout(m)
  {
    CountSteps(m, 0);
    var counts: seq<nat> := seq(|PRIORITY| + 1, i requires 0 <= i => Count(m, i));
    forall i: nat | i < |PRIORITY| ensures Piece(PRIORITY, Attributes(m), Layout(m), counts, i) {
      PieceAt(m, i);
    }
    InOrderPieces(PRIORITY, Attributes(m), Layout(m), counts);
  }

  /** The messages whose encoding is what the protocol prescribes. */
  predicate Faithful(m: Message) {
    m.StreamItem? || m.StreamInvocation? || m.CancelInvocation? || m.Ping?
  }

  lemma DecodeLayout(m: Message)
    requires AsConstructed(m)
    ensures DecodeMessage(Arr(Layout(m))) == Ok(m) <==> Faithful(m)
    ensures m.Invocation? || m.InvocationClientStream? || m.Close? || m.CompletionClientStream? ==>
              DecodeMessage(Arr(Layout(m))) == Err(IndexError)
  {
  }

  lemma LayoutPrescribed(m: Message)
    requires Sendable(m)
    ensures Layout(m) == Prescribed(m) <==> Faithful(m)
  {
    assert |Layout(m)| == |Prescribed(m)| ==> Faithful(m) || (m.Completion? && Prescribed(m)[3] != m.result);
  }

  /** Encoding and decoding agree on exactly four classes: the encoder gives every other message an
      array that is not the prescribed one, and the decoder does not recover the message. */
  lemma ValueRoundTrip(m: Message)
    requires AsConstructed(m)
    ensures DecodeMessage(Arr(Encoded(m))) == Ok(m) <==> Faithful(m)
    ensures Sendable(m) ==> (Encoded(m) == Prescribed(m) <==> Faithful(m))
    ensures m.Invocation? || m.InvocationClientStream? || m.Close? || m.CompletionClientStream? ==>
              DecodeMessage(Arr(Encoded(m))) == Err(IndexError)
  {
    EncodedLayout(m);
    DecodeLayout(m);
    if Sendable(m) {
      LayoutPrescribed(m);
    }
  }

  /** A completion survives only by accident: its result lands where the decoder expects the
      result kind, so it decodes at all exactly when the result is 2, and the result is lost. */
  lemma CompletionRoundTrip(m: Message)
    requires AsConstructed(m) && m.Completion?
    ensures DecodeMessage(Arr(Encoded(m))).Ok? <==> m.result == Num(2)
    ensures m.result == Num(2) ==>
              DecodeMessage(Arr(Encoded(m))) == Ok(Completion(m.headers, m.invocationId, Null, Null))
  {
    EncodedLayout(m);
  }

  /* ---------- frames ---------- */

  /** The one-byte reader recovers a body length from its prefix exactly below 128. */
  lemma ReaderBoundary(n: nat)
    ensures UnpackByte(Varint(n)[0]) == Ok(n) <==> n < 128
    ensures n >= 128 ==> UnpackByte(Varint(n)[0]).Err? || UnpackByte(Varint(n)[0]).value < 2
  {
  }

  /** The outcome of a frame's body. `msgpack.unpackb` raises on no bytes at all; the reader sees to
      that. */
  function BodyMessage(codec: PackCodec, body: seq<byte>): Result<Message> {
    var values := codec.unpack(body);
    if values.Err? then Err(values.error) else DecodeMessage(values.value)
  }

  function Reader(codec: PackCodec): seq<byte> -> Result<Message> {
    body => BodyMessage(codec, body)
  }

  function ParseBytes(codec: PackCodec, raw: seq<byte>): Result<seq<Message>> {
    Parse(Reader(codec), raw)
  }

  /** `parse_messages`: the loop ends on every input, although the offset need not grow. */
  method ParseMessages(codec: PackCodec, raw: seq<byte>) returns (r: Result<seq<Message>>)
    ensures r == ParseBytes(codec, raw)
  {
    var messages: seq<Message> := [];
    var offset: int := 0;
    ghost var turn := TurnOf(Reader(codec), raw);
    ThenUnit(ParseBytes(codec, raw));
    while offset < |raw|
      invariant ParseBytes(codec, raw) == Then(Ok(messages), Loop(turn, |raw|, offset))
      decreases |raw| - Place(|raw|, offset)
    {
      LoopTurn(turn, |raw|, offset);
      var frame := NextFrame(codec, raw, offset);
      if frame.Err? {
        return Err(frame.error);
      }
      var (message, next) := frame.value;
      ThenAssociative(Ok(messages), Ok([message]), Loop(turn, |raw|, next));
      messages := messages + [message];
      offset := next;
    }
    assert messages + [] == messages;
    r := Ok(messages);
  }

  /** One turn of the loop: the length, the body between it and the next frame, the message. */
  method NextFrame(codec: PackCodec, raw: seq<byte>, offset: int) returns (r: Result<(Message, int)>)
    ensures r == TurnOf(Reader(codec), raw)(offset)
  {
    var length := UnpackHeader(Slice(raw, offset, offset + 1));
    if length.Err? {
      return Err(length.error);
    }
    var next := offset + length.value + 1;
    var message := ReadBody(codec, Slice(raw, offset + 1, next));
    if message.Err? {
      return Err(message.error);
    }
    r := Ok((message.value, next));
  }

  /** Unpacking and decoding one body. */
  method ReadBody(codec: PackCodec, body: seq<byte>) returns (message: Result<Message>)
    ensures message == Body(Reader(codec), body)
  {
    if body == [] {
      return Err(ValueError);
    }
    var values := codec.unpack(body);
    if values.Err? {
      return Err(values.error);
    }
    message := DecodeMessage(values.value);
  }

  /** `encode` for hub messages: a varint length, then the packed array. */
  function BytesOf(codec: PackCodec, m: Message): seq<byte> {
    var body := codec.pack(Arr(Encoded(m)));
    Varint(|body|) + body
  }

  method Encode(codec: PackCodec, m: Message) returns (frame: seq<byte>)
    ensures frame == BytesOf(codec, m)
  {
    var values := EncodeMessage(Attributes(m));
    var body := codec.pack(Arr(values));
    var prefix := ToVarint(|body|);
    frame := prefix + body;
  }

  /** Parsing is a homomorphism over every cut between two frames, as long as the second part does not
      turn the reader back. If it does, the first part's length matters: behind 31 bytes the parse
      fails, so then the homomorphism holds exactly when one of the parts fails in the same way. */
  lemma ParseBytesConcat(codec: PackCodec, a: seq<byte>, b: seq<byte>)
    requires WholeFrames(a)
    ensures !TurnsBack(Reader(codec), b) ==>
              ParseBytes(codec, a + b) == Then(ParseBytes(codec, a), ParseBytes(codec, b))
    ensures TurnsBack(Reader(codec), b) && |a| >= 31 ==>
              ParseBytes(codec, a + b) == Then(ParseBytes(codec, a), Err(ValueError))
  {
    ParseBehind(Reader(codec), a, b);
  }

  /** It does not hold for every cut: these six bytes are two pings to the reader, behind a ping they are
      a failure. */
  lemma TurningBack(codec: PackCodec)
    requires codec.unpack(PING_BODY) == Ok(Arr([Num(6)]))
    ensures WholeFrames(PING_FRAME) && ParseBytes(codec, PING_FRAME) == Ok([Ping])
    ensures ParseBytes(codec, BACKWARDS) == Ok([Ping, Ping])
    ensures ParseBytes(codec, PING_FRAME + BACKWARDS) == Err(ValueError)
  {
    assert Reader(codec)(PING_BODY) == Ok(Ping);
    ShortFront(Reader(codec), Ping);
  }

  /** The encoding is made of attribute values, in order. */
  lemma LayoutAttribute(m: Message, i: nat)
    requires i < |Layout(m)|
    ensures i < |Attributes(m)| && Layout(m)[i] == Json.LowerAttr(Attributes(m)[i].1)
  {
  }

  lemma ElementPackable(m: Message, i: nat)
    requires PackableMessage(m) && i < |Layout(m)|
    ensures Packable(Layout(m)[i])
  {
    LayoutAttribute(m, i);
    var a := Attributes(m)[i];
    assert a in Attributes(m);
  }

  lemma ListPackable(elems: seq<Value>)
    requires |elems| < 0x1_0000_0000 && forall i :: 0 <= i < |elems| ==> Packable(elems[i])
    ensures Packable(Arr(elems))
  {
  }

  lemma EncodedPackable(m: Message)
    requires PackableMessage(m)
    ensures Packable(Arr(Encoded(m)))
  {
    EncodedLayout(m);
    var elems := Layout(m);
    forall i: nat | i < |elems| ensures Packable(elems[i]) {
      ElementPackable(m, i);
    }
    ListPackable(elems);
  }

  lemma ShortFrame(codec: PackCodec, m: Message)
    requires codec.Lawful() && PackableMessage(m) && |codec.pack(Arr(Encoded(m)))| < 128
    ensures ParseBytes(codec, BytesOf(codec, m)) ==
              var d := DecodeMessage(Arr(Encoded(m))); if d.Err? then Err(d.error) else Ok([d.value])
  {
    var body := codec.pack(Arr(Encoded(m)));
    EncodedPackable(m);
    ParseOne(Reader(codec), body);
    assert Body(Reader(codec), body) == DecodeMessage(Arr(Encoded(m)));
  }

  /** A message survives encoding and parsing exactly when its class is one of the four and its
      packed body is shorter than 128 bytes. */
  lemma FrameRoundTrip(codec: PackCodec, m: Message)
    requires codec.Lawful() && AsConstructed(m) && PackableMessage(m)
    ensures ParseBytes(codec, BytesOf(codec, m)) == Ok([m]) <==>
              Faithful(m) && |codec.pack(Arr(Encoded(m)))| < 128
  {
    ValueRoundTrip(m);
    var n := |codec.pack(Arr(Encoded(m)))|;
    if n < 128 {
      ShortFrame(codec, m);
    } else {
      ReaderBoundary(n);
      LongFrameLost(Reader(codec), BytesOf(codec, m), m);
    }
  }

  function EncodeAll(codec: PackCodec, ms: seq<Message>): seq<byte> {
    if ms == [] then [] else BytesOf(codec, ms[0]) + EncodeAll(codec, ms[1..])
  }

  /** The messages the reader gets back. */
  ghost predicate Survives(codec: PackCodec, m: Message) {
    AsConstructed(m) && PackableMessage(m) && Faithful(m) && |codec.pack(Arr(Encoded(m)))| < 128
  }

  /** The bytes of surviving messages are whole frames. */
  lemma {:induction false} WholeStream(codec: PackCodec, ms: seq<Message>)
    requires AllSurvive(codec, ms)
    ensures WholeFrames(EncodeAll(codec, ms))
  {
    if ms != [] {
      AllSurviveRest(codec, ms);
      WholeStream(codec, ms[1..]);
      OneWholeFrame(codec.pack(Arr(Encoded(ms[0]))));
      WholeAppend(BytesOf(codec, ms[0]), EncodeAll(codec, ms[1..]));
    }
  }

  lemma EncodeOneMore(codec: PackCodec, m: Message, rest: seq<byte>, ms: seq<Message>)
    requires codec.Lawful() && Survives(codec, m) && WholeFrames(rest) && ParseBytes(codec, rest) == Ok(ms)
    ensures ParseBytes(codec, BytesOf(codec, m) + rest) == Ok([m] + ms)
  {
    FrameRoundTrip(codec, m);
    OneWholeFrame(codec.pack(Arr(Encoded(m))));
    WholeForward(Reader(codec), rest);
    ParseBytesConcat(codec, BytesOf(codec, m), rest);
  }

  ghost predicate AllSurvive(codec: PackCodec, ms: seq<Message>) {
    forall i :: 0 <= i < |ms| ==> Survives(codec, ms[i])
  }

  lemma AllSurviveRest(codec: PackCodec, ms: seq<Message>)
    requires ms != [] && AllSurvive(codec, ms)
    ensures Survives(codec, ms[0]) && AllSurvive(codec, ms[1..]) && [ms[0]] + ms[1..] == ms
  {
  }

  /** A stream of such messages is read back message by message. */
  lemma {:induction false} StreamRoundTrip(codec: PackCodec, ms: seq<Message>)
    requires codec.Lawful() && AllSurvive(codec, ms)
    ensures ParseBytes(codec, EncodeAll(codec, ms)) == Ok(ms)
  {
    if ms != [] {
      AllSurviveRest(codec, ms);
      StreamRoundTrip(codec, ms[1..]);
      WholeStream(codec, ms[1..]);
      EncodeOneMore(codec, ms[0], EncodeAll(codec, ms[1..]), ms[1..]);
    }
  }

  /* ---------- handshake ---------- */

  /** A received frame: bytes, or text when the server answers in a text frame. */
  datatype Raw = Bytes(bytes: seq<byte>) | Text(text: string)

  /** `json.loads` on bytes and on text, and the `error` entry of the result. */
  datatype HandshakeCodec = HandshakeCodec(ofBytes: seq<byte> -> Result<Value>, ofText: string -> Result<Value>)

  /** `decode_handshake`. On text the byte search itself fails, and the fallback reads up to the
      first closing brace and drops the rest. */
  function DecodeHandshake(codec: PackCodec, json: HandshakeCodec, raw: Raw): Result<(Value, seq<Message>)> {
    match raw
    case Bytes(bs) =>
      var cut := RS in bs;
      var messages := if cut then ParseBytes(codec, bs[IndexOf(bs, RS) + 1..]) else Ok([]);
      if messages.Err? then Err(messages.error)
      else
        var error := Json.ErrorEntry(json.ofBytes(if cut then bs[..IndexOf(bs, RS)] else bs));
        if error.Err? then Err(error.error) else Ok((error.value, messages.value))
    case Text(t) =>
      if '}' !in t then Err(ValueError)
      else
        var error := Json.ErrorEntry(json.ofText(t[..IndexOf(t, '}') + 1]));
        if error.Err? then Err(error.error) else Ok((error.value, []))
  }

  /** The frame is cut at the first separator: whatever follows is parsed as messages, and a failure
      among them wins over a failure of the handshake. Without a separator the frame is all handshake. */
  lemma HandshakeSplit(codec: PackCodec, json: HandshakeCodec, h: seq<byte>, rest: Option<seq<byte>>)
    requires RS !in h
    ensures var error := Json.ErrorEntry(json.ofBytes(h));
            var messages := if rest.Some? then ParseBytes(codec, rest.value) else Ok([]);
            DecodeHandshake(codec, json, Bytes(if rest.Some? then h + [RS] + rest.value else h)) ==
              if messages.Err? then Err(messages.error) else Json.Pair(error, messages)
  {
    if rest.Some? {
      var s := h + [RS] + rest.value;
      assert s[..|h|] == h;
      FirstIndex(s, |h|, RS);
      assert s[|h| + 1..] == rest.value;
    }
  }

  /** In a text frame the answer reaches up to the first closing brace, and everything behind it, hub
      messages included, is lost; without a brace the frame raises. */
  lemma HandshakeText(codec: PackCodec, json: HandshakeCodec, h: string, rest: string)
    requires '}' !in h
    ensures DecodeHandshake(codec, json, Text(h + "}" + rest)) == Json.Pair(Json.ErrorEntry(json.ofText(h + "}")), Ok([]))
    ensures DecodeHandshake(codec, json, Text(h)) == Err(ValueError)
  {
    var t := h + "}" + rest;
    assert t[|h|] == '}' && t[..|h|] == h;
    FirstIndex(t, |h|, '}');
    assert t[..|h| + 1] == h + "}";
  }
}
