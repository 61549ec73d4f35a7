/** From raw chunks to dispatched messages: when what the transport hands on does not depend on how the
    stream is cut. Proved once for any hub protocol, then for JSON and for MessagePack. */
module Wire {
  import opened Values
  import opened Messages
  import opened Transport
  import Dispatch
  import FrameReader
  import Framing
  import LengthPrefix
  import Json
  import MsgPack

  /** The batches handed to the dispatcher while these chunks arrive one after the other. A chunk that
      cannot be decoded raises out of its own `on_message` call: it hands on nothing and leaves the
      transport as it is, and the next chunk is read all the same. */
  function HandedOn<T>(c: Config, p: Protocol<T>, v: View, chunks: seq<seq<T>>): seq<seq<Message>>
    decreases |chunks|
  {
    if chunks == [] then []
    else
      var step := OnRaw(c, p, v, chunks[0]);
      if step.Err? then HandedOn(c, p, v, chunks[1..])
      else [step.value.1] + HandedOn(c, p, step.value.0, chunks[1..])
  }

  function Flatten<T>(chunks: seq<seq<T>>): seq<T> {
    if chunks == [] then [] else chunks[0] + Flatten(chunks[1..])
  }

  /** All messages handed to the dispatcher. */
  function Dispatched<T>(c: Config, p: Protocol<T>, v: View, chunks: seq<seq<T>>): seq<Message> {
    Flatten(HandedOn(c, p, v, chunks))
  }

  lemma FlattenOne<T>(a: seq<T>)
    ensures Flatten([a]) == a
  {
    assert [a][1..] == [];
    assert a + [] == a;
  }

  lemma FlattenFirst<T>(a: seq<T>, rest: seq<seq<T>>)
    ensures Flatten([a] + rest) == a + Flatten(rest) && ([a] + rest)[1..] == rest
  {
  }

  /* ---------- how a stream may be cut ---------- */

  /** Parsing respects a cut behind `cut`, in front of `tail`. */
  ghost predicate Respects<T(!new)>(p: Protocol<T>, cut: seq<T> -> bool, tail: seq<T> -> bool) {
    forall a, b | cut(a) && tail(b) :: p.parse(a + b) == Then(p.parse(a), p.parse(b)) && tail(a + b)
  }

  /** Every chunk but the last ends at a record boundary and makes the dispatcher meet no Close. */
  ghost predicate WellCut<T>(p: Protocol<T>, cut: seq<T> -> bool, tail: seq<T> -> bool, chunks: seq<seq<T>>) {
    && (forall i :: 0 <= i < |chunks| - 1 ==> cut(chunks[i]))
    && (chunks != [] ==> tail(chunks[|chunks| - 1]))
    && forall i :: 0 <= i < |chunks| - 1 && p.parse(chunks[i]).Ok? ==> !ReachesClose(p.parse(chunks[i]).value)
  }

  lemma WellCutRest<T>(p: Protocol<T>, cut: seq<T> -> bool, tail: seq<T> -> bool, chunks: seq<seq<T>>)
    requires chunks != [] && WellCut(p, cut, tail, chunks)
    ensures WellCut(p, cut, tail, chunks[1..])
  {
    var rest := chunks[1..];
    assert forall i :: 0 <= i < |rest| ==> rest[i] == chunks[i + 1];
  }

  /** Every chunk can be decoded. */
  predicate Decodes<T>(p: Protocol<T>, chunks: seq<seq<T>>) {
    forall i :: 0 <= i < |chunks| ==> p.parse(chunks[i]).Ok?
  }

  /** No chunk that can be decoded holds a message. */
  predicate NoMessages<T>(p: Protocol<T>, chunks: seq<seq<T>>) {
    forall i :: 0 <= i < |chunks| && p.parse(chunks[i]).Ok? ==> p.parse(chunks[i]).value == []
  }

  function Decoded<T>(p: Protocol<T>, chunk: seq<T>): seq<Message> {
    if p.parse(chunk).Ok? then p.parse(chunk).value else []
  }

  function AllDecoded<T>(p: Protocol<T>, chunks: seq<seq<T>>): seq<Message> {
    if chunks == [] then [] else Decoded(p, chunks[0]) + AllDecoded(p, chunks[1..])
  }

  lemma {:induction false} AllDecodedEmpty<T>(p: Protocol<T>, chunks: seq<seq<T>>)
    ensures AllDecoded(p, chunks) == [] <==> NoMessages(p, chunks)
  {
    if chunks != [] {
      AllDecodedEmpty(p, chunks[1..]);
      assert forall i :: 0 < i < |chunks| ==> chunks[i] == chunks[1..][i - 1];
    }
  }

  lemma DecodesFirst<T>(p: Protocol<T>, chunks: seq<seq<T>>)
    requires chunks != []
    ensures Decodes(p, chunks) <==> p.parse(chunks[0]).Ok? && Decodes(p, chunks[1..])
  {
    assert forall i :: 0 < i < |chunks| ==> chunks[i] == chunks[1..][i - 1];
  }

  /** One parse of the whole stream. */
  lemma {:induction false} ParseWhole<T(!new)>(p: Protocol<T>, cut: seq<T> -> bool, tail: seq<T> -> bool,
                                               chunks: seq<seq<T>>)
    requires Respects(p, cut, tail) && WellCut(p, cut, tail, chunks) && chunks != []
    ensures tail(Flatten(chunks)) && (p.parse(Flatten(chunks)).Ok? <==> Decodes(p, chunks))
    ensures Decodes(p, chunks) ==> p.parse(Flatten(chunks)) == Ok(AllDecoded(p, chunks))
    decreases |chunks|
  {
    var first, rest := chunks[0], chunks[1..];
    DecodesFirst(p, chunks);
    if rest == [] {
      assert first + [] == first;
      assert Decoded(p, first) + [] == Decoded(p, first);
    } else {
      WellCutRest(p, cut, tail, chunks);
      ParseWhole(p, cut, tail, rest);
      assert p.parse(first + Flatten(rest)) == Then(p.parse(first), p.parse(Flatten(rest)));
    }
  }

  /* ---------- behind the handshake ---------- */

  /** With the handshake received, each chunk that can be decoded hands on its own messages. */
  lemma {:induction false} HandedOnEach<T>(c: Config, p: Protocol<T>, cut: seq<T> -> bool, tail: seq<T> -> bool, v: View,
                                           chunks: seq<seq<T>>)
    requires WellCut(p, cut, tail, chunks) && v.handshake
    ensures Dispatched(c, p, v, chunks) == AllDecoded(p, chunks)
    decreases |chunks|
  {
    if chunks != [] {
      WellCutRest(p, cut, tail, chunks);
      var ms := p.parse(chunks[0]);
      if ms.Ok? {
        var w := OnRaw(c, p, v, chunks[0]).value.0;
        FlattenFirst(ms.value, HandedOn(c, p, w, chunks[1..]));
        if chunks[1..] != [] {
          assert w == v;
          HandedOnEach(c, p, cut, tail, v, chunks[1..]);
        } else {
          assert HandedOn(c, p, w, []) == [] && AllDecoded(p, []) == [];
        }
      } else {
        HandedOnEach(c, p, cut, tail, v, chunks[1..]);
      }
    }
  }

  lemma HandedOnWhole<T>(c: Config, p: Protocol<T>, v: View, raw: seq<T>)
    requires v.handshake
    ensures Dispatched(c, p, v, [raw]) == Decoded(p, raw)
  {
    assert [raw][1..] == [];
    var step := OnRaw(c, p, v, raw);
    if step.Ok? {
      assert HandedOn(c, p, step.value.0, []) == [];
      assert [step.value.1] + [] == [step.value.1];
      FlattenOne(step.value.1);
    } else {
      assert HandedOn(c, p, v, []) == [];
    }
  }

  /** However a stream is cut between records, the dispatcher gets the same messages as from one chunk
      exactly when every chunk can be decoded, or those that can hold no message. */
  lemma CuttingIndependence<T(!new)>(c: Config, p: Protocol<T>, cut: seq<T> -> bool, tail: seq<T> -> bool, v: View,
                                     chunks: seq<seq<T>>)
    requires Respects(p, cut, tail) && WellCut(p, cut, tail, chunks) && chunks != [] && v.handshake
    ensures Dispatched(c, p, v, chunks) == Dispatched(c, p, v, [Flatten(chunks)]) <==>
              Decodes(p, chunks) || NoMessages(p, chunks)
    ensures Decodes(p, chunks) ==> p.parse(Flatten(chunks)) == Ok(Dispatched(c, p, v, chunks))
  {
    ParseWhole(p, cut, tail, chunks);
    HandedOnEach(c, p, cut, tail, v, chunks);
    HandedOnWhole(c, p, v, Flatten(chunks));
    AllDecodedEmpty(p, chunks);
  }

  /* ---------- from the handshake on ---------- */

  /** `opening` is a handshake answer: it is split off whatever follows it. */
  ghost predicate Opens<T(!new)>(p: Protocol<T>, opening: seq<T>, error: Value) {
    forall rest :: p.handshake(opening + rest) ==
                     if p.parse(rest).Err? then Err(p.parse(rest).error) else Ok((error, p.parse(rest).value))
  }

  /** The first chunk holds the handshake answer and some messages. */
  lemma OpeningChunk<T(!new)>(c: Config, p: Protocol<T>, v: View, opening: seq<T>, error: Value, first: seq<T>,
                              later: seq<seq<T>>)
    requires Opens(p, opening, error) && NoError(error) && !v.handshake
    ensures p.parse(first).Err? ==> Dispatched(c, p, v, [opening + first] + later) == Dispatched(c, p, v, later)
    ensures p.parse(first).Ok? && (later == [] || !ReachesClose(p.parse(first).value)) ==>
              Dispatched(c, p, v, [opening + first] + later) ==
                p.parse(first).value + Dispatched(c, p, Answered(c, v, true), later)
  {
    var chunks := [opening + first] + later;
    assert chunks[1..] == later;
    var step := OnRaw(c, p, v, opening + first);
    if p.parse(first).Ok? {
      FlattenFirst(step.value.1, HandedOn(c, p, step.value.0, later));
    }
  }

  /** The same from an accepted handshake on. When the first chunk cannot be decoded, its handshake
      answer is lost with it: the following chunks are read as handshake answers, and one chunk would
      have handed on nothing. */
  lemma ChunkingIndependence<T(!new)>(c: Config, p: Protocol<T>, cut: seq<T> -> bool, tail: seq<T> -> bool, v: View,
                                      opening: seq<T>, error: Value, first: seq<T>, later: seq<seq<T>>)
    requires Respects(p, cut, tail) && WellCut(p, cut, tail, [first] + later)
    requires Opens(p, opening, error) && NoError(error) && !v.handshake
    ensures var cutUp := Dispatched(c, p, v, [opening + first] + later);
            var whole := Dispatched(c, p, v, [opening + Flatten([first] + later)]);
            (p.parse(first).Ok? ==>
               (cutUp == whole <==> Decodes(p, [first] + later) || NoMessages(p, [first] + later)))
            && (p.parse(first).Err? ==> cutUp == Dispatched(c, p, v, later) && whole == [])
            && (Decodes(p, [first] + later) ==> p.parse(Flatten([first] + later)) == Ok(cutUp))
  {
    var chunks := [first] + later;
    assert chunks[0] == first && chunks[1..] == later;
    DecodesFirst(p, chunks);
    ParseWhole(p, cut, tail, chunks);
    AllDecodedEmpty(p, chunks);
    OpeningChunk(c, p, v, opening, error, first, later);
    OpeningWhole(c, p, v, opening, error, Flatten(chunks));
    if p.parse(first).Ok? {
      WellCutRest(p, cut, tail, chunks);
      HandedOnEach(c, p, cut, tail, Answered(c, v, true), later);
    }
  }

  lemma OpeningWhole<T(!new)>(c: Config, p: Protocol<T>, v: View, opening: seq<T>, error: Value, rest: seq<T>)
    requires Opens(p, opening, error) && NoError(error) && !v.handshake
    ensures Dispatched(c, p, v, [opening + rest]) == Decoded(p, rest)
  {
    OpeningChunk(c, p, v, opening, error, rest, []);
    assert [opening + rest] + [] == [opening + rest];
    if p.parse(rest).Ok? {
      assert p.parse(rest).value + [] == p.parse(rest).value;
    }
  }

  /* ---------- the callbacks ---------- */

  /** The dispatcher's calls, one for each batch. */
  function CallsFor(batches: seq<seq<Message>>): seq<seq<Dispatch.Action>> {
    if batches == [] then [] else [Dispatch.Deliveries(batches[0])] + CallsFor(batches[1..])
  }

  /** No batch but the last ends before its last message. */
  predicate RunOn(batches: seq<seq<Message>>) {
    forall i :: 0 <= i < |batches| - 1 ==> Ender(batches[i]).None?
  }

  /** Batches that run on do what one joint batch does. */
  lemma {:induction false} JointBatch(batches: seq<seq<Message>>)
    requires RunOn(batches)
    ensures Dispatch.History(CallsFor(batches)) == Dispatch.Deliveries(Reached(Flatten(batches)))
  {
    if batches != [] {
      var first, rest := batches[0], batches[1..];
      assert CallsFor(batches)[1..] == CallsFor(rest);
      assert forall i :: 0 <= i < |rest| ==> rest[i] == batches[i + 1];
      JointBatch(rest);
      Dispatch.PerformedDeliveries(first);
      ReachedConcat(first, Flatten(rest));
      ReachedConcat(first, []);
      assert first + [] == first;
      if rest == [] {
        assert Dispatch.Deliveries(Reached(first)) + [] == Dispatch.Deliveries(Reached(first));
      } else {
        Dispatch.DeliveriesConcat(first, Reached(Flatten(rest)));
      }
    }
  }

  lemma {:induction false} DeliveredAll(ms: seq<Message>)
    ensures Dispatch.Delivered(Dispatch.Deliveries(ms)) == ms
  {
    if ms != [] {
      DeliveredAll(ms[1..]);
      assert Dispatch.Deliveries(ms)[1..] == Dispatch.Deliveries(ms[1..]);
    }
  }

  lemma {:induction false} DeliveriesRegisterNothing(ms: seq<Message>, key: nat)
    ensures Dispatch.NeverRegisters(Dispatch.Deliveries(ms), key)
  {
    if ms != [] {
      DeliveriesRegisterNothing(ms[1..], key);
    }
  }

  /** What a registered handler sees of some batches that run on. */
  lemma HandlerSees(r: Dispatch.Registry, h: Dispatch.Handler, batches: seq<seq<Message>>)
    requires Dispatch.Once(r.streams, h) && RunOn(batches)
    ensures Dispatch.CallsTo(h.key, Dispatch.RunActions(r, Dispatch.History(CallsFor(batches))).1) ==
              Dispatch.Projection(h, Reached(Flatten(batches)))
  {
    var ms := Reached(Flatten(batches));
    JointBatch(batches);
    DeliveredAll(ms);
    DeliveriesRegisterNothing(ms, h.key);
    Dispatch.PresentSees(r, Dispatch.Deliveries(ms), h);
  }

  /* ---------- JSON ---------- */

  function JsonProtocol(codec: Json.JsonCodec): Protocol<char> {
    Protocol(raw => Json.ParseText(codec, raw), raw => Json.DecodeHandshake(codec, raw))
  }

  predicate EndsRecord(a: string) {
    a == "" || a[|a| - 1] == Json.RS
  }

  predicate Anything<T>(a: seq<T>) {
    true
  }

  lemma JsonRespects(codec: Json.JsonCodec)
    ensures Respects(JsonProtocol(codec), EndsRecord, Anything)
  {
    forall a, b | EndsRecord(a)
      ensures Json.ParseText(codec, a + b) == Then(Json.ParseText(codec, a), Json.ParseText(codec, b))
    {
      Json.ParseTextConcat(codec, a, b);
    }
  }

  /** The record of an accepted handshake answer. */
  ghost predicate Accepts(codec: Json.JsonCodec, h: string) {
    h != "" && Json.RS !in h && Json.HandshakeError(codec, h).Ok? && NoError(Json.HandshakeError(codec, h).value)
  }

  lemma JsonOpens(codec: Json.JsonCodec, h: string)
    requires Accepts(codec, h)
    ensures Opens(JsonProtocol(codec), h + [Json.RS], Json.HandshakeError(codec, h).value)
  {
    forall rest: string
      ensures Json.DecodeHandshake(codec, h + [Json.RS] + rest) ==
                Json.Pair(Json.HandshakeError(codec, h), Json.ParseText(codec, rest))
    {
      Json.HandshakeSplit(codec, h, rest);
    }
  }

  /** A record of these fields is accepted exactly when its `error` entry is missing, null or empty. */
  lemma AcceptsFields(codec: Json.JsonCodec, fields: Dict<Value>)
    requires codec.Lawful() && Representable(Obj(fields))
    ensures Accepts(codec, codec.dumps(Obj(fields))) <==>
              Find(fields, ErrorKey) == None || Find(fields, ErrorKey) == Some(Null)
              || Find(fields, ErrorKey) == Some(Str(""))
  {
  }

  /** What a JSON handshake answer does to a transport that waits for one, in terms of the answer's own
      entries. */
  lemma JsonAnswer(c: Config, codec: Json.JsonCodec, v: View, fields: Dict<Value>, rest: string)
    requires codec.Lawful() && Representable(Obj(fields)) && !v.handshake
    ensures var r := OnRaw(c, JsonProtocol(codec), v, codec.dumps(Obj(fields)) + [Json.RS] + rest);
            var ms := Json.ParseText(codec, rest);
            var accepted := Find(fields, ErrorKey) == None || Find(fields, ErrorKey) == Some(Null)
                            || Find(fields, ErrorKey) == Some(Str(""));
            if ms.Err? then r == Err(ms.error)
            else
              r.Ok? && r.value.1 == ms.value
              && if ReachesClose(ms.value) then !r.value.0.handshake && r.value.0.state == Disconnected
                 else r.value.0.handshake == accepted
                      && r.value.0.state == if accepted || c.onOpen then Connected else Disconnected
  {
    var h := codec.dumps(Obj(fields));
    Json.HandshakeSplit(codec, h, rest);
    if Json.ParseText(codec, rest).Ok? {
      HandshakeOutcome(c, JsonProtocol(codec), v, h + [Json.RS] + rest, FindOr(fields, ErrorKey, Null),
                       Json.ParseText(codec, rest).value);
    }
  }

  /** JSON: an accepted handshake record, then any records, cut anywhere between two records. */
  lemma JsonChunking(c: Config, codec: Json.JsonCodec, v: View, h: string, first: string, later: seq<string>)
    requires !v.handshake && Accepts(codec, h)
    requires WellCut(JsonProtocol(codec), EndsRecord, Anything, [first] + later)
    requires Json.ParseText(codec, first).Ok?
    ensures var p, opening := JsonProtocol(codec), h + [Json.RS];
            (Dispatched(c, p, v, [opening + first] + later) ==
               Dispatched(c, p, v, [opening + Flatten([first] + later)]) <==>
               Decodes(p, [first] + later) || NoMessages(p, [first] + later))
            && (Decodes(p, [first] + later) ==>
                  Json.ParseText(codec, Flatten([first] + later)) == Ok(Dispatched(c, p, v, [opening + first] + later)))
  {
    JsonRespects(codec);
    JsonOpens(codec, h);
    ChunkingIndependence(c, JsonProtocol(codec), EndsRecord, Anything, v, h + [Json.RS],
                         Json.HandshakeError(codec, h).value, first, later);
  }

  /** Messages that come back from the JSON text as they were. */
  ghost predicate RoundTrips(codec: Json.JsonCodec, ms: seq<Message>) {
    codec.Lawful()
    && forall i :: 0 <= i < |ms| ==> AsConstructed(ms[i]) && RepresentableMessage(ms[i]) && Json.Echo(ms[i]) == Ok(ms[i])
  }

  lemma SentDecodes(codec: Json.JsonCodec, chunks: seq<string>, ms: seq<Message>)
    requires RoundTrips(codec, ms) && chunks != [] && WellCut(JsonProtocol(codec), EndsRecord, Anything, chunks)
    requires Flatten(chunks) == Json.EncodeAll(codec, ms)
    ensures Decodes(JsonProtocol(codec), chunks) && Json.ParseText(codec, Flatten(chunks)) == Ok(ms)
  {
    JsonRespects(codec);
    Json.JsonStreamRoundTrip(codec, ms);
    ParseWhole(JsonProtocol(codec), EndsRecord, Anything, chunks);
  }

  /** End to end: encoded messages behind an accepted handshake reach the dispatcher unchanged and in
      order, however the stream is cut. */
  lemma JsonDelivery(c: Config, codec: Json.JsonCodec, v: View, h: string, first: string, later: seq<string>,
                     ms: seq<Message>)
    requires RoundTrips(codec, ms) && !v.handshake && Accepts(codec, h)
    requires WellCut(JsonProtocol(codec), EndsRecord, Anything, [first] + later)
    requires Flatten([first] + later) == Json.EncodeAll(codec, ms)
    ensures Dispatched(c, JsonProtocol(codec), v, [h + [Json.RS] + first] + later) == ms
  {
    SentDecodes(codec, [first] + later, ms);
    assert ([first] + later)[0] == first;
    JsonChunking(c, codec, v, h, first, later);
  }

  /** The usual answer, an empty object, is such a handshake. */
  lemma UsualDelivery(c: Config, codec: Json.JsonCodec, v: View, first: string, later: seq<string>, ms: seq<Message>)
    requires RoundTrips(codec, ms) && !v.handshake
    requires WellCut(JsonProtocol(codec), EndsRecord, Anything, [first] + later)
    requires Flatten([first] + later) == Json.EncodeAll(codec, ms)
    ensures Dispatched(c, JsonProtocol(codec), v, [codec.dumps(Obj([])) + [Json.RS] + first] + later) == ms
  {
    assert Representable(Obj([]));
    AcceptsFields(codec, []);
    JsonDelivery(c, codec, v, codec.dumps(Obj([])), first, later, ms);
  }

  /** And from the stream to a callback: as long as no batch but the last ends early, a registered
      handler is called exactly for the messages of its id that were sent, in order, up to the first
      that ends it. */
  lemma JsonToHandler(c: Config, codec: Json.JsonCodec, v: View, h: string, first: string, later: seq<string>,
                      ms: seq<Message>, r: Dispatch.Registry, handler: Dispatch.Handler)
    requires RoundTrips(codec, ms) && !v.handshake && Accepts(codec, h) && Dispatch.Once(r.streams, handler)
    requires WellCut(JsonProtocol(codec), EndsRecord, Anything, [first] + later)
    requires Flatten([first] + later) == Json.EncodeAll(codec, ms)
    requires RunOn(HandedOn(c, JsonProtocol(codec), v, [h + [Json.RS] + first] + later))
    ensures var batches := HandedOn(c, JsonProtocol(codec), v, [h + [Json.RS] + first] + later);
            Dispatch.CallsTo(handler.key, Dispatch.RunActions(r, Dispatch.History(CallsFor(batches))).1) ==
              Dispatch.Projection(handler, Reached(ms))
  {
    JsonDelivery(c, codec, v, h, first, later, ms);
    HandlerSees(r, handler, HandedOn(c, JsonProtocol(codec), v, [h + [Json.RS] + first] + later));
  }

  /* ---------- a record that cannot be decoded ---------- */

  /** An object whose type is no message type. */
  const BAD: Value := Obj([(Type, Num(9))])

  function BadRecord(codec: Json.JsonCodec): string {
    codec.dumps(BAD) + [Json.RS]
  }

  lemma BadFails(codec: Json.JsonCodec)
    requires codec.Lawful()
    ensures EndsRecord(BadRecord(codec)) && Json.ParseText(codec, BadRecord(codec)) == Err(ValueError)
  {
    assert Representable(BAD);
    Json.ParseOneRecord(codec, codec.dumps(BAD));
    assert Find([(Type, Num(9))], Type) == Some(Num(9));
  }

  lemma GoodRecord(codec: Json.JsonCodec, m: Message)
    requires RoundTrips(codec, [m])
    ensures EndsRecord(Json.EncodeAll(codec, [m])) && Json.ParseText(codec, Json.EncodeAll(codec, [m])) == Ok([m])
  {
    Json.JsonStreamRoundTrip(codec, [m]);
    assert [m][1..] == [];
    var text := Json.TextOf(codec, Json.Renamed(Attributes(m)));
    assert text + "" == text;
  }

  /** One chunk that can be decoded and one that cannot. */
  lemma TwoChunks<T(!new)>(c: Config, p: Protocol<T>, cut: seq<T> -> bool, tail: seq<T> -> bool, v: View, good: seq<T>,
                           bad: seq<T>, m: Message)
    requires Respects(p, cut, tail) && v.handshake && cut(good) && tail(bad) && !m.Close?
    requires p.parse(good) == Ok([m]) && p.parse(bad).Err?
    ensures WellCut(p, cut, tail, [good, bad]) && p.parse(good + bad).Err?
    ensures Dispatched(c, p, v, [good, bad]) == [m] && Dispatched(c, p, v, [good + bad]) == []
  {
    assert Ender([m]).Some? ==> Ender([m]).value == m by { assert [m][1..] == []; }
    HandedOnEach(c, p, cut, tail, v, [good, bad]);
    assert [good, bad][1..] == [bad] && [bad][1..] == [];
    assert AllDecoded(p, []) == [] && AllDecoded(p, [bad]) == [];
    assert p.parse(good + bad) == Then(p.parse(good), p.parse(bad));
    HandedOnWhole(c, p, v, good + bad);
  }

  /** Where the cut matters: the record of a message and a record that cannot be decoded. In two chunks
      the message is dispatched, in one it is lost. */
  lemma CutMatters(c: Config, codec: Json.JsonCodec, v: View, m: Message)
    requires RoundTrips(codec, [m]) && v.handshake && !m.Close?
    ensures var p, good, bad := JsonProtocol(codec), Json.EncodeAll(codec, [m]), BadRecord(codec);
            WellCut(p, EndsRecord, Anything, [good, bad])
            && Dispatched(c, p, v, [good, bad]) == [m] && Dispatched(c, p, v, [good + bad]) == []
  {
    BadFails(codec);
    GoodRecord(codec, m);
    JsonRespects(codec);
    TwoChunks(c, JsonProtocol(codec), EndsRecord, Anything, v, Json.EncodeAll(codec, [m]), BadRecord(codec), m);
  }

  /* ---------- MessagePack ---------- */

  function MsgPackProtocol(codec: MsgPack.PackCodec, json: MsgPack.HandshakeCodec): Protocol<LengthPrefix.byte> {
    Protocol(raw => MsgPack.ParseBytes(codec, raw), raw => MsgPack.DecodeHandshake(codec, json, MsgPack.Bytes(raw)))
  }

  predicate EndsFrame(a: seq<LengthPrefix.byte>) {
    FrameReader.WholeFrames(a)
  }

  /** The reader does not get to a negative header. */
  ghost function Onward(codec: MsgPack.PackCodec): seq<LengthPrefix.byte> -> bool {
    b => !FrameReader.TurnsBack(MsgPack.Reader(codec), b)
  }

  lemma MsgPackRespects(codec: MsgPack.PackCodec, json: MsgPack.HandshakeCodec)
    ensures Respects(MsgPackProtocol(codec, json), EndsFrame, Onward(codec))
  {
    forall a, b | EndsFrame(a) && Onward(codec)(b)
      ensures MsgPack.ParseBytes(codec, a + b) == Then(MsgPack.ParseBytes(codec, a), MsgPack.ParseBytes(codec, b))
      ensures Onward(codec)(a + b)
    {
      MsgPack.ParseBytesConcat(codec, a, b);
      FrameReader.TurnsBackBehind(MsgPack.Reader(codec), a, b);
    }
  }

  lemma MsgPackOpens(codec: MsgPack.PackCodec, json: MsgPack.HandshakeCodec, h: seq<LengthPrefix.byte>)
    requires MsgPack.RS !in h && Json.ErrorEntry(json.ofBytes(h)).Ok?
    ensures Opens(MsgPackProtocol(codec, json), h + [MsgPack.RS], Json.ErrorEntry(json.ofBytes(h)).value)
  {
    forall rest: seq<LengthPrefix.byte>
      ensures MsgPack.DecodeHandshake(codec, json, MsgPack.Bytes(h + [MsgPack.RS] + rest)) ==
                var ms := MsgPack.ParseBytes(codec, rest);
                if ms.Err? then Err(ms.error) else Ok((Json.ErrorEntry(json.ofBytes(h)).value, ms.value))
    {
      MsgPack.HandshakeSplit(codec, json, h, Some(rest));
    }
  }

  /** What a MessagePack handshake answer does, in terms of its own entries. */
  lemma MsgPackAnswer(c: Config, codec: MsgPack.PackCodec, json: MsgPack.HandshakeCodec, v: View,
                      h: seq<LengthPrefix.byte>, fields: Dict<Value>, rest: seq<LengthPrefix.byte>)
    requires MsgPack.RS !in h && json.ofBytes(h) == Ok(Obj(fields)) && !v.handshake
    ensures var r := OnRaw(c, MsgPackProtocol(codec, json), v, h + [MsgPack.RS] + rest);
            var ms := MsgPack.ParseBytes(codec, rest);
            var accepted := Find(fields, ErrorKey) == None || Find(fields, ErrorKey) == Some(Null)
                            || Find(fields, ErrorKey) == Some(Str(""));
            if ms.Err? then r == Err(ms.error)
            else
              r.Ok? && r.value.1 == ms.value
              && if ReachesClose(ms.value) then !r.value.0.handshake && r.value.0.state == Disconnected
                 else r.value.0.handshake == accepted
                      && r.value.0.state == if accepted || c.onOpen then Connected else Disconnected
  {
    MsgPack.HandshakeSplit(codec, json, h, Some(rest));
    if MsgPack.ParseBytes(codec, rest).Ok? {
      HandshakeOutcome(c, MsgPackProtocol(codec, json), v, h + [MsgPack.RS] + rest, FindOr(fields, ErrorKey, Null),
                       MsgPack.ParseBytes(codec, rest).value);
    }
  }

  /** MessagePack: the same, cut anywhere between two frames with one-byte lengths. */
  lemma MsgPackChunking(c: Config, codec: MsgPack.PackCodec, json: MsgPack.HandshakeCodec, v: View,
                        h: seq<LengthPrefix.byte>, first: seq<LengthPrefix.byte>, later: seq<seq<LengthPrefix.byte>>)
    requires !v.handshake && MsgPack.RS !in h
    requires var error := Json.ErrorEntry(json.ofBytes(h)); error.Ok? && NoError(error.value)
    requires WellCut(MsgPackProtocol(codec, json), EndsFrame, Onward(codec), [first] + later)
    requires MsgPack.ParseBytes(codec, first).Ok?
    ensures var p, opening := MsgPackProtocol(codec, json), h + [MsgPack.RS];
            (Dispatched(c, p, v, [opening + first] + later) ==
               Dispatched(c, p, v, [opening + Flatten([first] + later)]) <==>
               Decodes(p, [first] + later) || NoMessages(p, [first] + later))
            && (Decodes(p, [first] + later) ==>
                  MsgPack.ParseBytes(codec, Flatten([first] + later)) ==
                    Ok(Dispatched(c, p, v, [opening + first] + later)))
  {
    MsgPackRespects(codec, json);
    MsgPackOpens(codec, json, h);
    ChunkingIndependence(c, MsgPackProtocol(codec, json), EndsFrame, Onward(codec), v, h + [MsgPack.RS],
                         Json.ErrorEntry(json.ofBytes(h)).value, first, later);
  }
}
