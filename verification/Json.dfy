/** The JSON hub protocol (protocol/json.py, protocol/__init__.py). `json.dumps` and
    `json.loads` are a parameter; what the proofs need of them is `Lawful`. */
module Json {
  import opened Values
  import opened Messages
  import opened Framing

  const RS: char := '\U{1E}'

  datatype JsonCodec = JsonCodec(dumps: Value -> string, loads: string -> Result<Value>) {
    /** Loading undoes dumping, and a dumped text is non-empty and escapes control characters
        (section 7 of RFC 8259), so it never contains the record separator. */
    ghost predicate Lawful() {
      forall v | Representable(v) :: loads(dumps(v)) == Ok(v) && RS !in dumps(v) && dumps(v) != ""
    }
  }

  /* ---------- decoding one object ---------- */

  /** The message of type `t` whose entries are in `d`, read under their wire names. */
  function Built(t: MessageType, d: Dict<Value>): Result<Message> {
    var id := FindOr(d, InvocationIdJson, Null);
    var headers := HeadersOrEmpty(FindOr(d, Headers, Null));
    var target, arguments, item := Find(d, Target), Find(d, Arguments), Find(d, Item);
    match t
    case INVOCATION =>
      if target.None? || arguments.None? then Err(KeyError)
      else Ok(Invocation(headers, id, target.value, arguments.value))
    case STREAM_ITEM =>
      if item.None? then Err(KeyError) else Ok(StreamItem(headers, id, item.value))
    case COMPLETION =>
      Ok(Completion(headers, id, FindOr(d, ResultKey, Null), FindOr(d, ErrorKey, Null)))
    case STREAM_INVOCATION =>
      if target.None? || arguments.None? then Err(KeyError)
      else Ok(StreamInvocation(headers, id, target.value, arguments.value, EMPTY_LIST))
    case CANCEL_INVOCATION => Ok(CancelInvocation(headers, id))
    case PING => Ok(Ping)
    case CLOSE => Ok(Close(FindOr(d, ErrorKey, Null)))
    case INVOCATION_BINDING_FAILURE => Err(ValueError)
  }

  /** What a JSON object means as a message; an object without a type is a Close. */
  function MessageOf(d: Dict<Value>): Result<Message> {
    var kind := if Find(d, Type).None? then Ok(CLOSE) else TypeOfValue(Find(d, Type).value);
    if kind.Err? then Err(kind.error) else Built(kind.value, d)
  }

  /** A dictionary the client mutates while decoding. */
  class JsonObject {
    var fields: Dict<Value>

    constructor (fields: Dict<Value>)
      ensures this.fields == fields
    {
      this.fields := fields;
    }
  }

  /** The dictionary after `get_message` wrote its four keys. */
  function Normalised(d: Dict<Value>): Dict<Value> {
    var d1 := Put(d, InvocationIdAttr, FindOr(d, InvocationIdJson, Null));
    var d2 := Put(d1, Headers, FindOr(d1, Headers, Null));
    var d3 := Put(d2, ErrorKey, FindOr(d2, ErrorKey, Null));
    Put(d3, ResultKey, FindOr(d3, ResultKey, Null))
  }

  /** `d[k] = d.get(k)`. */
  lemma FindFill(d: Dict<Value>, k: Key, q: Key)
    ensures Find(Put(d, k, FindOr(d, k, Null)), q) == if q == k then Some(FindOr(d, k, Null)) else Find(d, q)
  {
    FindPut(d, k, FindOr(d, k, Null), q);
  }

  lemma FindNormalised(d: Dict<Value>, k: Key)
    ensures Find(Normalised(d), k) ==
              if k == InvocationIdAttr then Some(FindOr(d, InvocationIdJson, Null))
              else if k == Headers || k == ErrorKey || k == ResultKey then Some(FindOr(d, k, Null))
              else Find(d, k)
  {
    var d1 := Put(d, InvocationIdAttr, FindOr(d, InvocationIdJson, Null));
    var d2 := Put(d1, Headers, FindOr(d1, Headers, Null));
    var d3 := Put(d2, ErrorKey, FindOr(d2, ErrorKey, Null));
    FindFill(d1, Headers, ErrorKey);
    FindFill(d1, Headers, ResultKey);
    FindFill(d1, Headers, k);
    FindFill(d2, ErrorKey, ResultKey);
    FindFill(d2, ErrorKey, k);
    FindFill(d3, ResultKey, k);
    var id := FindOr(d, InvocationIdJson, Null);
    FindPut(d, InvocationIdAttr, id, Headers);
    FindPut(d, InvocationIdAttr, id, ErrorKey);
    FindPut(d, InvocationIdAttr, id, ResultKey);
    FindPut(d, InvocationIdAttr, id, k);
  }

  /** The branches of `get_message`, reading the names it has written itself. */
  function Branch(t: MessageType, d: Dict<Value>): Result<Message> {
    var id := FindOr(d, InvocationIdAttr, Null);
    var headers := HeadersOrEmpty(FindOr(d, Headers, Null));
    match t
    case INVOCATION =>
      if Find(d, Target).None? then Err(KeyError)
      else if Find(d, Arguments).None? then Err(KeyError)
      else Ok(Invocation(headers, id, Find(d, Target).value, Find(d, Arguments).value))
    case STREAM_ITEM =>
      if Find(d, Item).None? then Err(KeyError) else Ok(StreamItem(headers, id, Find(d, Item).value))
    case COMPLETION =>
      Ok(Completion(headers, id, FindOr(d, ResultKey, Null), FindOr(d, ErrorKey, Null)))
    case STREAM_INVOCATION =>
      if Find(d, Target).None? then Err(KeyError)
      else if Find(d, Arguments).None? then Err(KeyError)
      else Ok(StreamInvocation(headers, id, Find(d, Target).value, Find(d, Arguments).value, EMPTY_LIST))
    case CANCEL_INVOCATION => Ok(CancelInvocation(headers, id))
    case PING => Ok(Ping)
    case CLOSE => Ok(Close(FindOr(d, ErrorKey, Null)))
    case INVOCATION_BINDING_FAILURE => Err(ValueError)
  }

  lemma BranchReads(t: MessageType, d: Dict<Value>)
    ensures Branch(t, Normalised(d)) == Built(t, d)
  {
    FindNormalised(d, InvocationIdAttr);
    FindNormalised(d, Headers);
    FindNormalised(d, ErrorKey);
    FindNormalised(d, ResultKey);
    FindNormalised(d, Target);
    FindNormalised(d, Arguments);
    FindNormalised(d, Item);
  }

  /** `get_message`: four keys are written into the dictionary before anything else is read from
      it; the message is nevertheless the one the untouched dictionary means. */
  method GetMessage(json: JsonObject) returns (r: Result<Message>)
    modifies json
    ensures r == MessageOf(old(json.fields))
    ensures json.fields == old(json.fields) || json.fields == Normalised(old(json.fields))
  {
    var kind: Result<MessageType> := Ok(CLOSE);
    if Find(json.fields, Type).Some? {
      kind := TypeOfValue(Find(json.fields, Type).value);
    }
    if kind.Err? {
      return Err(kind.error);
    }
    json.fields := Put(json.fields, InvocationIdAttr, FindOr(json.fields, InvocationIdJson, Null));
    json.fields := Put(json.fields, Headers, FindOr(json.fields, Headers, Null));
    json.fields := Put(json.fields, ErrorKey, FindOr(json.fields, ErrorKey, Null));
    json.fields := Put(json.fields, ResultKey, FindOr(json.fields, ResultKey, Null));
    r := Branch(kind.value, json.fields);
    BranchReads(kind.value, old(json.fields));
  }

  /* ---------- parsing a text ---------- */

  function ParseRecord(codec: JsonCodec, record: string): Result<seq<Message>> {
    var data := codec.loads(record);
    if data.Err? then Err(data.error)
    else if !data.value.Obj? then Err(AttributeError)
    else if data.value.fields == [] then Ok([])
    else
      var m := MessageOf(data.value.fields);
      if m.Err? then Err(m.error) else Ok([m.value])
  }

  function ParseAll(codec: JsonCodec, records: seq<string>): Result<seq<Message>> {
    if records == [] then Ok([])
    else Then(ParseRecord(codec, records[0]), ParseAll(codec, records[1..]))
  }

  function ParseText(codec: JsonCodec, raw: string): Result<seq<Message>> {
    ParseAll(codec, Records(raw, RS))
  }

  /** `record.replace(c, "")`. */
  function Without(s: string, c: char): string {
    if s == "" then "" else (if s[0] == c then "" else [s[0]]) + Without(s[1..], c)
  }

  lemma {:induction false} WithoutAbsent(s: string, c: char)
    requires c !in s
    ensures Without(s, c) == s
  {
    if s != "" {
      assert s[0] in s;
      WithoutAbsent(s[1..], c);
    }
  }

  lemma CleanPiece(piece: string)
    requires RS !in piece
    ensures piece != [RS] && Without(piece, RS) == piece
  {
    assert RS in [RS];
    WithoutAbsent(piece, RS);
  }

  lemma NextKept(done: seq<string>, pieces: seq<string>, i: nat)
    requires i < |pieces|
    ensures done + NonEmpty(pieces[i..]) == (done + Kept(pieces[i])) + NonEmpty(pieces[i + 1..])
  {
    assert pieces[i..][1..] == pieces[i + 1..];
    Regroup(done, Kept(pieces[i]), NonEmpty(pieces[i + 1..]));
  }

  /** The comprehension at the top of `parse_messages`. */
  method RawMessages(raw: string) returns (rawMessages: seq<string>)
    ensures rawMessages == Records(raw, RS)
  {
    var pieces := Split(raw, RS);
    JoinSplit(raw, RS);
    rawMessages := [];
    for i := 0 to |pieces|
      invariant rawMessages + NonEmpty(pieces[i..]) == NonEmpty(pieces)
    {
      var piece := pieces[i];
      CleanPiece(piece);
      NextKept(rawMessages, pieces, i);
      if piece != "" && piece != [RS] {
        rawMessages := rawMessages + [Without(piece, RS)];
      }
    }
  }

  /** `parse_messages`. */
  method ParseMessages(codec: JsonCodec, raw: string) returns (r: Result<seq<Message>>)
    ensures r == ParseText(codec, raw)
  {
    var rawMessages := RawMessages(raw);
    var result: seq<Message> := [];
    ThenUnit(ParseAll(codec, rawMessages));
    assert rawMessages[0..] == rawMessages;
    for i := 0 to |rawMessages|
      invariant ParseAll(codec, rawMessages) == Then(Ok(result), ParseAll(codec, rawMessages[i..]))
    {
      assert rawMessages[i..][1..] == rawMessages[i + 1..];
      ThenAssociative(Ok(result), ParseRecord(codec, rawMessages[i]), ParseAll(codec, rawMessages[i + 1..]));
      var data := codec.loads(rawMessages[i]);
      if data.Err? {
        return Err(data.error);
      }
      if !data.value.Obj? {
        return Err(AttributeError);
      }
      if |data.value.fields| > 0 {
        var json := new JsonObject(data.value.fields);
        var m := GetMessage(json);
        if m.Err? {
          return Err(m.error);
        }
        result := result + [m.value];
      } else {
        assert result + [] == result;
      }
    }
    r := Ok(result);
    assert result + [] == result;
  }

  lemma {:induction false} ParseAllConcat(codec: JsonCodec, p: seq<string>, q: seq<string>)
    ensures ParseAll(codec, p + q) == Then(ParseAll(codec, p), ParseAll(codec, q))
  {
    if p == [] {
      assert p + q == q;
      ThenUnit(ParseAll(codec, q));
    } else {
      ParseAllConcat(codec, p[1..], q);
      assert (p + q)[1..] == p[1..] + q;
      ThenAssociative(ParseRecord(codec, p[0]), ParseAll(codec, p[1..]), ParseAll(codec, q));
    }
  }

  /** Parsing is a homomorphism over every cut that falls on a record boundary. */
  lemma ParseTextConcat(codec: JsonCodec, a: string, b: string)
    requires CleanCut(a, b, RS)
    ensures ParseText(codec, a + b) == Then(ParseText(codec, a), ParseText(codec, b))
  {
    RecordsConcat(a, b, RS);
    ParseAllConcat(codec, Records(a, RS), Records(b, RS));
  }

  /** Non-empty, separator-free records written one after the other. */
  function Framed(records: seq<string>): string {
    if records == [] then "" else records[0] + [RS] + Framed(records[1..])
  }

  lemma {:induction false} RecordsOfFramed(records: seq<string>)
    requires forall i :: 0 <= i < |records| ==> records[i] != "" && RS !in records[i]
    ensures Records(Framed(records), RS) == records
  {
    if records != [] {
      RecordsOfFramed(records[1..]);
      RecordsOfOne(records[0], Framed(records[1..]), RS);
    }
  }

  /** Framed records decode to their own decodings in order, empty objects skipped. */
  lemma ParseFramed(codec: JsonCodec, records: seq<string>)
    requires forall i :: 0 <= i < |records| ==> records[i] != "" && RS !in records[i]
    ensures ParseText(codec, Framed(records)) == ParseAll(codec, records)
  {
    RecordsOfFramed(records);
  }

  /* ---------- encoding ---------- */

  /** A message object, as the encoder sees it: its mutable `__dict__`. */
  class MessageObject {
    var data: Dict<Attr>

    constructor (m: Message)
      ensures data == Attributes(m)
    {
      data := Attributes(m);
    }
  }

  /** An attribute as JSON: the encoder's `default` turns the enumeration into its value. */
  function LowerAttr(a: Attr): Value {
    match a
    case Tag(t) => Num(Code(t))
    case Data(v) => v
  }

  function Lower(d: Dict<Attr>): Dict<Value> {
    seq(|d|, i requires 0 <= i < |d| => (d[i].0, LowerAttr(d[i].1)))
  }

  function Renamed(d: Dict<Attr>): Dict<Attr> {
    RenameKey(RenameKey(d, InvocationIdAttr, InvocationIdJson), StreamIdsAttr, StreamIdsJson)
  }

  function TextOf(codec: JsonCodec, d: Dict<Attr>): string {
    codec.dumps(Obj(Lower(d))) + [RS]
  }

  /** `MyEncoder.default` on a message: renames keys in the object's own dictionary. */
  method Default(o: MessageObject) returns (data: Dict<Attr>)
    modifies o
    ensures o.data == Renamed(old(o.data)) && data == o.data
  {
    if Find(o.data, InvocationIdAttr).Some? {
      o.data := Put(o.data, InvocationIdJson, Find(o.data, InvocationIdAttr).value);
      o.data := Del(o.data, InvocationIdAttr);
    }
    if Find(o.data, StreamIdsAttr).Some? {
      o.data := Put(o.data, StreamIdsJson, Find(o.data, StreamIdsAttr).value);
      o.data := Del(o.data, StreamIdsAttr);
    }
    data := o.data;
  }

  /** `encode`: the text of the renamed dictionary, and the object stays renamed. */
  method Encode(codec: JsonCodec, o: MessageObject) returns (text: string)
    modifies o
    ensures o.data == Renamed(old(o.data))
    ensures text == TextOf(codec, Renamed(old(o.data)))
  {
    var data := Default(o);
    text := codec.dumps(Obj(Lower(data))) + [RS];
  }

  lemma FindRenamed(d: Dict<Attr>, k: Key)
    requires Distinct(d)
    ensures Distinct(Renamed(d))
    ensures Find(d, InvocationIdJson).None? && Find(d, StreamIdsJson).None? ==>
              Find(Renamed(d), k) == (match k
                                      case InvocationIdAttr => None
                                      case StreamIdsAttr => None
                                      case InvocationIdJson => Find(d, InvocationIdAttr)
                                      case StreamIdsJson => Find(d, StreamIdsAttr)
                                      case _ => Find(d, k))
    ensures Find(Renamed(d), InvocationIdAttr).None? && Find(Renamed(d), StreamIdsAttr).None?
  {
    var e := RenameKey(d, InvocationIdAttr, InvocationIdJson);
    forall q | q in {k, InvocationIdAttr, StreamIdsAttr, StreamIdsJson} {
      FindRename(d, InvocationIdAttr, InvocationIdJson, q);
    }
    forall q | q in {k, InvocationIdAttr, StreamIdsAttr} {
      FindRename(e, StreamIdsAttr, StreamIdsJson, q);
    }
  }

  /** Encoding the same object again gives the same text and leaves the same dictionary: the first
      call's renaming is not visible to the second. */
  lemma EncodeTwice(codec: JsonCodec, d: Dict<Attr>)
    requires Distinct(d)
    ensures Renamed(Renamed(d)) == Renamed(d)
    ensures TextOf(codec, Renamed(Renamed(d))) == TextOf(codec, Renamed(d))
  {
    FindRenamed(d, InvocationIdAttr);
  }

  lemma AttributesDistinct(m: Message)
    ensures Distinct(Attributes(m))
    ensures Find(Attributes(m), InvocationIdJson).None? && Find(Attributes(m), StreamIdsJson).None?
  {
    FindAbsent(Attributes(m), InvocationIdJson);
    FindAbsent(Attributes(m), StreamIdsJson);
  }

  function KeysOf(d: Dict<Attr>): seq<Key> {
    seq(|d|, i requires 0 <= i < |d| => d[i].0)
  }

  /** Deleting the only entry under `k`. */
  lemma {:induction false} DelKeys(d: Dict<Attr>, k: Key, front: seq<Key>, back: seq<Key>)
    requires KeysOf(d) == front + [k] + back && k !in front && k !in back
    ensures KeysOf(Del(d, k)) == front + back
    decreases |front|
  {
    assert d[0].0 == KeysOf(d)[0] && KeysOf(d)[1..] == KeysOf(d[1..]);
    if front == [] {
      DelNothing(d[1..], k);
      assert [] + d[1..] == d[1..];
    } else {
      DelKeys(d[1..], k, front[1..], back);
      assert KeysOf([d[0]] + Del(d[1..], k)) == [d[0].0] + KeysOf(Del(d[1..], k));
    }
  }

  lemma {:induction false} DelNothing(d: Dict<Attr>, k: Key)
    requires k !in KeysOf(d)
    ensures Del(d, k) == d
  {
    if d != [] {
      assert d[0].0 == KeysOf(d)[0] && KeysOf(d)[1..] == KeysOf(d[1..]);
      assert forall q :: q in KeysOf(d)[1..] ==> q in KeysOf(d);
      DelNothing(d[1..], k);
    }
  }

  lemma FindInKeys(d: Dict<Attr>, k: Key)
    ensures Find(d, k).None? <==> k !in KeysOf(d)
  {
    FindAbsent(d, k);
    forall i | 0 <= i < |d| ensures KeysOf(d)[i] == d[i].0 {
    }
  }

  lemma KeysAppend(d: Dict<Attr>, k: Key, v: Attr)
    ensures KeysOf(d + [(k, v)]) == KeysOf(d) + [k]
  {
  }

  lemma RenamedKeys(d: Dict<Attr>, a: Key, b: Key, front: seq<Key>, back: seq<Key>)
    requires KeysOf(d) == front + [a] + back && a !in front && a !in back && a != b && b !in KeysOf(d)
    ensures KeysOf(RenameKey(d, a, b)) == front + back + [b]
  {
    FindInKeys(d, a);
    FindInKeys(d, b);
    assert KeysOf(d)[|front|] == a;
    var v := Find(d, a).value;
    PutAbsent(d, b, v);
    KeysAppend(d, b, v);
    assert (front + [a] + back) + [b] == front + [a] + (back + [b]);
    DelKeys(d + [(b, v)], a, front, back + [b]);
    assert front + (back + [b]) == front + back + [b];
  }

  lemma NotRenamed(d: Dict<Attr>, a: Key, b: Key)
    requires a !in KeysOf(d)
    ensures RenameKey(d, a, b) == d
  {
    FindInKeys(d, a);
  }

  /** The names behind the headers, but for the two that are renamed. */
  function OwnNames(m: Message): seq<Key> {
    match m
    case Invocation(_, _, _, _) => [Target, Arguments]
    case InvocationClientStream(_, _, _, _) => [Target, Arguments]
    case StreamItem(_, _, _) => [Item]
    case Completion(_, _, _, _) => [ResultKey, ErrorKey]
    case StreamInvocation(_, _, _, _, _) => [Target, Arguments]
    case _ => []
  }

  /** The names of each text, in their order: the type, the headers, the class's own names, and last the
      renamed ones. */
  lemma WireNames(m: Message)
    ensures var ids := (if m.Ping? || m.Close? || m.BindingFailure? || m.InvocationClientStream? then [] else [InvocationIdJson])
                       + if m.InvocationClientStream? || m.StreamInvocation? then [StreamIdsJson] else [];
            KeysOf(Renamed(Attributes(m))) ==
              if m.Close? then [Type, ErrorKey]
              else if m.Ping? || m.BindingFailure? then [Type]
              else [Type, Headers] + OwnNames(m) + ids
  {
    var d, own := Attributes(m), OwnNames(m);
    if m.Ping? || m.Close? || m.BindingFailure? {
      NotRenamed(d, InvocationIdAttr, InvocationIdJson);
      NotRenamed(d, StreamIdsAttr, StreamIdsJson);
    } else if m.InvocationClientStream? {
      NotRenamed(d, InvocationIdAttr, InvocationIdJson);
      RenamedKeys(d, StreamIdsAttr, StreamIdsJson, [Type, Headers] + own, []);
    } else {
      var ids := if m.StreamInvocation? then [StreamIdsAttr] else [];
      RenamedKeys(d, InvocationIdAttr, InvocationIdJson, [Type, Headers], own + ids);
      var e := RenameKey(d, InvocationIdAttr, InvocationIdJson);
      if m.StreamInvocation? {
        assert KeysOf(e) == [Type, Headers] + own + [StreamIdsAttr] + [InvocationIdJson];
        RenamedKeys(e, StreamIdsAttr, StreamIdsJson, [Type, Headers] + own, [InvocationIdJson]);
      } else {
        NotRenamed(e, StreamIdsAttr, StreamIdsJson);
      }
    }
  }

  lemma {:induction false} FindLower(d: Dict<Attr>, k: Key)
    ensures Find(Lower(d), k) == if Find(d, k).None? then None else Some(LowerAttr(Find(d, k).value))
  {
    if d != [] && d[0].0 != k {
      FindLower(d[1..], k);
      assert Lower(d)[1..] == Lower(d[1..]);
    }
  }

  lemma AttributeSpelled(m: Message, k: Key)
    requires k.Name?
    ensures Find(Attributes(m), k).None?
  {
    FindAbsent(Attributes(m), k);
  }

  /** Every entry of the renamed dictionary comes from an attribute. */
  lemma RenamedEntry(m: Message, i: nat)
    requires RepresentableMessage(m) && i < |Renamed(Attributes(m))|
    ensures var entry := Renamed(Attributes(m))[i]; Spelled(entry.0) && Representable(LowerAttr(entry.1))
  {
    var d := Attributes(m);
    AttributesDistinct(m);
    var key := Renamed(d)[i].0;
    FindRenamed(d, key);
    FindAt(Renamed(d), i);
    var source := if key == InvocationIdJson then InvocationIdAttr
                  else if key == StreamIdsJson then StreamIdsAttr else key;
    FindMember(d, source);
    if key.Name? {
      AttributeSpelled(m, key);
    }
  }

  lemma LowerRepresentable(d: Dict<Attr>)
    requires Distinct(d) && forall i :: 0 <= i < |d| ==> Spelled(d[i].0) && Representable(LowerAttr(d[i].1))
    ensures Representable(Obj(Lower(d)))
  {
    forall f | f in Lower(d) ensures Spelled(f.0) && Representable(f.1) {
      var i :| 0 <= i < |d| && f == Lower(d)[i];
    }
  }

  /** The encoded dictionary is one the codec can represent. */
  lemma EncodedRepresentable(m: Message)
    requires RepresentableMessage(m)
    ensures Representable(Obj(Lower(Renamed(Attributes(m)))))
  {
    AttributesDistinct(m);
    FindRenamed(Attributes(m), Type);
    var r := Renamed(Attributes(m));
    forall i: nat | i < |r| ensures Spelled(r[i].0) && Representable(LowerAttr(r[i].1)) {
      RenamedEntry(m, i);
    }
    LowerRepresentable(r);
  }

  /** What the receiving side makes of an encoded message. */
  function Echo(m: Message): Result<Message> {
    match m
    case InvocationClientStream(h, _, target, args) => Ok(Invocation(h, Null, target, args))
    case CompletionClientStream(h, id) => Ok(Completion(h, id, Null, Null))
    case BindingFailure => Err(ValueError)
    case _ => Ok(m)
  }

  /** The attribute of the constructed object that the decoder's key `k` is written from. */
  function SourceOf(k: Key): Key {
    if k == InvocationIdJson then InvocationIdAttr else k
  }

  /** What the decoder finds under `k` is what the constructed object held at position `i`. */
  lemma EchoAt(m: Message, i: nat, k: Key)
    requires i < |Attributes(m)| && Attributes(m)[i].0 == SourceOf(k)
    requires k != InvocationIdAttr && k != StreamIdsAttr && k != StreamIdsJson
    ensures Find(Lower(Renamed(Attributes(m))), k) == Some(LowerAttr(Attributes(m)[i].1))
  {
    AttributesDistinct(m);
    FindRenamed(Attributes(m), k);
    FindLower(Renamed(Attributes(m)), k);
    FindAt(Attributes(m), i);
  }

  /** The decoder finds nothing under a key no attribute was written to. */
  lemma EchoNone(m: Message, k: Key)
    requires forall i :: 0 <= i < |Attributes(m)| ==> Attributes(m)[i].0 != SourceOf(k)
    requires k != InvocationIdAttr && k != StreamIdsAttr && k != StreamIdsJson
    ensures Find(Lower(Renamed(Attributes(m))), k) == None
  {
    AttributesDistinct(m);
    FindRenamed(Attributes(m), k);
    FindLower(Renamed(Attributes(m)), k);
    FindAbsent(Attributes(m), SourceOf(k));
  }

  lemma MessageOfTyped(d: Dict<Value>, t: MessageType)
    requires Find(d, Type) == Some(Num(Code(t)))
    ensures MessageOf(d) == Built(t, d)
  {
    assert TypeOfValue(Num(Code(t))) == Ok(t);
  }

  lemma EchoInvocation(m: Message)
    requires AsConstructed(m) && TypeOf(m) == INVOCATION
    ensures MessageOf(Lower(Renamed(Attributes(m)))) == Echo(m)
  {
    var d := Lower(Renamed(Attributes(m)));
    EchoAt(m, 0, Type);
    EchoAt(m, 1, Headers);
    if m.Invocation? {
      EchoAt(m, 2, InvocationIdJson); EchoAt(m, 3, Target); EchoAt(m, 4, Arguments);
    } else {
      EchoNone(m, InvocationIdJson); EchoAt(m, 2, Target); EchoAt(m, 3, Arguments);
    }
    MessageOfTyped(d, INVOCATION);
  }

  lemma EchoStreamed(m: Message)
    requires AsConstructed(m) && (m.StreamItem? || m.StreamInvocation? || m.CancelInvocation?)
    ensures MessageOf(Lower(Renamed(Attributes(m)))) == Echo(m)
  {
    var d := Lower(Renamed(Attributes(m)));
    EchoAt(m, 0, Type); EchoAt(m, 1, Headers); EchoAt(m, 2, InvocationIdJson);
    if m.StreamItem? {
      EchoAt(m, 3, Item);
    } else if m.StreamInvocation? {
      EchoAt(m, 3, Target); EchoAt(m, 4, Arguments);
    }
    MessageOfTyped(d, TypeOf(m));
  }

  lemma EchoCompletion(m: Message)
    requires AsConstructed(m) && TypeOf(m) == COMPLETION
    ensures MessageOf(Lower(Renamed(Attributes(m)))) == Echo(m)
  {
    var d := Lower(Renamed(Attributes(m)));
    EchoAt(m, 0, Type); EchoAt(m, 1, Headers); EchoAt(m, 2, InvocationIdJson);
    if m.Completion? {
      EchoAt(m, 3, ResultKey); EchoAt(m, 4, ErrorKey);
    } else {
      EchoNone(m, ResultKey); EchoNone(m, ErrorKey);
    }
    MessageOfTyped(d, COMPLETION);
  }

  lemma EchoOf(m: Message)
    requires AsConstructed(m)
    ensures MessageOf(Lower(Renamed(Attributes(m)))) == Echo(m)
  {
    if TypeOf(m) == INVOCATION {
      EchoInvocation(m);
    } else if TypeOf(m) == COMPLETION {
      EchoCompletion(m);
    } else if m.StreamItem? || m.StreamInvocation? || m.CancelInvocation? {
      EchoStreamed(m);
    } else {
      EchoAt(m, 0, Type);
      if m.Close? {
        EchoAt(m, 1, ErrorKey);
      }
      MessageOfTyped(Lower(Renamed(Attributes(m))), TypeOf(m));
    }
  }

  /** A text of one record parses as that record. */
  lemma ParseOneRecord(codec: JsonCodec, record: string)
    requires record != "" && RS !in record
    ensures ParseText(codec, record + [RS]) == ParseRecord(codec, record)
  {
    RecordsOfOne(record, [], RS);
    assert record + [RS] + [] == record + [RS];
    assert Records<char>([], RS) == [];
    assert [record] + [] == [record];
    assert [record][1..] == [];
    ThenUnit(ParseRecord(codec, record));
    assert ParseAll(codec, [record]) == Then(ParseRecord(codec, record), ParseAll(codec, []));
  }

  /** Round trip: the decoded message has the values the object held before the encoder renamed
      its keys; only the two client-stream classes and the type without a class come back as
      something else. */
  lemma JsonRoundTrip(codec: JsonCodec, m: Message)
    requires codec.Lawful() && AsConstructed(m) && RepresentableMessage(m)
    ensures ParseText(codec, TextOf(codec, Renamed(Attributes(m)))) ==
              if Echo(m).Ok? then Ok([Echo(m).value]) else Err(Echo(m).error)
    ensures Echo(m) == Ok(m) <==> !(m.InvocationClientStream? || m.CompletionClientStream? || m.BindingFailure?)
  {
    var d := Lower(Renamed(Attributes(m)));
    EncodedRepresentable(m);
    EchoOf(m);
    EchoAt(m, 0, Type);
    ParseOneRecord(codec, codec.dumps(Obj(d)));
  }

  function EncodeAll(codec: JsonCodec, ms: seq<Message>): string {
    if ms == [] then "" else TextOf(codec, Renamed(Attributes(ms[0]))) + EncodeAll(codec, ms[1..])
  }

  lemma EncodeOneMore(codec: JsonCodec, m: Message, rest: string, ms: seq<Message>)
    requires codec.Lawful() && AsConstructed(m) && RepresentableMessage(m) && Echo(m) == Ok(m)
    requires ParseText(codec, rest) == Ok(ms)
    ensures ParseText(codec, TextOf(codec, Renamed(Attributes(m))) + rest) == Ok([m] + ms)
  {
    JsonRoundTrip(codec, m);
    var text := TextOf(codec, Renamed(Attributes(m)));
    assert text[|text| - 1] == RS;
    ParseTextConcat(codec, text, rest);
  }

  /** A stream of encoded messages is read back message by message. */
  lemma {:induction false} JsonStreamRoundTrip(codec: JsonCodec, ms: seq<Message>)
    requires codec.Lawful()
    requires forall i :: 0 <= i < |ms| ==> AsConstructed(ms[i]) && RepresentableMessage(ms[i]) && Echo(ms[i]) == Ok(ms[i])
    ensures ParseText(codec, EncodeAll(codec, ms)) == Ok(ms)
  {
    if ms == [] {
      assert Records<char>([], RS) == [];
    } else {
      JsonStreamRoundTrip(codec, ms[1..]);
      EncodeOneMore(codec, ms[0], EncodeAll(codec, ms[1..]), ms[1..]);
      assert [ms[0]] + ms[1..] == ms;
    }
  }

  /* ---------- what a record means, entry by entry ---------- */

  /** A `type` entry of this number; `true` counts as one. */
  predicate TypeIs(d: Dict<Value>, code: int) {
    Find(d, Type) == Some(Num(code)) || (code == 1 && Find(d, Type) == Some(Bool(true)))
  }

  /** What a decoded message holds for one of its attributes. */
  function EntryFor(d: Dict<Value>, k: Key): Value {
    match k
    case InvocationIdAttr => FindOr(d, InvocationIdJson, Null)
    case Headers => if Find(d, Headers) == None || Find(d, Headers) == Some(Null) then Obj([]) else Find(d, Headers).value
    case StreamIdsAttr => Arr([])
    case _ => FindOr(d, k, Null)
  }

  predicate HoldsEntries(m: Message, d: Dict<Value>) {
    forall i :: 0 <= i < |Attributes(m)| && Attributes(m)[i].1.Data? ==>
      Attributes(m)[i].1.v == EntryFor(d, Attributes(m)[i].0)
  }

  lemma BuiltHolds(t: MessageType, d: Dict<Value>)
    ensures Built(t, d).Ok? ==> var m := Built(t, d).value;
            TypeOf(m) == t && !m.InvocationClientStream? && !m.CompletionClientStream? && HoldsEntries(m, d)
  {
  }

  lemma BuiltFails(t: MessageType, d: Dict<Value>)
    ensures Built(t, d).Err? <==>
              t == INVOCATION_BINDING_FAILURE
              || ((t == INVOCATION || t == STREAM_INVOCATION) && (Find(d, Target) == None || Find(d, Arguments) == None))
              || (t == STREAM_ITEM && Find(d, Item) == None)
    ensures Built(t, d).Err? ==> Built(t, d).error == if t == INVOCATION_BINDING_FAILURE then ValueError else KeyError
  {
  }

  lemma TypeFound(d: Dict<Value>, t: MessageType)
    requires TypeIs(d, Code(t))
    ensures MessageOf(d) == Built(t, d)
  {
    assert TypeOfValue(Find(d, Type).value) == Ok(t);
  }

  lemma TypeUnknown(d: Dict<Value>)
    requires Find(d, Type).Some? && forall t :: !TypeIs(d, Code(t))
    ensures MessageOf(d) == Err(ValueError)
  {
    var v := Find(d, Type).value;
    forall t ensures TypeOfValue(v) != Ok(t) {
      assert !TypeIs(d, Code(t));
    }
  }

  lemma ParseDumped(codec: JsonCodec, v: Value)
    requires codec.Lawful() && Representable(v)
    ensures ParseText(codec, codec.dumps(v) + [RS]) ==
              if !v.Obj? then Err(AttributeError)
              else if v.fields == [] then Ok([])
              else var m := MessageOf(v.fields); if m.Err? then Err(m.error) else Ok([m.value])
  {
    ParseOneRecord(codec, codec.dumps(v));
  }

  lemma UntypedMeans(d: Dict<Value>)
    requires Find(d, Type) == None
    ensures MessageOf(d) == Ok(Close(FindOr(d, ErrorKey, Null)))
  {
  }

  /** A record that is no object raises, an empty object is skipped, and one without a type is a Close. */
  lemma UntypedRecord(codec: JsonCodec, v: Value)
    requires codec.Lawful() && Representable(v) && (v.Obj? ==> Find(v.fields, Type) == None)
    ensures var r := ParseText(codec, codec.dumps(v) + [RS]);
            if !v.Obj? then r == Err(AttributeError)
            else if v.fields == [] then r == Ok([])
            else r == Ok([Close(FindOr(v.fields, ErrorKey, Null))])
  {
    ParseDumped(codec, v);
    if v.Obj? {
      UntypedMeans(v.fields);
    }
  }

  /** A record with a type: it decodes exactly when the type is one of 1 to 7 and the entries this type
      needs are there, to one message of this type which holds the record's entries; otherwise an
      unknown type raises a ValueError and a missing entry a KeyError. */
  lemma TypedRecord(codec: JsonCodec, d: Dict<Value>)
    requires codec.Lawful() && Representable(Obj(d)) && Find(d, Type) != None
    ensures var r := ParseText(codec, codec.dumps(Obj(d)) + [RS]);
            var known := exists k :: 1 <= k <= 7 && TypeIs(d, k);
            && (r.Ok? <==> known
                           && (TypeIs(d, 1) || TypeIs(d, 4) ==> Find(d, Target) != None && Find(d, Arguments) != None)
                           && (TypeIs(d, 2) ==> Find(d, Item) != None))
            && (r.Err? ==> r.error == if known then KeyError else ValueError)
            && (r.Ok? ==> |r.value| == 1 && TypeIs(d, Code(TypeOf(r.value[0]))) && HoldsEntries(r.value[0], d)
                          && !r.value[0].InvocationClientStream? && !r.value[0].CompletionClientStream?)
  {
    ParseDumped(codec, Obj(d));
    if forall t :: !TypeIs(d, Code(t)) {
      TypeUnknown(d);
      forall k | 1 <= k <= 7 ensures !TypeIs(d, k) {
        NumbersAreTypes(d, k);
      }
    } else {
      var t :| TypeIs(d, Code(t));
      TypeFound(d, t);
      BuiltHolds(t, d);
      BuiltFails(t, d);
      OneType(d, t);
    }
  }

  lemma NumbersAreTypes(d: Dict<Value>, k: int)
    requires 1 <= k <= 7 && forall t :: !TypeIs(d, Code(t))
    ensures !TypeIs(d, k)
  {
    assert !TypeIs(d, Code(INVOCATION)) && !TypeIs(d, Code(STREAM_ITEM)) && !TypeIs(d, Code(COMPLETION));
    assert !TypeIs(d, Code(STREAM_INVOCATION)) && !TypeIs(d, Code(CANCEL_INVOCATION));
    assert !TypeIs(d, Code(PING)) && !TypeIs(d, Code(CLOSE));
  }

  lemma OneType(d: Dict<Value>, t: MessageType)
    requires TypeIs(d, Code(t))
    ensures forall k :: TypeIs(d, k) <==> k == Code(t)
  {
  }

  /* ---------- handshake ---------- */

  /** The `error` entry of a decoded handshake response. */
  function ErrorEntry(data: Result<Value>): Result<Value> {
    if data.Err? then Err(data.error)
    else if !data.value.Obj? then Err(AttributeError)
    else Ok(FindOr(data.value.fields, ErrorKey, Null))
  }

  function HandshakeError(codec: JsonCodec, record: string): Result<Value> {
    ErrorEntry(codec.loads(record))
  }

  /** A handshake answer paired with the messages behind it. */
  function Pair(error: Result<Value>, messages: Result<seq<Message>>): Result<(Value, seq<Message>)> {
    if error.Err? then Err(error.error)
    else if messages.Err? then Err(messages.error)
    else Ok((error.value, messages.value))
  }

  /** `BaseHubProtocol.decode_handshake`. */
  function DecodeHandshake(codec: JsonCodec, raw: string): Result<(Value, seq<Message>)> {
    var messages := Records(raw, RS);
    if messages == [] then Err(IndexError)
    else
      var data := codec.loads(messages[0]);
      if data.Err? then Err(data.error)
      else if RS !in raw then Err(ValueError)
      else if !data.value.Obj? then Err(AttributeError)
      else
        var rest := if |messages| > 1 then ParseText(codec, raw[IndexOf(raw, RS) + 1..]) else Ok([]);
        if rest.Err? then Err(rest.error) else Ok((FindOr(data.value.fields, ErrorKey, Null), rest.value))
  }

  /** The handshake record is split off exactly: everything behind it is parsed as messages, also
      when nothing or only empty records follow. */
  lemma HandshakeSplit(codec: JsonCodec, h: string, rest: string)
    requires h != "" && RS !in h
    ensures DecodeHandshake(codec, h + [RS] + rest) == Pair(HandshakeError(codec, h), ParseText(codec, rest))
  {
    RecordsOfOne(h, rest, RS);
  }

  lemma RecordsBehindEmpty(s: string)
    ensures var raw := [RS] + s; raw[0] == RS && raw[1..] == s && Records(raw, RS) == Records(s, RS)
  {
    RecordsAtSeparator([], s, RS);
    assert [] + [RS] + s == [RS] + s;
    assert Records<char>([], RS) == [];
    assert [] + Records(s, RS) == Records(s, RS);
  }

  lemma ParseRecords(codec: JsonCodec, s: string, h: string, rest: string)
    requires Records(s, RS) == [h] + Records(rest, RS)
    ensures ParseText(codec, s) == Then(ParseRecord(codec, h), ParseText(codec, rest))
  {
    assert ([h] + Records(rest, RS))[1..] == Records(rest, RS);
  }

  /** A text that opens with an empty record is cut at that record instead, so a handshake answer
      with messages behind it is also parsed as a message. */
  lemma HandshakeAfterEmptyRecord(codec: JsonCodec, h: string, rest: string)
    requires h != "" && RS !in h && Records(rest, RS) != []
    ensures DecodeHandshake(codec, [RS] + (h + [RS] + rest)) ==
              Pair(HandshakeError(codec, h), Then(ParseRecord(codec, h), ParseText(codec, rest)))
  {
    var s := h + [RS] + rest;
    RecordsOfOne(h, rest, RS);
    RecordsBehindEmpty(s);
    ParseRecords(codec, s, h, rest);
    assert IndexOf([RS] + s, RS) == 0;
  }

  /** A handshake frame that cannot be split: without any record, without a separator, or with an answer
      that is no object. */
  lemma HandshakeFails(codec: JsonCodec, h: string, v: Value, rest: string)
    requires h != "" && RS !in h
    ensures forall raw :: Records(raw, RS) == [] ==> DecodeHandshake(codec, raw) == Err(IndexError)
    ensures DecodeHandshake(codec, h) == Err(if codec.loads(h).Err? then codec.loads(h).error else ValueError)
    ensures codec.Lawful() && Representable(v) && !v.Obj? ==>
              DecodeHandshake(codec, codec.dumps(v) + [RS] + rest) == Err(AttributeError)
  {
    OneRecord(h);
    if codec.Lawful() && Representable(v) && !v.Obj? {
      HandshakeSplit(codec, codec.dumps(v), rest);
    }
  }

  lemma OneRecord(h: string)
    requires h != "" && RS !in h
    ensures Records(h, RS) == [h]
  {
    SplitWhole(h);
    assert [h][1..] == [];
    assert NonEmpty([h]) == Kept(h) + NonEmpty([h][1..]);
  }

  lemma {:induction false} SplitWhole(h: string)
    requires RS !in h
    ensures Split(h, RS) == [h]
  {
    if h != "" {
      assert h[0] in h && forall c :: c in h[1..] ==> c in h;
      SplitWhole(h[1..]);
      assert [h[0]] + h[1..] == h;
    }
  }
}
