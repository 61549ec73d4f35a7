# A verified model of gevent-signalrclient

A gevent SignalR client keeps a websocket connection alive, re-negotiates it when it is lost, speaks
the hub protocol in JSON or MessagePack, and hands incoming messages to registered handlers. This
project models those parts in Dafny and proves what they guarantee, over every input and every
interleaving of the greenlets involved. `dafny verify dfyconfig.toml` checks all of it.

| file | what it models |
|---|---|
| `Values.dfy`, `Messages.dfy` | Python values, ordered dictionaries, exceptions as `Result`; the message classes and the attributes their constructors set |
| `Framing.dfy` | cutting a text into records at a separator |
| `Json.dfy` | the JSON protocol: decoding with its in-place dictionary writes, encoding with its in-place key renaming, record parsing, handshake splitting |
| `LengthPrefix.dfy`, `FrameReader.dfy`, `MsgPack.dfy` | the varint length prefix; the loop that reads frames, for any reader of their bodies; positional encoding and decoding, handshake splitting |
| `Reconnection.dfy` | the two reconnection handlers and the delays they grant |
| `KeepAlive.dfy` | the keep-alive loop in virtual time |
| `Transport.dfy` | the websocket transport: one function per piece of code between two gevent switch points, and a class that performs each piece field by field |
| `Machine.dfy`, `Traces.dfy`, `Runs.dfy` | the connection as a transition system over those pieces, with retries, reconnects, keep-alive loops and stops in flight; theorems over whole runs and their traces of events |
| `States.dfy` | every field of the transport after any run, told from the steps and events alone |
| `Wire.dfy` | raw chunks to dispatched messages, for any hub protocol and then for JSON and MessagePack |
| `Dispatch.dfy` | the handler registry and the dispatcher |
| `Subjects.dfy` | client-to-server streams used from many greenlets |
| `Urls.dfy` | the URL rewriting of negotiation |

## How it is modelled

- Objects the source mutates are classes (`JsonObject`, `MessageObject`, `ReconnectionHandler`,
  `ConnectionStateChecker`, `WebsocketTransport`, `Connection`, `Subject`, `Negotiator`); each method
  states its whole new state through a function, and the lemmas are about those functions.
- `json` and `msgpack` are parameters (`JsonCodec`, `PackCodec`): loading undoes dumping on the values
  the format can represent, no encoding is empty, and a JSON text contains no control character
  (section 7 of RFC 8259), so never the record separator.
- Slices and offsets in `FrameReader` are Python's, negative ones included.
- Dictionaries keep insertion order, because the JSON text depends on it; the key names the client
  itself uses are interned as constructors of `Key`, every other string is `Name`. The enumeration
  `MessageType` in a message's `type` attribute is the constructor `Tag`.
- In `Machine`, every socket write, greenlet kill, start and handshake answer is a choice. A step is
  what runs between two switch points: the greenlet kill and the negotiation inside
  `handle_reconnect`, the socket close inside `stop`, the sleep of a retry and of the keep-alive loop.
  User callbacks are atomic and do not raise. A deferred retry may wake at any time, so the state
  counts the sleeping ones.
- Callbacks and outgoing messages are recorded in traces.

## Where the code does less than hoped

These are modelled as written, shown by a concrete run or input, and the exact condition is proved.

- "Connected implies handshaken" breaks in two ways, and only these: a rejected handshake while an
  `on_open` callback is registered, and a `handle_reconnect` that returns from the greenlet kill when
  an overlapping one has already reconnected (`Machine.ConnectedMeansHandshaken`, `Machine.BreakingRuns`).
- A restart inside `handle_reconnect` leaves a connecting transport without a handshake exactly when
  nobody connected in the meantime and no handshake was received while it negotiated
  (`Machine.RestartLeaves`, `Machine.QuietRun`, `Machine.DisturbedRun`).
- One keep-alive loop lives at a time exactly when between any two loops that start, a loop ended; a
  stop and a start within one sleep leave two (`Runs.SingleLoop`, `Runs.TwoLoops`).
- The checker can be marked as running while no loop lives, and then no handshake starts one until the
  checker is stopped: exactly when a loop dies of an exception while the checker is running
  (`Runs.WatchedRun`, `Runs.UnwatchedUntilStopped`, `Runs.UnwatchedRun`).
- How a stream is cut does not matter exactly when every chunk can be decoded, or those that can hold no
  message: a record that cannot be decoded takes the rest of its chunk with it (`Wire.CuttingIndependence`,
  `Wire.CutMatters`), and in the first chunk the handshake answer too (`Wire.ChunkingIndependence`).
- A completion whose error is a number or a boolean raises in the dispatcher: its handlers are neither
  called nor unregistered, and the rest of the batch is lost (`Dispatch.Connection.OnMessage`).
- MessagePack: encoding and decoding agree on exactly four message classes, and the reader understands
  exactly the frames shorter than 128 bytes (`MsgPack.FrameRoundTrip`).
- A negative length header sends the MessagePack reader back. It still ends, but near the start of the
  buffer the same bytes can be two messages or a failure, depending on what is in front of them
  (`MsgPack.ParseMessages`, `MsgPack.TurningBack`).
- The raw handler grants one delay more than its maximum number of attempts (`Reconnection.CallsFrom`).
- A JSON frame that opens with an empty record has its handshake answer parsed as a message too when
  more records follow (`Json.HandshakeAfterEmptyRecord`).
- A handler registered by `send` or `stream` stays registered when the write raises
  (`Dispatch.Connection.Stream`, `Dispatch.Connection.Send`).

## Model

| member | source | states |
|---|---|---|
| Framing.RecordsConcat | geventsignalrclient/protocol/json.py:32-36 | record framing of a concatenation is the concatenation of the framings exactly when the cut tears no record apart; otherwise one record is lost |
| Framing.JoinSplit | geventsignalrclient/protocol/json.py:32-36 | joining the split pieces gives the text back, and no piece holds a separator |
| Framing.SplitJoin | geventsignalrclient/protocol/json.py:32-36 | separator-free pieces survive joining and splitting |
| Json.GetMessage | geventsignalrclient/protocol/__init__.py:29-78 | although it writes four keys into the dictionary first, the message (or the failure) is the one the untouched dictionary means under its wire names |
| Json.RawMessages | geventsignalrclient/protocol/json.py:32-36 | the comprehension yields the non-empty records |
| Json.ParseMessages | geventsignalrclient/protocol/json.py:31-43 | the loop yields the decodings of the records in order, empty objects skipped, the first failure wins |
| Json.ParseTextConcat | geventsignalrclient/protocol/json.py:31-43 | parsing is a homomorphism over every cut on a record boundary |
| Json.ParseFramed | geventsignalrclient/protocol/json.py:31-43 | separator-terminated records parse to their own decodings in order |
| Json.Default | geventsignalrclient/protocol/json.py:12-23 | the object's dictionary ends up with both keys renamed |
| Json.Encode | geventsignalrclient/protocol/json.py:45-46 | the text is that of the renamed dictionary plus the separator, and the object stays renamed |
| Json.FindRenamed | geventsignalrclient/protocol/json.py:12-23 | after renaming, the wire names hold what the attribute names held, the attribute names are gone, everything else is untouched |
| Json.WireNames | geventsignalrclient/protocol/json.py:12-23 | the names of each text in their order: the renamed ones go last, the invocation id before the stream ids |
| Json.EncodeTwice | geventsignalrclient/protocol/json.py:12-23 | encoding the same object again gives the same text and the same dictionary |
| Json.JsonRoundTrip | geventsignalrclient/protocol/json.py:10-46 | decoding an encoded message gives its pre-encoding values for exactly seven classes, and what the other classes come back as |
| Json.JsonStreamRoundTrip | geventsignalrclient/protocol/json.py:31-46 | a stream of encoded messages parses back to the same list |
| Json.UntypedRecord | geventsignalrclient/protocol/json.py:38-43 | a record that is no object raises, an empty object is skipped, one without a type is a Close with the record's error |
| Json.TypedRecord | geventsignalrclient/protocol/__init__.py:29-78 | a record with a type decodes exactly when the type is one of 1 to 7 and its entries are there, to one message of that type holding the record's entries (missing headers as empty ones); otherwise which exception it raises |
| Json.HandshakeSplit | geventsignalrclient/protocol/__init__.py:80-87 | for every handshake record and every rest, the result is the record's error and the parse of the rest |
| Json.HandshakeAfterEmptyRecord | geventsignalrclient/protocol/__init__.py:81-87 | behind an empty record the handshake record is parsed as a message as well |
| Json.HandshakeFails | geventsignalrclient/protocol/__init__.py:80-87 | which exception a frame without records, without a separator or with an answer that is no object raises |
| LengthPrefix.ToVarint | geventsignalrclient/protocol/msgpack.py:167-180 | the loop produces the base-128 groups of the value |
| LengthPrefix.ReadVarintOf | geventsignalrclient/protocol/msgpack.py:167-180 | an independent reader recovers every number and the length of its prefix, whatever follows |
| LengthPrefix.VarintOfRead | geventsignalrclient/protocol/msgpack.py:167-180 | conversely, a fully read byte string is the prefix of its number exactly when it is not padded |
| LengthPrefix.TopBits | geventsignalrclient/protocol/msgpack.py:170-178 | the top bit marks every byte but the last |
| LengthPrefix.LengthBound | geventsignalrclient/protocol/msgpack.py:167-180 | k bytes are enough exactly for numbers below 128 to the power k |
| LengthPrefix.PrefixFree | geventsignalrclient/protocol/msgpack.py:167-180 | no prefix starts another one |
| MsgPack.Collect | geventsignalrclient/protocol/msgpack.py:77-83 | the loop collects the attributes an object has, in the order of the names |
| MsgPack.EncodeMessage | geventsignalrclient/protocol/msgpack.py:74-84 | the array of an object's attributes in priority order |
| MsgPack.EncodedLayout | geventsignalrclient/protocol/msgpack.py:24-34 | class by class, which array that is |
| MsgPack.DecodePrescribed | geventsignalrclient/protocol/msgpack.py:86-165 | the decoder reads the array the protocol prescribes back to its message, whatever elements follow, for every message but a completion with both a result and an error, of which the error remains |
| MsgPack.DecodeOthers | geventsignalrclient/protocol/msgpack.py:86-165 | an array that ends too early raises an index error, an unknown type a value error, and null headers are read as empty ones |
| MsgPack.DecodeNoArray | geventsignalrclient/protocol/msgpack.py:86-96 | which exception an unpacked value that is no array raises |
| MsgPack.ValueRoundTrip | geventsignalrclient/protocol/msgpack.py:74-165 | encoder and decoder agree, and the encoder follows the protocol, on exactly four classes; four others always fail with an index error |
| MsgPack.CompletionRoundTrip | geventsignalrclient/protocol/msgpack.py:119-144 | an encoded completion decodes exactly when its result is 2, and loses it |
| MsgPack.ReaderBoundary | geventsignalrclient/protocol/msgpack.py:43 | the one-byte reader recovers a length from its prefix exactly below 128 |
| FrameReader.LengthBytes | geventsignalrclient/protocol/msgpack.py:43 | which bytes the reader takes for a length: the numbers from -32 to 127 and the booleans; nil and the empty containers raise a type error, all others a value error |
| FrameReader.ReadFrame | geventsignalrclient/protocol/msgpack.py:43-45 | one turn of the loop on any bytes: the offset may go below zero, but the place it stands for always moves forward |
| MsgPack.ParseMessages | geventsignalrclient/protocol/msgpack.py:39-49 | the offset loop ends on every input, negative headers included, and yields the messages of its turns in order |
| MsgPack.Encode | geventsignalrclient/protocol/msgpack.py:64-72 | a frame is the varint length of the packed array and the array |
| MsgPack.ParseBytesConcat | geventsignalrclient/protocol/msgpack.py:39-49 | parsing is a homomorphism over every cut between two frames when the second part does not lead the reader to a negative header; if it does, the parse fails behind 31 bytes |
| MsgPack.TurningBack | geventsignalrclient/protocol/msgpack.py:43-45 | nearer to the start it need not: six bytes that are two pings by themselves and a failure behind a ping |
| MsgPack.FrameRoundTrip | geventsignalrclient/protocol/msgpack.py:39-165 | a message survives encoding and parsing exactly when it is of one of four classes and its body is shorter than 128 bytes |
| MsgPack.StreamRoundTrip | geventsignalrclient/protocol/msgpack.py:39-165 | a stream of such messages parses back to the same list |
| MsgPack.HandshakeSplit | geventsignalrclient/protocol/msgpack.py:51-63 | the frame is cut at its first separator: a failure of the messages behind it, else the error of what is before it paired with them; without a separator all of it is handshake |
| MsgPack.HandshakeText | geventsignalrclient/protocol/msgpack.py:58-62 | in a text frame the answer reaches up to the first closing brace and everything behind it is lost; without a brace it raises |
| Reconnection.ReconnectionHandler.Next | geventsignalrclient/transport/__init__.py:134-159 | the delay or the refusal of both handler classes, and the attempt number left behind |
| Reconnection.ReconnectionHandler.Reset | geventsignalrclient/transport/__init__.py:123-125 | attempt number and mark are cleared |
| Reconnection.CallsFrom | geventsignalrclient/transport/__init__.py:134-159 | consecutive calls return exactly the budget in order (maximum plus one copies of the sleep time, or the intervals) and then fail for ever |
| KeepAlive.ConnectionStateChecker.Run | geventsignalrclient/transport/__init__.py:103-108 | for every schedule of the other greenlets' sends and stops, the pings are those of the specified wake-ups |
| KeepAlive.SilenceBound | geventsignalrclient/transport/__init__.py:103-108 | after the first wake-up the time since the last send never exceeds the interval plus one sleep |
| KeepAlive.PingsApart | geventsignalrclient/transport/__init__.py:103-108 | two pings are more than an interval apart |
| KeepAlive.TrafficSuppressesPings | geventsignalrclient/transport/__init__.py:103-108 | if up to the end of the schedule no two sends in a row are more than an interval apart, there is no ping |
| KeepAlive.PingsOnlyInSilence | geventsignalrclient/transport/__init__.py:103-108 | for every schedule, there is no ping exactly when at each wake-up until the checker is stopped the others have sent within the last interval |
| KeepAlive.FirstPing | geventsignalrclient/transport/__init__.py:103-108 | the first ping goes out at the first wake-up more than an interval after the others' last send |
| Transport.WebsocketTransport.constructor | geventsignalrclient/transport/websocket.py:34-56 | a disconnected transport without socket and handshake |
| Transport.WebsocketTransport.BeginStop | geventsignalrclient/transport/websocket.py:97-99 | only a connected transport is stopped, and first of all its checker |
| Transport.WebsocketTransport.EndStop | geventsignalrclient/transport/websocket.py:102-103 | once the socket is closed the transport is disconnected without a handshake, whatever has happened meanwhile |
| Transport.WebsocketTransport.Stop | geventsignalrclient/transport/websocket.py:97-103 | the two without a switch between them: a connected transport is cleared, any other is left as it is |
| Transport.WebsocketTransport.Start | geventsignalrclient/transport/websocket.py:109-128 | behind the negotiation: a connected transport stays as it is, any other connects |
| Transport.WebsocketTransport.EvaluateHandshake | geventsignalrclient/transport/websocket.py:211-228 | acceptance and rejection, with the keep-alive loop started at most once |
| Transport.WebsocketTransport.OnMessage | geventsignalrclient/transport/websocket.py:263-274 | new state, messages handed on and callbacks, for handshake answers, hub messages and undecodable input |
| Transport.HandshakeOutcome | geventsignalrclient/transport/websocket.py:211-228 | an answer is accepted exactly when its error is missing or empty; what each answer, with or without a Close behind it, leaves in every field |
| Transport.WebsocketTransport.OnSocketClose | geventsignalrclient/transport/websocket.py:234-241 | disconnected, the handshake flag untouched |
| Transport.WebsocketTransport.OnSocketError | geventsignalrclient/transport/websocket.py:249-261 | disconnected after the close callback |
| Transport.WebsocketTransport.Send | geventsignalrclient/transport/websocket.py:276-300 | written: handler reset; connection lost: reconnect begun or exception; otherwise: nothing changes and the exception passes |
| Transport.WebsocketTransport.HandleReconnect | geventsignalrclient/transport/websocket.py:302-312 | up to the greenlet kill: one notification unless already marked, and `stop` has no effect |
| Transport.WebsocketTransport.ResumeReconnect | geventsignalrclient/transport/websocket.py:316-317 | after the kill the handshake flag is cleared |
| Transport.WebsocketTransport.FinishReconnect | geventsignalrclient/transport/websocket.py:318-319 | a start that returns |
| Transport.WebsocketTransport.FailReconnect | geventsignalrclient/transport/websocket.py:320-323 | a start that raises asks the handler for a delay |
| Transport.WebsocketTransport.FailRetry | geventsignalrclient/transport/websocket.py:330-333 | a retry that raises clears the mark |
| Machine.BasicRun | geventsignalrclient/transport/websocket.py:52-55 | on every run `connection_alive` stays false, the reconnecting state is never entered, and without a handler nothing is in flight |
| Machine.ConnectedMeansHandshaken | geventsignalrclient/transport/websocket.py:211-333 | over every run, connected implies handshaken in all states exactly when neither of two moves occurs |
| Machine.BreakingRuns | geventsignalrclient/transport/websocket.py:265-269 | both moves can occur |
| Machine.RestartLeaves | geventsignalrclient/transport/websocket.py:105-128 | when exactly a restart leaves a connecting transport without a handshake |
| Machine.QuietRun | geventsignalrclient/transport/websocket.py:302-319 | over every run, negotiating reconnects see neither handshake nor connection exactly when no disturbing move occurs |
| Machine.UndisturbedRestart | geventsignalrclient/transport/websocket.py:302-319 | on undisturbed runs every restart is fresh and the next raw message is read as a handshake |
| Machine.DisturbedRun | geventsignalrclient/transport/websocket.py:302-319 | two overlapping reconnects can end connecting with the handshake flag set |
| Runs.BudgetShared | geventsignalrclient/transport/__init__.py:123-159 | in every interleaving the delays granted since the last written message are a prefix of the budget in order, and a refusal means all of it was granted |
| Runs.UnboundedNeverRefuses | geventsignalrclient/transport/__init__.py:134-143 | without a maximum every request is granted the sleep time |
| Runs.RetriesDieOut | geventsignalrclient/transport/websocket.py:276-333 | without a written message, retries that wake plus retries left stay constant, and the machinery's own steps are bounded |
| Runs.EverythingFails | geventsignalrclient/transport/websocket.py:302-333 | when everything fails, all delays left are granted and used, and start attempts are those delays plus the sends |
| Runs.OneNoticePerOutage | geventsignalrclient/transport/websocket.py:302-306 | between two reconnect notifications lies a written message, an accepted handshake or a retry that raised |
| Runs.OneLoopBetweenStops | geventsignalrclient/transport/websocket.py:218-221 | between two starts of a keep-alive loop the checker was stopped |
| Runs.LoopsBounded | geventsignalrclient/transport/__init__.py:99-111 | over every run, the loops that live grow by at most one for every stop of the checker and one more while it runs |
| Runs.SingleLoop | geventsignalrclient/transport/websocket.py:218-221 | over every run, at most one loop lives in all states exactly when between any two loops that start, a loop ended |
| Runs.TwoLoops | geventsignalrclient/transport/websocket.py:97-103 | a stop and a start within one sleep leave two loops |
| Runs.WatchedRun | geventsignalrclient/transport/__init__.py:103-111 | over every run with at most one loop at a time, a running checker always has a loop exactly when no loop dies of an exception while the checker runs |
| Runs.UnwatchedUntilStopped | geventsignalrclient/transport/websocket.py:218-221 | a running checker without a loop stays so, and no handshake starts a loop, until the checker is stopped |
| Runs.UnwatchedRun | geventsignalrclient/transport/__init__.py:103-108 | a ping that raises leaves a running checker without a loop |
| Runs.LossReported | geventsignalrclient/transport/websocket.py:234-300 | without a reconnection handler, every run from a live state to a disconnected one calls the close callback unless a `stop` ended it |
| Runs.LastMessageRun | geventsignalrclient/transport/websocket.py:282 | on every run the time the loop compares with is that of the last written message |
| Runs.OnMessageIsRun | geventsignalrclient/transport/websocket.py:263-274 | what `on_message` does undisturbed is a run of the machine with the same events |
| States.FieldsOfRun | geventsignalrclient/transport/websocket.py:97-333 | after every run: connected, disconnected, handshaken and with a socket, each exactly when a step of one kind has no step of another kind behind it |
| States.MarkOfRun | geventsignalrclient/transport/websocket.py:302-333 | after every run the handler is marked exactly when a lost send or an answer of `next` has no written message, accepted handshake or raising retry behind it |
| States.NotifiedExactly | geventsignalrclient/transport/websocket.py:302-306 | on every run a lost send is notified exactly when nothing before it is in that way still open, and there are no other notifications |
| States.RunningOfRun | geventsignalrclient/transport/websocket.py:97-99 | after every run the checker is running exactly when an accepted handshake has no stop of the checker behind it |
| States.AttemptsOfRun | geventsignalrclient/transport/__init__.py:114-159 | after every run the attempt number counts the attempts since the last written message, by each handler's own rule |
| States.CallbackCounts | geventsignalrclient/transport/websocket.py:211-300 | on every run the open callback is called once for every handshake answer, the close callback once for every closed socket, rejection and, without a handler, lost send |
| States.EventCounts | geventsignalrclient/transport/websocket.py:211-333 | every written message, lost send, answer and start attempt of a run is in its trace exactly once |
| Wire.CuttingIndependence | geventsignalrclient/transport/websocket.py:263-274 | for any protocol that respects its cuts, behind the handshake: the messages handed to the dispatcher are those of one chunk exactly when every chunk decodes or the decodable ones hold none |
| Wire.ChunkingIndependence | geventsignalrclient/transport/websocket.py:263-274 | the same from the chunk with an accepted handshake on; if that chunk cannot be decoded, the following ones are read as handshake answers |
| Wire.CutMatters | geventsignalrclient/transport/websocket.py:263-274 | a message record and an undecodable one: dispatched in two chunks, lost in one |
| Wire.JsonChunking | geventsignalrclient/transport/websocket.py:263-274 | the exact condition for JSON, cut between records |
| Wire.JsonDelivery | geventsignalrclient/transport/websocket.py:263-274 | encoded messages reach the dispatcher unchanged and in order, however the stream is cut |
| Wire.JsonAnswer | geventsignalrclient/transport/websocket.py:211-228 | in terms of the entries of the JSON answer: accepted exactly when `error` is missing, null or empty, and the state and handshake flag that follow |
| Wire.UsualDelivery | geventsignalrclient/transport/websocket.py:211-274 | delivery behind the usual answer, an empty object |
| Wire.JsonToHandler | geventsignalrclient/transport/websocket.py:263-274 | and a registered handler is called exactly for those of its id, in order, up to the first that ends it |
| Wire.MsgPackChunking | geventsignalrclient/transport/websocket.py:263-274 | the exact condition for MessagePack, cut between frames, when the last chunk does not turn the reader back |
| Wire.MsgPackAnswer | geventsignalrclient/transport/websocket.py:211-228 | the same outcome of an answer for MessagePack |
| Dispatch.Connection.On | geventsignalrclient/connection.py:344-352 | the handler goes last |
| Dispatch.Connection.Stream | geventsignalrclient/connection.py:518-547 | the handler is registered before the request is submitted, and stays when the transport raises |
| Dispatch.Connection.Send | geventsignalrclient/connection.py:354-418 | the error cases change nothing; otherwise registration, if asked for, precedes submission |
| Dispatch.Connection.Matching | geventsignalrclient/connection.py:454-462 | the filter keeps the handlers of the id, in order |
| Dispatch.Connection.Unregister | geventsignalrclient/connection.py:468-474 | the filter keeps the handlers of other ids, in order |
| Dispatch.Connection.Dispatch | geventsignalrclient/connection.py:421-516 | per message type, which callbacks are called, which handlers remain, and when the dispatcher raises |
| Dispatch.Connection.OnMessage | geventsignalrclient/connection.py:420-516 | a batch has the effect of its messages up to and including the first Close or the first that raises |
| Dispatch.BatchConcat | geventsignalrclient/connection.py:420-448 | two batches are one joint batch when nothing ends the first; otherwise the joint batch ends where the first does |
| Dispatch.PresentEvents | geventsignalrclient/connection.py:449-516 | which callback a message calls: completion for a completion, next for an item, error for a cancellation, the last two for stream handlers only |
| Dispatch.RegistrationOrder | geventsignalrclient/connection.py:427-516 | handlers are called in the order of their registration, and the error callback before them |
| Dispatch.ReportsProjection | geventsignalrclient/connection.py:445-452 | on every run the error callback is called exactly for completions with a non-empty error, and the connection is stopped once for every Close that is dispatched |
| Messages.ReachedIs | geventsignalrclient/connection.py:445-452 | a batch is handled up to and including its first Close or completion with an unmeasurable error, otherwise whole |
| Dispatch.HandlerProjection | geventsignalrclient/connection.py:449-516 | in any interleaving a handler's calls are, callback by callback, those of the messages of its id dispatched after its registration, in order, up to and including the first completion or cancellation |
| Dispatch.CallProjection | geventsignalrclient/connection.py:420-516 | the same over whole calls of `on_message`, each cut where it ends, with registrations between and inside them |
| Dispatch.OnProjection | geventsignalrclient/connection.py:427-444 | a handler registered with `on` gets exactly the arguments of its target's invocations after its registration |
| Dispatch.RegistryAgreement | geventsignalrclient/connection.py:468-516 | in every reachable state the registry is the registered handlers minus the ended ones, in registration order |
| Dispatch.RetiredForGood | geventsignalrclient/connection.py:468-516 | a handler that has left the registry never comes back |
| Subjects.Subject.SetTarget | geventsignalrclient/messages/__init__.py:378-391 | attaches the subject |
| Subjects.Subject.Enter | geventsignalrclient/messages/__init__.py:393-428 | under the lock: the frame, or the exception of an unattached subject, which leaves it unlocked |
| Subjects.FrameContents | geventsignalrclient/messages/__init__.py:393-428 | the start frame has the target asked for and the subject's id as its only stream id; item and completion frames carry that id, an item frame the item; an unattached subject makes none |
| Subjects.BodyTells | geventsignalrclient/messages/__init__.py:393-428 | a frame determines its subject, its kind and its data |
| Subjects.StreamOrdering | geventsignalrclient/messages/__init__.py:365-428 | whatever the greenlets do, a subject's start frame is submitted first, and a greenlet's frames are its calls in order |
| Subjects.StreamFrames | geventsignalrclient/messages/__init__.py:393-428 | on every run each frame is the one its call asked for, and each item or completion frame has a start frame before it whose only stream id is its invocation id |
| Subjects.FrameTakesLock | geventsignalrclient/messages/__init__.py:393-428 | handing a frame over takes the subject's free lock for the greenlet that calls |
| Subjects.LockedMeanwhile | geventsignalrclient/messages/__init__.py:393-428 | while the lock is held no other frame of the subject is handed over, whatever the greenlets do |
| Subjects.LockFreed | geventsignalrclient/messages/__init__.py:393-428 | once it is given back any waiting greenlet can take it and its frame is handed over |
| Urls.NegotiateUrlOfForms | geventsignalrclient/transport/websocket.py:130-167 | the negotiation address is the same for both forms of a URL and for trailing slashes |
| Urls.NegotiateAddress | geventsignalrclient/transport/websocket.py:150-167 | it has scheme http or https, the same place and query, and the path without its last slashes followed by "/negotiate" |
| Urls.EncodeTwice | geventsignalrclient/transport/websocket.py:169-177 | a second connection id replaces the first |
| Urls.ParsedFlat | geventsignalrclient/transport/websocket.py:172-175 | parsing a flattened query gives it back |
| Urls.EncodedQuery | geventsignalrclient/transport/websocket.py:169-177 | the query is grouped by name in first-occurrence order, the id in its old place or last |
| Urls.EncodedValues | geventsignalrclient/transport/websocket.py:169-177 | exactly one id, and every other name keeps its non-blank values |
| Urls.EncodedPlace | geventsignalrclient/transport/websocket.py:169-177 | the scheme is the websocket one, and place, path and fragment stay |
| Urls.Negotiator.Negotiate | geventsignalrclient/transport/websocket.py:188-209 | the URL and the authorization after each kind of answer |
| Urls.NegotiatedOnce | geventsignalrclient/transport/websocket.py:188-209 | what one answer makes of the URL, part by part |
| Urls.NegotiatedScheme | geventsignalrclient/transport/websocket.py:179-209 | after any number of negotiations of a web address: a websocket address as soon as an id or a redirect was received, as secure as before without a redirect |
| Urls.NegotiationDoesNotAccumulate | geventsignalrclient/transport/websocket.py:179-209 | after any number of negotiations the URL is the last redirect (or the original) with just the last id |

## Left out

- Sockets, TLS, the HTTP request, `websocket.WebSocketApp` and gevent itself: their outcomes are choices or parameters.
- The inside of `json`, `msgpack` and `urllib.parse`: floats, binary values, percent-encoding and URL splitting are not modelled.
- MsgPack.ParseBytesConcat: does not say what becomes of a negative header behind fewer than 31 bytes, beyond `TurningBack`; the bytes then mean something else for every length in front.
- Wire.MsgPackChunking: for the same reason asks that the last chunk does not turn the reader back; the other chunks are whole frames and cannot.
- Transport.WebsocketTransport.Stop: runs `BeginStop` and `EndStop` without a switch between them; `Machine` lets other greenlets in between.
- KeepAlive.ConnectionStateChecker.Run: runs for as many sleeps as the schedule covers, and its pings succeed; failing pings are steps of `Machine`.
- Wire.JsonChunking: asks that no chunk but the last makes the dispatcher meet a Close, which stops the transport and makes the next raw message a handshake again.
- What `websocket.WebSocketApp` does with an exception that `on_message` raises: it may change the connection state, but how later chunks are read depends on the handshake flag alone.
- Which websocket a raw message comes from: in `Machine` any websocket that was ever started may still speak. The theorems cover these runs too; the concrete runs use only websockets nobody has killed.
- Runs.EverythingFails: excludes greenlets killed from outside, which end a reconnect without asking for a delay, and retries whose write raises something other than a lost connection, which end their chain.
- The time a deferred retry sleeps: any retry may wake at any time.
- `ConnectionBuilder`, argument validation of `subscribe`, token refresh, header contents, logging, tracing, UUID generation and exception texts: single-branch checks or plumbing.
- User callbacks that raise, block or call back into the client while a message is being dispatched.
