/** The loop that reads length-prefixed frames (`parse_messages` in protocol/msgpack.py), for any way of
    reading a frame's body. The length is one byte, slices are Python's, and an offset below zero counts
    from the end of the buffer. */
module FrameReader {
  import opened Values
  import opened LengthPrefix

  /* ---------- the loop, for any way of taking a turn ---------- */

  /** One turn at an offset: the item read, and the next offset. */
  type Turn<!T> = int -> Result<(T, int)>

  /** The place an offset stands for in a buffer of `n` bytes. */
  function Place(n: nat, offset: int): int {
    if offset < 0 then n + offset else offset
  }

  /** The offset can go below zero, but its place in the buffer always moves forward. */
  ghost predicate Advances<T(!new)>(turn: Turn<T>, n: nat) {
    forall o: int :: o < n && turn(o).Ok? ==> Place(n, o) < Place(n, turn(o).value.1)
  }

  function Loop<T(!new)>(turn: Turn<T>, n: nat, offset: int): Result<seq<T>>
    requires Advances(turn, n)
    decreases n - Place(n, offset)
  {
    if offset >= n then Ok([])
    else
      var t := turn(offset);
      if t.Err? then Err(t.error) else Then(Ok([t.value.0]), Loop(turn, n, t.value.1))
  }

  lemma LoopTurn<T(!new)>(turn: Turn<T>, n: nat, offset: int)
    requires Advances(turn, n) && offset < n
    ensures var t := turn(offset);
            Loop(turn, n, offset) == if t.Err? then Err(t.error) else Then(Ok([t.value.0]), Loop(turn, n, t.value.1))
    ensures turn(offset).Ok? ==> Place(n, offset) < Place(n, turn(offset).value.1)
  {
  }

  /** From `offset` on the loop gets to one of the `back` offsets; all other turns move ahead. */
  ghost predicate GetsTo<T(!new)>(turn: Turn<T>, n: nat, back: int -> bool, offset: int)
    requires Advances(turn, n)
    decreases n - Place(n, offset)
  {
    offset < n && (back(offset) || (turn(offset).Ok? && GetsTo(turn, n, back, turn(offset).value.1)))
  }

  /** The same item, the next offset `d` later. */
  ghost predicate Shifted<T>(part: Result<(T, int)>, whole: Result<(T, int)>, d: nat) {
    if part.Err? then whole == Err(part.error)
    else part.value.1 >= 0 && whole == Ok((part.value.0, d + part.value.1))
  }

  /** The turns of `whole` from `d` on are those of `part`, but for the `back` offsets, which are failures. */
  ghost predicate Continues<T(!new)>(whole: Turn<T>, d: nat, part: Turn<T>, n: nat, back: int -> bool) {
    forall o: int :: 0 <= o < n && !back(o) ==> Shifted(part(o), whole(d + o), d)
  }

  lemma {:induction false} LoopContinues<T(!new)>(whole: Turn<T>, d: nat, part: Turn<T>, n: nat, back: int -> bool,
                                                  offset: nat)
    requires Advances(whole, d + n) && Advances(part, n) && Continues(whole, d, part, n, back)
    requires !GetsTo(part, n, back, offset)
    ensures Loop(whole, d + n, d + offset) == Loop(part, n, offset)
    decreases n - offset
  {
    if offset < n && part(offset).Ok? {
      LoopContinues(whole, d, part, n, back, part(offset).value.1);
    }
  }

  lemma {:induction false} LoopFails<T(!new)>(whole: Turn<T>, d: nat, part: Turn<T>, n: nat, back: int -> bool,
                                              error: Error, offset: nat)
    requires Advances(whole, d + n) && Advances(part, n) && Continues(whole, d, part, n, back)
    requires forall o: int :: 0 <= o < n && back(o) ==> whole(d + o) == Err(error)
    requires GetsTo(part, n, back, offset)
    ensures Loop(whole, d + n, d + offset) == Err(error)
    decreases n - offset
  {
    if !back(offset) {
      LoopFails(whole, d, part, n, back, error, part(offset).value.1);
    }
  }

  /** `behind(d + o)` says of the whole buffer what `back(o)` says of the part. */
  lemma {:induction false} GetsToContinues<T(!new)>(whole: Turn<T>, d: nat, part: Turn<T>, n: nat, back: int -> bool,
                                                    behind: int -> bool, offset: nat)
    requires Advances(whole, d + n) && Advances(part, n) && Continues(whole, d, part, n, back)
    requires forall o: int :: 0 <= o < n ==> (back(o) <==> behind(d + o))
    ensures GetsTo(whole, d + n, behind, d + offset) <==> GetsTo(part, n, back, offset)
    decreases n - offset
  {
    if offset < n && !back(offset) && part(offset).Ok? {
      GetsToContinues(whole, d, part, n, back, behind, part(offset).value.1);
    }
  }

  /** The whole part. */
  lemma PartContinues<T(!new)>(whole: Turn<T>, total: nat, d: nat, part: Turn<T>, n: nat, back: int -> bool)
    requires total == d + n && Advances(whole, total) && Advances(part, n) && Continues(whole, d, part, n, back)
    requires !GetsTo(part, n, back, 0)
    ensures Loop(whole, total, d) == Loop(part, n, 0)
  {
    LoopContinues(whole, d, part, n, back, 0);
  }

  lemma PartFails<T(!new)>(whole: Turn<T>, total: nat, d: nat, part: Turn<T>, n: nat, back: int -> bool, error: Error)
    requires total == d + n && Advances(whole, total) && Advances(part, n) && Continues(whole, d, part, n, back)
    requires forall o: int :: 0 <= o < n && back(o) ==> whole(d + o) == Err(error)
    requires GetsTo(part, n, back, 0)
    ensures Loop(whole, total, d) == Err(error)
  {
    LoopFails(whole, d, part, n, back, error, 0);
  }

  lemma PartGetsTo<T(!new)>(whole: Turn<T>, total: nat, d: nat, part: Turn<T>, n: nat, back: int -> bool,
                            behind: int -> bool)
    requires total == d + n && Advances(whole, total) && Advances(part, n) && Continues(whole, d, part, n, back)
    requires forall o: int :: 0 <= o < n ==> (back(o) <==> behind(d + o))
    ensures GetsTo(whole, total, behind, d) <==> GetsTo(part, n, back, 0)
  {
    GetsToContinues(whole, d, part, n, back, behind, 0);
  }

  /* ---------- one turn of the frame reader ---------- */

  /** `msgpack.unpackb` of one byte, used as an integer: positive and negative fixints (the
      MessagePack specification's "int format family"), and the booleans, which count as 0 and 1.
      Nil, an empty map, list or string cannot be added to the offset, and every other byte
      announces bytes that are not there. */
  function UnpackByte(b: byte): Result<int> {
    if b < 0x80 then Ok(b)
    else if b >= 0xE0 then Ok(b - 256)
    else if b == 0xC2 then Ok(0)
    else if b == 0xC3 then Ok(1)
    else if b == 0xC0 || b == 0x80 || b == 0x90 || b == 0xA0 then Err(TypeError)
    else Err(ValueError)
  }

  /** One byte is a length exactly when it is a number in two's complement between -32 and 127, or a
      boolean; nil and the empty containers can be unpacked but not added. */
  lemma LengthBytes(b: byte, n: int)
    ensures b != 0xC2 && b != 0xC3 ==> (UnpackByte(b) == Ok(n) <==> -32 <= n <= 127 && (n == b || n == b - 256))
    ensures UnpackByte(0xC2) == Ok(0) && UnpackByte(0xC3) == Ok(1)
    ensures UnpackByte(b) == Err(TypeError) <==> b == 0xC0 || b == 0x80 || b == 0x90 || b == 0xA0
    ensures UnpackByte(b).Err? ==> UnpackByte(b).error == TypeError || UnpackByte(b).error == ValueError
  {
  }

  /** Where one end of a slice lies: a negative index counts from the end, and both are clamped. */
  function Bound(i: int, n: nat): nat {
    if i >= n then n else if i >= 0 then i else if n + i >= 0 then n + i else 0
  }

  /** `raw[from:to]`. */
  function Slice(raw: seq<byte>, from: int, to: int): seq<byte> {
    var i, j := Bound(from, |raw|), Bound(to, |raw|);
    if i <= j then raw[i..j] else []
  }

  /** `msgpack.unpackb` raises on no bytes at all: a header behind the end, an empty body. */
  function UnpackHeader(piece: seq<byte>): Result<int> {
    if piece == [] then Err(ValueError) else UnpackByte(piece[0])
  }

  function Body<T>(read: seq<byte> -> Result<T>, piece: seq<byte>): Result<T> {
    if piece == [] then Err(ValueError) else read(piece)
  }

  /** One turn of the reading loop: the item of the frame at `offset`, and the next offset. */
  function ReadFrame<T>(read: seq<byte> -> Result<T>, raw: seq<byte>, offset: int): (r: Result<(T, int)>)
    ensures offset < |raw| && r.Ok? ==> Place(|raw|, offset) < Place(|raw|, r.value.1)
  {
    var length := UnpackHeader(Slice(raw, offset, offset + 1));
    if length.Err? then Err(length.error)
    else
      var next := offset + length.value + 1;
      var m := Body(read, Slice(raw, offset + 1, next));
      if m.Err? then Err(m.error) else Ok((m.value, next))
  }

  function TurnOf<T(!new)>(read: seq<byte> -> Result<T>, raw: seq<byte>): (turn: Turn<T>)
    ensures Advances(turn, |raw|)
  {
    offset => ReadFrame(read, raw, offset)
  }

  function Parse<T(!new)>(read: seq<byte> -> Result<T>, raw: seq<byte>): Result<seq<T>> {
    Loop(TurnOf(read, raw), |raw|, 0)
  }

  /* ---------- turning back ---------- */

  /** The header at this offset is negative. */
  function Negative(raw: seq<byte>): int -> bool {
    o => 0 <= o < |raw| && UnpackByte(raw[o]).Ok? && UnpackByte(raw[o]).value < 0
  }

  /** The reader gets to a negative header. */
  ghost predicate TurnsBack<T(!new)>(read: seq<byte> -> Result<T>, raw: seq<byte>) {
    GetsTo(TurnOf(read, raw), |raw|, Negative(raw), 0)
  }

  lemma SliceAt(raw: seq<byte>, offset: nat, n: nat)
    requires offset < |raw|
    ensures Slice(raw, offset, offset + 1) == [raw[offset]]
    ensures Slice(raw, offset + 1, offset + n + 1) == raw[offset + 1..Bound(offset + n + 1, |raw|)]
  {
  }

  /** What is read at an offset whose header is not negative. */
  function AheadAt<T>(read: seq<byte> -> Result<T>, raw: seq<byte>, offset: nat): Result<(T, int)>
    requires offset < |raw| && !Negative(raw)(offset)
  {
    var length := UnpackByte(raw[offset]);
    if length.Err? then Err(length.error)
    else
      var next := offset + length.value + 1;
      var m := Body(read, raw[offset + 1..Bound(next, |raw|)]);
      if m.Err? then Err(m.error) else Ok((m.value, next))
  }

  lemma ReadAhead<T>(read: seq<byte> -> Result<T>, raw: seq<byte>, offset: nat)
    requires offset < |raw| && !Negative(raw)(offset)
    ensures ReadFrame(read, raw, offset) == AheadAt(read, raw, offset)
  {
    var length := UnpackByte(raw[offset]);
    SliceAt(raw, offset, if length.Ok? then length.value else 0);
  }

  /** `part` stands in `whole` from `d` on. */
  predicate Within(whole: seq<byte>, d: nat, part: seq<byte>) {
    d + |part| <= |whole| && forall i :: 0 <= i < |part| ==> part[i] == whole[d + i]
  }

  lemma SliceWithin(whole: seq<byte>, d: nat, part: seq<byte>, i: nat, j: nat)
    requires Within(whole, d, part) && i <= j <= |part|
    ensures whole[d + i..d + j] == part[i..j]
  {
    forall k | 0 <= k < j - i ensures whole[d + i..d + j][k] == part[i..j][k] {
      assert part[i + k] == whole[d + (i + k)];
    }
  }

  lemma BoundSuffix(d: nat, next: int, n: nat)
    requires next >= 0
    ensures Bound(d + next, d + n) == d + Bound(next, n)
  {
  }

  lemma AheadSuffix<T>(read: seq<byte> -> Result<T>, raw: seq<byte>, d: nat, b: seq<byte>, o: nat)
    requires Within(raw, d, b) && |raw| == d + |b| && o < |b| && !Negative(b)(o)
    ensures !Negative(raw)(d + o) && Shifted(AheadAt(read, b, o), AheadAt(read, raw, d + o), d)
  {
    assert b[o] == raw[d + o];
    var length := UnpackByte(b[o]);
    if length.Ok? {
      var next := o + length.value + 1;
      BoundSuffix(d, next, |b|);
      SliceWithin(raw, d, b, o + 1, Bound(next, |b|));
    }
  }

  lemma ReadSuffix<T>(read: seq<byte> -> Result<T>, raw: seq<byte>, d: nat, b: seq<byte>, o: nat)
    requires Within(raw, d, b) && |raw| == d + |b| && o < |b| && !Negative(b)(o)
    ensures Shifted(ReadFrame(read, b, o), ReadFrame(read, raw, d + o), d)
  {
    AheadSuffix(read, raw, d, b, o);
    ReadAhead(read, b, o);
    ReadAhead(read, raw, d + o);
  }

  lemma TurnSuffix<T(!new)>(read: seq<byte> -> Result<T>, raw: seq<byte>, d: nat, b: seq<byte>, o: nat)
    requires Within(raw, d, b) && |raw| == d + |b| && o < |b| && !Negative(b)(o)
    ensures Shifted(TurnOf(read, b)(o), TurnOf(read, raw)(d + o), d)
  {
    ReadSuffix(read, raw, d, b, o);
  }

  lemma SuffixContinues<T(!new)>(read: seq<byte> -> Result<T>, raw: seq<byte>, d: nat, b: seq<byte>)
    requires Within(raw, d, b) && |raw| == d + |b|
    ensures Continues(TurnOf(read, raw), d, TurnOf(read, b), |b|, Negative(b))
  {
    forall o: int | 0 <= o < |b| && !Negative(b)(o)
      ensures Shifted(TurnOf(read, b)(o), TurnOf(read, raw)(d + o), d)
    {
      TurnSuffix(read, raw, d, b, o);
    }
  }

  lemma NegativeSuffix(raw: seq<byte>, d: nat, b: seq<byte>)
    requires Within(raw, d, b)
    ensures forall o: int :: 0 <= o < |b| ==> (Negative(b)(o) <==> Negative(raw)(d + o))
  {
    forall o: int | 0 <= o < |b| ensures Negative(b)(o) <==> Negative(raw)(d + o) {
      assert b[o] == raw[d + o];
    }
  }

  /** Behind 31 bytes a negative header is the end: the slice it asks for is empty. */
  lemma NegativeFails<T>(read: seq<byte> -> Result<T>, raw: seq<byte>, offset: nat)
    requires 31 <= offset < |raw| && Negative(raw)(offset)
    ensures ReadFrame(read, raw, offset) == Err(ValueError)
  {
    SliceAt(raw, offset, 0);
  }

  /* ---------- whole frames ---------- */

  /** Between these two places a buffer is made of whole frames with one-byte headers. */
  predicate WholeBetween(raw: seq<byte>, from: nat, to: nat)
    requires from <= to <= |raw|
    decreases |raw| - from
  {
    from == to
    || (raw[from] < 128 && from + raw[from] + 1 <= to && WholeBetween(raw, from + raw[from] + 1, to))
  }

  predicate WholeFrames(raw: seq<byte>) {
    WholeBetween(raw, 0, |raw|)
  }

  /** Such frames read one by one. */
  function Frames<T>(read: seq<byte> -> Result<T>, raw: seq<byte>, from: nat, to: nat): Result<seq<T>>
    requires from <= to <= |raw| && WholeBetween(raw, from, to)
    decreases |raw| - from
  {
    if from == to then Ok([])
    else
      var next := from + raw[from] + 1;
      var m := Body(read, raw[from + 1..next]);
      if m.Err? then Err(m.error) else Then(Ok([m.value]), Frames(read, raw, next, to))
  }

  /** A turn at a whole frame. */
  ghost predicate ReadsWhole<T(!new)>(turn: Turn<T>, read: seq<byte> -> Result<T>, raw: seq<byte>) {
    forall o: int :: 0 <= o < |raw| && raw[o] < 128 && o + raw[o] < |raw| ==>
      var m := Body(read, raw[o + 1..o + raw[o] + 1]);
      turn(o) == if m.Err? then Err(m.error) else Ok((m.value, o + raw[o] + 1))
  }

  lemma TurnReadsWhole<T(!new)>(read: seq<byte> -> Result<T>, raw: seq<byte>)
    ensures ReadsWhole(TurnOf(read, raw), read, raw)
  {
    forall o: int | 0 <= o < |raw| && raw[o] < 128 && o + raw[o] < |raw|
      ensures var m := Body(read, raw[o + 1..o + raw[o] + 1]);
              TurnOf(read, raw)(o) == if m.Err? then Err(m.error) else Ok((m.value, o + raw[o] + 1))
    {
      ReadAhead(read, raw, o);
    }
  }

  /** Whole frames anywhere in a buffer are read one by one, then what follows them, and none of them
      has a negative header. */
  lemma {:induction false} LoopFrames<T(!new)>(turn: Turn<T>, read: seq<byte> -> Result<T>, raw: seq<byte>, from: nat,
                                               to: nat)
    requires Advances(turn, |raw|) && ReadsWhole(turn, read, raw) && from <= to <= |raw| && WholeBetween(raw, from, to)
    ensures Loop(turn, |raw|, from) == Then(Frames(read, raw, from, to), Loop(turn, |raw|, to))
    ensures GetsTo(turn, |raw|, Negative(raw), from) <==>
              Frames(read, raw, from, to).Ok? && GetsTo(turn, |raw|, Negative(raw), to)
    decreases |raw| - from
  {
    if from == to {
      ThenUnit(Loop(turn, |raw|, from));
    } else {
      var next := from + raw[from] + 1;
      assert !Negative(raw)(from);
      var m := Body(read, raw[from + 1..next]);
      if m.Ok? {
        LoopFrames(turn, read, raw, next, to);
        ThenAssociative(Ok([m.value]), Frames(read, raw, next, to), Loop(turn, |raw|, to));
      }
    }
  }

  /** Whole frames stay whole, and are read the same, inside a larger buffer. */
  lemma {:induction false} WholeWithin(whole: seq<byte>, d: nat, part: seq<byte>, from: nat)
    requires Within(whole, d, part) && from <= |part| && WholeBetween(part, from, |part|)
    ensures WholeBetween(whole, d + from, d + |part|)
    decreases |part| - from
  {
    if from < |part| {
      assert whole[d + from] == part[from];
      WholeWithin(whole, d, part, from + part[from] + 1);
    }
  }

  lemma {:induction false} FramesWithin<T>(read: seq<byte> -> Result<T>, whole: seq<byte>, d: nat, part: seq<byte>,
                                           from: nat)
    requires Within(whole, d, part) && from <= |part| && WholeBetween(part, from, |part|)
    requires WholeBetween(whole, d + from, d + |part|)
    ensures Frames(read, whole, d + from, d + |part|) == Frames(read, part, from, |part|)
    decreases |part| - from
  {
    if from < |part| {
      assert whole[d + from] == part[from];
      var next := from + part[from] + 1;
      SliceWithin(whole, d, part, from + 1, next);
      FramesWithin(read, whole, d, part, next);
    }
  }

  /** A buffer that begins with whole frames. */
  lemma LoopFront<T(!new)>(read: seq<byte> -> Result<T>, raw: seq<byte>, d: nat)
    requires d <= |raw| && WholeBetween(raw, 0, d)
    ensures var turn := TurnOf(read, raw);
            Loop(turn, |raw|, 0) == Then(Frames(read, raw, 0, d), Loop(turn, |raw|, d))
            && (GetsTo(turn, |raw|, Negative(raw), 0) <==>
                  Frames(read, raw, 0, d).Ok? && GetsTo(turn, |raw|, Negative(raw), d))
  {
    TurnReadsWhole(read, raw);
    LoopFrames(TurnOf(read, raw), read, raw, 0, d);
  }

  /** What lies behind them. */
  lemma LoopBack<T(!new)>(read: seq<byte> -> Result<T>, raw: seq<byte>, d: nat, b: seq<byte>)
    requires Within(raw, d, b) && |raw| == d + |b| && !TurnsBack(read, b)
    ensures Loop(TurnOf(read, raw), |raw|, d) == Parse(read, b)
  {
    SuffixContinues(read, raw, d, b);
    PartContinues(TurnOf(read, raw), |raw|, d, TurnOf(read, b), |b|, Negative(b));
  }

  lemma LoopBackFails<T(!new)>(read: seq<byte> -> Result<T>, raw: seq<byte>, d: nat, b: seq<byte>)
    requires Within(raw, d, b) && |raw| == d + |b| && TurnsBack(read, b) && d >= 31
    ensures Loop(TurnOf(read, raw), |raw|, d) == Err(ValueError)
  {
    SuffixContinues(read, raw, d, b);
    NegativesFail(read, raw, d, b);
    PartFails(TurnOf(read, raw), |raw|, d, TurnOf(read, b), |b|, Negative(b), ValueError);
  }

  lemma GetsToBack<T(!new)>(read: seq<byte> -> Result<T>, raw: seq<byte>, d: nat, b: seq<byte>)
    requires Within(raw, d, b) && |raw| == d + |b|
    ensures GetsTo(TurnOf(read, raw), |raw|, Negative(raw), d) <==> TurnsBack(read, b)
  {
    SuffixContinues(read, raw, d, b);
    NegativeSuffix(raw, d, b);
    PartGetsTo(TurnOf(read, raw), |raw|, d, TurnOf(read, b), |b|, Negative(b), Negative(raw));
  }

  /** The two halves of `a + b`. */
  lemma Halves<T(!new)>(read: seq<byte> -> Result<T>, a: seq<byte>, b: seq<byte>)
    requires WholeFrames(a)
    ensures Within(a + b, |a|, b) && WholeBetween(a + b, 0, |a|)
    ensures Frames(read, a + b, 0, |a|) == Frames(read, a, 0, |a|)
  {
    WholeWithin(a + b, 0, a, 0);
    FramesWithin(read, a + b, 0, a, 0);
  }

  /** Whole frames put in front do not make the reader turn back. */
  lemma TurnsBackBehind<T(!new)>(read: seq<byte> -> Result<T>, a: seq<byte>, b: seq<byte>)
    requires WholeFrames(a)
    ensures TurnsBack(read, a + b) <==> Frames(read, a, 0, |a|).Ok? && TurnsBack(read, b)
  {
    Halves(read, a, b);
    LoopFront(read, a + b, |a|);
    GetsToBack(read, a + b, |a|, b);
  }

  lemma WholeForward<T(!new)>(read: seq<byte> -> Result<T>, a: seq<byte>)
    requires WholeFrames(a)
    ensures !TurnsBack(read, a) && Parse(read, a) == Frames(read, a, 0, |a|)
  {
    LoopFront(read, a, |a|);
    ThenUnit(Frames(read, a, 0, |a|));
  }

  /** Parsing behind whole frames goes on where they end, as long as what follows does not turn the
      reader back; if it does, the parse fails behind 31 bytes. */
  lemma ParseBehind<T(!new)>(read: seq<byte> -> Result<T>, a: seq<byte>, b: seq<byte>)
    requires WholeFrames(a)
    ensures !TurnsBack(read, b) ==> Parse(read, a + b) == Then(Parse(read, a), Parse(read, b))
    ensures TurnsBack(read, b) && |a| >= 31 ==> Parse(read, a + b) == Then(Parse(read, a), Err(ValueError))
  {
    Halves(read, a, b);
    LoopFront(read, a + b, |a|);
    WholeForward(read, a);
    if !TurnsBack(read, b) {
      LoopBack(read, a + b, |a|, b);
    } else if |a| >= 31 {
      LoopBackFails(read, a + b, |a|, b);
    }
  }

  lemma NegativesFail<T(!new)>(read: seq<byte> -> Result<T>, raw: seq<byte>, d: nat, b: seq<byte>)
    requires Within(raw, d, b) && |raw| == d + |b| && d >= 31
    ensures forall o: int :: 0 <= o < |b| && Negative(b)(o) ==> TurnOf(read, raw)(d + o) == Err(ValueError)
  {
    forall o: int | 0 <= o < |b| && Negative(b)(o) ensures TurnOf(read, raw)(d + o) == Err(ValueError) {
      assert raw[d + o] == b[o];
      NegativeFails(read, raw, d + o);
    }
  }

  lemma {:induction false} WholeJoin(raw: seq<byte>, from: nat, mid: nat, to: nat)
    requires from <= mid <= to <= |raw| && WholeBetween(raw, from, mid) && WholeBetween(raw, mid, to)
    ensures WholeBetween(raw, from, to)
    decreases mid - from
  {
    if from != mid {
      WholeJoin(raw, from + raw[from] + 1, mid, to);
    }
  }

  lemma WholeAppend(a: seq<byte>, b: seq<byte>)
    requires WholeFrames(a) && WholeFrames(b)
    ensures WholeFrames(a + b)
  {
    WholeWithin(a + b, 0, a, 0);
    WholeWithin(a + b, |a|, b, 0);
    WholeJoin(a + b, 0, |a|, |a + b|);
  }

  /** One short frame. */
  lemma OneWholeFrame(body: seq<byte>)
    requires |body| < 128
    ensures Varint(|body|) + body == [|body|] + body && WholeFrames(Varint(|body|) + body)
  {
    var frame := Varint(|body|) + body;
    assert frame[0] == |body|;
    assert WholeBetween(frame, |frame|, |frame|);
  }

  lemma FramesOne<T>(read: seq<byte> -> Result<T>, raw: seq<byte>)
    requires raw != [] && raw[0] == |raw| - 1 < 128 && WholeFrames(raw)
    ensures var item := Body(read, raw[1..]);
            Frames(read, raw, 0, |raw|) == if item.Err? then Err(item.error) else Ok([item.value])
  {
    assert raw[1..|raw|] == raw[1..];
    assert Frames(read, raw, |raw|, |raw|) == Ok([]);
    var item := Body(read, raw[1..]);
    if item.Ok? {
      ThenUnit(Ok([item.value]));
    }
  }

  lemma ParseOne<T(!new)>(read: seq<byte> -> Result<T>, body: seq<byte>)
    requires |body| < 128
    ensures var item := Body(read, body);
            Parse(read, Varint(|body|) + body) == if item.Err? then Err(item.error) else Ok([item.value])
  {
    var frame := Varint(|body|) + body;
    OneWholeFrame(body);
    assert frame[1..] == body;
    FramesOne(read, frame);
    WholeForward(read, frame);
  }

  /** A frame longer than its misread header says is never read as one item: either the first turn
      fails, or there is another turn. */
  lemma LongFrameLost<T(!new)>(read: seq<byte> -> Result<T>, raw: seq<byte>, item: T)
    requires |raw| > 3 && (UnpackByte(raw[0]).Err? || UnpackByte(raw[0]).value < 2)
    ensures Parse(read, raw) != Ok([item])
  {
    var turn := TurnOf(read, raw);
    LoopTurn(turn, |raw|, 0);
    ReadMisread(read, raw);
    if turn(0).Ok? {
      LoopTurn(turn, |raw|, turn(0).value.1);
    }
  }

  lemma ReadMisread<T>(read: seq<byte> -> Result<T>, raw: seq<byte>)
    requires |raw| > 3 && (UnpackByte(raw[0]).Err? || UnpackByte(raw[0]).value < 2)
    ensures var frame := ReadFrame(read, raw, 0); frame.Ok? ==> frame.value.1 < |raw|
  {
    SliceAt(raw, 0, 0);
  }

  /* ---------- near the start of the buffer ---------- */

  const PING_BODY: seq<byte> := [0x91, 0x06]
  const PING_FRAME: seq<byte> := [2, 0x91, 0x06]
  const BACKWARDS: seq<byte> := [0xFC, 0x91, 0x06, 8, 0x91, 0x06]

  /** A header of minus four sends the offset to minus three, which is the second header. */
  lemma ReadBackwards<T>(read: seq<byte> -> Result<T>, item: T)
    requires read(PING_BODY) == Ok(item)
    ensures ReadFrame(read, BACKWARDS, 0) == Ok((item, -3)) && ReadFrame(read, BACKWARDS, -3) == Ok((item, 6))
  {
    assert Slice(BACKWARDS, 0, 1) == [0xFC] && Slice(BACKWARDS, 1, -3) == PING_BODY;
    assert Slice(BACKWARDS, -3, -2) == [8] && Slice(BACKWARDS, -2, 6) == PING_BODY;
  }

  /** Three bytes later the same header asks for an empty slice. */
  lemma ReadShifted<T>(read: seq<byte> -> Result<T>, item: T)
    requires read(PING_BODY) == Ok(item)
    ensures ReadFrame(read, PING_FRAME + BACKWARDS, 0) == Ok((item, 3))
    ensures ReadFrame(read, PING_FRAME + BACKWARDS, 3) == Err(ValueError)
  {
    var raw := PING_FRAME + BACKWARDS;
    assert Slice(raw, 0, 1) == [2] && Slice(raw, 1, 3) == PING_BODY;
    assert Slice(raw, 3, 4) == [0xFC] && Slice(raw, 4, 0) == [];
  }

  lemma ParseTwice<T(!new)>(read: seq<byte> -> Result<T>, item: T)
    requires read(PING_BODY) == Ok(item)
    ensures Parse(read, BACKWARDS) == Ok([item, item])
  {
    ReadBackwards(read, item);
    var turn := TurnOf(read, BACKWARDS);
    LoopTurn(turn, 6, 0);
    LoopTurn(turn, 6, -3);
    assert Loop(turn, 6, 6) == Ok([]);
    assert [item] + [] == [item];
    assert Loop(turn, 6, -3) == Ok([item]);
    assert [item] + [item] == [item, item];
  }

  lemma ParseShifted<T(!new)>(read: seq<byte> -> Result<T>, item: T)
    requires read(PING_BODY) == Ok(item)
    ensures Parse(read, PING_FRAME + BACKWARDS) == Err(ValueError)
  {
    ReadShifted(read, item);
    var raw := PING_FRAME + BACKWARDS;
    assert |raw| == 9;
    LoopTurn(TurnOf(read, raw), |raw|, 0);
    LoopTurn(TurnOf(read, raw), |raw|, 3);
  }

  /** Near the start of the buffer a negative header need not be the end: these six bytes are read as
      two pings, the same bytes behind a ping as a failure. */
  lemma ShortFront<T(!new)>(read: seq<byte> -> Result<T>, item: T)
    requires read(PING_BODY) == Ok(item)
    ensures WholeFrames(PING_FRAME) && Parse(read, PING_FRAME) == Ok([item])
    ensures Parse(read, BACKWARDS) == Ok([item, item])
    ensures Parse(read, PING_FRAME + BACKWARDS) == Err(ValueError)
  {
    OneWholeFrame(PING_BODY);
    ParseOne(read, PING_BODY);
    assert Varint(2) + PING_BODY == PING_FRAME;
    ParseTwice(read, item);
    ParseShifted(read, item);
  }
}
