/** Client-to-server streams (`Subject` in messages/__init__.py): any number of subjects used from
    any number of greenlets, each subject guarded by its own lock. A greenlet runs until it waits for
    a lock or is inside the transport's `send`. */
module Subjects {
  import opened Values
  import opened Messages

  /** What a greenlet asks of a subject. `Open` is `connection.send(target, subject)`, which attaches
      the subject and calls its `start`. */
  datatype Op = Open(target: string) | Push(item: Value) | Finish

  /** A subject's invocation id, `_connection`, `_target` and lock (by the greenlet that holds it). */
  datatype State = State(id: string, attached: bool, target: string, holder: Option<nat>)

  function Unused(id: string): State {
    State(id, false, "", None)
  }

  /** The setters `Connection.send` uses before `start`. */
  function Attach(s: State, op: Op): State {
    if op.Open? then s.(attached := true, target := op.target) else s
  }

  /** The body of `start`, `next` or `complete` under the lock, up to the call of the transport: the
      frame handed over, or the ValueError of a subject that was never attached. */
  function Body(s: State, op: Op): Result<Message> {
    if !s.attached then Err(ValueError)
    else match op
      case Open(_) => Ok(InvocationClientStream(EMPTY_OBJECT, Arr([Str(s.id)]), Str(s.target), EMPTY_LIST))
      case Push(item) => Ok(StreamItem(EMPTY_OBJECT, Str(s.id), item))
      case Finish => Ok(CompletionClientStream(EMPTY_OBJECT, Str(s.id)))
  }

  /** The start frame invokes the target with the subject's id as its only stream id and no arguments;
      item and completion frames carry that id as their invocation id, an item frame the item. Only an
      attached subject makes frames. */
  lemma FrameContents(s: State, target: string, item: Value)
    ensures Body(Attach(s, Open(target)), Open(target)) ==
              Ok(InvocationClientStream(Obj([]), Arr([Str(s.id)]), Str(target), Arr([])))
    ensures s.attached ==> Body(s, Push(item)) == Ok(StreamItem(Obj([]), Str(s.id), item))
    ensures s.attached ==> Body(s, Finish) == Ok(CompletionClientStream(Obj([]), Str(s.id)))
    ensures Attach(s, Push(item)) == s == Attach(s, Finish)
    ensures forall op :: !s.attached ==> Body(s, op) == Err(ValueError)
  {
  }

  /** A frame tells everything about the call behind it: no two calls of different subjects, of different
      kinds or with different data make the same. */
  lemma BodyTells(s: State, op: Op, s': State, op': Op)
    ensures s.attached && s'.attached && Body(s, op) == Body(s', op') ==>
              s.id == s'.id && (op.Open? <==> op'.Open?) && (if op.Open? then s.target == s'.target else op == op')
  {
    assert [Str(s.id)] == [Str(s'.id)] ==> [Str(s.id)][0] == [Str(s'.id)][0];
  }

  class Subject {
    const invocationId: string
    var connected: bool
    var target: Option<string>
    var lockHolder: Option<nat>

    ghost predicate Valid()
      reads this
    {
      connected <==> target.Some?
    }

    ghost function Observed(): State
      reads this
    {
      State(invocationId, connected, if target.Some? then target.value else "", lockHolder)
    }

    constructor (invocationId: string)
      ensures Valid() && Observed() == Unused(invocationId)
    {
      this.invocationId := invocationId;
      connected, target, lockHolder := false, None, None;
    }

    /** The `connection` and `target` setters. */
    method SetTarget(name: string)
      modifies this
      ensures Valid() && Observed() == Attach(old(Observed()), Open(name))
    {
      connected := true;
      target := Some(name);
    }

    /** `start`, `next` and `complete` once the lock is free: acquire it and build the frame; an
        exception releases it again. */
    method Enter(greenlet: nat, op: Op) returns (r: Result<Message>)
      requires Valid() && lockHolder.None?
      modifies this`lockHolder
      ensures Valid() && r == Body(old(Observed()), op)
      ensures Observed() == if r.Ok? then old(Observed()).(holder := Some(greenlet)) else old(Observed())
    {
      lockHolder := Some(greenlet);
      if !connected {
        lockHolder := None;
        return Err(ValueError);
      }
      match op {
        case Open(_) =>
          r := Ok(InvocationClientStream(EMPTY_OBJECT, Arr([Str(invocationId)]), Str(target.value), EMPTY_LIST));
        case Push(item) => r := Ok(StreamItem(EMPTY_OBJECT, Str(invocationId), item));
        case Finish => r := Ok(CompletionClientStream(EMPTY_OBJECT, Str(invocationId)));
      }
    }

    /** The end of the `with` block. */
    method Exit()
      modifies this`lockHolder
      ensures Observed() == old(Observed()).(holder := None)
    {
      lockHolder := None;
    }
  }

  /* ---------- greenlets ---------- */

  /** A call of a greenlet on a subject, or the frame it led to. */
  datatype Call = Call(greenlet: nat, subject: nat, op: Op)

  /** All subjects, the greenlets waiting for a lock, the calls whose frames were handed to the transport
      so far, those frames, and the calls made so far that have not raised. */
  datatype Sys = Sys(subjects: map<nat, State>, waiting: map<nat, Call>, frames: seq<Call>, sent: seq<Message>,
                     calls: seq<Call>)

  datatype Step =
    | Begin(call: Call)        // up to waiting for the lock, or into the transport
    | Acquire(greenlet: nat)   // a waiting greenlet gets the lock
    | Release(subject: nat)    // the transport's `send` returns or raises

  predicate Busy(s: Sys, g: nat) {
    g in s.waiting || exists x :: x in s.subjects && s.subjects[x].holder == Some(g)
  }

  predicate Enabled(s: Sys, st: Step) {
    match st
    case Begin(c) => c.subject in s.subjects && !Busy(s, c.greenlet)
    case Acquire(g) =>
      g in s.waiting && s.waiting[g].subject in s.subjects && s.subjects[s.waiting[g].subject].holder.None?
    case Release(x) => x in s.subjects && s.subjects[x].holder.Some?
  }

  /** The lock is free and the greenlet takes it. */
  function Into(s: Sys, c: Call): Sys
    requires c.subject in s.subjects
  {
    if s.subjects[c.subject].attached then
      var x := s.subjects[c.subject];
      s.(subjects := s.subjects[c.subject := x.(holder := Some(c.greenlet))], frames := s.frames + [c],
         sent := s.sent + [Body(x, c.op).value])
    else s
  }

  function Next(s: Sys, st: Step): Sys
    requires Enabled(s, st)
  {
    match st
    case Begin(c) =>
      var x := Attach(s.subjects[c.subject], c.op);
      var t := s.(subjects := s.subjects[c.subject := x]);
      if x.holder.Some? then t.(waiting := t.waiting[c.greenlet := c], calls := t.calls + [c])
      else if x.attached then Into(t, c).(calls := t.calls + [c])
      else t
    case Acquire(g) => Into(s, s.waiting[g]).(waiting := s.waiting - {g})
    case Release(x) => s.(subjects := s.subjects[x := s.subjects[x].(holder := None)])
  }

  /** The lock is given back, and any greenlet that waits for it may take it next, whose frame is then
      handed over. */
  lemma LockFreed(s: Sys, x: nat, g: nat)
    requires Enabled(s, Release(x)) && g in s.waiting && s.waiting[g].subject == x
    ensures var t := Next(s, Release(x));
            t.subjects[x].holder == None && t.frames == s.frames && t.waiting == s.waiting && Enabled(t, Acquire(g))
            && (s.subjects[x].attached ==> Next(t, Acquire(g)).frames == s.frames + [s.waiting[g]])
            && g !in Next(t, Acquire(g)).waiting
  {
  }

  predicate Feasible(s: Sys, steps: seq<Step>)
    decreases |steps|
  {
    steps == [] || (Enabled(s, steps[0]) && Feasible(Next(s, steps[0]), steps[1..]))
  }

  function Run(s: Sys, steps: seq<Step>): Sys
    requires Feasible(s, steps)
    decreases |steps|
  {
    if steps == [] then s else Run(Next(s, steps[0]), steps[1..])
  }

  predicate Fresh(s: Sys) {
    (forall x :: x in s.subjects ==> s.subjects[x] == Unused(s.subjects[x].id))
    && s.waiting == map[] && s.frames == [] && s.sent == [] && s.calls == []
  }

  predicate Opened(frames: seq<Call>, x: nat) {
    exists i :: 0 <= i < |frames| && frames[i].subject == x && frames[i].op.Open?
  }

  /** Every item and completion frame has its subject's start frame before it. */
  predicate StartsFirst(frames: seq<Call>) {
    forall i :: 0 <= i < |frames| && !frames[i].op.Open? ==> Opened(frames[..i], frames[i].subject)
  }

  /** The calls of one greenlet, in order. */
  function By(g: nat, calls: seq<Call>): seq<Call> {
    if calls == [] then [] else By(g, calls[..|calls| - 1]) + OneBy(g, calls[|calls| - 1])
  }

  function OneBy(g: nat, c: Call): seq<Call> {
    if c.greenlet == g then [c] else []
  }

  /** The call of a waiting greenlet, if it waits. */
  function Pending(s: Sys, g: nat): seq<Call> {
    if g in s.waiting then [s.waiting[g]] else []
  }

  ghost predicate Started(s: Sys) {
    && StartsFirst(s.frames)
    && (forall x :: x in s.subjects && s.subjects[x].attached ==> Opened(s.frames, x))
    && (forall x :: x in s.subjects && s.subjects[x].holder.Some? ==> s.subjects[x].attached)
    && (forall g :: g in s.waiting ==>
          s.waiting[g].greenlet == g && s.waiting[g].subject in s.subjects && s.subjects[s.waiting[g].subject].attached)
  }

  ghost predicate InOrder(s: Sys) {
    forall g :: By(g, s.calls) == By(g, s.frames) + Pending(s, g)
  }

  ghost predicate Inv(s: Sys) {
    Started(s) && InOrder(s)
  }

  lemma FrameAppended(frames: seq<Call>, c: Call)
    requires StartsFirst(frames) && (c.op.Open? || Opened(frames, c.subject))
    ensures StartsFirst(frames + [c])
    ensures forall x :: Opened(frames, x) ==> Opened(frames + [c], x)
    ensures c.op.Open? ==> Opened(frames + [c], c.subject)
  {
    var all := frames + [c];
    forall i | 0 <= i < |all| && !all[i].op.Open? ensures Opened(all[..i], all[i].subject) {
      assert all[..i] == if i < |frames| then frames[..i] else frames;
    }
    forall x | Opened(frames, x) ensures Opened(all, x) {
      var i :| 0 <= i < |frames| && frames[i].subject == x && frames[i].op.Open?;
      assert all[i] == frames[i];
    }
    assert all[|frames|] == c;
  }

  lemma BySnoc(g: nat, calls: seq<Call>, c: Call)
    ensures By(g, calls + [c]) == By(g, calls) + OneBy(g, c)
  {
    assert (calls + [c])[..|calls|] == calls;
  }

  lemma BeginWaits(s: Sys, c: Call)
    requires Inv(s) && Enabled(s, Begin(c)) && s.subjects[c.subject].holder.Some?
    ensures Inv(Next(s, Begin(c)))
  {
    var t := Next(s, Begin(c));
    forall g ensures By(g, t.calls) == By(g, t.frames) + Pending(t, g) {
      BySnoc(g, s.calls, c);
      assert By(g, s.frames) + [] == By(g, s.frames);
    }
  }

  lemma EntersInOrder(s: Sys, c: Call, g: nat)
    requires By(g, s.calls) == By(g, s.frames) + Pending(s, g) && c.greenlet !in s.waiting
    ensures By(g, s.calls + [c]) == By(g, s.frames + [c]) + Pending(s, g)
  {
    BySnoc(g, s.calls, c);
    BySnoc(g, s.frames, c);
    if g == c.greenlet {
      assert Pending(s, g) == [];
      assert By(g, s.frames) + [] == By(g, s.frames);
    }
  }

  lemma BeginEnters(s: Sys, c: Call)
    requires Inv(s) && Enabled(s, Begin(c)) && s.subjects[c.subject].holder.None?
    requires Attach(s.subjects[c.subject], c.op).attached
    ensures Inv(Next(s, Begin(c)))
  {
    FrameAppended(s.frames, c);
    var t := Next(s, Begin(c));
    forall g ensures By(g, t.calls) == By(g, t.frames) + Pending(t, g) {
      EntersInOrder(s, c, g);
    }
  }

  lemma BeginKeeps(s: Sys, c: Call)
    requires Inv(s) && Enabled(s, Begin(c))
    ensures Inv(Next(s, Begin(c)))
  {
    if s.subjects[c.subject].holder.Some? {
      BeginWaits(s, c);
    } else if Attach(s.subjects[c.subject], c.op).attached {
      BeginEnters(s, c);
    }
  }

  /** The frame of the waiting greenlet `g` takes the place of its pending call. */
  lemma LeavesInOrder(s: Sys, g: nat, h: nat)
    requires g in s.waiting && s.waiting[g].greenlet == g && By(h, s.calls) == By(h, s.frames) + Pending(s, h)
    ensures By(h, s.calls) == By(h, s.frames + [s.waiting[g]]) + if h in s.waiting && h != g then [s.waiting[h]] else []
  {
    BySnoc(h, s.frames, s.waiting[g]);
    assert By(h, s.frames) + [] == By(h, s.frames);
  }

  lemma AcquireOrdered(s: Sys, g: nat)
    requires Inv(s) && Enabled(s, Acquire(g))
    ensures InOrder(Next(s, Acquire(g)))
  {
    var t := Next(s, Acquire(g));
    forall h ensures By(h, t.calls) == By(h, t.frames) + Pending(t, h) {
      LeavesInOrder(s, g, h);
    }
  }

  lemma AcquireKeeps(s: Sys, g: nat)
    requires Inv(s) && Enabled(s, Acquire(g))
    ensures Inv(Next(s, Acquire(g)))
  {
    FrameAppended(s.frames, s.waiting[g]);
    AcquireOrdered(s, g);
  }

  lemma {:induction false} RunKeeps(s: Sys, steps: seq<Step>)
    requires Inv(s) && Feasible(s, steps)
    ensures Inv(Run(s, steps))
    decreases |steps|
  {
    if steps != [] {
      match steps[0] {
        case Begin(c) => BeginKeeps(s, c);
        case Acquire(g) => AcquireKeeps(s, g);
        case Release(x) =>
      }
      RunKeeps(Next(s, steps[0]), steps[1..]);
    }
  }

  /** Client-stream ordering: whatever the greenlets do, no item or completion of a subject is handed
      to the transport before that subject's start frame, and the frames of one greenlet are its calls,
      in call order, except for the one it may be waiting with. */
  lemma StreamOrdering(s: Sys, steps: seq<Step>, g: nat)
    requires Fresh(s) && Feasible(s, steps)
    ensures StartsFirst(Run(s, steps).frames)
    ensures By(g, Run(s, steps).calls) == By(g, Run(s, steps).frames) + Pending(Run(s, steps), g)
  {
    RunKeeps(s, steps);
  }

  /* ---------- the frames ---------- */

  /** The frame a call of a subject with this id leads to. */
  predicate FrameFor(id: string, c: Call, m: Message, calls: seq<Call>) {
    match c.op
    case Open(_) => m.InvocationClientStream? && m.streamIds == Arr([Str(id)]) && AskedFor(calls, c.subject, m.target)
    case Push(item) => m.StreamItem? && m.invocationId == Str(id) && m.item == item
    case Finish => m.CompletionClientStream? && m.invocationId == Str(id)
  }

  /** Some call has opened this subject with this target. */
  predicate AskedFor(calls: seq<Call>, x: nat, target: Value) {
    exists k :: 0 <= k < |calls| && calls[k].subject == x && calls[k].op.Open? && target == Str(calls[k].op.target)
  }

  ghost predicate Framed(s: Sys) {
    && |s.sent| == |s.frames|
    && (forall i :: 0 <= i < |s.frames| ==>
          s.frames[i].subject in s.subjects
          && FrameFor(s.subjects[s.frames[i].subject].id, s.frames[i], s.sent[i], s.calls))
    && (forall x :: x in s.subjects && s.subjects[x].attached ==> AskedFor(s.calls, x, Str(s.subjects[x].target)))
    && (forall g :: g in s.waiting ==> s.waiting[g].subject in s.subjects)
  }

  /** The subjects, their ids included, stay the same. */
  ghost predicate SameSubjects(s: Sys, t: Sys) {
    s.subjects.Keys == t.subjects.Keys && forall x :: x in s.subjects ==> s.subjects[x].id == t.subjects[x].id
  }

  lemma AskedMore(calls: seq<Call>, c: Call)
    ensures forall x, target :: AskedFor(calls, x, target) ==> AskedFor(calls + [c], x, target)
    ensures c.op.Open? ==> AskedFor(calls + [c], c.subject, Str(c.op.target))
  {
    var all := calls + [c];
    assert all[|calls|] == c;
    forall x, target | AskedFor(calls, x, target) ensures AskedFor(all, x, target) {
      var k :| 0 <= k < |calls| && calls[k].subject == x && calls[k].op.Open? && target == Str(calls[k].op.target);
      assert all[k] == calls[k];
    }
  }

  /** A subject takes in what a call brings along, and the call is recorded. */
  lemma FramedCall(s: Sys, c: Call)
    requires Framed(s) && c.subject in s.subjects
    ensures var x := Attach(s.subjects[c.subject], c.op);
            Framed(s.(subjects := s.subjects[c.subject := x], calls := s.calls + [c]))
  {
    AskedMore(s.calls, c);
  }

  lemma FramedInto(s: Sys, c: Call)
    requires Framed(s) && c.subject in s.subjects
    ensures Framed(Into(s, c)) && SameSubjects(s, Into(s, c))
  {
  }

  lemma FramedStep(s: Sys, st: Step)
    requires Framed(s) && Enabled(s, st)
    ensures Framed(Next(s, st)) && SameSubjects(s, Next(s, st))
  {
    match st {
      case Begin(c) => FramedBegin(s, c);
      case Acquire(g) => FramedInto(s, s.waiting[g]);
      case Release(_) =>
    }
  }

  lemma FramedBegin(s: Sys, c: Call)
    requires Framed(s) && Enabled(s, Begin(c))
    ensures Framed(Next(s, Begin(c))) && SameSubjects(s, Next(s, Begin(c)))
  {
    var x := Attach(s.subjects[c.subject], c.op);
    FramedCall(s, c);
    var t := s.(subjects := s.subjects[c.subject := x], calls := s.calls + [c]);
    if x.holder.None? && x.attached {
      FramedInto(t, c);
    }
  }

  lemma {:induction false} FramedRun(s: Sys, steps: seq<Step>)
    requires Framed(s) && Feasible(s, steps)
    ensures Framed(Run(s, steps)) && SameSubjects(s, Run(s, steps))
    decreases |steps|
  {
    if steps != [] {
      FramedStep(s, steps[0]);
      FramedRun(Next(s, steps[0]), steps[1..]);
    }
  }

  /** Whatever the greenlets do, every frame handed to the transport is the one its call asked for, under
      the subject's own id; and every item or completion frame has a start frame before it whose only
      stream id is its invocation id. */
  lemma StreamFrames(s: Sys, steps: seq<Step>, i: nat)
    requires Fresh(s) && Feasible(s, steps) && i < |Run(s, steps).sent|
    ensures var t := Run(s, steps);
            && |t.frames| == |t.sent| && t.frames[i].subject in s.subjects
            && FrameFor(s.subjects[t.frames[i].subject].id, t.frames[i], t.sent[i], t.calls)
            && (t.sent[i].StreamItem? || t.sent[i].CompletionClientStream? ==>
                  exists j :: 0 <= j < i && t.sent[j].InvocationClientStream?
                              && t.sent[j].streamIds == Arr([t.sent[i].invocationId]))
  {
    var t := Run(s, steps);
    FramedRun(s, steps);
    StreamOrdering(s, steps, 0);
    if !t.frames[i].op.Open? {
      assert Opened(t.frames[..i], t.frames[i].subject);
      var j :| 0 <= j < |t.frames[..i]| && t.frames[..i][j].subject == t.frames[i].subject && t.frames[..i][j].op.Open?;
      assert t.frames[j] == t.frames[..i][j];
      assert t.sent[j].InvocationClientStream?;
    }
  }

  /* ---------- one greenlet at a time ---------- */

  predicate NeverReleased(steps: seq<Step>, x: nat) {
    forall i :: 0 <= i < |steps| ==> steps[i] != Release(x)
  }

  /** Handing a frame over takes the subject's lock. */
  lemma FrameTakesLock(s: Sys, st: Step)
    requires Enabled(s, st) && (forall g :: g in s.waiting ==> s.waiting[g].greenlet == g)
    ensures var t := Next(s, st);
            t.frames == s.frames
            || (t.frames == s.frames + [t.frames[|s.frames|]]
                && var c := t.frames[|s.frames|];
                c.subject in t.subjects && t.subjects[c.subject].holder == Some(c.greenlet)
                && s.subjects[c.subject].holder == None)
  {
  }

  /** As long as a subject's lock is held, no other frame of this subject is handed over. */
  lemma {:induction false} LockedMeanwhile(s: Sys, steps: seq<Step>, x: nat)
    requires Feasible(s, steps) && NeverReleased(steps, x) && x in s.subjects && s.subjects[x].holder.Some?
    ensures var t := Run(s, steps);
            x in t.subjects && t.subjects[x].holder == s.subjects[x].holder && s.frames <= t.frames
            && forall i :: |s.frames| <= i < |t.frames| ==> t.frames[i].subject != x
    decreases |steps|
  {
    if steps != [] {
      var next := Next(s, steps[0]);
      LockedStep(s, steps[0], x);
      LockedMeanwhile(next, steps[1..], x);
    }
  }

  lemma LockedStep(s: Sys, st: Step, x: nat)
    requires Enabled(s, st) && st != Release(x) && x in s.subjects && s.subjects[x].holder.Some?
    ensures var t := Next(s, st);
            x in t.subjects && t.subjects[x].holder == s.subjects[x].holder && s.frames <= t.frames
            && forall i :: |s.frames| <= i < |t.frames| ==> t.frames[i].subject != x
  {
  }
}
