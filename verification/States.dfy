/** What the transport's fields are after any run, told from the steps taken and the events left behind
    alone: an independent account of the state the steps compute. */
module States {
  import opened Values
  import opened Reconnection
  import opened Transport
  import opened Machine
  import opened Traces
  import opened Runs

  /* ---------- connection state, handshake and socket ---------- */

  predicate Shakes(st: Step) {
    st.Answer? && st.accepted
  }

  predicate Unshakes(st: Step) {
    st.SendFails? || st.KillDone? || st.StopDone?
  }

  predicate Starts(st: Step) {
    st.UserStart? || st.StartReturns? || (st.KillDone? && st.next.StartedNow?)
  }

  predicate Never(st: Step) {
    false
  }

  /** An answer connects when it accepts, or when there is an `on_open` callback. */
  predicate ConnectsWith(onOpen: bool, st: Step) {
    st.Answer? && (st.accepted || onOpen)
  }

  predicate RaisesWith(onOpen: bool, st: Step) {
    Starts(st) || ConnectsWith(onOpen, st)
  }

  predicate LowersWith(onOpen: bool, st: Step) {
    st.SendFails? || st.SocketGone? || st.StopDone? || (st.Answer? && !st.accepted && !onOpen)
  }

  function Connects(c: Config): Step -> bool {
    st => ConnectsWith(c.onOpen, st)
  }

  function Lifts(c: Config): Step -> bool {
    st => RaisesWith(c.onOpen, st)
  }

  function Lowers(c: Config): Step -> bool {
    st => LowersWith(c.onOpen, st)
  }

  predicate Told(c: Config, past: seq<Step>, v: View) {
    && (v.handshake <==> Armed(past, Shakes, Unshakes))
    && (v.state == Connected <==> Armed(past, Connects(c), Lowers(c)))
    && (v.state != Disconnected <==> Armed(past, Lifts(c), Lowers(c)))
    && (v.hasSocket <==> Armed(past, Starts, Never))
    && (v.state == Connected ==> v.hasSocket)
  }

  /** What one step does to these fields. */
  lemma HandshakeStep(c: Config, s: Sys, st: Step)
    requires Enabled(c, s, st)
    ensures Machine.Next(c, s, st).v.handshake <==> Shakes(st) || (s.v.handshake && !Unshakes(st))
  {
  }

  lemma ConnectedStep(c: Config, s: Sys, st: Step)
    requires Enabled(c, s, st)
    ensures Machine.Next(c, s, st).v.state == Connected <==>
              ConnectsWith(c.onOpen, st) || (s.v.state == Connected && !LowersWith(c.onOpen, st))
  {
  }

  lemma DisconnectedStep(c: Config, s: Sys, st: Step)
    requires Enabled(c, s, st)
    ensures Machine.Next(c, s, st).v.state != Disconnected <==>
              RaisesWith(c.onOpen, st) || (s.v.state != Disconnected && !LowersWith(c.onOpen, st))
  {
  }

  lemma SocketStep(c: Config, s: Sys, st: Step)
    requires Enabled(c, s, st) && (s.v.state == Connected ==> s.v.hasSocket)
    ensures Machine.Next(c, s, st).v.hasSocket <==> s.v.hasSocket || Starts(st)
  {
    if !Starts(st) {
      SocketKept(c, s, st);
    }
  }

  lemma SocketKept(c: Config, s: Sys, st: Step)
    requires Enabled(c, s, st) && !Starts(st)
    ensures Machine.Next(c, s, st).v.hasSocket == s.v.hasSocket
  {
  }

  lemma ToldStep(c: Config, past: seq<Step>, s: Sys, st: Step)
    requires Told(c, past, s.v) && Enabled(c, s, st)
    ensures Told(c, past + [st], Machine.Next(c, s, st).v)
  {
    HandshakeStep(c, s, st);
    ConnectedStep(c, s, st);
    DisconnectedStep(c, s, st);
    SocketStep(c, s, st);
    ToldAppend(c, past, st);
  }

  lemma ToldAppend(c: Config, past: seq<Step>, st: Step)
    ensures var all := past + [st];
            && (Armed(all, Shakes, Unshakes) <==> Shakes(st) || (Armed(past, Shakes, Unshakes) && !Unshakes(st)))
            && (Armed(all, Connects(c), Lowers(c)) <==>
                  ConnectsWith(c.onOpen, st) || (Armed(past, Connects(c), Lowers(c)) && !LowersWith(c.onOpen, st)))
            && (Armed(all, Lifts(c), Lowers(c)) <==>
                  RaisesWith(c.onOpen, st) || (Armed(past, Lifts(c), Lowers(c)) && !LowersWith(c.onOpen, st)))
            && (Armed(all, Starts, Never) <==> Starts(st) || Armed(past, Starts, Never))
  {
    Snoc(past, st);
  }

  lemma {:induction false} ToldRun(c: Config, past: seq<Step>, s: Sys, steps: seq<Step>)
    requires Told(c, past, s.v) && Feasible(c, s, steps)
    ensures Told(c, past + steps, Run(c, s, steps).v)
    decreases |steps|
  {
    if steps == [] {
      assert past + steps == past;
    } else {
      ToldStep(c, past, s, steps[0]);
      ToldRun(c, past + [steps[0]], Machine.Next(c, s, steps[0]), steps[1..]);
      assert past + steps == (past + [steps[0]]) + steps[1..];
    }
  }

  /** On every run: a handshake counts as received exactly when an accepting answer has no lost send, no
      reconnect behind its kill and no completed stop behind it; the transport is connected exactly when
      a connecting answer has no lost send, closed socket, completed stop or plain rejection behind it,
      and disconnected exactly when no start and no such answer has none behind it; and there is a socket
      exactly when a start was made. */
  lemma FieldsOfRun(c: Config, now: real, steps: seq<Step>)
    requires Feasible(c, Start(now), steps)
    ensures var v := Run(c, Start(now), steps).v;
            && (v.handshake <==> Since(steps, Shakes, Unshakes))
            && (v.state == Connected <==> Since(steps, Connects(c), Lowers(c)))
            && (v.state == Disconnected <==> !Since(steps, Lifts(c), Lowers(c)))
            && v.state != Reconnecting
            && (v.hasSocket <==> exists i :: 0 <= i < |steps| && Starts(steps[i]))
  {
    ToldRun(c, [], Start(now), steps);
    BasicRun(c, Start(now), steps);
    assert [] + steps == steps;
    ArmedIsSince(steps, Shakes, Unshakes);
    ArmedIsSince(steps, Connects(c), Lowers(c));
    ArmedIsSince(steps, Lifts(c), Lowers(c));
    ArmedIsSince(steps, Starts, Never);
    if i :| 0 <= i < |steps| && Starts(steps[i]) {
      assert NoneBehind(steps, Never, i);
    }
  }

  /* ---------- the handler's mark ---------- */

  /** A lost send, and any answer of `next`, mark the handler. */
  predicate Marks(e: Event) {
    e.SendLost? || e.Granted? || e.Denied?
  }

  lemma MarksAsked(p: Policy, v: View, o: Origin)
    ensures var es := FailedEvents(p, v, o);
            if Grant(p, v.attempt).None? && o.Retry? then !Armed(es, Marks, EndsOutage) && !Free(es, EndsOutage)
            else Armed(es, Marks, EndsOutage)
  {
    var delay := Grant(p, v.attempt);
    var answer := if delay.Some? then Granted(delay.value) else Denied;
    var asked := [StartTried, answer];
    assert asked == [StartTried] + [answer];
    Snoc([StartTried], answer);
    var raised := if delay.None? then RaisedEvents(o) else [];
    assert FailedEvents(p, v, o) == asked + raised;
    ArmedConcat(asked, raised, Marks, EndsOutage);
    if delay.None? && o.Retry? {
      assert FailedEvents(p, v, o)[2] == RetryRaised;
    }
  }

  /** How a step changes the mark, and what it leaves behind. */
  predicate MarkFollows(before: bool, after: bool, es: seq<Event>) {
    after <==> Armed(es, Marks, EndsOutage) || (before && Free(es, EndsOutage))
  }

  lemma QuietEvents(es: seq<Event>)
    requires Free(es, Marks) && Free(es, EndsOutage)
    ensures forall before :: MarkFollows(before, before, es)
  {
    if Armed(es, Marks, EndsOutage) {
      var i := ArmedSince(es, Marks, EndsOutage);
    }
  }

  lemma MarkStep(c: Config, s: Sys, st: Step)
    requires Enabled(c, s, st) && c.policy.Some?
    ensures MarkFollows(s.v.reconnecting, Machine.Next(c, s, st).v.reconnecting, Emitted(c, s, st))
  {
    if Asks(st) {
      MarksAsked(c.policy.value, s.v, st.o);
    } else if st.Answer? && st.accepted {
      AnswerEnds(c, s, st.close);
    } else if st.SendFails? {
      LostMarks(c, s, st.o);
    } else if st.SendOk? || (st.SendRaises? && st.o.Retry?) {
      EndsAtOnce(c, s, st);
    } else {
      NoMark(c, s, st);
      QuietEvents(Emitted(c, s, st));
    }
  }

  lemma EndsAtOnce(c: Config, s: Sys, st: Step)
    requires Enabled(c, s, st) && c.policy.Some? && (st.SendOk? || (st.SendRaises? && st.o.Retry?))
    ensures MarkFollows(s.v.reconnecting, Machine.Next(c, s, st).v.reconnecting, Emitted(c, s, st))
  {
    var es := Emitted(c, s, st);
    assert |es| == 1 && EndsOutage(es[0]);
  }

  lemma AnswerEnds(c: Config, s: Sys, close: bool)
    requires Enabled(c, s, Answer(true, close)) && c.policy.Some?
    ensures var st := Answer(true, close);
            MarkFollows(s.v.reconnecting, Machine.Next(c, s, st).v.reconnecting, Emitted(c, s, st))
  {
    var es := Emitted(c, s, Answer(true, close));
    assert es[0] == Accepted;
    assert forall i :: 0 <= i < |es| ==> !Marks(es[i]);
    if Armed(es, Marks, EndsOutage) {
      var i := ArmedSince(es, Marks, EndsOutage);
      assert false;
    }
  }

  lemma LostMarks(c: Config, s: Sys, o: Origin)
    requires Enabled(c, s, SendFails(o)) && c.policy.Some?
    ensures var st := SendFails(o);
            MarkFollows(s.v.reconnecting, Machine.Next(c, s, st).v.reconnecting, Emitted(c, s, st))
  {
    var es := Emitted(c, s, SendFails(o));
    assert es[0] == SendLost && forall k :: 0 < k < |es| ==> es[k] == OnReconnect;
    assert NoneBehind(es, EndsOutage, 0);
    ArmedFrom(es, Marks, EndsOutage, 0);
  }

  lemma NoMark(c: Config, s: Sys, st: Step)
    requires Enabled(c, s, st) && c.policy.Some? && !Asks(st) && !st.SendFails? && !st.SendOk?
    requires !(st.Answer? && st.accepted) && !(st.SendRaises? && st.o.Retry?)
    ensures Free(Emitted(c, s, st), Marks) && Free(Emitted(c, s, st), EndsOutage)
    ensures Machine.Next(c, s, st).v.reconnecting == s.v.reconnecting
  {
  }

  lemma {:induction false} MarkedSince(c: Config, s: Sys, steps: seq<Step>, tr: seq<Event>)
    requires Feasible(c, s, steps) && c.policy.Some?
    requires s.v.reconnecting <==> Armed(tr, Marks, EndsOutage)
    ensures Run(c, s, steps).v.reconnecting <==> Armed(tr + Trace(c, s, steps), Marks, EndsOutage)
    decreases |steps|
  {
    if steps == [] {
      assert tr + [] == tr;
    } else {
      var t, es := Machine.Next(c, s, steps[0]), Emitted(c, s, steps[0]);
      MarkStep(c, s, steps[0]);
      ArmedConcat(tr, es, Marks, EndsOutage);
      MarkedSince(c, t, steps[1..], tr + es);
      Regroup(tr, es, Trace(c, t, steps[1..]));
    }
  }

  /** On every run with a handler: the handler is marked as reconnecting exactly when a lost send or an
      answer of `next` has no written message, accepted handshake or raising retry behind it. */
  lemma MarkOfRun(c: Config, now: real, steps: seq<Step>)
    requires Feasible(c, Start(now), steps) && c.policy.Some?
    ensures Run(c, Start(now), steps).v.reconnecting <==> Since(Trace(c, Start(now), steps), Marks, EndsOutage)
  {
    var tr := Trace(c, Start(now), steps);
    MarkedSince(c, Start(now), steps, []);
    assert [] + tr == tr;
    ArmedIsSince(tr, Marks, EndsOutage);
  }

  /* ---------- which lost sends are notified ---------- */

  /** The lost send at `i` is notified, and at once, exactly when the handler is not marked then. */
  predicate NotifiedAt(tr: seq<Event>, i: nat)
    requires i < |tr|
  {
    (i + 1 < |tr| && tr[i + 1] == OnReconnect) <==> !Armed(tr[..i], Marks, EndsOutage)
  }

  predicate NotifiedRight(tr: seq<Event>) {
    forall i: nat :: i < |tr| && tr[i] == SendLost ==> NotifiedAt(tr, i)
  }

  /** Every notification follows a lost send. */
  predicate NoticesFollow(tr: seq<Event>) {
    forall i :: 0 <= i < |tr| && tr[i] == OnReconnect ==> i > 0 && tr[i - 1] == SendLost
  }

  lemma NotifiedOther(tr: seq<Event>, es: seq<Event>)
    requires NotifiedRight(tr) && NoticesFollow(tr)
    requires forall i :: 0 <= i < |es| ==> es[i] != SendLost && es[i] != OnReconnect
    ensures NotifiedRight(tr + es) && NoticesFollow(tr + es)
  {
    var all := tr + es;
    forall i: nat | i < |all| && all[i] == SendLost ensures NotifiedAt(all, i) {
      assert i < |tr| && NotifiedAt(tr, i);
      assert all[..i] == tr[..i];
    }
  }

  lemma NotifiedLost(tr: seq<Event>, notice: bool)
    requires NotifiedRight(tr) && NoticesFollow(tr) && (notice <==> !Armed(tr, Marks, EndsOutage))
    ensures var all := tr + if notice then [SendLost, OnReconnect] else [SendLost];
            NotifiedRight(all) && NoticesFollow(all)
  {
    var all := tr + if notice then [SendLost, OnReconnect] else [SendLost];
    forall i: nat | i < |all| && all[i] == SendLost ensures NotifiedAt(all, i) {
      if i < |tr| {
        assert NotifiedAt(tr, i);
        assert all[..i] == tr[..i];
      } else {
        assert all[..i] == tr;
      }
    }
  }

  lemma LostEventsAre(c: Config, s: Sys, o: Origin)
    requires Enabled(c, s, SendFails(o)) && c.policy.Some? && c.onReconnect
    ensures Emitted(c, s, SendFails(o)) == if s.v.reconnecting then [SendLost] else [SendLost, OnReconnect]
  {
  }

  lemma OtherEvents(c: Config, s: Sys, st: Step)
    requires Enabled(c, s, st) && !st.SendFails?
    ensures forall e :: e in Emitted(c, s, st) ==> e != SendLost && e != OnReconnect
  {
  }

  /** The state of affairs the notifications keep. */
  predicate Noticed(marked: bool, tr: seq<Event>) {
    NotifiedRight(tr) && NoticesFollow(tr) && (marked <==> Armed(tr, Marks, EndsOutage))
  }

  lemma NoticedAppend(marked: bool, after: bool, tr: seq<Event>, es: seq<Event>)
    requires Noticed(marked, tr) && MarkFollows(marked, after, es)
    requires (forall e :: e in es ==> e != SendLost && e != OnReconnect)
             || es == if marked then [SendLost] else [SendLost, OnReconnect]
    ensures Noticed(after, tr + es)
  {
    ArmedConcat(tr, es, Marks, EndsOutage);
    if forall e :: e in es ==> e != SendLost && e != OnReconnect {
      forall i | 0 <= i < |es| ensures es[i] != SendLost && es[i] != OnReconnect {
        assert es[i] in es;
      }
      NotifiedOther(tr, es);
    } else {
      NotifiedLost(tr, !marked);
    }
  }

  lemma NoticedStep(c: Config, s: Sys, st: Step, tr: seq<Event>)
    requires Enabled(c, s, st) && c.policy.Some? && c.onReconnect && Noticed(s.v.reconnecting, tr)
    ensures Noticed(Machine.Next(c, s, st).v.reconnecting, tr + Emitted(c, s, st))
  {
    MarkStep(c, s, st);
    if st.SendFails? {
      LostEventsAre(c, s, st.o);
    } else {
      OtherEvents(c, s, st);
    }
    NoticedAppend(s.v.reconnecting, Machine.Next(c, s, st).v.reconnecting, tr, Emitted(c, s, st));
  }

  lemma {:induction false} NotifiedRun(c: Config, s: Sys, steps: seq<Step>, tr: seq<Event>)
    requires Feasible(c, s, steps) && c.policy.Some? && c.onReconnect && Noticed(s.v.reconnecting, tr)
    ensures Noticed(Run(c, s, steps).v.reconnecting, tr + Trace(c, s, steps))
    decreases |steps|
  {
    if steps == [] {
      assert tr + [] == tr;
    } else {
      var t, es := Machine.Next(c, s, steps[0]), Emitted(c, s, steps[0]);
      NoticedStep(c, s, steps[0], tr);
      NotifiedRun(c, t, steps[1..], tr + es);
      Regroup(tr, es, Trace(c, t, steps[1..]));
    }
  }

  /** With a reconnect callback, on every run: a lost send is followed by a notification exactly when no
      lost send or answer of `next` before it is still without a written message, an accepted handshake
      or a raising retry behind it; and there are no other notifications. */
  lemma NotifiedExactly(c: Config, now: real, steps: seq<Step>, i: nat)
    requires Feasible(c, Start(now), steps) && c.policy.Some? && c.onReconnect
    requires i < |Trace(c, Start(now), steps)|
    ensures var tr := Trace(c, Start(now), steps);
            && (tr[i] == SendLost ==>
                  ((i + 1 < |tr| && tr[i + 1] == OnReconnect) <==> !Since(tr[..i], Marks, EndsOutage)))
            && (tr[i] == OnReconnect ==> i > 0 && tr[i - 1] == SendLost)
  {
    var tr := Trace(c, Start(now), steps);
    NotifiedRun(c, Start(now), steps, []);
    assert [] + tr == tr;
    if tr[i] == SendLost {
      assert NotifiedAt(tr, i);
      ArmedIsSince(tr[..i], Marks, EndsOutage);
    }
  }

  /* ---------- the checker ---------- */

  predicate Accepting(e: Event) { e == Accepted }

  predicate RunningFollows(before: bool, after: bool, es: seq<Event>) {
    after <==> Armed(es, Accepting, StopEvent) || (before && Free(es, StopEvent))
  }

  lemma AnswerRuns(c: Config, s: Sys, close: bool)
    requires Enabled(c, s, Answer(true, close)) && c.policy.Some?
    ensures var st := Answer(true, close);
            RunningFollows(s.v.running, Machine.Next(c, s, st).v.running, Emitted(c, s, st))
  {
    var es := Emitted(c, s, Answer(true, close));
    assert es[0] == Accepted && forall i :: 0 < i < |es| ==> es[i] != Accepted;
    if close {
      assert es[|es| - 1] == LoopStopped;
      assert StopEvent(Last(es));
    } else {
      assert forall i :: 0 < i < |es| ==> !StopEvent(es[i]);
      assert NoneBehind(es, StopEvent, 0);
      ArmedFrom(es, Accepting, StopEvent, 0);
    }
  }

  lemma OtherRuns(c: Config, s: Sys, st: Step)
    requires Enabled(c, s, st) && c.policy.Some? && !(st.Answer? && st.accepted)
    ensures Free(Emitted(c, s, st), Accepting)
    ensures Machine.Next(c, s, st).v.running <==> s.v.running && Free(Emitted(c, s, st), StopEvent)
  {
    var es := Emitted(c, s, st);
    if (st.Data? || st.Answer? || st.StopCalled?) && es != [] && es[|es| - 1] == LoopStopped {
      assert StopEvent(es[|es| - 1]);
    }
  }

  lemma NeverArmed(es: seq<Event>, p: Event -> bool, q: Event -> bool)
    requires Free(es, p)
    ensures !Armed(es, p, q)
  {
    if Armed(es, p, q) {
      var i := ArmedSince(es, p, q);
      assert false;
    }
  }

  lemma {:induction false} RunningSince(c: Config, s: Sys, steps: seq<Step>, tr: seq<Event>)
    requires Feasible(c, s, steps) && c.policy.Some?
    requires s.v.running <==> Armed(tr, Accepting, StopEvent)
    ensures Run(c, s, steps).v.running <==> Armed(tr + Trace(c, s, steps), Accepting, StopEvent)
    decreases |steps|
  {
    if steps == [] {
      assert tr + [] == tr;
    } else {
      var t, es := Machine.Next(c, s, steps[0]), Emitted(c, s, steps[0]);
      if steps[0].Answer? && steps[0].accepted {
        AnswerRuns(c, s, steps[0].close);
      } else {
        OtherRuns(c, s, steps[0]);
        NeverArmed(es, Accepting, StopEvent);
      }
      ArmedConcat(tr, es, Accepting, StopEvent);
      RunningSince(c, t, steps[1..], tr + es);
      Regroup(tr, es, Trace(c, t, steps[1..]));
    }
  }

  /** On every run with a handler: the checker is running exactly when an accepted handshake has no stop
      of the checker behind it. */
  lemma RunningOfRun(c: Config, now: real, steps: seq<Step>)
    requires Feasible(c, Start(now), steps) && c.policy.Some?
    ensures Run(c, Start(now), steps).v.running <==> Since(Trace(c, Start(now), steps), Accepting, StopEvent)
  {
    var tr := Trace(c, Start(now), steps);
    RunningSince(c, Start(now), steps, []);
    assert [] + tr == tr;
    ArmedIsSince(tr, Accepting, StopEvent);
  }

  /* ---------- how often each callback is called ---------- */

  predicate IsAnswer(st: Step) { st.Answer? }

  /** Without a reconnection handler a lost send is a close too. */
  function Closes(c: Config): Step -> bool {
    (st: Step) => st.SocketGone? || (st.Answer? && !st.accepted) || (c.policy.None? && st.SendFails?)
  }

  predicate OpenEvent(e: Event) { e == OnOpen }

  predicate CloseEvent(e: Event) { e == OnClose }

  lemma OpensStep(c: Config, s: Sys, st: Step)
    requires Enabled(c, s, st)
    ensures Count(Emitted(c, s, st), OpenEvent) == One(c.onOpen && IsAnswer(st))
  {
    if st.Answer? {
      var first := EvaluatedEvents(c, s.v, st.accepted);
      var open := Called(c.onOpen, OnOpen);
      var stop := Called(st.close && Answered(c, s.v, st.accepted).state == Connected, LoopStopped);
      CountConcat(first, open, OpenEvent);
      CountConcat(first + open, stop, OpenEvent);
      NotCounted(first, OpenEvent);
      NotCounted(stop, OpenEvent);
    } else {
      NotCounted(Emitted(c, s, st), OpenEvent);
    }
  }

  lemma {:induction false} NotCounted(es: seq<Event>, p: Event -> bool)
    requires Free(es, p)
    ensures Count(es, p) == 0
  {
    if es != [] {
      NotCounted(es[1..], p);
    }
  }

  lemma LostCloses(c: Config, s: Sys, o: Origin)
    requires Enabled(c, s, SendFails(o)) && c.policy.None?
    ensures Count(Emitted(c, s, SendFails(o)), CloseEvent) == One(c.onClose)
  {
    var closed, raised := Called(c.onClose, OnClose), RaisedEvents(o);
    CountConcat([SendLost], closed, CloseEvent);
    CountConcat([SendLost] + closed, raised, CloseEvent);
    NotCounted([SendLost], CloseEvent);
    NotCounted(raised, CloseEvent);
  }

  lemma RejectedCloses(c: Config, s: Sys, close: bool)
    requires Enabled(c, s, Answer(false, close))
    ensures Count(Emitted(c, s, Answer(false, close)), CloseEvent) == One(c.onClose)
  {
    var closed, open := Called(c.onClose, OnClose), Called(c.onOpen, OnOpen);
    var stop := Called(close && Answered(c, s.v, false).state == Connected, LoopStopped);
    CountConcat([Rejected], closed, CloseEvent);
    CountConcat([Rejected] + closed, open, CloseEvent);
    CountConcat([Rejected] + closed + open, stop, CloseEvent);
    NotCounted([Rejected], CloseEvent);
    NotCounted(open, CloseEvent);
    NotCounted(stop, CloseEvent);
  }

  lemma OthersClose(c: Config, s: Sys, st: Step)
    requires Enabled(c, s, st) && !Closes(c)(st)
    ensures Free(Emitted(c, s, st), CloseEvent)
  {
  }

  lemma ClosesStep(c: Config, s: Sys, st: Step)
    requires Enabled(c, s, st)
    ensures Count(Emitted(c, s, st), CloseEvent) == One(c.onClose && Closes(c)(st))
  {
    if !Closes(c)(st) {
      OthersClose(c, s, st);
      NotCounted(Emitted(c, s, st), CloseEvent);
    } else if st.SendFails? {
      LostCloses(c, s, st.o);
    } else if st.Answer? {
      RejectedCloses(c, s, st.close);
    }
  }

  /** On every run the open callback, if there is one, is called once for every handshake answer, rejected
      or not; and the close callback once for every closed socket, every rejected answer and, without a
      reconnection handler, every lost send. */
  lemma {:induction false} CallbackCounts(c: Config, s: Sys, steps: seq<Step>)
    requires Feasible(c, s, steps)
    ensures var tr := Trace(c, s, steps);
            Count(tr, OpenEvent) == (if c.onOpen then Count(steps, IsAnswer) else 0)
            && Count(tr, CloseEvent) == (if c.onClose then Count(steps, Closes(c)) else 0)
    decreases |steps|
  {
    if steps != [] {
      var t, es := Machine.Next(c, s, steps[0]), Emitted(c, s, steps[0]);
      OpensStep(c, s, steps[0]);
      ClosesStep(c, s, steps[0]);
      CountConcat(es, Trace(c, t, steps[1..]), OpenEvent);
      CountConcat(es, Trace(c, t, steps[1..]), CloseEvent);
      CallbackCounts(c, t, steps[1..]);
    }
  }

  lemma {:induction false} OneCounted(es: seq<Event>, p: Event -> bool, i: nat)
    requires i < |es| && p(es[i]) && forall k :: 0 <= k < |es| && p(es[k]) ==> k == i
    ensures Count(es, p) == 1
  {
    if i == 0 {
      assert forall k :: 0 <= k < |es| - 1 ==> es[1..][k] == es[k + 1];
      NotCounted(es[1..], p);
    } else {
      OneCounted(es[1..], p, i - 1);
    }
  }

  predicate StartEvent(e: Event) { e == StartTried }

  predicate LostEvent(e: Event) { e == SendLost }

  predicate DoneEvent(e: Event) { e == SendDone }

  predicate RejectedEvent(e: Event) { e == Rejected }

  /** The step tries to start the connection from inside a reconnect. */
  predicate TriesStart(st: Step) {
    st.StartReturns? || st.StartRaises? || (st.KillDone? && !st.next.Negotiating?)
  }

  predicate Loses(st: Step) { st.SendFails? }

  predicate Writes(st: Step) { st.SendOk? }

  predicate Rejects(st: Step) { st.Answer? && !st.accepted }

  predicate Accepts(st: Step) { st.Answer? && st.accepted }

  /** An event that a step leaves behind, first of all, exactly when it is of this kind. */
  ghost predicate Heralds(c: Config, p: Event -> bool, kind: Step -> bool, s: Sys, st: Step) {
    Enabled(c, s, st) ==>
      var es := Emitted(c, s, st);
      if kind(st) then es != [] && p(es[0]) && forall k :: 0 < k < |es| ==> !p(es[k])
      else Free(es, p)
  }

  lemma StartHeralds(c: Config, s: Sys, st: Step)
    ensures Heralds(c, StartEvent, TriesStart, s, st)
  {
  }

  lemma LostHeralds(c: Config, s: Sys, st: Step)
    ensures Heralds(c, LostEvent, Loses, s, st)
  {
  }

  lemma DoneHeralds(c: Config, s: Sys, st: Step)
    ensures Heralds(c, DoneEvent, Writes, s, st)
  {
  }

  lemma AcceptHeralds(c: Config, s: Sys, st: Step)
    ensures Heralds(c, Accepting, Accepts, s, st)
  {
  }

  lemma RejectHeralds(c: Config, s: Sys, st: Step)
    ensures Heralds(c, RejectedEvent, Rejects, s, st)
  {
  }

  lemma {:induction false} CountedAlong(c: Config, p: Event -> bool, kind: Step -> bool, s: Sys, steps: seq<Step>)
    requires Feasible(c, s, steps) && forall t, st :: Heralds(c, p, kind, t, st)
    ensures Count(Trace(c, s, steps), p) == Count(steps, kind)
    decreases |steps|
  {
    if steps != [] {
      var t, es := Machine.Next(c, s, steps[0]), Emitted(c, s, steps[0]);
      assert Heralds(c, p, kind, s, steps[0]);
      if kind(steps[0]) {
        OneCounted(es, p, 0);
      } else {
        NotCounted(es, p);
      }
      CountConcat(es, Trace(c, t, steps[1..]), p);
      CountedAlong(c, p, kind, t, steps[1..]);
    }
  }

  /** On every run each written message, lost send, accepted or rejected answer and start attempt leaves
      exactly one event of its kind. */
  lemma EventCounts(c: Config, s: Sys, steps: seq<Step>)
    requires Feasible(c, s, steps)
    ensures var tr := Trace(c, s, steps);
            && Count(tr, DoneEvent) == Count(steps, Writes) && Count(tr, LostEvent) == Count(steps, Loses)
            && Count(tr, Accepting) == Count(steps, Accepts) && Count(tr, RejectedEvent) == Count(steps, Rejects)
            && Count(tr, StartEvent) == Count(steps, TriesStart)
  {
    forall t, st
      ensures Heralds(c, StartEvent, TriesStart, t, st) && Heralds(c, LostEvent, Loses, t, st)
              && Heralds(c, DoneEvent, Writes, t, st) && Heralds(c, Accepting, Accepts, t, st)
              && Heralds(c, RejectedEvent, Rejects, t, st)
    {
      StartHeralds(c, t, st);
      LostHeralds(c, t, st);
      DoneHeralds(c, t, st);
      AcceptHeralds(c, t, st);
      RejectHeralds(c, t, st);
    }
    CountedAlong(c, StartEvent, TriesStart, s, steps);
    CountedAlong(c, LostEvent, Loses, s, steps);
    CountedAlong(c, DoneEvent, Writes, s, steps);
    CountedAlong(c, Accepting, Accepts, s, steps);
    CountedAlong(c, RejectedEvent, Rejects, s, steps);
  }

  /** From the start, the time the keep-alive loop compares with is that of the last written message, and
      before the first one the time the connection was built. */
  lemma LastMessageOfRun(c: Config, now: real, steps: seq<Step>)
    requires Feasible(c, Start(now), steps)
    ensures Run(c, Start(now), steps).v.lastMessage == LastWritten(steps, now)
  {
    LastMessageRun(c, Start(now), steps);
  }

  /* ---------- the attempt number ---------- */

  /** What counts as an attempt: a granted delay of a handler with a maximum, any answer of `next` of the
      interval handler. */
  function Attempts(p: Policy): Event -> bool {
    (e: Event) => match p
         case Raw(_, maxAttempts) => maxAttempts.Some? && e.Granted?
         case Interval(_) => e.Granted? || e.Denied?
  }

  /** The attempts since the last written message. */
  function AttemptsSince(p: Policy, tr: seq<Event>): nat {
    if tr == [] || Last(tr) == SendDone then 0 else AttemptsSince(p, Init(tr)) + One(Attempts(p)(Last(tr)))
  }

  predicate Plain(p: Policy, e: Event) {
    e != SendDone && !Attempts(p)(e)
  }

  lemma {:induction false} PlainEvents(p: Policy, tr: seq<Event>, es: seq<Event>)
    requires forall i :: 0 <= i < |es| ==> Plain(p, es[i])
    ensures AttemptsSince(p, tr + es) == AttemptsSince(p, tr)
    decreases |es|
  {
    if es == [] {
      assert tr + es == tr;
    } else {
      Snoc(tr, es[0]);
      assert Plain(p, es[0]);
      PlainEvents(p, tr + [es[0]], es[1..]);
      assert tr + es == (tr + [es[0]]) + es[1..];
    }
  }

  lemma OneMore(p: Policy, tr: seq<Event>, e: Event)
    ensures AttemptsSince(p, tr + [e]) ==
              if e == SendDone then 0 else AttemptsSince(p, tr) + One(Attempts(p)(e))
  {
    Snoc(tr, e);
  }

  lemma AskedEventsAre(p: Policy, v: View, o: Origin, tr: seq<Event>)
    ensures var delay := Grant(p, v.attempt);
            tr + FailedEvents(p, v, o) ==
              ((tr + [StartTried]) + [if delay.Some? then Granted(delay.value) else Denied])
              + if delay.None? then RaisedEvents(o) else []
  {
  }

  lemma AskedAttempts(p: Policy, v: View, o: Origin, tr: seq<Event>)
    requires AttemptsSince(p, tr) == v.attempt
    ensures AttemptsSince(p, tr + FailedEvents(p, v, o)) == AttemptAfter(p, v.attempt)
  {
    var delay := Grant(p, v.attempt);
    var answer := if delay.Some? then Granted(delay.value) else Denied;
    var asked := (tr + [StartTried]) + [answer];
    AskedEventsAre(p, v, o, tr);
    OneMore(p, tr, StartTried);
    OneMore(p, tr + [StartTried], answer);
    PlainRaised(p, o);
    PlainEvents(p, asked, if delay.None? then RaisedEvents(o) else []);
  }

  lemma PlainRaised(p: Policy, o: Origin)
    ensures forall i :: 0 <= i < |RaisedEvents(o)| ==> Plain(p, RaisedEvents(o)[i])
  {
  }

  lemma AttemptsStep(c: Config, s: Sys, st: Step, tr: seq<Event>)
    requires Enabled(c, s, st) && c.policy.Some? && AttemptsSince(c.policy.value, tr) == s.v.attempt
    ensures AttemptsSince(c.policy.value, tr + Emitted(c, s, st)) == Machine.Next(c, s, st).v.attempt
  {
    if Asks(st) {
      AskedAttempts(c.policy.value, s.v, st.o, tr);
    } else if st.SendOk? {
      Snoc(tr, SendDone);
    } else {
      AttemptKept(c, s, st);
      NeutralStep(c, s, st);
      PlainNeutral(c.policy.value, Emitted(c, s, st));
      PlainEvents(c.policy.value, tr, Emitted(c, s, st));
    }
  }

  lemma PlainNeutral(p: Policy, es: seq<Event>)
    requires AllNeutral(es)
    ensures forall i :: 0 <= i < |es| ==> Plain(p, es[i])
  {
    forall i | 0 <= i < |es| ensures Plain(p, es[i]) {
      assert Neutral(es[i]);
    }
  }

  lemma {:induction false} AttemptsRun(c: Config, s: Sys, steps: seq<Step>, tr: seq<Event>)
    requires Feasible(c, s, steps) && c.policy.Some? && AttemptsSince(c.policy.value, tr) == s.v.attempt
    ensures AttemptsSince(c.policy.value, tr + Trace(c, s, steps)) == Run(c, s, steps).v.attempt
    decreases |steps|
  {
    if steps == [] {
      assert tr + [] == tr;
    } else {
      var t, es := Machine.Next(c, s, steps[0]), Emitted(c, s, steps[0]);
      AttemptsStep(c, s, steps[0], tr);
      AttemptsRun(c, t, steps[1..], tr + es);
      Regroup(tr, es, Trace(c, t, steps[1..]));
    }
  }

  /** On every run the attempt number is that of the attempts since the last written message: of the
      granted delays for the raw handler with a maximum, of all answers for the interval handler, none
      for the unbounded one. */
  lemma AttemptsOfRun(c: Config, now: real, steps: seq<Step>)
    requires Feasible(c, Start(now), steps) && c.policy.Some?
    ensures Run(c, Start(now), steps).v.attempt == AttemptsSince(c.policy.value, Trace(c, Start(now), steps))
  {
    AttemptsRun(c, Start(now), steps, []);
    assert [] + Trace(c, Start(now), steps) == Trace(c, Start(now), steps);
  }
}
