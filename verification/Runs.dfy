/** What holds over whole runs of the connection: the retry budget, the end of every retry chain,
    reconnect notifications and keep-alive loops. */
module Runs {
  import opened Values
  import Messages
  import opened Reconnection
  import opened Transport
  import opened Machine
  import opened Traces

  /* ---------- the events of a run ---------- */

  /** An exception reaches the origin of a send: user code, a loop, or a retry. */
  function RaisedEvents(o: Origin): seq<Event> {
    match o
    case Caller => []
    case Loop => [LoopEnded]
    case Retry => [RetryRaised]
  }

  function FailedEvents(p: Policy, v: View, o: Origin): seq<Event> {
    RestartFailedEvents(p, v) + if Grant(p, v.attempt).None? then RaisedEvents(o) else []
  }

  /** The events one step leaves behind. */
  function Emitted(c: Config, s: Sys, st: Step): seq<Event>
    requires Enabled(c, s, st)
  {
    match st
    case SendOk(_, _) => [SendDone]
    case SendFails(o) => LostEvents(c, s.v) + if c.policy.None? then RaisedEvents(o) else []
    case SendRaises(o) => RaisedEvents(o)
    case KillDone(o, next) =>
      (match next
       case Negotiating => []
       case StartedNow => [StartTried]
       case FailedNow => FailedEvents(c.policy.value, s.v, o))
    case StartReturns(_) => [StartTried]
    case StartRaises(o) => FailedEvents(c.policy.value, s.v, o)
    case Answer(accepted, close) =>
      AnsweredEvents(c, s.v, accepted)
      + Called(close && Answered(c, s.v, accepted).state == Connected, LoopStopped)
    case Data(close) => Called(close && s.v.state == Connected, LoopStopped)
    case SocketGone => Called(c.onClose, OnClose)
    case StopCalled => [LoopStopped]
    case LoopExit => [LoopEnded]
    case _ => []
  }

  function Trace(c: Config, s: Sys, steps: seq<Step>): seq<Event>
    requires Feasible(c, s, steps)
    decreases |steps|
  {
    if steps == [] then []
    else Emitted(c, s, steps[0]) + Trace(c, Machine.Next(c, s, steps[0]), steps[1..])
  }

  /* ---------- the retry budget ---------- */

  /** The delays granted since the last message that was written. */
  function GrantsSince(tr: seq<Event>): seq<int> {
    if tr == [] then []
    else match Last(tr)
      case SendDone => []
      case Granted(d) => GrantsSince(Init(tr)) + [d]
      case _ => GrantsSince(Init(tr))
  }

  /** At every moment the delays granted since the last written message are a prefix of the budget,
      and a delay is refused only when they are all of it. */
  predicate WithinBudget(p: Policy, tr: seq<Event>)
    requires Bounded(p)
  {
    tr == []
    || (WithinBudget(p, Init(tr)) && GrantsSince(tr) <= Budget(p)
        && (Last(tr) == Denied ==> GrantsSince(Init(tr)) == Budget(p)))
  }

  /** The handler's attempt number counts those delays. */
  predicate Accounted(p: Policy, attempt: nat, tr: seq<Event>)
    requires Bounded(p)
  {
    WithinBudget(p, tr)
    && GrantsSince(tr) == Budget(p)[..if attempt < |Budget(p)| then attempt else |Budget(p)|]
  }

  predicate Neutral(e: Event) {
    !e.SendDone? && !e.Granted? && !e.Denied?
  }

  lemma {:induction false} NeutralEvents(p: Policy, attempt: nat, tr: seq<Event>, es: seq<Event>)
    requires Bounded(p) && Accounted(p, attempt, tr) && forall i :: 0 <= i < |es| ==> Neutral(es[i])
    ensures Accounted(p, attempt, tr + es)
    decreases |es|
  {
    if es == [] {
      assert tr + es == tr;
    } else {
      NeutralEvent(p, attempt, tr, es[0]);
      NeutralEvents(p, attempt, tr + [es[0]], es[1..]);
      assert tr + es == (tr + [es[0]]) + es[1..];
    }
  }

  lemma NeutralEvent(p: Policy, attempt: nat, tr: seq<Event>, e: Event)
    requires Bounded(p) && Accounted(p, attempt, tr) && Neutral(e)
    ensures Accounted(p, attempt, tr + [e])
  {
    Snoc(tr, e);
  }

  lemma GrantedEvent(p: Policy, attempt: nat, tr: seq<Event>)
    requires Bounded(p) && Accounted(p, attempt, tr) && attempt < |Budget(p)|
    ensures Accounted(p, attempt + 1, tr + [Granted(Budget(p)[attempt])])
  {
    Snoc(tr, Granted(Budget(p)[attempt]));
    assert Budget(p)[..attempt + 1] == Budget(p)[..attempt] + [Budget(p)[attempt]];
  }

  lemma DeniedEvent(p: Policy, attempt: nat, tr: seq<Event>)
    requires Bounded(p) && Accounted(p, attempt, tr) && attempt >= |Budget(p)|
    ensures Accounted(p, attempt, tr + [Denied])
  {
    Snoc(tr, Denied);
    assert Budget(p)[..|Budget(p)|] == Budget(p);
  }

  lemma AnswerOfNext(p: Policy, attempt: nat, tr: seq<Event>)
    requires Bounded(p) && Accounted(p, attempt, tr)
    ensures var delay := Grant(p, attempt);
            Accounted(p, AttemptAfter(p, attempt), tr + [if delay.Some? then Granted(delay.value) else Denied])
  {
    GrantFromBudget(p, attempt);
    if attempt < |Budget(p)| {
      GrantedEvent(p, attempt, tr);
    } else {
      DeniedEvent(p, attempt, tr);
    }
  }

  lemma AskedEvents(p: Policy, v: View, o: Origin, tr: seq<Event>)
    requires Bounded(p) && Accounted(p, v.attempt, tr)
    ensures Accounted(p, AttemptAfter(p, v.attempt), tr + FailedEvents(p, v, o))
  {
    var delay := Grant(p, v.attempt);
    var answer := if delay.Some? then Granted(delay.value) else Denied;
    var raised := if delay.None? then RaisedEvents(o) else [];
    NeutralEvents(p, v.attempt, tr, [StartTried]);
    AnswerOfNext(p, v.attempt, tr + [StartTried]);
    NeutralEvents(p, AttemptAfter(p, v.attempt), tr + [StartTried] + [answer], raised);
    Regroup(tr, [StartTried], [answer]);
    assert [StartTried] + [answer] == RestartFailedEvents(p, v);
    Regroup(tr, RestartFailedEvents(p, v), raised);
  }

  /** `connection.start` raised: the handler is asked for a delay. */
  predicate Asks(st: Step) {
    st.StartRaises? || (st.KillDone? && st.next.FailedNow?)
  }

  lemma AttemptKept(c: Config, s: Sys, st: Step)
    requires Enabled(c, s, st) && !Asks(st) && !st.SendOk?
    ensures Machine.Next(c, s, st).v.attempt == s.v.attempt
  {
    if st.KillDone? {
    } else if st.Answer? {
    } else if st.SendFails? || st.SendRaises? {
    } else if st.StartReturns? || st.ChainKilled? {
    }
  }

  predicate AllNeutral(es: seq<Event>) {
    forall i :: 0 <= i < |es| ==> Neutral(es[i])
  }

  lemma NeutralConcat(a: seq<Event>, b: seq<Event>)
    requires AllNeutral(a) && AllNeutral(b)
    ensures AllNeutral(a + b)
  {
  }

  /** A step that neither writes a message nor asks for a delay. */
  lemma NeutralStep(c: Config, s: Sys, st: Step)
    requires Enabled(c, s, st) && !Asks(st) && !st.SendOk?
    ensures AllNeutral(Emitted(c, s, st))
  {
    if st.Answer? {
      var evaluated := EvaluatedEvents(c, s.v, st.accepted);
      NeutralConcat(evaluated, Called(c.onOpen, OnOpen));
      NeutralConcat(AnsweredEvents(c, s.v, st.accepted),
                    Called(st.close && Answered(c, s.v, st.accepted).state == Connected, LoopStopped));
    } else if st.SendFails? {
      NeutralConcat(LostEvents(c, s.v), if c.policy.None? then RaisedEvents(st.o) else []);
    }
  }

  lemma AccountedStep(c: Config, s: Sys, st: Step, tr: seq<Event>)
    requires Enabled(c, s, st) && c.policy.Some? && Bounded(c.policy.value)
    requires Accounted(c.policy.value, s.v.attempt, tr)
    ensures Accounted(c.policy.value, Machine.Next(c, s, st).v.attempt, tr + Emitted(c, s, st))
  {
    if Asks(st) {
      AskedEvents(c.policy.value, s.v, st.o, tr);
    } else if st.SendOk? {
      Snoc(tr, SendDone);
    } else {
      AttemptKept(c, s, st);
      NeutralStep(c, s, st);
      NeutralEvents(c.policy.value, s.v.attempt, tr, Emitted(c, s, st));
    }
  }

  lemma {:induction false} AccountedRun(c: Config, s: Sys, steps: seq<Step>, tr: seq<Event>)
    requires Feasible(c, s, steps) && c.policy.Some? && Bounded(c.policy.value)
    requires Accounted(c.policy.value, s.v.attempt, tr)
    ensures Accounted(c.policy.value, Run(c, s, steps).v.attempt, tr + Trace(c, s, steps))
    decreases |steps|
  {
    if steps == [] {
      assert tr + [] == tr;
    } else {
      AccountedStep(c, s, steps[0], tr);
      var t := Machine.Next(c, s, steps[0]);
      AccountedRun(c, t, steps[1..], tr + Emitted(c, s, steps[0]));
      Regroup(tr, Emitted(c, s, steps[0]), Trace(c, t, steps[1..]));
    }
  }

  lemma {:induction false} WithinBudgetAt(p: Policy, tr: seq<Event>, i: nat)
    requires Bounded(p) && WithinBudget(p, tr) && i <= |tr|
    ensures GrantsSince(tr[..i]) <= Budget(p)
    ensures i < |tr| && tr[i] == Denied ==> GrantsSince(tr[..i]) == Budget(p)
  {
    if i == |tr| {
      assert tr[..i] == tr;
    } else {
      WithinBudgetAt(p, Init(tr), i);
      assert Init(tr)[..i] == tr[..i];
      if i == |tr| - 1 {
        assert tr[..i] == Init(tr);
      }
    }
  }

  predicate ExactAt(p: Policy, tr: seq<Event>, i: nat)
    requires Bounded(p) && i <= |tr|
  {
    var granted := GrantsSince(tr[..i]);
    granted <= Budget(p)
    && (i < |tr| && tr[i] == Denied ==> granted == Budget(p))
    && (i < |tr| && tr[i].Granted? ==> granted + [tr[i].delay] <= Budget(p))
  }

  lemma GrantExtends(tr: seq<Event>, i: nat)
    requires i < |tr| && tr[i].Granted?
    ensures GrantsSince(tr[..i + 1]) == GrantsSince(tr[..i]) + [tr[i].delay]
  {
    assert tr[..i + 1] == tr[..i] + [tr[i]];
    Snoc(tr[..i], tr[i]);
  }

  lemma WithinBudgetExact(p: Policy, tr: seq<Event>, i: nat)
    requires Bounded(p) && WithinBudget(p, tr) && i <= |tr|
    ensures ExactAt(p, tr, i)
  {
    WithinBudgetAt(p, tr, i);
    if i < |tr| && tr[i].Granted? {
      WithinBudgetAt(p, tr, i + 1);
      GrantExtends(tr, i);
    }
  }

  /** The retry budget is shared by every sender and exact: in every interleaving, from the start and
      at every moment, the delays granted since the last written message are the first ones of the
      budget in order, the next one granted is the next of the budget, and `next` refuses only when
      all of them have been granted. */
  lemma BudgetShared(c: Config, now: real, steps: seq<Step>, i: nat)
    requires Feasible(c, Start(now), steps) && c.policy.Some? && Bounded(c.policy.value)
    requires i <= |Trace(c, Start(now), steps)|
    ensures ExactAt(c.policy.value, Trace(c, Start(now), steps), i)
  {
    var tr := Trace(c, Start(now), steps);
    AccountedRun(c, Start(now), steps, []);
    assert [] + tr == tr;
    WithinBudgetExact(c.policy.value, tr, i);
  }

  /** A handler without a maximum never refuses and always grants its sleep time. */
  lemma {:induction false} UnboundedNeverRefuses(c: Config, s: Sys, steps: seq<Step>, i: nat)
    requires Feasible(c, s, steps) && c.policy.Some? && !Bounded(c.policy.value)
    requires i < |Trace(c, s, steps)|
    ensures var e := Trace(c, s, steps)[i];
            !e.Denied? && (e.Granted? ==> e.delay == c.policy.value.sleepTime)
    decreases |steps|
  {
    var es := Emitted(c, s, steps[0]);
    if i >= |es| {
      UnboundedNeverRefuses(c, Machine.Next(c, s, steps[0]), steps[1..], i - |es|);
    } else if !Asks(steps[0]) && !steps[0].SendOk? {
      NeutralStep(c, s, steps[0]);
      assert Neutral(es[i]);
    }
  }

  /* ---------- retry chains die out ---------- */

  /** A deferred retry wakes up. */
  predicate Fires(st: Step) {
    ((st.SendFails? || st.SendRaises? || st.SendOk?) && st.o.Retry?) || st.RetrySkipped?
  }

  /** A failing send from outside the retry machinery. */
  predicate External(st: Step) {
    st.SendFails? && !st.o.Retry?
  }

  /** A step the retry machinery takes by itself. */
  predicate Internal(st: Step) {
    Fires(st) || st.KillDone? || st.StartReturns? || st.StartRaises? || st.ChainKilled?
  }

  function CountFires(steps: seq<Step>): nat {
    if steps == [] then 0 else One(Fires(steps[0])) + CountFires(steps[1..])
  }

  function CountExternal(steps: seq<Step>): nat {
    if steps == [] then 0 else One(External(steps[0])) + CountExternal(steps[1..])
  }

  function CountInternal(steps: seq<Step>): nat {
    if steps == [] then 0 else One(Internal(steps[0])) + CountInternal(steps[1..])
  }

  function CountAsks(steps: seq<Step>): nat {
    if steps == [] then 0 else One(Asks(steps[0])) + CountAsks(steps[1..])
  }

  predicate NothingWritten(steps: seq<Step>) {
    forall i :: 0 <= i < |steps| ==> !steps[i].SendOk?
  }

  /** The retries that can still happen without a written message. */
  function Left(p: Policy, s: Sys): nat
    requires Bounded(p)
  {
    Remaining(p, s.v.attempt) + s.pending
  }

  /** The steps the retry machinery can still take by itself. */
  function Work(p: Policy, s: Sys): nat
    requires Bounded(p)
  {
    3 * Left(p, s) + 2 * s.killing.Total() + s.restarting.Total()
  }

  lemma LeftStep(c: Config, s: Sys, st: Step)
    requires Enabled(c, s, st) && c.policy.Some? && Bounded(c.policy.value) && !st.SendOk?
    ensures Left(c.policy.value, Machine.Next(c, s, st)) + One(Fires(st)) == Left(c.policy.value, s)
  {
    GrantFromBudget(c.policy.value, s.v.attempt);
  }

  lemma WorkStep(c: Config, s: Sys, st: Step)
    requires Enabled(c, s, st) && c.policy.Some? && Bounded(c.policy.value) && !st.SendOk?
    ensures Work(c.policy.value, Machine.Next(c, s, st)) + One(Internal(st)) <=
              Work(c.policy.value, s) + 2 * One(External(st))
  {
    LeftStep(c, s, st);
  }

  /** Retry chains always die out: over any interleaving in which no message is written, every
      deferred retry that wakes uses up one of those left at the start, no other failing send adds to
      them, and the machinery's own steps are bounded too. */
  lemma {:induction false} RetriesDieOut(c: Config, s: Sys, steps: seq<Step>)
    requires Feasible(c, s, steps) && c.policy.Some? && Bounded(c.policy.value) && NothingWritten(steps)
    ensures CountFires(steps) + Left(c.policy.value, Run(c, s, steps)) == Left(c.policy.value, s)
    ensures CountInternal(steps) + Work(c.policy.value, Run(c, s, steps)) <=
              Work(c.policy.value, s) + 2 * CountExternal(steps)
    decreases |steps|
  {
    if steps != [] {
      LeftStep(c, s, steps[0]);
      WorkStep(c, s, steps[0]);
      RetriesDieOut(c, Machine.Next(c, s, steps[0]), steps[1..]);
    }
  }

  /** Every send fails, every start fails, and no greenlet is killed from outside. */
  predicate Failing(st: Step) {
    !st.SendOk? && !st.StartReturns? && !st.ChainKilled? && !(st.KillDone? && st.next.StartedNow?)
    && !(st.SendRaises? && st.o.Retry?)
  }

  predicate AllFailing(steps: seq<Step>) {
    forall i :: 0 <= i < |steps| ==> Failing(steps[i])
  }

  function InFlight(s: Sys): nat {
    s.killing.Total() + s.restarting.Total()
  }

  /** Each start attempt ends one reconnect, each failing send or retry begins one. */
  lemma FlightStep(c: Config, s: Sys, st: Step)
    requires Enabled(c, s, st) && Basic(c, s) && c.policy.Some? && Failing(st)
    ensures InFlight(Machine.Next(c, s, st)) + One(Asks(st)) == InFlight(s) + One(External(st)) + One(Fires(st))
  {
  }

  /** Something is in flight, or nothing is left to grant, or nothing has happened yet. */
  predicate Busy(p: Policy, s: Sys, idle: bool)
    requires Bounded(p)
  {
    InFlight(s) + s.pending > 0 || Remaining(p, s.v.attempt) == 0 || idle
  }

  lemma BusyStep(c: Config, s: Sys, st: Step)
    requires Enabled(c, s, st) && Basic(c, s) && c.policy.Some? && Bounded(c.policy.value) && Failing(st)
    ensures Busy(c.policy.value, Machine.Next(c, s, st), !External(st) && InFlight(s) + s.pending == 0)
  {
    GrantFromBudget(c.policy.value, s.v.attempt);
  }

  lemma RemainingStep(c: Config, s: Sys, st: Step)
    requires Enabled(c, s, st) && c.policy.Some? && Bounded(c.policy.value) && !st.SendOk?
    ensures Remaining(c.policy.value, Machine.Next(c, s, st).v.attempt) <= Remaining(c.policy.value, s.v.attempt)
  {
    GrantFromBudget(c.policy.value, s.v.attempt);
    if !Asks(st) {
      AttemptKept(c, s, st);
    }
  }

  lemma {:induction false} FailingRun(c: Config, s: Sys, steps: seq<Step>)
    requires Feasible(c, s, steps) && Basic(c, s) && c.policy.Some? && Bounded(c.policy.value) && AllFailing(steps)
    ensures InFlight(Run(c, s, steps)) + CountAsks(steps) == InFlight(s) + CountExternal(steps) + CountFires(steps)
    ensures Busy(c.policy.value, Run(c, s, steps), CountExternal(steps) == 0 && InFlight(s) + s.pending == 0)
    ensures Remaining(c.policy.value, Run(c, s, steps).v.attempt) <= Remaining(c.policy.value, s.v.attempt)
    decreases |steps|
  {
    if steps != [] {
      FlightStep(c, s, steps[0]);
      BusyStep(c, s, steps[0]);
      RemainingStep(c, s, steps[0]);
      BasicStep(c, s, steps[0]);
      FailingRun(c, Machine.Next(c, s, steps[0]), steps[1..]);
    }
  }

  /** When everything fails, from rest and until nothing is in flight any more, and at least one send
      was tried: all delays left are granted and used, and there is one start attempt for each of them
      plus one for each send. With one send from a reset handler that is one start attempt more than
      delays; with an exhausted handler each send makes one start attempt and gets no delay. */
  lemma EverythingFails(c: Config, s: Sys, steps: seq<Step>)
    requires Feasible(c, s, steps) && Basic(c, s) && c.policy.Some? && Bounded(c.policy.value) && AllFailing(steps)
    requires InFlight(s) + s.pending == 0 && CountExternal(steps) > 0
    requires InFlight(Run(c, s, steps)) + Run(c, s, steps).pending == 0
    ensures Remaining(c.policy.value, Run(c, s, steps).v.attempt) == 0
    ensures CountFires(steps) == Remaining(c.policy.value, s.v.attempt)
    ensures CountAsks(steps) == CountFires(steps) + CountExternal(steps)
  {
    FailingRun(c, s, steps);
    RetriesDieOut(c, s, steps);
  }

  /* ---------- one reconnect notification per outage ---------- */

  predicate Notice(e: Event) { e == OnReconnect }

  predicate EndsOutage(e: Event) { e == SendDone || e == Accepted || e == RetryRaised }

  /** An outage somebody has been told about is still marked in the handler. */
  predicate Marked(s: Sys, tr: seq<Event>) {
    Separated(tr, Notice, EndsOutage) && (Armed(tr, Notice, EndsOutage) ==> s.v.reconnecting)
  }

  predicate Notifies(c: Config, s: Sys, st: Step) {
    st.SendFails? && c.policy.Some? && c.onReconnect && !s.v.reconnecting
  }

  lemma NoticeEvents(c: Config, s: Sys, o: Origin)
    requires Enabled(c, s, SendFails(o)) && Notifies(c, s, SendFails(o))
    ensures Emitted(c, s, SendFails(o)) == [SendLost, OnReconnect]
    ensures Machine.Next(c, s, SendFails(o)).v.reconnecting
  {
  }

  lemma NoticeAppended(tr: seq<Event>)
    requires Separated(tr, Notice, EndsOutage) && !Armed(tr, Notice, EndsOutage)
    ensures Separated(tr + [SendLost, OnReconnect], Notice, EndsOutage)
  {
    AppendSilent(tr, [SendLost], Notice, EndsOutage);
    Append(tr + [SendLost], OnReconnect, Notice, EndsOutage);
    assert tr + [SendLost, OnReconnect] == (tr + [SendLost]) + [OnReconnect];
  }

  /** A step without a notification. */
  lemma SilentStep(c: Config, s: Sys, st: Step)
    requires Enabled(c, s, st) && !Notifies(c, s, st)
    ensures var es := Emitted(c, s, st); forall i :: 0 <= i < |es| ==> !Notice(es[i])
  {
  }

  /** If a step clears the mark, it leaves an event that ends the outage. */
  lemma ClearingStep(c: Config, s: Sys, st: Step)
    requires Enabled(c, s, st) && s.v.reconnecting && !Machine.Next(c, s, st).v.reconnecting
    ensures var es := Emitted(c, s, st); es != [] && (EndsOutage(es[0]) || EndsOutage(es[|es| - 1]))
  {
  }

  lemma MarkedStep(c: Config, s: Sys, st: Step, tr: seq<Event>)
    requires Enabled(c, s, st) && Marked(s, tr)
    ensures Marked(Machine.Next(c, s, st), tr + Emitted(c, s, st))
  {
    if Notifies(c, s, st) {
      NoticeEvents(c, s, st.o);
      NoticeAppended(tr);
    } else {
      SilentStep(c, s, st);
      if s.v.reconnecting && !Machine.Next(c, s, st).v.reconnecting {
        ClearingStep(c, s, st);
      }
      AppendSilent(tr, Emitted(c, s, st), Notice, EndsOutage);
    }
  }

  lemma {:induction false} MarkedRun(c: Config, s: Sys, steps: seq<Step>, tr: seq<Event>)
    requires Feasible(c, s, steps) && Marked(s, tr)
    ensures Marked(Run(c, s, steps), tr + Trace(c, s, steps))
    decreases |steps|
  {
    if steps == [] {
      assert tr + [] == tr;
    } else {
      MarkedStep(c, s, steps[0], tr);
      var t := Machine.Next(c, s, steps[0]);
      MarkedRun(c, t, steps[1..], tr + Emitted(c, s, steps[0]));
      Regroup(tr, Emitted(c, s, steps[0]), Trace(c, t, steps[1..]));
    }
  }

  /** On any run, between two reconnect notifications a message was written, a handshake was
      accepted, or a deferred retry ended in an exception. */
  lemma OneNoticePerOutage(c: Config, now: real, steps: seq<Step>, i: nat, j: nat)
    requires Feasible(c, Start(now), steps)
    requires var tr := Trace(c, Start(now), steps); i < j < |tr| && tr[i] == OnReconnect && tr[j] == OnReconnect
    ensures var tr := Trace(c, Start(now), steps); exists k :: i < k < j && EndsOutage(tr[k])
  {
    var tr := Trace(c, Start(now), steps);
    MarkedRun(c, Start(now), steps, []);
    assert [] + tr == tr;
    SeparatedEvents(tr, Notice, EndsOutage, i, j);
  }

  /* ---------- one keep-alive loop between two stops ---------- */

  predicate Spawn(e: Event) { e == LoopSpawned }

  predicate StopEvent(e: Event) { e == LoopStopped }

  predicate LoopMarked(s: Sys, tr: seq<Event>) {
    Separated(tr, Spawn, StopEvent) && (Armed(tr, Spawn, StopEvent) ==> s.v.running)
  }

  lemma SpawnEvents(tr: seq<Event>, rest: seq<Event>)
    requires Separated(tr, Spawn, StopEvent) && !Armed(tr, Spawn, StopEvent)
    requires forall i :: 0 <= i < |rest| ==> !Spawn(rest[i])
    ensures var after := tr + ([Accepted, LoopSpawned] + rest);
            Separated(after, Spawn, StopEvent)
            && (Armed(after, Spawn, StopEvent) ==> forall i :: 0 <= i < |rest| ==> !StopEvent(rest[i]))
  {
    AppendSilent(tr, [Accepted], Spawn, StopEvent);
    Append(tr + [Accepted], LoopSpawned, Spawn, StopEvent);
    AppendSilent(tr + [Accepted] + [LoopSpawned], rest, Spawn, StopEvent);
    assert tr + ([Accepted, LoopSpawned] + rest) == tr + [Accepted] + [LoopSpawned] + rest;
  }

  lemma LoopStarted(c: Config, s: Sys, close: bool, tr: seq<Event>)
    requires s.v.hasSocket && !s.v.handshake && LoopMarked(s, tr) && c.policy.Some? && !s.v.running
    ensures LoopMarked(Machine.Next(c, s, Answer(true, close)), tr + Emitted(c, s, Answer(true, close)))
  {
    var rest := Called(c.onOpen, OnOpen) + Called(close, LoopStopped);
    assert Emitted(c, s, Answer(true, close)) == [Accepted, LoopSpawned] + rest;
    SpawnEvents(tr, rest);
    var t := Machine.Next(c, s, Answer(true, close));
    if close {
      assert rest[|rest| - 1] == LoopStopped;
    } else {
      assert t.v.running;
    }
  }

  lemma LoopMarkedStep(c: Config, s: Sys, st: Step, tr: seq<Event>)
    requires Enabled(c, s, st) && LoopMarked(s, tr)
    ensures LoopMarked(Machine.Next(c, s, st), tr + Emitted(c, s, st))
  {
    if Spawns(c, s, st) {
      LoopStarted(c, s, st.close, tr);
    } else {
      LoopKept(c, s, st, tr);
    }
  }

  predicate Spawns(c: Config, s: Sys, st: Step) {
    st.Answer? && st.accepted && c.policy.Some? && !s.v.running
  }

  /** A step that starts no loop. */
  lemma UnspawnedStep(c: Config, s: Sys, st: Step)
    requires Enabled(c, s, st) && !Spawns(c, s, st)
    ensures var es := Emitted(c, s, st); forall i :: 0 <= i < |es| ==> !Spawn(es[i])
  {
  }

  /** If a step stops the checker, it says so last. */
  lemma StoppingEvents(c: Config, s: Sys, st: Step)
    requires Enabled(c, s, st) && s.v.running && !Machine.Next(c, s, st).v.running
    ensures var es := Emitted(c, s, st); es != [] && StopEvent(es[|es| - 1]) && LoopStopped in es
  {
  }

  lemma LoopKept(c: Config, s: Sys, st: Step, tr: seq<Event>)
    requires Enabled(c, s, st) && LoopMarked(s, tr) && !Spawns(c, s, st)
    ensures LoopMarked(Machine.Next(c, s, st), tr + Emitted(c, s, st))
  {
    UnspawnedStep(c, s, st);
    if s.v.running && !Machine.Next(c, s, st).v.running {
      StoppingEvents(c, s, st);
    }
    AppendSilent(tr, Emitted(c, s, st), Spawn, StopEvent);
  }

  lemma {:induction false} LoopMarkedRun(c: Config, s: Sys, steps: seq<Step>, tr: seq<Event>)
    requires Feasible(c, s, steps) && LoopMarked(s, tr)
    ensures LoopMarked(Run(c, s, steps), tr + Trace(c, s, steps))
    decreases |steps|
  {
    if steps == [] {
      assert tr + [] == tr;
    } else {
      LoopMarkedStep(c, s, steps[0], tr);
      var t := Machine.Next(c, s, steps[0]);
      LoopMarkedRun(c, t, steps[1..], tr + Emitted(c, s, steps[0]));
      Regroup(tr, Emitted(c, s, steps[0]), Trace(c, t, steps[1..]));
    }
  }

  /** On any run, between two starts of a keep-alive loop the checker was stopped. */
  lemma OneLoopBetweenStops(c: Config, now: real, steps: seq<Step>, i: nat, j: nat)
    requires Feasible(c, Start(now), steps)
    requires var tr := Trace(c, Start(now), steps); i < j < |tr| && tr[i] == LoopSpawned && tr[j] == LoopSpawned
    ensures var tr := Trace(c, Start(now), steps); exists k :: i < k < j && tr[k] == LoopStopped
  {
    var tr := Trace(c, Start(now), steps);
    LoopMarkedRun(c, Start(now), steps, []);
    assert [] + tr == tr;
    SeparatedEvents(tr, Spawn, StopEvent, i, j);
    var k :| i < k < j && StopEvent(tr[k]);
    assert tr[k] == LoopStopped;
  }

  /** The loops that live: asleep, or waiting inside the reconnect their ping began. */
  function Alive(s: Sys): nat {
    s.loops + s.killing.loops + s.restarting.loops
  }

  function Stops(tr: seq<Event>): nat {
    if tr == [] then 0 else One(tr[0] == LoopStopped) + Stops(tr[1..])
  }

  lemma {:induction false} StopsConcat(a: seq<Event>, b: seq<Event>)
    ensures Stops(a + b) == Stops(a) + Stops(b)
  {
    if a == [] {
      assert a + b == b;
    } else {
      StopsConcat(a[1..], b);
      assert (a + b)[1..] == a[1..] + b;
    }
  }

  /** The step ends the greenlet of a keep-alive loop. */
  predicate EndsLoop(c: Config, s: Sys, st: Step) {
    st.LoopExit? || LoopRaises(c, s, st)
  }

  /** An exception ends it: of a write, or the refusal of `next` in the reconnect its ping began. */
  predicate LoopRaises(c: Config, s: Sys, st: Step) {
    (st.SendRaises? && st.o.Loop?)
    || (c.policy.Some? && Asks(st) && st.o.Loop? && Grant(c.policy.value, s.v.attempt).None?)
    || (c.policy.None? && st.SendFails? && st.o.Loop?)
  }

  lemma AliveCount(c: Config, s: Sys, st: Step)
    requires Enabled(c, s, st)
    ensures Alive(Machine.Next(c, s, st)) + One(EndsLoop(c, s, st)) == Alive(s) + One(Spawns(c, s, st))
    ensures EndsLoop(c, s, st) ==> !Spawns(c, s, st)
  {
  }

  lemma LastStops(es: seq<Event>)
    requires es != [] && es[|es| - 1] == LoopStopped
    ensures Stops(es) >= 1
  {
    assert es == Init(es) + [LoopStopped];
    StopsConcat(Init(es), [LoopStopped]);
  }

  lemma StoppingStep(c: Config, s: Sys, st: Step)
    requires Enabled(c, s, st)
    ensures var t := Machine.Next(c, s, st);
            Alive(t) + One(s.v.running) <= Alive(s) + One(t.v.running) + Stops(Emitted(c, s, st))
  {
    AliveCount(c, s, st);
    var es := Emitted(c, s, st);
    if s.v.running && !Machine.Next(c, s, st).v.running {
      StoppingEvents(c, s, st);
    }
    if es != [] && es[|es| - 1] == LoopStopped {
      LastStops(es);
    }
  }

  /** On any run, the loops that live grow by at most one for every stop of the checker, and by one more
      if only now it is running. */
  lemma {:induction false} LoopsBounded(c: Config, s: Sys, steps: seq<Step>)
    requires Feasible(c, s, steps)
    ensures var t := Run(c, s, steps);
            Alive(t) + One(s.v.running) <= Alive(s) + One(t.v.running) + Stops(Trace(c, s, steps))
    decreases |steps|
  {
    if steps != [] {
      var t := Machine.Next(c, s, steps[0]);
      StoppingStep(c, s, steps[0]);
      LoopsBounded(c, t, steps[1..]);
      StopsConcat(Emitted(c, s, steps[0]), Trace(c, t, steps[1..]));
    }
  }

  predicate AlwaysSingle(c: Config, s: Sys, steps: seq<Step>)
    requires Feasible(c, s, steps)
    decreases |steps|
  {
    Alive(s) <= 1 && (steps == [] || AlwaysSingle(c, Machine.Next(c, s, steps[0]), steps[1..]))
  }

  predicate LoopEnd(e: Event) { e == LoopEnded }

  /** Between any two loops that start, a loop ended. */
  predicate EndedBetween(tr: seq<Event>) {
    forall i, j :: 0 <= i < j < |tr| && Spawn(tr[i]) && Spawn(tr[j]) ==> EndsWithin(tr, i, j)
  }

  predicate EndsWithin(tr: seq<Event>, i: int, j: int)
    requires 0 <= i < j < |tr|
  {
    exists k :: i < k < j && LoopEnd(tr[k])
  }

  lemma NoEndSince(tr: seq<Event>, i: nat)
    requires tr != [] && i < |Init(tr)| && Spawn(Init(tr)[i])
    requires forall k :: i < k < |Init(tr)| ==> !LoopEnd(Init(tr)[k])
    ensures Spawn(tr[i]) && !EndsWithin(tr, i, |tr| - 1)
  {
    forall k | i < k < |tr| - 1 ensures !LoopEnd(tr[k]) {
      assert tr[k] == Init(tr)[k];
    }
  }

  lemma {:induction false} EndedIsSeparated(tr: seq<Event>)
    requires EndedBetween(tr)
    ensures Separated(tr, Spawn, LoopEnd)
  {
    if tr != [] {
      var init := Init(tr);
      forall i, j | 0 <= i < j < |init| && Spawn(init[i]) && Spawn(init[j]) ensures EndsWithin(init, i, j) {
        assert Spawn(tr[i]) && Spawn(tr[j]) && EndsWithin(tr, i, j);
        var k :| i < k < j && LoopEnd(tr[k]);
        assert LoopEnd(init[k]);
      }
      EndedIsSeparated(init);
      if Spawn(Last(tr)) && Armed(init, Spawn, LoopEnd) {
        var i := ArmedSince(init, Spawn, LoopEnd);
        NoEndSince(tr, i);
        assert false;
      }
    }
  }

  lemma SeparatedIsEnded(tr: seq<Event>)
    requires Separated(tr, Spawn, LoopEnd)
    ensures EndedBetween(tr)
  {
    forall i, j | 0 <= i < j < |tr| && Spawn(tr[i]) && Spawn(tr[j]) ensures EndsWithin(tr, i, j) {
      SeparatedEvents(tr, Spawn, LoopEnd, i, j);
    }
  }

  /** Which events these steps leave behind. */
  lemma EndingEvents(c: Config, s: Sys, st: Step)
    requires Enabled(c, s, st)
    ensures var es := Emitted(c, s, st);
            if EndsLoop(c, s, st) then es != [] && LoopEnd(es[|es| - 1])
            else forall i :: 0 <= i < |es| ==> !LoopEnd(es[i])
  {
  }

  lemma SpawningEvents(c: Config, s: Sys, st: Step) returns (rest: seq<Event>)
    requires Enabled(c, s, st) && Spawns(c, s, st)
    ensures Emitted(c, s, st) == [Accepted, LoopSpawned] + rest
    ensures forall i :: 0 <= i < |rest| ==> !Spawn(rest[i])
  {
    rest := Called(c.onOpen, OnOpen) + Called(st.close, LoopStopped);
  }

  /** One loop lives exactly while the last start has no end behind it. */
  predicate Counted(s: Sys, tr: seq<Event>) {
    Alive(s) <= 1 && Separated(tr, Spawn, LoopEnd) && (Armed(tr, Spawn, LoopEnd) <==> Alive(s) == 1)
  }

  lemma SpawnAppended(tr: seq<Event>, rest: seq<Event>)
    requires Separated(tr, Spawn, LoopEnd) && forall i :: 0 <= i < |rest| ==> !Spawn(rest[i]) && !LoopEnd(rest[i])
    ensures Separated(tr + ([Accepted, LoopSpawned] + rest), Spawn, LoopEnd) <==> !Armed(tr, Spawn, LoopEnd)
    ensures Armed(tr + ([Accepted, LoopSpawned] + rest), Spawn, LoopEnd)
  {
    AppendSilent(tr, [Accepted], Spawn, LoopEnd);
    var before, after := tr + [Accepted], (tr + [Accepted]) + [LoopSpawned];
    if Armed(tr, Spawn, LoopEnd) {
      StaysArmed(tr, [Accepted], Spawn, LoopEnd);
    }
    Snoc(before, LoopSpawned);
    assert Separated(after, Spawn, LoopEnd) <==> !Armed(tr, Spawn, LoopEnd);
    StaysArmed(after, rest, Spawn, LoopEnd);
    if Separated(after, Spawn, LoopEnd) {
      AppendSilent(after, rest, Spawn, LoopEnd);
    } else {
      StaysUnseparated(after, rest, Spawn, LoopEnd);
    }
    assert tr + ([Accepted, LoopSpawned] + rest) == after + rest;
  }

  lemma CountedStep(c: Config, s: Sys, st: Step, tr: seq<Event>)
    requires Enabled(c, s, st) && Counted(s, tr)
    ensures var t, more := Machine.Next(c, s, st), tr + Emitted(c, s, st);
            if Alive(t) <= 1 then Counted(t, more) else !Separated(more, Spawn, LoopEnd)
  {
    AliveCount(c, s, st);
    EndingEvents(c, s, st);
    if Spawns(c, s, st) {
      var rest := SpawningEvents(c, s, st);
      assert forall i :: 0 <= i < |rest| ==> rest[i] == Emitted(c, s, st)[i + 2];
      SpawnAppended(tr, rest);
    } else {
      UnspawnedStep(c, s, st);
      AppendSilent(tr, Emitted(c, s, st), Spawn, LoopEnd);
      if Armed(tr, Spawn, LoopEnd) && !EndsLoop(c, s, st) {
        StaysArmed(tr, Emitted(c, s, st), Spawn, LoopEnd);
      }
    }
  }

  lemma {:induction false} CountedRun(c: Config, s: Sys, steps: seq<Step>, tr: seq<Event>)
    requires Feasible(c, s, steps) && Counted(s, tr)
    ensures AlwaysSingle(c, s, steps) <==> Separated(tr + Trace(c, s, steps), Spawn, LoopEnd)
    decreases |steps|
  {
    if steps == [] {
      assert tr + [] == tr;
    } else {
      var t, es := Machine.Next(c, s, steps[0]), Emitted(c, s, steps[0]);
      var later := Trace(c, t, steps[1..]);
      CountedStep(c, s, steps[0], tr);
      Regroup(tr, es, later);
      if Alive(t) <= 1 {
        CountedRun(c, t, steps[1..], tr + es);
      } else {
        StaysUnseparated(tr + es, later, Spawn, LoopEnd);
        assert !AlwaysSingle(c, t, steps[1..]);
      }
    }
  }

  /** Over any run, at most one keep-alive loop lives at any time exactly when between any two loops that
      start, a loop ended. */
  lemma SingleLoop(c: Config, now: real, steps: seq<Step>)
    requires Feasible(c, Start(now), steps)
    ensures AlwaysSingle(c, Start(now), steps) <==> EndedBetween(Trace(c, Start(now), steps))
  {
    var tr := Trace(c, Start(now), steps);
    CountedRun(c, Start(now), steps, []);
    assert [] + tr == tr;
    if Separated(tr, Spawn, LoopEnd) {
      SeparatedIsEnded(tr);
    } else if EndedBetween(tr) {
      EndedIsSeparated(tr);
    }
  }

  /** The connection is stopped and started again within one sleep of its keep-alive loop. */
  const QUICK_RESTART: seq<Step> :=
    [UserStart, Answer(true, false), StopCalled, StopDone, UserStart, Answer(true, false)]

  /** Two loops can live at once: the old one finds the checker running again when it wakes. */
  lemma TwoLoops(c: Config, now: real)
    requires c.policy.Some?
    ensures Feasible(c, Start(now), QUICK_RESTART)
    ensures var s := Run(c, Start(now), QUICK_RESTART); s.loops == 2 && s.v.running
  {
    var s0 := Start(now);
    var s1 := Machine.Next(c, s0, UserStart);
    var s2 := Machine.Next(c, s1, Answer(true, false));
    var s3 := Machine.Next(c, s2, StopCalled);
    assert s3.closing == 1 && s3.loops == 1 && !s3.v.running && s3.v.hasSocket;
    var t := RestartAgain(c, s3);
    Before(c, s2, QUICK_RESTART, 2, t);
    Before(c, s1, QUICK_RESTART, 1, t);
    Before(c, s0, QUICK_RESTART, 0, t);
    FromTheStart(c, s0, QUICK_RESTART, t);
  }

  lemma RestartAgain(c: Config, s: Sys) returns (t: Sys)
    requires c.policy.Some? && s.closing == 1 && s.loops == 1 && !s.v.running && s.v.hasSocket
    ensures Leads(c, s, QUICK_RESTART, 3, t) && t.loops == 2 && t.v.running
  {
    var s4 := Machine.Next(c, s, StopDone);
    var s5 := Machine.Next(c, s4, UserStart);
    t := Machine.Next(c, s5, Answer(true, false));
    Arrived(c, t, QUICK_RESTART);
    Before(c, s5, QUICK_RESTART, 5, t);
    Before(c, s4, QUICK_RESTART, 4, t);
    Before(c, s, QUICK_RESTART, 3, t);
  }

  /* ---------- a checker that runs without a loop ---------- */

  /** The checker is marked as running, but no loop lives: nobody pings. */
  predicate Unwatched(s: Sys) {
    s.v.running && Alive(s) == 0
  }

  lemma UnwatchedStep(c: Config, s: Sys, st: Step)
    requires Enabled(c, s, st) && !Unwatched(s)
    ensures Unwatched(Machine.Next(c, s, st)) <==> LoopRaises(c, s, st) && s.v.running && Alive(s) == 1
  {
    AliveCount(c, s, st);
  }

  predicate AlwaysWatched(c: Config, s: Sys, steps: seq<Step>)
    requires Feasible(c, s, steps)
    decreases |steps|
  {
    !Unwatched(s) && (steps == [] || AlwaysWatched(c, Machine.Next(c, s, steps[0]), steps[1..]))
  }

  /** No loop dies of an exception while the checker is running. */
  predicate NoLoopRaises(c: Config, s: Sys, steps: seq<Step>)
    requires Feasible(c, s, steps)
    decreases |steps|
  {
    steps == []
    || (!(LoopRaises(c, s, steps[0]) && s.v.running) && NoLoopRaises(c, Machine.Next(c, s, steps[0]), steps[1..]))
  }

  /** Over any run on which at most one loop lives at a time, a running checker always has a loop exactly
      when no loop dies of an exception while the checker is running. */
  lemma {:induction false} WatchedRun(c: Config, s: Sys, steps: seq<Step>)
    requires Feasible(c, s, steps) && AlwaysSingle(c, s, steps) && !Unwatched(s)
    ensures AlwaysWatched(c, s, steps) <==> NoLoopRaises(c, s, steps)
    decreases |steps|
  {
    if steps != [] {
      UnwatchedStep(c, s, steps[0]);
      AliveCount(c, s, steps[0]);
      var t := Machine.Next(c, s, steps[0]);
      if Unwatched(t) {
        assert !AlwaysWatched(c, t, steps[1..]);
      } else {
        WatchedRun(c, t, steps[1..]);
      }
    }
  }

  lemma StaysUnwatched(c: Config, s: Sys, st: Step)
    requires Enabled(c, s, st) && Unwatched(s) && LoopStopped !in Emitted(c, s, st)
    ensures Unwatched(Machine.Next(c, s, st)) && LoopSpawned !in Emitted(c, s, st)
  {
    AliveCount(c, s, st);
    UnspawnedStep(c, s, st);
    if !Machine.Next(c, s, st).v.running {
      StoppingEvents(c, s, st);
    }
  }

  /** And then no accepted handshake starts a loop again until the checker is stopped. */
  lemma {:induction false} UnwatchedUntilStopped(c: Config, s: Sys, steps: seq<Step>)
    requires Feasible(c, s, steps) && Unwatched(s) && LoopStopped !in Trace(c, s, steps)
    ensures Unwatched(Run(c, s, steps)) && LoopSpawned !in Trace(c, s, steps)
    decreases |steps|
  {
    if steps != [] {
      StaysUnwatched(c, s, steps[0]);
      UnwatchedUntilStopped(c, Machine.Next(c, s, steps[0]), steps[1..]);
    }
  }

  /** A ping raises something other than a lost connection. */
  const PING_RAISES: seq<Step> := [UserStart, Answer(true, false), SendRaises(Loop)]

  lemma UnwatchedRun(c: Config, now: real)
    requires c.policy.Some?
    ensures Feasible(c, Start(now), PING_RAISES) && Unwatched(Run(c, Start(now), PING_RAISES))
  {
    var s0 := Start(now);
    var s1 := Machine.Next(c, s0, UserStart);
    var s2 := Machine.Next(c, s1, Answer(true, false));
    var s3 := Machine.Next(c, s2, SendRaises(Loop));
    Arrived(c, s3, PING_RAISES);
    Before(c, s2, PING_RAISES, 2, s3);
    Before(c, s1, PING_RAISES, 1, s3);
    Before(c, s0, PING_RAISES, 0, s3);
    FromTheStart(c, s0, PING_RAISES, s3);
  }

  /* ---------- leaving and reporting ---------- */

  lemma ReportedStep(c: Config, s: Sys, st: Step)
    requires Enabled(c, s, st) && c.onClose && c.policy.None?
    requires s.v.state != Disconnected && Machine.Next(c, s, st).v.state == Disconnected && !st.StopDone?
    ensures OnClose in Emitted(c, s, st)
  {
    if st.SendFails? {
      assert LostEvents(c, s.v)[1] == OnClose;
      assert Emitted(c, s, st)[1] == OnClose;
    } else if st.Answer? {
      assert EvaluatedEvents(c, s.v, st.accepted)[1] == OnClose;
      assert Emitted(c, s, st)[1] == OnClose;
    } else {
      assert Emitted(c, s, st)[0] == OnClose;
    }
  }

  /** Without a reconnection handler a connection that is lost, rather than stopped, is reported: any
      run from a live state to a disconnected one calls the close callback, if there is one. */
  lemma {:induction false} LossReported(c: Config, s: Sys, steps: seq<Step>)
    requires Feasible(c, s, steps) && c.onClose && c.policy.None? && s.v.state != Disconnected
    requires Run(c, s, steps).v.state == Disconnected
    requires forall i :: 0 <= i < |steps| ==> !steps[i].StopDone?
    ensures OnClose in Trace(c, s, steps)
    decreases |steps|
  {
    var t := Machine.Next(c, s, steps[0]);
    if t.v.state == Disconnected {
      ReportedStep(c, s, steps[0]);
    } else {
      LossReported(c, t, steps[1..]);
    }
  }

  /* ---------- the time of the last message ---------- */

  /** The time of the last message these steps write, or `otherwise`. */
  function LastWritten(steps: seq<Step>, otherwise: real): real {
    if steps == [] then otherwise
    else LastWritten(steps[1..], if steps[0].SendOk? then steps[0].now else otherwise)
  }

  lemma LastMessageStep(c: Config, s: Sys, st: Step)
    requires Enabled(c, s, st)
    ensures Machine.Next(c, s, st).v.lastMessage == if st.SendOk? then st.now else s.v.lastMessage
  {
  }

  /** What the keep-alive loop compares with the clock is, on every run, the time of the last message
      anybody wrote, and before the first one the time the connection was built. */
  lemma {:induction false} LastMessageRun(c: Config, s: Sys, steps: seq<Step>)
    requires Feasible(c, s, steps)
    ensures Run(c, s, steps).v.lastMessage == LastWritten(steps, s.v.lastMessage)
    decreases |steps|
  {
    if steps != [] {
      LastMessageStep(c, s, steps[0]);
      LastMessageRun(c, Machine.Next(c, s, steps[0]), steps[1..]);
    }
  }

  /* ---------- the transport's own methods are steps ---------- */

  /** A raw message, and the end of the `stop` a Close in it begins. */
  function StepsOf<T>(c: Config, p: Protocol<T>, v: View, raw: seq<T>): seq<Step>
    requires OnRaw(c, p, v, raw).Ok?
  {
    var close := Messages.ReachesClose(OnRaw(c, p, v, raw).value.1);
    if v.handshake then [Data(close)] + (if close && v.state == Connected then [StopDone] else [])
    else
      var accepted := NoError(p.handshake(raw).value.0);
      [Answer(accepted, close)]
      + (if close && Answered(c, v, accepted).state == Connected then [StopDone] else [])
  }

  lemma RunOne(c: Config, s: Sys, a: Step)
    requires Enabled(c, s, a)
    ensures Feasible(c, s, [a]) && Run(c, s, [a]) == Machine.Next(c, s, a)
    ensures Trace(c, s, [a]) == Emitted(c, s, a)
  {
    assert [a][1..] == [];
    assert Emitted(c, s, a) + [] == Emitted(c, s, a);
  }

  lemma RunTwo(c: Config, s: Sys, a: Step, b: Step)
    requires Enabled(c, s, a) && Enabled(c, Machine.Next(c, s, a), b)
    ensures Feasible(c, s, [a, b]) && Run(c, s, [a, b]) == Machine.Next(c, Machine.Next(c, s, a), b)
    ensures Trace(c, s, [a, b]) == Emitted(c, s, a) + Emitted(c, Machine.Next(c, s, a), b)
  {
    RunOne(c, Machine.Next(c, s, a), b);
    assert [a, b][1..] == [b];
  }

  /** What `on_message` does to a transport nobody else touches meanwhile is a run of the machine, with
      the same events: everything proved about all runs holds for it. There is a websocket, which sent it. */
  lemma OnMessageIsRun<T>(c: Config, p: Protocol<T>, s: Sys, raw: seq<T>)
    requires OnRaw(c, p, s.v, raw).Ok? && s.v.hasSocket
    ensures var steps := StepsOf(c, p, s.v, raw);
            Feasible(c, s, steps) && Run(c, s, steps).v == OnRaw(c, p, s.v, raw).value.0
            && Run(c, s, steps).closing == s.closing
            && Trace(c, s, steps) == OnRawEvents(c, p, s.v, raw)
  {
    var steps := StepsOf(c, p, s.v, raw);
    if |steps| == 2 {
      RunTwo(c, s, steps[0], steps[1]);
      assert steps == [steps[0], steps[1]];
    } else {
      RunOne(c, s, steps[0]);
      assert steps == [steps[0]];
    }
  }
}
