/** The connection as a transition system: user code, the keep-alive loop, deferred retries and the
    websocket's callbacks interleave at every gevent switch point, and every outcome of a socket
    write, a greenlet kill or a start is a choice. */
module Machine {
  import opened Values
  import opened Reconnection
  import opened Transport

  /** Who sends: user code, the keep-alive loop, or a deferred retry that has slept its delay. */
  datatype Origin = Caller | Loop | Retry

  /** How many calls from each origin wait at one switch point. */
  datatype Waiting = Waiting(callers: nat, loops: nat, retries: nat) {
    function Total(): nat { callers + loops + retries }

    function At(o: Origin): nat {
      match o
      case Caller => callers
      case Loop => loops
      case Retry => retries
    }

    function Plus(o: Origin): Waiting {
      match o
      case Caller => this.(callers := callers + 1)
      case Loop => this.(loops := loops + 1)
      case Retry => this.(retries := retries + 1)
    }

    function Minus(o: Origin): Waiting
      requires At(o) > 0
    {
      match o
      case Caller => this.(callers := callers - 1)
      case Loop => this.(loops := loops - 1)
      case Retry => this.(retries := retries - 1)
    }
  }

  /** The transport together with everything that is in flight: deferred retries that sleep, calls of
      `handle_reconnect` waiting for the greenlet kill or for `connection.start`, keep-alive loops
      between two pings, and calls of `stop` waiting for the socket to close. Any retry may wake at
      any time, so only their number is kept. */
  datatype Sys = Sys(v: View, pending: nat, killing: Waiting, restarting: Waiting, loops: nat, closing: nat)

  const NOBODY := Waiting(0, 0, 0)

  function Start(now: real): Sys {
    Sys(Initial(now), 0, NOBODY, NOBODY, 0, 0)
  }

  /** What `connection.start` does before it can switch: go on to negotiate, finish at once because
      negotiation is skipped, or raise while refreshing the token. */
  datatype AfterKill = Negotiating | StartedNow | FailedNow

  datatype Step =
    | SendOk(o: Origin, now: real)
    | SendFails(o: Origin)                       // connection found closed
    | SendRaises(o: Origin)                     // no socket yet, or any other exception
    | KillDone(o: Origin, next: AfterKill)
    | StartReturns(o: Origin) | StartRaises(o: Origin)
    | ChainKilled(o: Origin, inKill: bool)      // GreenletExit: user code ran in the killed greenlet
    | UserStart                                 // `start` called by the user, negotiation done
    | Answer(accepted: bool, close: bool)       // raw message read as handshake; a Close may follow in it
    | Data(close: bool)                         // raw message read as hub messages
    | SocketGone                                // `on_close` or `on_socket_error`
    | StopCalled | StopDone | StopRaised
    | LoopExit
    | RetrySkipped                             // `connection_alive` was set

  predicate CanAct(s: Sys, o: Origin) {
    match o
    case Caller => true
    case Loop => s.loops > 0
    case Retry => s.pending > 0 && !s.v.alive
  }

  predicate Enabled(c: Config, s: Sys, st: Step) {
    match st
    case SendOk(o, _) => CanAct(s, o) && s.v.hasSocket
    case SendFails(o) => CanAct(s, o) && s.v.hasSocket
    case SendRaises(o) => CanAct(s, o)
    case KillDone(o, next) =>
      s.killing.At(o) > 0 && c.policy.Some? && (next.Negotiating? ==> !c.skipNegotiation)
      && (next.StartedNow? ==> c.skipNegotiation)
    case StartReturns(o) => s.restarting.At(o) > 0 && c.policy.Some?
    case StartRaises(o) => s.restarting.At(o) > 0 && c.policy.Some?
    case ChainKilled(o, inKill) => o == Caller && (if inKill then s.killing else s.restarting).At(o) > 0
    case UserStart => true
    case Answer(_, _) => s.v.hasSocket && !s.v.handshake
    case Data(_) => s.v.hasSocket && s.v.handshake
    case SocketGone => s.v.hasSocket
    case StopCalled => s.v.state == Connected
    case StopDone => s.closing > 0
    case StopRaised => s.closing > 0
    case LoopExit => s.loops > 0 && !s.v.running
    case RetrySkipped => s.pending > 0 && s.v.alive
  }

  /** The sender leaves the place it was waiting in. */
  function Leave(s: Sys, o: Origin): Sys
    requires CanAct(s, o)
  {
    match o
    case Caller => s
    case Loop => s.(loops := s.loops - 1)
    case Retry => s.(pending := s.pending - 1)
  }

  /** `send` returns to its origin: only the loop goes on to another round. */
  function Back(s: Sys, o: Origin): Sys {
    if o.Loop? then s.(loops := s.loops + 1) else s
  }

  /** `send` raises in its origin: the loop's greenlet dies, a retry resets the handler. */
  function Raise(s: Sys, o: Origin): Sys {
    if o.Retry? then s.(v := RetryFailed(s.v)) else s
  }

  /** The except branch of `handle_reconnect`: a new retry is spawned, or `next` raises. */
  function Failed(p: Policy, s: Sys, o: Origin): Sys {
    var delay := Grant(p, s.v.attempt);
    var t := s.(v := RestartFailed(p, s.v));
    if delay.Some? then Back(t.(pending := t.pending + 1), o) else Raise(t, o)
  }

  function BeginStop(s: Sys, close: bool): Sys {
    if close && s.v.state == Connected then s.(v := StopBegun(s.v), closing := s.closing + 1) else s
  }

  function Next(c: Config, s: Sys, st: Step): Sys
    requires Enabled(c, s, st)
  {
    match st
    case SendOk(o, now) => var t := Leave(s, o); Back(t.(v := Sent(c, t.v, now)), o)
    case SendFails(o) =>
      var t := Leave(s, o);
      var u := t.(v := Lost(c, t.v));
      if c.policy.None? then Raise(u, o) else u.(killing := u.killing.Plus(o))
    case SendRaises(o) => Raise(Leave(s, o), o)
    case KillDone(o, next) =>
      var t := s.(killing := s.killing.Minus(o), v := Resumed(s.v));
      (match next
       case Negotiating => t.(restarting := t.restarting.Plus(o))
       case StartedNow => Back(t.(v := Started(t.v)), o)
       case FailedNow => Failed(c.policy.value, t, o))
    case StartReturns(o) =>
      Back(s.(restarting := s.restarting.Minus(o), v := Started(s.v)), o)
    case StartRaises(o) => Failed(c.policy.value, s.(restarting := s.restarting.Minus(o)), o)
    case ChainKilled(o, inKill) =>
      if inKill then s.(killing := s.killing.Minus(o)) else s.(restarting := s.restarting.Minus(o))
    case UserStart => s.(v := Started(s.v))
    case Answer(accepted, close) =>
      var spawned := accepted && c.policy.Some? && !s.v.running;
      BeginStop(s.(v := Answered(c, s.v, accepted), loops := s.loops + if spawned then 1 else 0), close)
    case Data(close) => BeginStop(s, close)
    case SocketGone => s.(v := Closed(s.v))
    case StopCalled => BeginStop(s, true)
    case StopDone => s.(v := StopEnded(s.v), closing := s.closing - 1)
    case StopRaised => s.(closing := s.closing - 1)
    case LoopExit => s.(loops := s.loops - 1)
    case RetrySkipped => s.(pending := s.pending - 1)
  }

  predicate Feasible(c: Config, s: Sys, steps: seq<Step>)
    decreases |steps|
  {
    steps == [] || (Enabled(c, s, steps[0]) && Feasible(c, Next(c, s, steps[0]), steps[1..]))
  }

  function Run(c: Config, s: Sys, steps: seq<Step>): Sys
    requires Feasible(c, s, steps)
    decreases |steps|
  {
    if steps == [] then s else Run(c, Next(c, s, steps[0]), steps[1..])
  }

  /* ---------- what never happens ---------- */

  /** `connection_alive` is never set, the reconnecting state is never entered, and without a
      reconnection handler nothing is ever in flight. */
  predicate Basic(c: Config, s: Sys) {
    && !s.v.alive
    && s.v.state != Reconnecting
    && (c.policy.None? ==> s.pending == 0 && s.killing == s.restarting == NOBODY)
    && (c.skipNegotiation ==> s.restarting == NOBODY)
  }

  lemma BasicStep(c: Config, s: Sys, st: Step)
    requires Basic(c, s) && Enabled(c, s, st)
    ensures Basic(c, Next(c, s, st))
  {
  }

  lemma {:induction false} BasicRun(c: Config, s: Sys, steps: seq<Step>)
    requires Basic(c, s) && Feasible(c, s, steps)
    ensures Basic(c, Run(c, s, steps))
    decreases |steps|
  {
    if steps != [] {
      BasicStep(c, s, steps[0]);
      BasicRun(c, Next(c, s, steps[0]), steps[1..]);
    }
  }

  /* ---------- connected means handshaken ---------- */

  predicate Handshaken(s: Sys) {
    s.v.state == Connected ==> s.v.handshake
  }

  /** The two moves that break it: a rejected handshake with an `on_open` callback, and a
      `handle_reconnect` that comes back from the kill when another one has already reconnected. */
  predicate Breaking(c: Config, s: Sys, st: Step) {
    (st.Answer? && !st.accepted && c.onOpen) || (st.KillDone? && s.v.state == Connected)
  }

  lemma HandshakenStep(c: Config, s: Sys, st: Step)
    requires Handshaken(s) && Enabled(c, s, st)
    ensures Handshaken(Next(c, s, st)) <==> !Breaking(c, s, st)
  {
  }

  predicate AlwaysHandshaken(c: Config, s: Sys, steps: seq<Step>)
    requires Feasible(c, s, steps)
    decreases |steps|
  {
    Handshaken(s) && (steps == [] || AlwaysHandshaken(c, Next(c, s, steps[0]), steps[1..]))
  }

  predicate NeverBreaking(c: Config, s: Sys, steps: seq<Step>)
    requires Feasible(c, s, steps)
    decreases |steps|
  {
    steps == [] || (!Breaking(c, s, steps[0]) && NeverBreaking(c, Next(c, s, steps[0]), steps[1..]))
  }

  /** Over any run, connected implies handshaken in every state exactly when neither move occurs. */
  lemma {:induction false} ConnectedMeansHandshaken(c: Config, s: Sys, steps: seq<Step>)
    requires Handshaken(s) && Feasible(c, s, steps)
    ensures AlwaysHandshaken(c, s, steps) <==> NeverBreaking(c, s, steps)
    decreases |steps|
  {
    if steps != [] {
      HandshakenStep(c, s, steps[0]);
      if Handshaken(Next(c, s, steps[0])) {
        ConnectedMeansHandshaken(c, Next(c, s, steps[0]), steps[1..]);
      } else {
        assert !AlwaysHandshaken(c, Next(c, s, steps[0]), steps[1..]);
      }
    }
  }

  /* ---------- concrete runs ---------- */

  /** The steps from the `k`-th on can be taken from `s` and lead to `t`. */
  predicate Leads(c: Config, s: Sys, steps: seq<Step>, k: nat, t: Sys)
    requires k <= |steps|
  {
    Feasible(c, s, steps[k..]) && Run(c, s, steps[k..]) == t
  }

  lemma Arrived(c: Config, s: Sys, steps: seq<Step>)
    ensures Leads(c, s, steps, |steps|, s)
  {
  }

  lemma Before(c: Config, s: Sys, steps: seq<Step>, k: nat, t: Sys)
    requires k < |steps| && Enabled(c, s, steps[k]) && Leads(c, Next(c, s, steps[k]), steps, k + 1, t)
    ensures Leads(c, s, steps, k, t)
  {
    assert steps[k..][1..] == steps[k + 1..];
  }

  lemma FromTheStart(c: Config, s: Sys, steps: seq<Step>, t: Sys)
    requires Leads(c, s, steps, 0, t)
    ensures Feasible(c, s, steps) && Run(c, s, steps) == t
  {
    assert steps[0..] == steps;
  }

  /** A handshake that is rejected. */
  const REJECTED: seq<Step> := [UserStart, Answer(false, false)]

  lemma RejectedRun(c: Config, now: real)
    requires c.onOpen
    ensures Feasible(c, Start(now), REJECTED) && !Handshaken(Run(c, Start(now), REJECTED))
  {
    var s0 := Start(now);
    var s1 := Next(c, s0, UserStart);
    var s2 := Next(c, s1, Answer(false, false));
    Arrived(c, s2, REJECTED);
    Before(c, s1, REJECTED, 1, s2);
    Before(c, s0, REJECTED, 0, s2);
    FromTheStart(c, s0, REJECTED, s2);
  }

  /** Two sends on a lost connection overlap: the first one reconnects while the second still waits
      for the kill. */
  const OVERLAP: seq<Step> :=
    [UserStart, Answer(true, false), SendFails(Caller), SendFails(Caller), KillDone(Caller, StartedNow),
     Answer(true, false), KillDone(Caller, StartedNow)]

  lemma OverlapRun(c: Config, now: real)
    requires c.policy.Some? && c.skipNegotiation
    ensures Feasible(c, Start(now), OVERLAP) && !Handshaken(Run(c, Start(now), OVERLAP))
  {
    var s0 := Start(now);
    var s1 := Next(c, s0, UserStart);
    var s2 := Next(c, s1, Answer(true, false));
    var s3 := Next(c, s2, SendFails(Caller));
    var s4 := Next(c, s3, SendFails(Caller));
    assert s4.killing == Waiting(2, 0, 0) && !s4.v.handshake && s4.v.state == Disconnected;
    var t := OverlapEnd(c, s4);
    Before(c, s3, OVERLAP, 3, t);
    Before(c, s2, OVERLAP, 2, t);
    Before(c, s1, OVERLAP, 1, t);
    Before(c, s0, OVERLAP, 0, t);
    FromTheStart(c, s0, OVERLAP, t);
  }

  lemma OverlapEnd(c: Config, s: Sys) returns (t: Sys)
    requires c.policy.Some? && c.skipNegotiation && s.v.hasSocket
    requires s.killing == Waiting(2, 0, 0) && !s.v.handshake && s.v.state == Disconnected
    ensures Leads(c, s, OVERLAP, 4, t) && !Handshaken(t)
  {
    var s5 := Next(c, s, KillDone(Caller, StartedNow));
    var s6 := Next(c, s5, Answer(true, false));
    t := Next(c, s6, KillDone(Caller, StartedNow));
    Arrived(c, t, OVERLAP);
    Before(c, s6, OVERLAP, 6, t);
    Before(c, s5, OVERLAP, 5, t);
    Before(c, s, OVERLAP, 4, t);
  }

  /** Both moves can happen. */
  lemma BreakingRuns(c: Config, now: real)
    ensures c.onOpen ==> Feasible(c, Start(now), REJECTED) && !Handshaken(Run(c, Start(now), REJECTED))
    ensures c.policy.Some? && c.skipNegotiation ==>
              Feasible(c, Start(now), OVERLAP) && !Handshaken(Run(c, Start(now), OVERLAP))
  {
    if c.onOpen {
      RejectedRun(c, now);
    }
    if c.policy.Some? && c.skipNegotiation {
      OverlapRun(c, now);
    }
  }

  /* ---------- restarting ---------- */

  /** While a reconnect waits for `connection.start`, no handshake counts as received and nothing is
      connected. */
  predicate Quiet(s: Sys) {
    s.restarting != NOBODY ==> !s.v.handshake && s.v.state != Connected
  }

  /** The moves that end the quiet: a handshake answer that counts, or a reconnect that begins its
      negotiation on a connected transport. */
  predicate Disturbing(c: Config, s: Sys, st: Step) {
    (st.Answer? && s.restarting != NOBODY && (st.accepted || c.onOpen))
    || (st.KillDone? && st.next.Negotiating? && s.v.state == Connected)
  }

  lemma QuietStep(c: Config, s: Sys, st: Step)
    requires Quiet(s) && Enabled(c, s, st)
    ensures Quiet(Next(c, s, st)) <==> !Disturbing(c, s, st)
  {
  }

  predicate AlwaysQuiet(c: Config, s: Sys, steps: seq<Step>)
    requires Feasible(c, s, steps)
    decreases |steps|
  {
    Quiet(s) && (steps == [] || AlwaysQuiet(c, Next(c, s, steps[0]), steps[1..]))
  }

  predicate NeverDisturbed(c: Config, s: Sys, steps: seq<Step>)
    requires Feasible(c, s, steps)
    decreases |steps|
  {
    steps == [] || (!Disturbing(c, s, steps[0]) && NeverDisturbed(c, Next(c, s, steps[0]), steps[1..]))
  }

  lemma {:induction false} QuietRun(c: Config, s: Sys, steps: seq<Step>)
    requires Quiet(s) && Feasible(c, s, steps)
    ensures AlwaysQuiet(c, s, steps) <==> NeverDisturbed(c, s, steps)
    ensures NeverDisturbed(c, s, steps) ==> Quiet(Run(c, s, steps))
    decreases |steps|
  {
    if steps != [] {
      QuietStep(c, s, steps[0]);
      if Quiet(Next(c, s, steps[0])) {
        QuietRun(c, Next(c, s, steps[0]), steps[1..]);
      } else {
        assert !AlwaysQuiet(c, Next(c, s, steps[0]), steps[1..]);
      }
    }
  }

  /** A restart leaves a transport that connects and reads the next raw message as a handshake. */
  predicate Fresh(s: Sys) {
    s.v.state == Connecting && !s.v.handshake
  }

  /** A restart inside `handle_reconnect` leaves the transport fresh exactly when nobody connected in
      the meantime; behind a negotiation a handshake received in the meantime spoils it too. */
  lemma RestartLeaves(c: Config, s: Sys, o: Origin)
    ensures Enabled(c, s, KillDone(o, StartedNow)) ==>
              (Fresh(Next(c, s, KillDone(o, StartedNow))) <==> s.v.state != Connected)
    ensures Enabled(c, s, StartReturns(o)) ==>
              (Fresh(Next(c, s, StartReturns(o))) <==> s.v.state != Connected && !s.v.handshake)
  {
  }

  /** Hence, over any undisturbed run, every restart behind a negotiation leaves it fresh. */
  lemma UndisturbedRestart(c: Config, s: Sys, steps: seq<Step>, o: Origin)
    requires Quiet(s) && Feasible(c, s, steps) && NeverDisturbed(c, s, steps)
    requires Enabled(c, Run(c, s, steps), StartReturns(o))
    ensures Fresh(Next(c, Run(c, s, steps), StartReturns(o)))
    ensures forall close :: !Enabled(c, Next(c, Run(c, s, steps), StartReturns(o)), Data(close))
  {
    QuietRun(c, s, steps);
  }

  /** Two sends on a lost connection overlap, and both reconnects negotiate. The first one starts a
      websocket; its handshake is accepted and it closes again before the second one is done. */
  const LATE_START: seq<Step> :=
    [UserStart, Answer(true, false), SendFails(Caller), SendFails(Caller),
     KillDone(Caller, Negotiating), KillDone(Caller, Negotiating),
     StartReturns(Caller), Answer(true, false), SocketGone, StartReturns(Caller)]

  /** A disturbed run can end with a connecting transport that will read the next handshake answer as
      data. */
  lemma DisturbedRun(c: Config, now: real)
    requires c.policy.Some? && !c.skipNegotiation
    ensures Feasible(c, Start(now), LATE_START)
    ensures var s := Run(c, Start(now), LATE_START); s.v.state == Connecting && s.v.handshake
  {
    var s0 := Start(now);
    var s1 := Next(c, s0, UserStart);
    var s2 := Next(c, s1, Answer(true, false));
    var s3 := Next(c, s2, SendFails(Caller));
    var s4 := Next(c, s3, SendFails(Caller));
    assert s4.killing == Waiting(2, 0, 0) && s4.restarting == NOBODY && !s4.v.handshake;
    assert s4.v.state == Disconnected && s4.v.hasSocket;
    var t := BothNegotiate(c, s4);
    Before(c, s3, LATE_START, 3, t);
    Before(c, s2, LATE_START, 2, t);
    Before(c, s1, LATE_START, 1, t);
    Before(c, s0, LATE_START, 0, t);
    FromTheStart(c, s0, LATE_START, t);
  }

  lemma Negotiates(c: Config, s: Sys, waiting: Waiting, negotiating: Waiting)
    requires c.policy.Some? && !c.skipNegotiation && s.killing.callers > 0 && !s.v.handshake
    requires waiting == s.killing.Minus(Caller) && negotiating == s.restarting.Plus(Caller)
    ensures Enabled(c, s, KillDone(Caller, Negotiating))
    ensures Next(c, s, KillDone(Caller, Negotiating)) == s.(killing := waiting, restarting := negotiating)
  {
  }

  lemma BothNegotiate(c: Config, s: Sys) returns (t: Sys)
    requires c.policy.Some? && !c.skipNegotiation && s.v.hasSocket && s.v.state == Disconnected
    requires s.killing == Waiting(2, 0, 0) && s.restarting == NOBODY && !s.v.handshake
    ensures Leads(c, s, LATE_START, 4, t) && t.v.state == Connecting && t.v.handshake
  {
    Negotiates(c, s, Waiting(1, 0, 0), Waiting(1, 0, 0));
    var s5 := s.(killing := Waiting(1, 0, 0), restarting := Waiting(1, 0, 0));
    Negotiates(c, s5, NOBODY, Waiting(2, 0, 0));
    var s6 := s.(killing := NOBODY, restarting := Waiting(2, 0, 0));
    t := SecondStart(c, s6);
    LateKills(c, s, s5, s6, t);
  }

  lemma LateKills(c: Config, s: Sys, s5: Sys, s6: Sys, t: Sys)
    requires var kill := KillDone(Caller, Negotiating);
             Enabled(c, s, kill) && s5 == Next(c, s, kill) && Enabled(c, s5, kill) && s6 == Next(c, s5, kill)
    requires Leads(c, s6, LATE_START, 6, t)
    ensures Leads(c, s, LATE_START, 4, t)
  {
    Before(c, s5, LATE_START, 5, t);
    Before(c, s, LATE_START, 4, t);
  }

  lemma SecondStart(c: Config, s: Sys) returns (t: Sys)
    requires c.policy.Some? && !c.skipNegotiation && s.v.hasSocket && s.v.state == Disconnected
    requires s.restarting == Waiting(2, 0, 0) && !s.v.handshake
    ensures Leads(c, s, LATE_START, 6, t) && t.v.state == Connecting && t.v.handshake
  {
    var s7 := Next(c, s, StartReturns(Caller));
    var s8 := Next(c, s7, Answer(true, false));
    var s9 := Next(c, s8, SocketGone);
    t := Next(c, s9, StartReturns(Caller));
    Arrived(c, t, LATE_START);
    Before(c, s9, LATE_START, 9, t);
    Before(c, s8, LATE_START, 8, t);
    Before(c, s7, LATE_START, 7, t);
    Before(c, s, LATE_START, 6, t);
  }
}
