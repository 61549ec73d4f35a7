/** The keep-alive loop (`ConnectionStateChecker`) in virtual time: sleeps are exact, sends take no
    time and succeed. What other greenlets do during each sleep is given by a schedule. */
module KeepAlive {
  import opened Values

  /** The constructor's keep-alive interval and sleep, in seconds. */
  datatype Timing = Timing(interval: real, sleep: real) {
    predicate Valid() { interval >= 0.0 && sleep >= 0.0 }
  }

  /** What happens while the loop sleeps: somebody sends a message, or stops the checker. */
  datatype Activity = Traffic(at: real) | StopCalled(at: real)

  /** One wake-up: when, the send times known by then (the oldest entry is the creation time), and
      whether a ping went out. */
  datatype Tick = Tick(wake: real, sent: seq<real>, ping: bool) {
    /** The send times when the loop goes back to sleep. */
    function After(): seq<real> {
      if ping then sent + [wake] else sent
    }

    function Pinged(): seq<real> {
      if ping then [wake] else []
    }
  }

  function Last(sent: seq<real>): real
    requires sent != []
  {
    sent[|sent| - 1]
  }

  /** The send times and the running flag after a sleep with these activities. */
  function Absorb(sent: seq<real>, running: bool, acts: seq<Activity>): (r: (seq<real>, bool))
    ensures sent <= r.0
    decreases |acts|
  {
    if acts == [] then (sent, running)
    else match acts[0]
      case Traffic(at) => Absorb(sent + [at], running, acts[1..])
      case StopCalled(_) => Absorb(sent, false, acts[1..])
  }

  /** What the loop does when it wakes at `wake`. */
  function WakeUp(timing: Timing, wake: real, sent: seq<real>): Tick
    requires sent != []
  {
    Tick(wake, sent, timing.interval < wake - Last(sent))
  }

  /** The wake-ups of a loop that starts at `clock`. */
  function Ticks(timing: Timing, clock: real, sent: seq<real>, running: bool, schedule: seq<seq<Activity>>)
    : (ticks: seq<Tick>)
    requires sent != []
    ensures forall i :: 0 <= i < |ticks| ==> ticks[i].sent != []
    decreases |schedule|
  {
    if schedule == [] || !running then []
    else
      var (known, on) := Absorb(sent, running, schedule[0]);
      var tick := WakeUp(timing, clock + timing.sleep, known);
      [tick] + Ticks(timing, tick.wake, tick.After(), on, schedule[1..])
  }

  function PingTimes(ticks: seq<Tick>): seq<real> {
    if ticks == [] then [] else ticks[0].Pinged() + PingTimes(ticks[1..])
  }

  class ConnectionStateChecker {
    const timing: Timing
    var lastMessage: real
    var running: bool
    ghost var pings: seq<real>

    constructor (timing: Timing, now: real)
      ensures this.timing == timing && lastMessage == now && !running && pings == []
    {
      this.timing := timing;
      lastMessage, running, pings := now, false, [];
    }

    method Start()
      modifies this`running
      ensures running
    {
      running := true;
    }

    method Stop()
      modifies this`running
      ensures !running
    {
      running := false;
    }

    /** The other greenlets' turn during one sleep. */
    method Sleep(acts: seq<Activity>, ghost sent: seq<real>)
      requires sent != [] && Last(sent) == lastMessage
      modifies this`lastMessage, this`running
      ensures var (known, on) := Absorb(sent, old(running), acts); lastMessage == Last(known) && running == on
    {
      ghost var known := sent;
      for i := 0 to |acts|
        invariant known != [] && Last(known) == lastMessage
        invariant Absorb(known, running, acts[i..]) == Absorb(sent, old(running), acts)
      {
        assert acts[i..][1..] == acts[i + 1..];
        match acts[i] {
          case Traffic(at) => lastMessage := at; known := known + [at];
          case StopCalled(_) => Stop();
        }
      }
    }

    /** The check after a sleep. */
    method Wake(now: real, ghost sent: seq<real>) returns (ghost tick: Tick)
      requires sent != [] && Last(sent) == lastMessage
      modifies this`lastMessage, this`pings
      ensures tick == WakeUp(timing, now, sent) && lastMessage == Last(tick.After())
      ensures pings == old(pings) + PingTimes([tick])
    {
      tick := WakeUp(timing, now, sent);
      var timeWithoutMessages := now - lastMessage;
      if timing.interval < timeWithoutMessages {
        lastMessage := now;
        pings := pings + [now];
      }
    }

    /** One turn of the loop in `run`: sleep until `wake`, then check. */
    method Turn(acts: seq<Activity>, wake: real, ghost sent: seq<real>) returns (ghost tick: Tick)
      requires sent != [] && Last(sent) == lastMessage
      modifies this
      ensures var (known, on) := Absorb(sent, old(running), acts); tick == WakeUp(timing, wake, known) && running == on
      ensures lastMessage == Last(tick.After()) && pings == old(pings) + PingTimes([tick])
    {
      Sleep(acts, sent);
      tick := Wake(wake, Absorb(sent, old(running), acts).0);
    }

    /** `run`, for as many sleeps as the schedule covers. */
    method Run(start: real, schedule: seq<seq<Activity>>)
      requires running && pings == []
      modifies this
      ensures pings == PingTimes(Ticks(timing, start, [old(lastMessage)], true, schedule))
    {
      var clock, left := start, schedule;
      ghost var sent := [lastMessage];
      ghost var all := PingTimes(Ticks(timing, start, sent, true, schedule));
      while running && left != []
        invariant sent != [] && Last(sent) == lastMessage
        invariant pings + PingTimes(Ticks(timing, clock, sent, running, left)) == all
        decreases |left|
      {
        TurnAccounted(timing, clock, sent, left, pings);
        clock := clock + timing.sleep;
        ghost var tick := Turn(left[0], clock, sent);
        sent, left := tick.After(), left[1..];
      }
    }
  }

  /** One turn moves its ping from what is still to come to what is done. */
  lemma TurnAccounted(timing: Timing, clock: real, sent: seq<real>, schedule: seq<seq<Activity>>, done: seq<real>)
    requires sent != [] && schedule != []
    ensures var (known, on) := Absorb(sent, true, schedule[0]);
            var tick := WakeUp(timing, clock + timing.sleep, known);
            done + PingTimes(Ticks(timing, clock, sent, true, schedule)) ==
              (done + PingTimes([tick])) + PingTimes(Ticks(timing, tick.wake, tick.After(), on, schedule[1..]))
  {
    var (known, on) := Absorb(sent, true, schedule[0]);
    var tick := PingTimesStep(timing, clock, sent, schedule);
    Regroup(done, PingTimes([tick]), PingTimes(Ticks(timing, tick.wake, tick.After(), on, schedule[1..])));
  }

  lemma PingTimesCons(t: Tick, ticks: seq<Tick>)
    ensures PingTimes([t] + ticks) == PingTimes([t]) + PingTimes(ticks)
  {
    assert ([t] + ticks)[1..] == ticks;
    assert t.Pinged() + [] == t.Pinged();
  }

  lemma TicksFirst(timing: Timing, clock: real, sent: seq<real>, schedule: seq<seq<Activity>>)
    requires sent != [] && schedule != []
    ensures var (known, on) := Absorb(sent, true, schedule[0]);
            var tick := WakeUp(timing, clock + timing.sleep, known);
            Ticks(timing, clock, sent, true, schedule) ==
              [tick] + Ticks(timing, tick.wake, tick.After(), on, schedule[1..])
  {
  }

  lemma PingTimesStep(timing: Timing, clock: real, sent: seq<real>, schedule: seq<seq<Activity>>) returns (tick: Tick)
    requires sent != [] && schedule != []
    ensures var (known, on) := Absorb(sent, true, schedule[0]);
            tick == WakeUp(timing, clock + timing.sleep, known)
            && PingTimes(Ticks(timing, clock, sent, true, schedule)) ==
                 PingTimes([tick]) + PingTimes(Ticks(timing, tick.wake, tick.After(), on, schedule[1..]))
  {
    var (known, on) := Absorb(sent, true, schedule[0]);
    tick := WakeUp(timing, clock + timing.sleep, known);
    TicksFirst(timing, clock, sent, schedule);
    PingTimesCons(tick, Ticks(timing, tick.wake, tick.After(), on, schedule[1..]));
  }

  /** Send times are in order and none lies in the future. */
  ghost predicate Ordered(sent: seq<real>, now: real) {
    sent != [] && Last(sent) <= now && forall i, j :: 0 <= i <= j < |sent| ==> sent[i] <= sent[j]
  }

  /** The activities of one sleep happen in order, between `from` and `to`. */
  predicate Timely(acts: seq<Activity>, from: real, to: real)
    decreases |acts|
  {
    acts == [] || (from <= acts[0].at <= to && Timely(acts[1..], acts[0].at, to))
  }

  predicate TimelySchedule(timing: Timing, schedule: seq<seq<Activity>>, clock: real)
    decreases |schedule|
  {
    schedule == []
    || (Timely(schedule[0], clock, clock + timing.sleep)
        && TimelySchedule(timing, schedule[1..], clock + timing.sleep))
  }

  /** A loop in an orderly world: what every statement below assumes. */
  ghost predicate Sound(timing: Timing, clock: real, sent: seq<real>, schedule: seq<seq<Activity>>) {
    timing.Valid() && Ordered(sent, clock) && TimelySchedule(timing, schedule, clock)
  }

  /** Some send lies within the keep-alive interval before the wake-up. */
  ghost predicate Recent(timing: Timing, t: Tick) {
    exists k :: 0 <= k < |t.sent| && t.wake - timing.interval <= t.sent[k] <= t.wake
  }

  lemma {:induction false} AbsorbOrdered(sent: seq<real>, running: bool, acts: seq<Activity>, from: real, to: real)
    requires from <= to && Ordered(sent, from) && Timely(acts, from, to)
    ensures Ordered(Absorb(sent, running, acts).0, to)
    decreases |acts|
  {
    if acts != [] {
      match acts[0] {
        case Traffic(at) => AbsorbOrdered(sent + [at], running, acts[1..], at, to);
        case StopCalled(at) => AbsorbOrdered(sent, false, acts[1..], at, to);
      }
    }
  }

  /** A tick in an orderly world: it pings exactly when no send lies within the last interval, and
      afterwards one does. */
  ghost predicate GoodTick(timing: Timing, t: Tick) {
    Ordered(t.sent, t.wake) && Ordered(t.After(), t.wake)
    && (t.ping <==> !Recent(timing, t))
    && t.wake - timing.interval <= Last(t.After())
  }

  /** Each tick is good, comes one sleep after the one before, and knows every earlier send. */
  ghost predicate GoodRun(timing: Timing, clock: real, sent: seq<real>, ticks: seq<Tick>)
    decreases |ticks|
  {
    ticks == []
    || (GoodTick(timing, ticks[0]) && sent <= ticks[0].sent && ticks[0].wake == clock + timing.sleep
        && GoodRun(timing, ticks[0].wake, ticks[0].After(), ticks[1..]))
  }

  lemma WakeUpIsGood(timing: Timing, wake: real, sent: seq<real>)
    requires timing.Valid() && Ordered(sent, wake)
    ensures GoodTick(timing, WakeUp(timing, wake, sent))
  {
    var t := WakeUp(timing, wake, sent);
    assert t.sent[|t.sent| - 1] == Last(t.sent);
  }

  lemma {:induction false} RunIsGood(timing: Timing, clock: real, sent: seq<real>, running: bool,
                                     schedule: seq<seq<Activity>>)
    requires Sound(timing, clock, sent, schedule)
    ensures GoodRun(timing, clock, sent, Ticks(timing, clock, sent, running, schedule))
    decreases |schedule|
  {
    if schedule != [] && running {
      var wake := clock + timing.sleep;
      AbsorbOrdered(sent, running, schedule[0], clock, wake);
      var (known, on) := Absorb(sent, running, schedule[0]);
      WakeUpIsGood(timing, wake, known);
      RunIsGood(timing, wake, WakeUp(timing, wake, known).After(), on, schedule[1..]);
    }
  }

  lemma {:induction false} TickIsGood(timing: Timing, clock: real, sent: seq<real>, ticks: seq<Tick>, i: nat)
    requires GoodRun(timing, clock, sent, ticks) && i < |ticks|
    ensures GoodTick(timing, ticks[i]) && sent <= ticks[i].sent
    decreases i
  {
    if i > 0 {
      TickIsGood(timing, ticks[0].wake, ticks[0].After(), ticks[1..], i - 1);
      assert sent <= ticks[0].sent <= ticks[0].After();
    }
  }

  /** After the first wake-up, as long as the loop runs, the time since the last send never exceeds
      the keep-alive interval plus one sleep. */
  lemma SilenceBound(timing: Timing, clock: real, sent: seq<real>, schedule: seq<seq<Activity>>, i: nat, now: real)
    requires Sound(timing, clock, sent, schedule)
    requires i < |Ticks(timing, clock, sent, true, schedule)|
    requires var w := Ticks(timing, clock, sent, true, schedule)[i].wake; w <= now <= w + timing.sleep
    ensures var known := Ticks(timing, clock, sent, true, schedule)[i].After();
            now - Last(known) <= timing.interval + timing.sleep
  {
    RunIsGood(timing, clock, sent, true, schedule);
    TickIsGood(timing, clock, sent, Ticks(timing, clock, sent, true, schedule), i);
  }

  lemma {:induction false} PingsOfRunApart(timing: Timing, clock: real, sent: seq<real>, ticks: seq<Tick>, i: nat, j: nat)
    requires GoodRun(timing, clock, sent, ticks) && i < j < |ticks| && ticks[i].ping && ticks[j].ping
    ensures ticks[j].wake - ticks[i].wake > timing.interval
    decreases i
  {
    var t := ticks[0];
    if i > 0 {
      PingsOfRunApart(timing, t.wake, t.After(), ticks[1..], i - 1, j - 1);
    } else {
      TickIsGood(timing, t.wake, t.After(), ticks[1..], j - 1);
      var u := ticks[j];
      assert t.After()[|t.sent|] == t.wake == u.sent[|t.sent|];
      NotRecent(timing, u, |t.sent|);
    }
  }

  lemma NotRecent(timing: Timing, t: Tick, k: nat)
    requires Ordered(t.sent, t.wake) && !Recent(timing, t) && k < |t.sent|
    ensures t.sent[k] < t.wake - timing.interval
  {
    assert t.sent[k] <= Last(t.sent);
  }

  /** Two pings are more than a keep-alive interval apart. */
  lemma PingsApart(timing: Timing, clock: real, sent: seq<real>, schedule: seq<seq<Activity>>, i: nat, j: nat)
    requires Sound(timing, clock, sent, schedule)
    requires i < j < |Ticks(timing, clock, sent, true, schedule)|
    requires var ticks := Ticks(timing, clock, sent, true, schedule); ticks[i].ping && ticks[j].ping
    ensures var ticks := Ticks(timing, clock, sent, true, schedule);
            ticks[j].wake - ticks[i].wake > timing.interval
  {
    RunIsGood(timing, clock, sent, true, schedule);
    PingsOfRunApart(timing, clock, sent, Ticks(timing, clock, sent, true, schedule), i, j);
  }

  /* ---------- which traffic suppresses pings ---------- */

  /** The time of the last send among these activities, `last` if there is none. */
  function LastTraffic(last: real, acts: seq<Activity>): real
    decreases |acts|
  {
    if acts == [] then last else LastTraffic(if acts[0].Traffic? then acts[0].at else last, acts[1..])
  }

  predicate Stops(acts: seq<Activity>) {
    exists i :: 0 <= i < |acts| && acts[i].StopCalled?
  }

  /** How often a running loop wakes: it notices a stop when it wakes from the sleep the stop fell into. */
  function Turns(schedule: seq<seq<Activity>>): (n: nat)
    ensures n <= |schedule|
  {
    if schedule == [] then 0 else if Stops(schedule[0]) then 1 else 1 + Turns(schedule[1..])
  }

  /** When the loop wakes for the `i`-th time, counting from zero. */
  function WakeAt(timing: Timing, clock: real, i: nat): real
    decreases i
  {
    if i == 0 then clock + timing.sleep else WakeAt(timing, clock + timing.sleep, i - 1)
  }

  /** The last time somebody else has sent by the end of the `i`-th sleep. */
  function TrafficBy(last: real, schedule: seq<seq<Activity>>, i: nat): real
    requires i < |schedule|
    decreases i
  {
    var now := LastTraffic(last, schedule[0]);
    if i == 0 then now else TrafficBy(now, schedule[1..], i - 1)
  }

  /** At the `i`-th wake-up nobody else has sent for more than an interval. */
  predicate SilentAt(timing: Timing, clock: real, last: real, schedule: seq<seq<Activity>>, i: nat)
    requires i < |schedule|
  {
    WakeAt(timing, clock, i) - TrafficBy(last, schedule, i) > timing.interval
  }

  lemma {:induction false} AbsorbedTraffic(sent: seq<real>, running: bool, acts: seq<Activity>)
    requires sent != []
    ensures Last(Absorb(sent, running, acts).0) == LastTraffic(Last(sent), acts)
    ensures Absorb(sent, running, acts).1 <==> running && !Stops(acts)
    decreases |acts|
  {
    if acts != [] {
      assert forall i :: 0 < i < |acts| ==> acts[i] == acts[1..][i - 1];
      match acts[0] {
        case Traffic(at) => AbsorbedTraffic(sent + [at], running, acts[1..]);
        case StopCalled(_) => AbsorbedTraffic(sent, false, acts[1..]);
      }
    }
  }

  /** At every wake-up somebody else has sent within the last interval. */
  predicate NeverSilent(timing: Timing, clock: real, last: real, schedule: seq<seq<Activity>>) {
    forall i: nat :: i < Turns(schedule) ==> !SilentAt(timing, clock, last, schedule, i)
  }

  /** The first turn of a loop, in terms of the schedule. */
  lemma FirstTurn(timing: Timing, clock: real, sent: seq<real>, schedule: seq<seq<Activity>>)
    returns (after: seq<real>)
    requires sent != [] && schedule != []
    ensures var pings := PingTimes(Ticks(timing, clock, sent, true, schedule));
            after != []
            && var more := PingTimes(Ticks(timing, clock + timing.sleep, after, !Stops(schedule[0]), schedule[1..]));
            if SilentAt(timing, clock, Last(sent), schedule, 0)
              then pings == [clock + timing.sleep] + more
              else pings == more && Last(after) == LastTraffic(Last(sent), schedule[0])
  {
    var tick := PingTimesStep(timing, clock, sent, schedule);
    AbsorbedTraffic(sent, true, schedule[0]);
    after := tick.After();
    assert PingTimes([tick]) == tick.Pinged() + [] == tick.Pinged();
  }

  /** The wake-ups behind the first one, seen from there. */
  lemma NeverSilentFirst(timing: Timing, clock: real, last: real, schedule: seq<seq<Activity>>)
    requires schedule != []
    ensures NeverSilent(timing, clock, last, schedule) <==>
              !SilentAt(timing, clock, last, schedule, 0)
              && (Stops(schedule[0])
                  || NeverSilent(timing, clock + timing.sleep, LastTraffic(last, schedule[0]), schedule[1..]))
  {
    var now := LastTraffic(last, schedule[0]);
    var rest, next := schedule[1..], clock + timing.sleep;
    forall i: nat | i < |rest|
      ensures SilentAt(timing, clock, last, schedule, i + 1) == SilentAt(timing, next, now, rest, i)
    {
    }
    if NeverSilent(timing, clock, last, schedule) && !Stops(schedule[0]) {
      forall i: nat | i < Turns(rest) ensures !SilentAt(timing, next, now, rest, i) {
        assert !SilentAt(timing, clock, last, schedule, i + 1);
      }
    }
    if NeverSilent(timing, next, now, rest) {
      forall i: nat | 0 < i < Turns(schedule) ensures !SilentAt(timing, clock, last, schedule, i) {
        assert !SilentAt(timing, next, now, rest, i - 1);
      }
    }
  }

  /** The same, wake-up by wake-up. */
  predicate Covered(timing: Timing, clock: real, last: real, schedule: seq<seq<Activity>>)
    decreases |schedule|
  {
    schedule == []
    || (!SilentAt(timing, clock, last, schedule, 0)
        && (Stops(schedule[0])
            || Covered(timing, clock + timing.sleep, LastTraffic(last, schedule[0]), schedule[1..])))
  }

  lemma {:induction false} CoveredThroughout(timing: Timing, clock: real, last: real, schedule: seq<seq<Activity>>)
    ensures Covered(timing, clock, last, schedule) <==> NeverSilent(timing, clock, last, schedule)
    decreases |schedule|
  {
    if schedule != [] {
      NeverSilentFirst(timing, clock, last, schedule);
      CoveredThroughout(timing, clock + timing.sleep, LastTraffic(last, schedule[0]), schedule[1..]);
    }
  }

  lemma {:induction false} CoveredSuppresses(timing: Timing, clock: real, sent: seq<real>, running: bool,
                                             schedule: seq<seq<Activity>>)
    requires sent != [] && (running ==> Covered(timing, clock, Last(sent), schedule))
    ensures PingTimes(Ticks(timing, clock, sent, running, schedule)) == []
    decreases |schedule|
  {
    if schedule != [] && running {
      var after := FirstTurn(timing, clock, sent, schedule);
      CoveredSuppresses(timing, clock + timing.sleep, after, !Stops(schedule[0]), schedule[1..]);
    }
  }

  /** The first ping goes out at the first wake-up at which nobody has sent for more than an interval. */
  lemma {:induction false} FirstPing(timing: Timing, clock: real, sent: seq<real>, schedule: seq<seq<Activity>>, i: nat)
    requires sent != [] && i < Turns(schedule) && SilentAt(timing, clock, Last(sent), schedule, i)
    requires forall j: nat :: j < i ==> !SilentAt(timing, clock, Last(sent), schedule, j)
    ensures var pings := PingTimes(Ticks(timing, clock, sent, true, schedule));
            pings != [] && pings[0] == WakeAt(timing, clock, i)
    decreases i
  {
    var after := FirstTurn(timing, clock, sent, schedule);
    if i > 0 {
      assert !SilentAt(timing, clock, Last(sent), schedule, 0);
      var rest, next := schedule[1..], clock + timing.sleep;
      forall j: nat | j < i - 1 ensures !SilentAt(timing, next, Last(after), rest, j) {
        assert !SilentAt(timing, clock, Last(sent), schedule, j + 1);
      }
      FirstPing(timing, next, after, rest, i - 1);
    }
  }

  lemma {:induction false} SilencePings(timing: Timing, clock: real, sent: seq<real>, schedule: seq<seq<Activity>>,
                                        i: nat)
    requires sent != [] && i < Turns(schedule) && SilentAt(timing, clock, Last(sent), schedule, i)
    ensures PingTimes(Ticks(timing, clock, sent, true, schedule)) != []
    decreases i
  {
    if j: nat :| j < i && SilentAt(timing, clock, Last(sent), schedule, j) {
      SilencePings(timing, clock, sent, schedule, j);
    } else {
      FirstPing(timing, clock, sent, schedule, i);
    }
  }

  /** A loop never pings exactly when at each of its wake-ups somebody has sent within the last
      interval. */
  lemma PingsOnlyInSilence(timing: Timing, clock: real, sent: seq<real>, schedule: seq<seq<Activity>>)
    requires sent != []
    ensures PingTimes(Ticks(timing, clock, sent, true, schedule)) == [] <==>
              NeverSilent(timing, clock, Last(sent), schedule)
  {
    CoveredThroughout(timing, clock, Last(sent), schedule);
    if Covered(timing, clock, Last(sent), schedule) {
      CoveredSuppresses(timing, clock, sent, true, schedule);
    } else {
      var i: nat :| i < Turns(schedule) && SilentAt(timing, clock, Last(sent), schedule, i);
      SilencePings(timing, clock, sent, schedule, i);
    }
  }

  /** The sends of one sleep are at most an interval apart, from `last` on. */
  predicate DenseSleep(interval: real, last: real, acts: seq<Activity>)
    decreases |acts|
  {
    acts == []
    || if acts[0].Traffic? then acts[0].at - last <= interval && DenseSleep(interval, acts[0].at, acts[1..])
       else DenseSleep(interval, last, acts[1..])
  }

  /** Up to the end of the schedule no two sends in a row are more than an interval apart. */
  predicate Dense(timing: Timing, clock: real, last: real, schedule: seq<seq<Activity>>)
    decreases |schedule|
  {
    if schedule == [] then clock - last <= timing.interval
    else
      DenseSleep(timing.interval, last, schedule[0])
      && Dense(timing, clock + timing.sleep, LastTraffic(last, schedule[0]), schedule[1..])
  }

  /** The gap that is open at the beginning of a sleep is no longer than an interval. */
  lemma {:induction false} DenseSleepNow(interval: real, last: real, acts: seq<Activity>, from: real, to: real)
    requires DenseSleep(interval, last, acts) && Timely(acts, from, to) && from <= to
    requires to - LastTraffic(last, acts) <= interval
    ensures from - last <= interval
    decreases |acts|
  {
    if acts != [] && !acts[0].Traffic? {
      DenseSleepNow(interval, last, acts[1..], acts[0].at, to);
    }
  }

  lemma {:induction false} DenseNow(timing: Timing, clock: real, last: real, schedule: seq<seq<Activity>>)
    requires timing.Valid() && TimelySchedule(timing, schedule, clock) && Dense(timing, clock, last, schedule)
    ensures clock - last <= timing.interval
    decreases |schedule|
  {
    if schedule != [] {
      DenseNow(timing, clock + timing.sleep, LastTraffic(last, schedule[0]), schedule[1..]);
      DenseSleepNow(timing.interval, last, schedule[0], clock, clock + timing.sleep);
    }
  }

  lemma {:induction false} DenseNotSilent(timing: Timing, clock: real, last: real, schedule: seq<seq<Activity>>, i: nat)
    requires timing.Valid() && TimelySchedule(timing, schedule, clock) && Dense(timing, clock, last, schedule)
    requires i < |schedule|
    ensures !SilentAt(timing, clock, last, schedule, i)
    decreases i
  {
    var now := LastTraffic(last, schedule[0]);
    if i == 0 {
      DenseNow(timing, clock + timing.sleep, now, schedule[1..]);
    } else {
      DenseNotSilent(timing, clock + timing.sleep, now, schedule[1..], i - 1);
    }
  }

  /** Traffic at least once in every keep-alive interval suppresses all pings. */
  lemma TrafficSuppressesPings(timing: Timing, clock: real, sent: seq<real>, schedule: seq<seq<Activity>>)
    requires Sound(timing, clock, sent, schedule) && Dense(timing, clock, Last(sent), schedule)
    ensures PingTimes(Ticks(timing, clock, sent, true, schedule)) == []
  {
    PingsOnlyInSilence(timing, clock, sent, schedule);
    forall i: nat | i < Turns(schedule) ensures !SilentAt(timing, clock, Last(sent), schedule, i) {
      DenseNotSilent(timing, clock, Last(sent), schedule, i);
    }
  }
}
