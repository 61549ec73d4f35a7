/** The reconnection handlers (transport/__init__.py): how many delays a lost connection is granted. */
module Reconnection {
  import opened Values

  /** Which handler class is configured, with its constructor arguments. */
  datatype Policy = Raw(sleepTime: int, maxAttempts: Option<int>) | Interval(intervals: seq<int>)

  predicate Bounded(p: Policy) {
    p.Interval? || p.maxAttempts.Some?
  }

  /** The delay `next` returns at an attempt number, None when it raises. */
  function Grant(p: Policy, attempt: nat): Option<int> {
    match p
    case Raw(sleepTime, maxAttempts) =>
      if maxAttempts.None? || attempt <= maxAttempts.value then Some(sleepTime) else None
    case Interval(intervals) =>
      if attempt < |intervals| then Some(intervals[attempt]) else None
  }

  /** The attempt number `next` leaves behind: the interval handler counts failed calls too. */
  function AttemptAfter(p: Policy, attempt: nat): nat {
    match p
    case Raw(_, maxAttempts) => if maxAttempts.Some? && attempt <= maxAttempts.value then attempt + 1 else attempt
    case Interval(_) => attempt + 1
  }

  /** All the delays a bounded handler has to give between two resets. */
  function Budget(p: Policy): seq<int>
    requires Bounded(p)
  {
    match p
    case Raw(sleepTime, maxAttempts) =>
      seq(if maxAttempts.value < 0 then 0 else maxAttempts.value + 1, _ => sleepTime)
    case Interval(intervals) => intervals
  }

  function Remaining(p: Policy, attempt: nat): nat
    requires Bounded(p)
  {
    if attempt < |Budget(p)| then |Budget(p)| - attempt else 0
  }

  /** Both handlers read the budget off in order, one delay per call, and then refuse for good. */
  lemma GrantFromBudget(p: Policy, attempt: nat)
    requires Bounded(p)
    ensures Grant(p, attempt) == if attempt < |Budget(p)| then Some(Budget(p)[attempt]) else None
    ensures attempt < |Budget(p)| ==> AttemptAfter(p, attempt) == attempt + 1
    ensures AttemptAfter(p, attempt) >= attempt
    ensures Remaining(p, AttemptAfter(p, attempt)) ==
              Remaining(p, attempt) - (if Grant(p, attempt).Some? then 1 else 0)
    ensures Grant(p, attempt).None? <==> Remaining(p, attempt) == 0
  {
  }

  /** The results of `k` calls to `next` in a row. */
  function Calls(p: Policy, attempt: nat, k: nat): seq<Option<int>>
    decreases k
  {
    if k == 0 then [] else [Grant(p, attempt)] + Calls(p, AttemptAfter(p, attempt), k - 1)
  }

  /** From a reset handler, consecutive calls return exactly the budget and then fail for ever: the
      raw handler grants one delay more than its maximum number of attempts. */
  lemma {:induction false} CallsFrom(p: Policy, attempt: nat, k: nat, i: nat)
    requires Bounded(p) && i < k
    ensures |Calls(p, attempt, k)| == k
    ensures Calls(p, attempt, k)[i] ==
              if attempt + i < |Budget(p)| then Some(Budget(p)[attempt + i]) else None
    decreases k
  {
    GrantFromBudget(p, attempt);
    CallsLength(p, attempt, k);
    if i > 0 {
      CallsFrom(p, AttemptAfter(p, attempt), k - 1, i - 1);
    }
  }

  lemma {:induction false} CallsLength(p: Policy, attempt: nat, k: nat)
    ensures |Calls(p, attempt, k)| == k
    decreases k
  {
    if k > 0 {
      CallsLength(p, AttemptAfter(p, attempt), k - 1);
    }
  }

  class ReconnectionHandler {
    const policy: Policy
    var reconnecting: bool
    var attemptNumber: nat

    constructor (policy: Policy)
      ensures this.policy == policy && !reconnecting && attemptNumber == 0
    {
      this.policy := policy;
      reconnecting, attemptNumber := false, 0;
    }

    method Reset()
      modifies this
      ensures !reconnecting && attemptNumber == 0
    {
      attemptNumber := 0;
      reconnecting := false;
    }

    /** `next` of the two handler classes. */
    method Next() returns (delay: Option<int>)
      modifies this
      ensures reconnecting
      ensures delay == Grant(policy, old(attemptNumber))
      ensures attemptNumber == AttemptAfter(policy, old(attemptNumber))
    {
      reconnecting := true;
      match policy {
        case Raw(sleepTime, maxAttempts) =>
          if maxAttempts.Some? {
            if attemptNumber <= maxAttempts.value {
              attemptNumber := attemptNumber + 1;
              delay := Some(sleepTime);
            } else {
              delay := None;
            }
          } else {
            delay := Some(sleepTime);
          }
        case Interval(intervals) =>
          var index := attemptNumber;
          attemptNumber := attemptNumber + 1;
          delay := if index < |intervals| then Some(intervals[index]) else None;
      }
    }
  }
}
