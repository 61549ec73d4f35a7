/** Sequences that grow at their end: events of a trace, or the steps of a run. */
module Traces {

  function Init<T>(tr: seq<T>): seq<T>
    requires tr != []
  {
    tr[..|tr| - 1]
  }

  function Last<T>(tr: seq<T>): T
    requires tr != []
  {
    tr[|tr| - 1]
  }

  lemma Snoc<T>(tr: seq<T>, e: T)
    ensures Init(tr + [e]) == tr && Last(tr + [e]) == e
  {
  }

  /** The last `p`-event has no `q`-event behind it. */
  predicate Armed<T>(tr: seq<T>, p: T -> bool, q: T -> bool) {
    tr != [] && (p(Last(tr)) || (!q(Last(tr)) && Armed(Init(tr), p, q)))
  }

  /** No `p`-event ever happens while an earlier one is still armed. */
  predicate Separated<T>(tr: seq<T>, p: T -> bool, q: T -> bool) {
    tr == [] || (Separated(Init(tr), p, q) && (p(Last(tr)) ==> !Armed(Init(tr), p, q)))
  }

  lemma {:induction false} DisarmedSince<T>(tr: seq<T>, p: T -> bool, q: T -> bool, i: nat)
    requires i < |tr| && p(tr[i]) && !Armed(tr, p, q)
    ensures exists k :: i < k < |tr| && q(tr[k])
  {
    if q(Last(tr)) {
      assert i < |tr| - 1;
    } else {
      DisarmedSince(Init(tr), p, q, i);
      var k :| i < k < |Init(tr)| && q(Init(tr)[k]);
      assert q(tr[k]);
    }
  }

  /** Between any two `p`-events of a separated trace there is a `q`-event. */
  lemma {:induction false} SeparatedEvents<T>(tr: seq<T>, p: T -> bool, q: T -> bool, i: nat, j: nat)
    requires Separated(tr, p, q) && i < j < |tr| && p(tr[i]) && p(tr[j])
    ensures exists k :: i < k < j && q(tr[k])
  {
    if j == |tr| - 1 {
      DisarmedSince(Init(tr), p, q, i);
      var k :| i < k < |Init(tr)| && q(Init(tr)[k]);
      assert q(tr[k]);
    } else {
      SeparatedEvents(Init(tr), p, q, i, j);
      var k :| i < k < j && q(Init(tr)[k]);
      assert q(tr[k]);
    }
  }

  /** Appending events one by one. */
  lemma Append<T>(tr: seq<T>, e: T, p: T -> bool, q: T -> bool)
    requires Separated(tr, p, q) && (p(e) ==> !Armed(tr, p, q))
    ensures Separated(tr + [e], p, q)
    ensures Armed(tr + [e], p, q) == (p(e) || (!q(e) && Armed(tr, p, q)))
  {
    Snoc(tr, e);
  }

  lemma {:induction false} AppendSilent<T>(tr: seq<T>, es: seq<T>, p: T -> bool, q: T -> bool)
    requires Separated(tr, p, q) && forall i :: 0 <= i < |es| ==> !p(es[i])
    ensures Separated(tr + es, p, q)
    ensures Armed(tr + es, p, q) ==> Armed(tr, p, q) && forall i :: 0 <= i < |es| ==> !q(es[i])
    decreases |es|
  {
    if es == [] {
      assert tr + es == tr;
    } else {
      Append(tr, es[0], p, q);
      AppendSilent(tr + [es[0]], es[1..], p, q);
      assert tr + es == (tr + [es[0]]) + es[1..];
    }
  }

  /** An armed trace has a last `p`-event. */
  lemma {:induction false} ArmedSince<T>(tr: seq<T>, p: T -> bool, q: T -> bool) returns (i: nat)
    requires Armed(tr, p, q)
    ensures i < |tr| && p(tr[i]) && forall k :: i < k < |tr| ==> !q(tr[k])
  {
    if p(Last(tr)) {
      i := |tr| - 1;
    } else {
      i := ArmedSince(Init(tr), p, q);
      assert forall k :: i < k < |tr| - 1 ==> tr[k] == Init(tr)[k];
    }
  }

  lemma {:induction false} StaysUnseparated<T>(tr: seq<T>, es: seq<T>, p: T -> bool, q: T -> bool)
    requires !Separated(tr, p, q)
    ensures !Separated(tr + es, p, q)
    decreases |es|
  {
    if es == [] {
      assert tr + es == tr;
    } else {
      Snoc(tr, es[0]);
      StaysUnseparated(tr + [es[0]], es[1..], p, q);
      assert tr + es == (tr + [es[0]]) + es[1..];
    }
  }

  lemma {:induction false} StaysArmed<T>(tr: seq<T>, es: seq<T>, p: T -> bool, q: T -> bool)
    requires Armed(tr, p, q) && forall i :: 0 <= i < |es| ==> !q(es[i])
    ensures Armed(tr + es, p, q)
    decreases |es|
  {
    if es == [] {
      assert tr + es == tr;
    } else {
      Snoc(tr, es[0]);
      StaysArmed(tr + [es[0]], es[1..], p, q);
      assert tr + es == (tr + [es[0]]) + es[1..];
    }
  }

  /** A `p`-event with no `q`-event behind it. */
  predicate Since<T>(tr: seq<T>, p: T -> bool, q: T -> bool) {
    exists i :: 0 <= i < |tr| && p(tr[i]) && NoneBehind(tr, q, i)
  }

  predicate NoneBehind<T>(tr: seq<T>, q: T -> bool, i: nat) {
    forall k :: i < k < |tr| ==> !q(tr[k])
  }

  lemma {:induction false} ArmedFrom<T>(tr: seq<T>, p: T -> bool, q: T -> bool, i: nat)
    requires i < |tr| && p(tr[i]) && NoneBehind(tr, q, i)
    ensures Armed(tr, p, q)
    decreases |tr|
  {
    if i < |tr| - 1 {
      assert forall k :: 0 <= k < |tr| - 1 ==> Init(tr)[k] == tr[k];
      ArmedFrom(Init(tr), p, q, i);
    }
  }

  lemma ArmedIsSince<T>(tr: seq<T>, p: T -> bool, q: T -> bool)
    ensures Armed(tr, p, q) <==> Since(tr, p, q)
  {
    if Armed(tr, p, q) {
      var i := ArmedSince(tr, p, q);
      assert NoneBehind(tr, q, i);
    }
    if Since(tr, p, q) {
      var i :| 0 <= i < |tr| && p(tr[i]) && NoneBehind(tr, q, i);
      ArmedFrom(tr, p, q, i);
    }
  }

  predicate Free<T>(es: seq<T>, q: T -> bool) {
    forall i :: 0 <= i < |es| ==> !q(es[i])
  }

  lemma {:induction false} ArmedConcat<T>(tr: seq<T>, es: seq<T>, p: T -> bool, q: T -> bool)
    ensures Armed(tr + es, p, q) <==> Armed(es, p, q) || (Armed(tr, p, q) && Free(es, q))
    decreases |es|
  {
    if es == [] {
      assert tr + es == tr;
    } else {
      var init, e := Init(es), Last(es);
      ArmedConcat(tr, init, p, q);
      Snoc(tr + init, e);
      assert tr + es == (tr + init) + [e] && es == init + [e];
      assert Free(es, q) <==> Free(init, q) && !q(e) by {
        assert forall i :: 0 <= i < |init| ==> es[i] == init[i];
      }
    }
  }

  /* ---------- counting ---------- */

  function One(b: bool): nat {
    if b then 1 else 0
  }

  function Count<T>(xs: seq<T>, p: T -> bool): nat {
    if xs == [] then 0 else One(p(xs[0])) + Count(xs[1..], p)
  }

  lemma {:induction false} CountConcat<T>(a: seq<T>, b: seq<T>, p: T -> bool)
    ensures Count(a + b, p) == Count(a, p) + Count(b, p)
  {
    if a == [] {
      assert a + b == b;
    } else {
      CountConcat(a[1..], b, p);
      assert (a + b)[1..] == a[1..] + b;
    }
  }
}
