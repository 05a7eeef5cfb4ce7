/** Asynchronous completion as an explicit trace: each event says that the
    input at some position of the combinator's array settled, and how. The
    host's scheduling decides the order of the trace; nothing else is assumed
    about it. */
module Trace {
  import opened Optional
  import opened DeferredResult

  datatype Event<+V, +R> = Event(index: nat, outcome: Outcome<V, R>)

  /** Every event names one of the `n` inputs (the positions `forEach`
      hands to the handlers). */
  predicate Indexed<V, R>(n: nat, t: seq<Event<V, R>>)
  {
    forall k :: 0 <= k < |t| ==> t[k].index < n
  }

  /** In addition, no input settles twice: each input is itself a
      single-assignment promise. */
  predicate WellFormed<V, R>(n: nat, t: seq<Event<V, R>>)
  {
    && Indexed(n, t)
    && (forall j, k :: 0 <= j < k < |t| ==> t[j].index != t[k].index)
  }

  /** The settle attempts a trace delivers, in trace order. */
  function Outcomes<V, R>(t: seq<Event<V, R>>): seq<Outcome<V, R>>
  {
    seq(|t|, k requires 0 <= k < |t| => t[k].outcome)
  }

  /** The number of fulfilment events in a trace. */
  function Fulfils<V, R>(t: seq<Event<V, R>>): (c: nat)
    ensures c <= |t|
    ensures c == |t| <==> forall k :: 0 <= k < |t| ==> t[k].outcome.Fulfil?
  {
    if t == [] then 0
    else Fulfils(t[..|t| - 1]) + (if t[|t| - 1].outcome.Fulfil? then 1 else 0)
  }

  /** The reason of the earliest rejection event, if there is one. */
  function FirstRejection<V, R>(t: seq<Event<V, R>>): (r: Option<R>)
    ensures r.None? <==> forall k :: 0 <= k < |t| ==> t[k].outcome.Fulfil?
    ensures r.Some? ==> exists k :: 0 <= k < |t| && t[k].outcome == Reject(r.value)
                                  && forall j :: 0 <= j < k ==> t[j].outcome.Fulfil?
  {
    if t == [] then None
    else
      var earlier := FirstRejection(t[..|t| - 1]);
      if earlier.Some? then earlier
      else if t[|t| - 1].outcome.Reject? then Some(t[|t| - 1].outcome.reason)
      else None
  }

  /** Some event of the trace reports on input `i`. */
  predicate Reports<V, R>(t: seq<Event<V, R>>, i: nat)
  {
    exists k :: 0 <= k < |t| && t[k].index == i
  }

  /** The set of positions below `n`. */
  function Positions(n: nat): (s: set<nat>)
    ensures |s| == n
    ensures forall i: int :: i in s <==> 0 <= i < n
  {
    if n == 0 then {} else
      var s := Positions(n - 1);
      assert n - 1 !in s;
      s + {n - 1}
  }

  /** Pigeonhole: a trace whose events name distinct members of `xs` has at
      most `|xs|` events, and if it has exactly `|xs|` it names every member. */
  lemma {:induction false} DistinctIndices<V, R>(t: seq<Event<V, R>>, xs: set<nat>)
    requires forall k :: 0 <= k < |t| ==> t[k].index in xs
    requires forall j, k :: 0 <= j < k < |t| ==> t[j].index != t[k].index
    ensures |t| <= |xs|
    ensures |t| == |xs| ==> forall x :: x in xs ==> Reports(t, x)
  {
    if t != [] {
      var p, e := t[..|t| - 1], t[|t| - 1];
      var rest := xs - {e.index};
      assert forall k :: 0 <= k < |p| ==> p[k] == t[k];
      DistinctIndices(p, rest);
      if |t| == |xs| {
        forall x | x in xs
          ensures Reports(t, x)
        {
          if x == e.index {
            assert t[|t| - 1].index == x;
          } else {
            assert x in rest;
            var k :| 0 <= k < |p| && p[k].index == x;
            assert t[k].index == x;
          }
        }
      }
    }
  }

  /** A well-formed trace over `n` inputs has at most `n` events, and one
      with exactly `n` events reports on every input. */
  lemma CoversInputs<V, R>(n: nat, t: seq<Event<V, R>>)
    requires WellFormed(n, t)
    ensures |t| <= n
    ensures |t| == n ==> forall i: nat :: i < n ==> Reports(t, i)
  {
    var xs := Positions(n);
    DistinctIndices(t, xs);
    if |t| == n {
      forall i: nat | i < n
        ensures Reports(t, i)
      {
        assert i in xs;
      }
    }
  }
}
