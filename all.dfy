/** `all(arrayOfPromises)`: one handler pair per input writes the input's
    value into its slot and counts down; the countdown reaching zero resolves
    the aggregate with the slot array, and any rejection rejects it.

    The slot array is a JavaScript array that starts empty and is written by
    index, so a slot never written reads as a hole: it is `None` here, and
    the aggregate's value is the whole array, holes included. */
module AllCombinator {
  import opened Optional
  import opened DeferredResult
  import opened Trace

  /** The combinator's local state: `resolvedValues`,
      `promisesLeftToResolve` and the aggregate promise. */
  datatype AllState<V, R> = AllState(
    slots: seq<Option<V>>,
    countdown: int,
    result: State<seq<Option<V>>, R>)

  /** The state when `all` returns: `n` empty slots, the countdown at `n`. */
  function Init<V, R>(n: nat): AllState<V, R>
  {
    AllState(seq(n, _ => None), n, Pending)
  }

  /** One handler run: a fulfilment writes its slot, decrements the countdown
      and resolves when it reaches zero; a rejection calls `reject`. */
  function Step<V, R>(s: AllState<V, R>, e: Event<V, R>): (s': AllState<V, R>)
    requires e.index < |s.slots|
    ensures |s'.slots| == |s.slots|
    ensures s.result != Pending ==> s'.result == s.result
  {
    match e.outcome
    case Fulfil(v) =>
      var slots := s.slots[e.index := Some(v)];
      var left := s.countdown - 1;
      AllState(slots, left, if left == 0 then Settle(s.result, Fulfil(slots)) else s.result)
    case Reject(r) =>
      s.(result := Settle(s.result, Reject(r)))
  }

  /** The state after the handlers have run for every event of `t`, in order. */
  function Run<V, R>(n: nat, t: seq<Event<V, R>>): (s: AllState<V, R>)
    requires Indexed(n, t)
    ensures |s.slots| == n
  {
    if t == [] then Init(n) else Step(Run(n, t[..|t| - 1]), t[|t| - 1])
  }

  /** The value last written to slot `i` by the events of `t`. */
  function SlotOf<V, R>(t: seq<Event<V, R>>, i: int): Option<V>
  {
    if t == [] then None
    else if t[|t| - 1].index == i && t[|t| - 1].outcome.Fulfil? then Some(t[|t| - 1].outcome.value)
    else SlotOf(t[..|t| - 1], i)
  }

  /** What `all` promises, stated without the countdown: the first rejection
      decides; otherwise, once every input has fulfilled, the slot array;
      otherwise still pending. */
  function Expected<V, R>(n: nat, t: seq<Event<V, R>>): State<seq<Option<V>>, R>
  {
    match FirstRejection(t)
    case Some(r) => Rejected(r)
    case None => if 0 < n && Fulfils(t) == n then Fulfilled(seq(n, i => SlotOf(t, i))) else Pending
  }

  /** The countdown always equals `n` minus the number of fulfilments so far. */
  lemma {:induction false} CountdownTracksFulfils<V, R>(n: nat, t: seq<Event<V, R>>)
    requires Indexed(n, t)
    ensures Run(n, t).countdown == n - Fulfils(t)
  {
    if t != [] {
      CountdownTracksFulfils(n, t[..|t| - 1]);
    }
  }

  /** Slot `i` holds the value of the last fulfilment reported for input `i`. */
  lemma {:induction false} RunSlots<V, R>(n: nat, t: seq<Event<V, R>>)
    requires Indexed(n, t)
    ensures forall i :: 0 <= i < n ==> Run(n, t).slots[i] == SlotOf(t, i)
  {
    if t != [] {
      RunSlots(n, t[..|t| - 1]);
    }
  }

  /** In a well-formed trace each fulfilled input's value sits in its own slot,
      whatever the order of the events. */
  lemma {:induction false} SlotOfFulfilled<V, R>(n: nat, t: seq<Event<V, R>>)
    requires WellFormed(n, t)
    ensures forall k :: 0 <= k < |t| && t[k].outcome.Fulfil? ==>
              SlotOf(t, t[k].index) == Some(t[k].outcome.value)
  {
    if t != [] {
      var p := t[..|t| - 1];
      assert WellFormed(n, p);
      SlotOfFulfilled(n, p);
      forall k | 0 <= k < |t| && t[k].outcome.Fulfil?
        ensures SlotOf(t, t[k].index) == Some(t[k].outcome.value)
      {
        if k < |p| {
          assert t[k] == p[k];
          assert t[k].index != t[|t| - 1].index;
        }
      }
    }
  }

  /** The countdown implementation meets `Expected` on every well-formed trace. */
  lemma {:induction false} RunMeetsExpected<V, R>(n: nat, t: seq<Event<V, R>>)
    requires WellFormed(n, t)
    ensures Run(n, t).result == Expected(n, t)
  {
    if t != [] {
      var p, e := t[..|t| - 1], t[|t| - 1];
      assert WellFormed(n, p);
      RunMeetsExpected(n, p);
      CountdownTracksFulfils(n, p);
      CoversInputs(n, t);
      RunSlots(n, t);
      assert Fulfils(p) < n;
      assert Run(n, t).slots == seq(n, i => SlotOf(t, i));
    }
  }

  /** When every input fulfils, in any order, the aggregate fulfils with an
      array without holes whose slot `i` holds input `i`'s value. */
  lemma AllFulfilsInOrder<V, R>(n: nat, t: seq<Event<V, R>>)
    requires WellFormed(n, t) && 0 < n && |t| == n
    requires forall k :: 0 <= k < |t| ==> t[k].outcome.Fulfil?
    ensures Run(n, t).result.Fulfilled?
    ensures |Run(n, t).result.value| == n
    ensures forall i :: 0 <= i < n ==> Run(n, t).result.value[i].Some?
    ensures forall k :: 0 <= k < |t| ==> Run(n, t).result.value[t[k].index] == Some(t[k].outcome.value)
  {
    RunMeetsExpected(n, t);
    SlotOfFulfilled(n, t);
    CoversInputs(n, t);
    forall i | 0 <= i < n
      ensures SlotOf(t, i).Some?
    {
      assert Reports(t, i);
    }
  }

  /** Fail fast: the first rejection in the trace rejects the aggregate with
      its reason, whatever comes after it. */
  lemma AllFailsFast<V, R>(n: nat, t: seq<Event<V, R>>, k: nat)
    requires WellFormed(n, t) && k < |t| && t[k].outcome.Reject?
    requires forall j :: 0 <= j < k ==> t[j].outcome.Fulfil?
    ensures Run(n, t).result == Rejected(t[k].outcome.reason)
  {
    RunMeetsExpected(n, t);
    var r := FirstRejection(t);
    var k' :| 0 <= k' < |t| && t[k'].outcome == Reject(r.value)
              && forall j :: 0 <= j < k' ==> t[j].outcome.Fulfil?;
    assert k' == k;
  }

  /** The aggregate fulfils exactly when the countdown has come down to zero;
      with no inputs the countdown starts at zero and nothing ever fulfils. */
  lemma AllFulfilsAtZero<V, R>(n: nat, t: seq<Event<V, R>>)
    requires WellFormed(n, t)
    ensures Run(n, t).countdown == n - Fulfils(t)
    ensures Run(n, t).result.Fulfilled? <==> 0 < n && Run(n, t).countdown == 0
  {
    CountdownTracksFulfils(n, t);
    RunMeetsExpected(n, t);
    CoversInputs(n, t);
  }

  /** Once the aggregate has settled, later events (which may still write
      slots) leave its outcome unchanged. */
  lemma {:induction false} AllOutcomeIsFinal<V, R>(n: nat, t: seq<Event<V, R>>, u: seq<Event<V, R>>)
    requires Indexed(n, t + u)
    requires Indexed(n, t) && Run(n, t).result != Pending
    ensures Run(n, t + u).result == Run(n, t).result
  {
    if u != [] {
      var u' := u[..|u| - 1];
      assert (t + u)[..|t + u| - 1] == t + u';
      assert Indexed(n, t + u');
      AllOutcomeIsFinal(n, t, u');
    } else {
      assert t + u == t;
    }
  }

  /** `all([])` never settles: no handler is registered, so no event can
      arrive, and the aggregate stays pending. */
  lemma AllOfNoneIsPending<V, R>(t: seq<Event<V, R>>)
    requires WellFormed(0, t)
    ensures t == [] && Run(0, t).result == Pending && Run(0, t).countdown == 0
  {
    CoversInputs(0, t);
  }

  /** Two inputs fulfilling with 1 and 2, the second one first: the aggregate
      still fulfils with `[1, 2]`. */
  lemma AllKeepsInputOrder(t: seq<Event<int, string>>)
    requires t == [Event(1, Fulfil(2)), Event(0, Fulfil(1))]
    ensures Run(2, t).result == Fulfilled([Some(1), Some(2)])
  {
    AllFulfilsInOrder(2, t);
    var v := Run(2, t).result.value;
    assert v[t[0].index] == Some(2) && v[t[1].index] == Some(1);
    assert v == [Some(1), Some(2)];
  }

  /** The local state of one call to `all`, updated in place by the handlers. */
  class AllAggregate<V, R> {
    const n: nat
    const slots: array<Option<V>>
    var countdown: int
    const aggregate: Deferred<seq<Option<V>>, R>

    ghost predicate Valid()
      reads this
    {
      slots.Length == n
    }

    /** The state as a value. */
    ghost function View(): AllState<V, R>
      reads this, slots, aggregate
    {
      AllState(slots[..], countdown, aggregate.state)
    }

    constructor (n: nat)
      ensures Valid() && this.n == n && fresh(slots) && fresh(aggregate)
      ensures View() == Init(n)
    {
      this.n := n;
      slots := new Option<V>[n](_ => None);
      countdown := n;
      aggregate := new Deferred();
    }

    /** The fulfilment handler registered for input `i`. */
    method OnFulfil(i: nat, v: V)
      requires Valid() && i < n
      modifies this, slots, aggregate
      ensures Valid()
      ensures View() == Step(old(View()), Event(i, Fulfil(v)))
    {
      slots[i] := Some(v);
      countdown := countdown - 1;
      if countdown == 0 {
        aggregate.Resolve(slots[..]);
      }
    }

    /** The rejection handler (`.catch(reject)`), which does not know which
        input it serves. */
    method OnReject(r: R)
      requires Valid()
      modifies aggregate
      ensures Valid()
      ensures View() == old(View()).(result := Settle(old(View()).result, Reject(r)))
    {
      aggregate.Reject(r);
    }
  }

  /** `all` over `n` inputs whose settlements arrive as the trace `t`: each
      event runs the handler registered for its input. */
  method All<V, R>(n: nat, t: seq<Event<V, R>>) returns (p: Deferred<seq<Option<V>>, R>)
    requires Indexed(n, t)
    ensures fresh(p)
    ensures p.state == Run(n, t).result
    ensures WellFormed(n, t) ==> p.state == Expected(n, t)
  {
    var agg := new AllAggregate<V, R>(n);
    for k := 0 to |t|
      invariant agg.Valid() && agg.n == n
      invariant fresh(agg.slots) && fresh(agg.aggregate)
      invariant agg.View() == Run(n, t[..k])
    {
      assert t[..k + 1][..k] == t[..k];
      var e := t[k];
      match e.outcome
      case Fulfil(v) =>
        agg.OnFulfil(e.index, v);
      case Reject(r) =>
        agg.OnReject(r);
    }
    assert t[..|t|] == t;
    p := agg.aggregate;
    if WellFormed(n, t) {
      RunMeetsExpected(n, t);
    }
  }
}
