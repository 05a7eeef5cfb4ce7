/** `race(arrayOfPromises)`: every input's fulfilment goes to the same
    `resolve` and every rejection to the same `reject` of one promise, so the
    single-assignment rule alone decides the race. */
module RaceCombinator {
  import opened DeferredResult
  import opened Trace

  /** The race's promise after the events of `t`, delivered in trace order. */
  function RaceOutcome<V, R>(t: seq<Event<V, R>>): State<V, R>
  {
    SettleAll(Pending, Outcomes(t))
  }

  /** The first event of the trace, a fulfilment or a rejection alike, decides
      the race; with no inputs there is no event and the race never settles. */
  lemma RaceFirstWins<V, R>(t: seq<Event<V, R>>)
    ensures t == [] ==> RaceOutcome(t) == Pending
    ensures t != [] ==> RaceOutcome(t) == StateOf(t[0].outcome)
  {
    FirstAttemptWins(Outcomes(t));
  }

  /** Settlements that arrive after the first leave the race unchanged. */
  lemma RaceLaterEventsIgnored<V, R>(t: seq<Event<V, R>>, u: seq<Event<V, R>>)
    requires t != []
    ensures RaceOutcome(t + u) == RaceOutcome(t)
  {
    assert Outcomes(t + u) == Outcomes(t) + Outcomes(u);
    SettleAllAppend(Pending, Outcomes(t), Outcomes(u));
    FirstAttemptWins(Outcomes(t));
    SettledIsFinal(RaceOutcome(t), Outcomes(u));
  }

  /** A slow input listed first and a fast one listed second: the fast one's
      event comes first and wins. */
  lemma RaceFastInputWins(t: seq<Event<string, string>>)
    requires t == [Event(1, Fulfil("fast")), Event(0, Fulfil("slow"))]
    ensures RaceOutcome(t) == Fulfilled("fast")
  {
    RaceFirstWins(t);
  }

  /** `race([])` never settles: with no input there is no event, and the
      shared promise stays pending. */
  lemma RaceOfNoneIsPending<V, R>(t: seq<Event<V, R>>)
    requires WellFormed(0, t)
    ensures t == [] && RaceOutcome(t) == Pending
  {
    CoversInputs(0, t);
  }

  /** `race` over `n` inputs whose settlements arrive as the trace `t`: each
      event runs `.then(resolve)` or `.catch(reject)` on the shared promise. */
  method Race<V, R>(n: nat, t: seq<Event<V, R>>) returns (p: Deferred<V, R>)
    requires Indexed(n, t)
    ensures fresh(p)
    ensures p.state == RaceOutcome(t)
    ensures t == [] ==> p.state == Pending
    ensures t != [] ==> p.state == StateOf(t[0].outcome)
  {
    p := new Deferred();
    for k := 0 to |t|
      invariant p.state == RaceOutcome(t[..k])
    {
      assert Outcomes(t[..k + 1]) == Outcomes(t[..k]) + [t[k].outcome];
      p.Apply(t[k].outcome);
    }
    assert t[..|t|] == t;
    RaceFirstWins(t);
  }
}
