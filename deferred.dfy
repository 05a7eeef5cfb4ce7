/** The single-assignment deferred result (the promise that each combinator
    constructs): it starts Pending, and only the first settle attempt has an
    effect; every later `resolve` or `reject` is silently ignored. */
module DeferredResult {

  /** What a settle attempt carries: a `resolve(value)` or a `reject(reason)`. */
  datatype Outcome<+V, +R> = Fulfil(value: V) | Reject(reason: R)

  /** The observable state of a deferred result. */
  datatype State<+V, +R> = Pending | Fulfilled(value: V) | Rejected(reason: R)

  /** The settled state that an outcome leads to. */
  function StateOf<V, R>(o: Outcome<V, R>): State<V, R>
  {
    match o
    case Fulfil(v) => Fulfilled(v)
    case Reject(r) => Rejected(r)
  }

  /** One settle attempt: it takes effect only on a pending result. */
  function Settle<V, R>(s: State<V, R>, o: Outcome<V, R>): (r: State<V, R>)
    ensures r != Pending
    ensures s != Pending ==> r == s
  {
    if s.Pending? then StateOf(o) else s
  }

  /** A sequence of settle attempts, applied in order (a left fold). */
  function SettleAll<V, R>(s: State<V, R>, os: seq<Outcome<V, R>>): State<V, R>
  {
    if os == [] then s else Settle(SettleAll(s, os[..|os| - 1]), os[|os| - 1])
  }

  /** Settling is idempotent: once settled, any number of further attempts,
      whatever they carry, leave the state unchanged. */
  lemma {:induction false} SettledIsFinal<V, R>(s: State<V, R>, os: seq<Outcome<V, R>>)
    requires s != Pending
    ensures SettleAll(s, os) == s
  {
    if os != [] {
      SettledIsFinal(s, os[..|os| - 1]);
    }
  }

  /** Attempts made in two batches have the effect of one batch. */
  lemma {:induction false} SettleAllAppend<V, R>(s: State<V, R>, a: seq<Outcome<V, R>>, b: seq<Outcome<V, R>>)
    ensures SettleAll(s, a + b) == SettleAll(SettleAll(s, a), b)
  {
    if b == [] {
      assert a + b == a;
    } else {
      assert (a + b)[..|a + b| - 1] == a + b[..|b| - 1];
      SettleAllAppend(s, a, b[..|b| - 1]);
    }
  }

  /** First attempt wins: from Pending, a sequence of attempts settles the
      result with the first one, and a result nobody settles stays Pending. */
  lemma FirstAttemptWins<V, R>(os: seq<Outcome<V, R>>)
    ensures os == [] ==> SettleAll(Pending, os) == Pending
    ensures os != [] ==> SettleAll(Pending, os) == StateOf(os[0])
  {
    if os != [] {
      assert os == [os[0]] + os[1..];
      SettleAllAppend(Pending, [os[0]], os[1..]);
      assert SettleAll(Pending, [os[0]]) == Settle(SettleAll(Pending, []), os[0]);
      SettledIsFinal(StateOf(os[0]), os[1..]);
    }
  }

  /** The deferred result as an object, settled in place by the `resolve`
      and `reject` functions handed to the executor of `new Promise`. */
  class Deferred<V, R> {
    var state: State<V, R>

    constructor ()
      ensures state == Pending
    {
      state := Pending;
    }

    /** `resolve(v)`: fulfils a pending result, ignored otherwise. */
    method Resolve(v: V)
      modifies this
      ensures state == Settle(old(state), Fulfil(v))
    {
      if state.Pending? {
        state := Fulfilled(v);
      }
    }

    /** `reject(r)`: rejects a pending result, ignored otherwise. */
    method Reject(r: R)
      modifies this
      ensures state == Settle(old(state), Outcome.Reject(r))
    {
      if state.Pending? {
        state := Rejected(r);
      }
    }

    /** Delivers an outcome to the matching settle function. */
    method Apply(o: Outcome<V, R>)
      modifies this
      ensures state == Settle(old(state), o)
    {
      match o
      case Fulfil(v) => Resolve(v);
      case Reject(r) => this.Reject(r);
    }
  }
}
