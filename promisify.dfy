/** `promisify(nodeStyleFn)`: the returned function calls `nodeStyleFn` with
    the caller's arguments followed by a completion callback, and settles its
    promise from the callback's `(err, results)`. */
module Promisify {
  import opened Optional
  import opened DeferredResult

  /** One argument of the call made to the wrapped function: a caller's
      argument or the completion callback. */
  datatype Arg<+A> = Value(value: A) | NodeCallback

  /** One call of the completion callback. An absent `err` (`null` or
      `undefined`) is `None`; a present one is truthy or not as the host's
      `truthy` predicate says. */
  datatype Completion<+E, +V> = Completion(err: Option<E>, results: V)

  /** The argument list handed to `nodeStyleFn`: a copy of the caller's
      arguments with the callback pushed on the end. */
  function CallArgs<A>(args: seq<A>): (call: seq<Arg<A>>)
    ensures |call| == |args| + 1
    ensures call[|args|] == NodeCallback
    ensures forall i :: 0 <= i < |args| ==> call[i] == Value(args[i])
  {
    seq(|args|, i requires 0 <= i < |args| => Value(args[i])) + [NodeCallback]
  }

  /** How a node-style function reads its argument list: the callback last,
      its own arguments before it. */
  function SplitCallArgs<A>(call: seq<Arg<A>>): Option<seq<A>>
  {
    if call == [] || !call[|call| - 1].NodeCallback? then None
    else if exists i :: 0 <= i < |call| - 1 && call[i].NodeCallback? then None
    else Some(seq(|call| - 1, i requires 0 <= i < |call| - 1 => call[i].value))
  }

  /** The wrapped function sees exactly the caller's arguments, in their
      order, and the callback once, as the last argument; and only such an
      argument list reads back as those arguments. */
  lemma CallArgsRoundTrip<A>(args: seq<A>, call: seq<Arg<A>>)
    ensures SplitCallArgs(CallArgs(args)) == Some(args)
    ensures SplitCallArgs(call) == Some(args) ==> call == CallArgs(args)
  {
    var c := CallArgs(args);
    assert forall i :: 0 <= i < |c| - 1 ==> !c[i].NodeCallback?;
    assert seq(|c| - 1, i requires 0 <= i < |c| - 1 => c[i].value) == args;
    if SplitCallArgs(call) == Some(args) {
      assert forall i :: 0 <= i < |args| ==> call[i] == Value(args[i]);
    }
  }

  /** What one callback call asks of the promise: `reject(err)` for a truthy
      `err`, otherwise `resolve(results)`. */
  function CallbackOutcome<E, V>(c: Completion<E, V>, truthy: E -> bool): Outcome<V, E>
  {
    if c.err.Some? && truthy(c.err.value) then Reject(c.err.value) else Fulfil(c.results)
  }

  function CallbackOutcomes<E, V>(cs: seq<Completion<E, V>>, truthy: E -> bool): seq<Outcome<V, E>>
  {
    seq(|cs|, k requires 0 <= k < |cs| => CallbackOutcome(cs[k], truthy))
  }

  /** The promised-function's promise after the callback calls `cs`. */
  function PromisifiedState<E, V>(cs: seq<Completion<E, V>>, truthy: E -> bool): State<V, E>
  {
    SettleAll(Pending, CallbackOutcomes(cs, truthy))
  }

  /** The first callback call settles the promise: a truthy `err` rejects it
      with exactly that `err`, discarding `results`; anything else fulfils it
      with `results`. Later calls change nothing, and without a call the
      promise stays pending. */
  lemma PromisifySettlesOnFirstCallback<E, V>(cs: seq<Completion<E, V>>, truthy: E -> bool)
    ensures cs == [] ==> PromisifiedState(cs, truthy) == Pending
    ensures cs != [] && cs[0].err.Some? && truthy(cs[0].err.value) ==>
              PromisifiedState(cs, truthy) == Rejected(cs[0].err.value)
    ensures cs != [] && !(cs[0].err.Some? && truthy(cs[0].err.value)) ==>
              PromisifiedState(cs, truthy) == Fulfilled(cs[0].results)
  {
    FirstAttemptWins(CallbackOutcomes(cs, truthy));
  }

  /** `nodeStyleCallback`, closing over the promise's `resolve` and `reject`. */
  method NodeStyleCallback<E, V>(p: Deferred<V, E>, truthy: E -> bool, err: Option<E>, results: V)
    modifies p
    ensures p.state == Settle(old(p.state), CallbackOutcome(Completion(err, results), truthy))
  {
    if err.Some? && truthy(err.value) {
      p.Reject(err.value);
      return;
    }
    p.Resolve(results);
  }

  /** The function `promisify(nodeStyleFn)` returns, called with `args`.
      `nodeStyleFn` is given by what it does with the argument list it
      receives: the calls it makes of the callback, in order. `invoked`
      records the argument list of every call made to `nodeStyleFn`. */
  method CallPromisified<A, E, V>(nodeStyleFn: seq<Arg<A>> -> seq<Completion<E, V>>, truthy: E -> bool, args: seq<A>)
    returns (p: Deferred<V, E>, ghost invoked: seq<seq<Arg<A>>>)
    ensures fresh(p)
    ensures invoked == [CallArgs(args)]
    ensures p.state == PromisifiedState(nodeStyleFn(invoked[0]), truthy)
  {
    p := new Deferred();
    invoked := [];
    var argsForNodeStyleFn := CallArgs(args);
    var calls := nodeStyleFn(argsForNodeStyleFn);
    invoked := invoked + [argsForNodeStyleFn];
    for k := 0 to |calls|
      invariant p.state == PromisifiedState(calls[..k], truthy)
    {
      assert CallbackOutcomes(calls[..k + 1], truthy)
          == CallbackOutcomes(calls[..k], truthy) + [CallbackOutcome(calls[k], truthy)];
      NodeStyleCallback(p, truthy, calls[k].err, calls[k].results);
    }
    assert calls[..|calls|] == calls;
  }
}
