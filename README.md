# Promise combinators, modelled in Dafny

This project models the promise-combinator library of the `promises`
exercises (`exercises/advanced/PromiseLib.js`): `promisify`, which turns a
node-style function `(…args, callback(err, results))` into one that returns a
promise; `all`, which aggregates an array of promises into one that fulfils
with their values in input order or rejects on the first rejection; and
`race`, which settles with whichever input settles first. Underneath all
three sits the single-assignment promise they construct: it starts pending
and only the first `resolve` or `reject` call has any effect.

Asynchronous completion is modelled as an explicit trace of settlement
events `Event(index, Fulfil(v) | Reject(r))`, in the order the host's
scheduler delivers them. A trace is well-formed for `n` inputs when every
index is below `n` and no index occurs twice, since each input is itself a
single-assignment promise. Each combinator is a left fold of its handler
over the trace (`SettleAll`, `AllCombinator.Run`, `RaceOutcome`), and an
imperative driver runs the same handlers on objects updated in place
(`Deferred`, `AllAggregate`). Each driver's postcondition ties its final
state to the fold, and the lemmas state what the library promises about the
fold.

Files:

- `optional.dfy`: `Option`. `None` stands for an absent `err` (`null` or
  `undefined`) and for a hole in a JavaScript array.
- `deferred.dfy`: promise states, the settle rule, and the `Deferred` class.
- `trace.dfy`: events, well-formedness, and counting lemmas (pigeonhole).
- `promisify.dfy`, `all.dfy`, `race.dfy`: the three combinators.

`all` on an empty array stays pending forever, and the model follows the
code here. `promisesLeftToResolve` starts at 0 and `forEach` registers no
handler, so `resolve` is never called (`exercises/advanced/PromiseLib.js`
lines 51-54 and 62). The usual `Promise.all` convention fulfils with `[]`
instead. `AllCombinator.AllOfNoneIsPending` states the code's behaviour.

The array that `all` resolves with is `resolvedValues` itself. It is written
by index, so an unwritten slot is a hole. The model therefore gives the
aggregate value the type `seq<Option<V>>`.
`AllCombinator.AllFulfilsInOrder` proves that when every input fulfils, the
array has no holes.

## Model

| member | source | states |
|---|---|---|
| DeferredResult.Settle | exercises/advanced/PromiseLib.js:86-88 | A settle attempt always leaves the promise settled. On an already-settled promise it changes nothing. |
| DeferredResult.SettledIsFinal | exercises/advanced/PromiseLib.js:86-88 | Once settled, any sequence of further `resolve`/`reject` attempts leaves the state unchanged (idempotent settlement). |
| DeferredResult.SettleAllAppend | exercises/advanced/PromiseLib.js:86-88 | Attempts delivered in two batches have the same effect as one batch. |
| DeferredResult.FirstAttemptWins | exercises/advanced/PromiseLib.js:86-88 | Starting from pending, a sequence of attempts settles the promise with the first attempt. With no attempt it stays pending. |
| DeferredResult.Deferred.constructor | exercises/advanced/PromiseLib.js:23 | A new promise is pending. |
| DeferredResult.Deferred.Resolve | exercises/advanced/PromiseLib.js:86-89 | `resolve(v)` fulfils a pending promise with `v` and is ignored once it is settled. |
| DeferredResult.Deferred.Reject | exercises/advanced/PromiseLib.js:86-90 | `reject(r)` rejects a pending promise with `r` and is ignored once it is settled. |
| DeferredResult.Deferred.Apply | exercises/advanced/PromiseLib.js:89-90 | Routes a fulfilment to `resolve` and a rejection to `reject`. The new state is the settle rule applied to the old one. |
| Promisify.CallArgs | exercises/advanced/PromiseLib.js:21-32 | The wrapped function gets the caller's arguments in their original order and positions. The callback follows as one extra, last argument. |
| Promisify.CallArgsRoundTrip | exercises/advanced/PromiseLib.js:29-32 | A node-style function that reads its callback from the last position gets back exactly the caller's arguments. Only the list `CallArgs` builds reads back that way. |
| Promisify.PromisifySettlesOnFirstCallback | exercises/advanced/PromiseLib.js:24-27 | A truthy `err` rejects with exactly that `err` and discards `results`. A falsy or absent `err` fulfils with `results`. The first callback call decides, and with no call the promise stays pending. |
| Promisify.NodeStyleCallback | exercises/advanced/PromiseLib.js:24-27 | The callback's effect on the promise is the settle rule applied to `reject(err)` when `err` is truthy and to `resolve(results)` otherwise. |
| Promisify.CallPromisified | exercises/advanced/PromiseLib.js:20-34 | The ghost record `invoked` of the wrapped function's calls is exactly `[CallArgs(args)]`: one call, on the caller's arguments followed by the callback. The returned promise ends in the state that this call's callback calls determine. |
| AllCombinator.Step | exercises/advanced/PromiseLib.js:57-68 | A handler run keeps the slot array's length. It never changes an aggregate that has already settled. |
| AllCombinator.Run | exercises/advanced/PromiseLib.js:51-69 | After any trace the slot array still has one slot per input. |
| AllCombinator.CountdownTracksFulfils | exercises/advanced/PromiseLib.js:52-62 | The countdown equals `n` minus the number of fulfilments delivered so far. |
| AllCombinator.RunSlots | exercises/advanced/PromiseLib.js:58-60 | Slot `i` holds the value of the last fulfilment reported for input `i`. A slot with no fulfilment is a hole. |
| AllCombinator.SlotOfFulfilled | exercises/advanced/PromiseLib.js:58-60 | In a well-formed trace, each fulfilled input's value sits at its own index, whatever the completion order. |
| AllCombinator.RunMeetsExpected | exercises/advanced/PromiseLib.js:38-71 | On a well-formed trace the aggregate is as follows. The first rejection in the trace rejects it. Otherwise, once all `n > 0` inputs have fulfilled, it fulfils with the slot array. Otherwise it is pending. |
| AllCombinator.AllFulfilsInOrder | exercises/advanced/PromiseLib.js:42-64 | When every input fulfils, in any order, the aggregate fulfils with an `n`-slot array without holes. Slot `i` holds input `i`'s value. |
| AllCombinator.AllFailsFast | exercises/advanced/PromiseLib.js:45-68 | The first rejection rejects the aggregate with its reason, whatever fulfilments or rejections follow. |
| AllCombinator.AllFulfilsAtZero | exercises/advanced/PromiseLib.js:52-64 | The countdown is `n` minus the fulfilments so far. The aggregate is fulfilled exactly when `n > 0` and the countdown is zero. |
| AllCombinator.AllOutcomeIsFinal | exercises/advanced/PromiseLib.js:60-68 | Once the aggregate is settled, later events may still write slots but leave its outcome unchanged. |
| AllCombinator.AllOfNoneIsPending | exercises/advanced/PromiseLib.js:51-54 | `all([])` receives no event, its countdown is 0, and it stays pending. |
| AllCombinator.AllKeepsInputOrder | exercises/advanced/PromiseLib.js:42-43 | Inputs fulfilling with 1 and 2, the second first, give `[1, 2]`. |
| AllCombinator.AllAggregate.constructor | exercises/advanced/PromiseLib.js:51-54 | Creates `n` empty slots, a countdown at `n` and a pending aggregate. |
| AllCombinator.AllAggregate.OnFulfil | exercises/advanced/PromiseLib.js:57-65 | The fulfilment handler for input `i` updates the slot array, countdown and aggregate in place, exactly as `Step` does on a fulfilment. |
| AllCombinator.AllAggregate.OnReject | exercises/advanced/PromiseLib.js:66-68 | The `.catch(reject)` handler settles the aggregate by the settle rule and leaves the slots and countdown alone. |
| AllCombinator.All | exercises/advanced/PromiseLib.js:49-71 | Running the handlers over a trace leaves the returned promise in state `Run(n, t).result`. On a well-formed trace that state is `Expected(n, t)`. |
| RaceCombinator.RaceFirstWins | exercises/advanced/PromiseLib.js:82-91 | The first event decides the race, whether it is a fulfilment or a rejection. With no inputs the race never settles. |
| RaceCombinator.RaceLaterEventsIgnored | exercises/advanced/PromiseLib.js:86-91 | Events after the first leave the race's outcome unchanged. |
| RaceCombinator.RaceFastInputWins | exercises/advanced/PromiseLib.js:74-77 | A fast input listed second beats a slow one listed first. |
| RaceCombinator.RaceOfNoneIsPending | exercises/advanced/PromiseLib.js:82-84 | `race([])` receives no event and stays pending. |
| RaceCombinator.Race | exercises/advanced/PromiseLib.js:80-93 | Running `.then(resolve).catch(reject)` for each event leaves the shared promise in the state of the first event, or pending if there is none. |

## Left out

- Scheduling and microtask timing. The trace fixes the order in which settlements reach the handlers. For example, `.then(resolve).catch(reject)` delivers a rejection one tick after a fulfilment would be delivered, and the model does not capture this.
- Promisify.CallPromisified: the promise is returned before the callback fires. The model collapses this and reports the promise's state after the wrapped function has made all of its callback calls.
- DeferredResult.Settle: resolving with a thenable is not modelled. In the host promise library, `resolve(x)` with a thenable `x` makes the promise follow `x`, so it can end rejected or stay pending. That is host-library behaviour. The model treats every `resolve(v)` as fulfilment with `v`. `all` resolves with an array, and `race` forwards values that are already settled, so neither is affected.
- Promisify.PromisifySettlesOnFirstCallback: a falsy `err` with a thenable `results` fulfils with `results` in the model. The host library would make the promise follow `results` instead, for the reason given on the line above.
- Promisify.CallPromisified: the number of calls to `nodeStyleFn` is stated through the ghost record `invoked`, which the body keeps. Dafny's functions are pure, so a second evaluation of `nodeStyleFn` would not be observable otherwise.
- Synchronous throws from `nodeStyleFn`. What happens to them is decided by the promise library's constructor, which is not part of this model.
- Exceptions thrown inside a `.then` handler and caught by the chained `.catch`. This is behaviour of the host promise library.
- JavaScript truthiness. It is the parameter `truthy: E -> bool`, and an absent `err` is `None`.
- `arguments`, `apply(null, …)` and `this`. Argument lists are sequences.
- The unused `underscore` import.
- Aliasing of the resolved array. `all` resolves with the `resolvedValues` object itself, and the model takes a snapshot at the moment of resolution. In a well-formed trace no slot is written after that moment, because the countdown reaches zero only after every input has fulfilled.
- `exercises/bare_minimum/basicChaining.js` is not part of this model. It is file and HTTP glue around these combinators.
