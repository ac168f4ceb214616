# Cancellable promise, modelled in Dafny

This project models `CancellablePromise` from `src/cancelable-promise.js`: a
JavaScript promise whose constructor checks its executor, whose instances carry
an `isCanceled` flag and a `cancel()` that sets the flag and rejects with
`{ isCanceled: true }`, and whose `then` throws on a non-function first
argument and otherwise returns a new, independently cancellable instance.

The model is functional. Each instance is an immutable control block
`Block(state, isCanceled)`. The state is `Pending`, `Fulfilled(value)` or
`Rejected(reason)`, so the result lives inside the settled state. The reject
capability that the constructor captures is the block's own `Reject`
transition. Host scheduling is replaced by explicit steps in a `Chain`. A
`Chain` is the sequence of all instances created so far. Each derived node
records the node its `then` was called on and the handlers registered there.
A timer firing is a `ResolveAt`/`RejectAt` step. A reaction job running after
the parent settled is a `ReactAt` step.

Modules, one per file:

- `Values` (`values.dfy`): JavaScript values, handler outcomes, function-or-not arguments, errors.
- `ControlBlock` (`control_block.dfy`): the block and its `Resolve`, `Reject` and `Cancel` transitions, plus any sequence of such calls (`Run`).
- `Construction` (`construction.dfy`): the executor check and the synchronous run of the executor.
- `Continuation` (`continuation.dfy`): the `then` check (`ThenCheck`), the derived node (`Then`), settling it from its parent (`Derive`), and straight chains (`Pipe`).
- `Chains` (`chain.dfy`): many instances side by side, one step per operation, and whole runs of steps (`Execute`).
- `Scenarios` (`scenarios.dfy`): the behaviours the repository's tests check, one lemma each.

An executor is modelled by what it does while the constructor runs it. That
is the list of `resolve`/`reject` calls it makes, in order, and possibly a
synchronous throw. The host's constructor catches such a throw and rejects
with the thrown value. A handler is a Dafny function from the settled value to
an outcome: `Fulfill(v)` or `Reject(r)`. A handler that throws, or that returns
a rejected promise, yields `Reject`.

`then` throws whenever at least one argument is given and the first is not a
function (src/cancelable-promise.js:35). So `then(undefined, f)` throws and
`then()` does not.

## Model

| member | source | states |
|---|---|---|
| ControlBlock.Resolve | src/cancelable-promise.js:15-17 | resolve settles a pending instance as fulfilled with the value. On a settled instance it changes nothing. It never touches the flag. |
| ControlBlock.Reject | src/cancelable-promise.js:18-20 | reject settles a pending instance as rejected with the reason. On a settled instance it changes nothing. It never touches the flag. |
| ControlBlock.Cancel | src/cancelable-promise.js:27-30 | cancel always leaves the flag true. A pending instance becomes rejected with a reason whose `isCanceled` is true. A settled instance keeps its state and result. |
| ControlBlock.CancelIdempotent | src/cancelable-promise.js:27-30 | a second cancel changes nothing |
| ControlBlock.Run | src/cancelable-promise.js:11-30 | for any sequence of resolve/reject/cancel calls, the state only moves along the Pending → settled state machine. On a pending instance the first call decides the outcome for good. The flag ends true exactly when it was already true or some call was a cancel. |
| ControlBlock.SettledIsFinal | src/cancelable-promise.js:11-21 | once settled, no sequence of resolve, reject or cancel calls changes the state or the result |
| Construction.Effects | src/cancelable-promise.js:11-22 | the calls reaching the block during construction are the executor's own calls in order, then a reject for a synchronous throw. None of them is a cancel. |
| Construction.Construct | src/cancelable-promise.js:4-25 | construction throws exactly when the executor is not a function, including when it is missing. On success the flag is false. The executor's first synchronous call (or its throw) decides the state; if it makes none, the instance stays pending. |
| Continuation.ThenCheck | src/cancelable-promise.js:34-37 | then throws exactly when some argument is given and the first is not a function. Otherwise the first argument becomes the fulfilment handler. The second becomes the rejection handler only when it is callable. |
| Continuation.DerivedBlock | src/cancelable-promise.js:24-25 | the node the host builds for a `then` result goes through the same constructor and is pending with its flag false |
| Continuation.Then | src/cancelable-promise.js:34-40 | then throws exactly as the check says. Otherwise it returns a pending, uncancelled node together with the handlers the check accepted. |
| Continuation.React | src/cancelable-promise.js:39 | a pending parent hands nothing on. A fulfilled parent hands on what `onFulfilled` returns for its value, and a rejected parent what `onRejected` returns for its reason. With no matching handler the value or reason passes through. |
| Continuation.Derive | src/cancelable-promise.js:39 | a pending child of a settled parent settles with the reaction's outcome. Settling never changes the child's flag. It does nothing while the parent is pending or once the child has settled, for instance by its own cancel. |
| Continuation.EmptyThenPassesThrough | src/tests.test.js:79-85 | `then()` gives a node that settles exactly as its settled parent |
| Continuation.FulfilledRunsOnlyOnFulfilled | src/tests.test.js:55-77 | on a fulfilled parent, the child settles as the fulfilment handler says, whatever the second argument is. A rejection returned by that handler is what the child rejects with. |
| Continuation.RejectedRunsOnlyOnRejected | src/cancelable-promise.js:39 | on a rejected parent, the child settles as the rejection handler says, whatever the fulfilment handler is |
| Continuation.PipeIncrements | src/tests.test.js:87-96 | n successive `then(val => val + 1)` steps from k end fulfilled with k + n |
| Continuation.CatchAsWritten | src/cancelable-promise.js:34-37 | `catch(f)` goes through the wrapper as `then(undefined, f)` and throws for every f |
| Continuation.Catch | src/cancelable-promise.js:34-37 | the corrected `catch` never throws. It registers only a rejection handler, present exactly when the argument is callable. |
| Continuation.CatchRecovers | src/cancelable-promise.js:34-37 | the corrected `catch` maps a rejection through its handler and passes a fulfilment through |
| Chains.NewInstance | src/cancelable-promise.js:4-25 | a non-function executor throws and leaves no new instance. Otherwise exactly one root instance is appended, uncancelled, holding the block the constructor builds from the executor's synchronous calls, and no other instance changes. |
| Chains.ThenAt | src/cancelable-promise.js:32-40 | a rejected argument list throws and creates nothing. Otherwise a new node is appended. It is distinct from its parent, pending, has its own flag false, and is linked to the parent with the checked handlers. |
| Chains.ResolveAt | src/cancelable-promise.js:15-17 | a later resolve from the executor settles only that root instance, and only if it is still pending |
| Chains.RejectAt | src/cancelable-promise.js:18-24 | a later reject, from a root's executor or through the `rejector` every instance exposes, settles only that instance, and only if it is still pending; its flag is kept |
| Chains.CancelAt | src/cancelable-promise.js:27-30 | cancel on one node sets its flag. It rejects that node with the cancel reason if pending and keeps its outcome if settled. It changes no other node, neither parent nor child. |
| Chains.ReactAt | src/cancelable-promise.js:39 | the reaction job settles the child from its parent's state and the handlers it registered (as `Derive` states), and changes no other node. It keeps the child's flag, and it changes nothing while the parent is pending. |
| Chains.Perform | src/cancelable-promise.js:9-40 | no single operation unsettles a node, changes a settled result, clears a flag or relinks a node. A node's flag becomes true only by a cancel on that node. |
| Chains.Execute | src/cancelable-promise.js:9-40 | over any sequence of operations, every existing node only moves forward along the state machine and keeps its link |
| Chains.FlagOnlyByOwnCancel | src/cancelable-promise.js:24-30 | after any sequence of operations, a node's flag is true exactly when it was true before or the sequence cancelled that node |
| Chains.IncrementChain | src/tests.test.js:87-96 | building `depth` successive `then(val => val + 1)` on an instance resolved with 0, then running the reaction jobs, leaves the last node fulfilled with `depth` and no node cancelled |
| Scenarios.WrongExecutorThrows | src/tests.test.js:7-10 | a missing or string executor throws and leaves the chain as it was |
| Scenarios.ExecutorRunsDuringConstruction | src/tests.test.js:12-17 | what the executor does synchronously is visible when the constructor returns. A silent executor leaves a pending, uncancelled instance. |
| Scenarios.SettlesFromTimer | src/tests.test.js:19-29 | a timer-driven resolve or reject with a unique `Symbol()` value settles a pending instance with that value |
| Scenarios.ThenArgumentCheck | src/tests.test.js:32-35 | `then('wrong')` and `then(undefined, f)` throw. `then()` does not, and neither does a function followed by a non-function. |
| Scenarios.ThenOnFulfilled | src/tests.test.js:37-53 | the derived node is distinct from its parent and pending until its job runs, then is fulfilled with 20. The parent keeps 10. |
| Scenarios.ThenFulfilmentHandlerRejects | src/tests.test.js:55-77 | `then(v => Promise.reject(v), func)` on a promise fulfilled with 10 rejects with 10 |
| Scenarios.EmptyThenOnResolved | src/tests.test.js:79-85 | `then()` on a promise fulfilled with 10 is fulfilled with 10 |
| Scenarios.TenIncrementsReachTen | src/tests.test.js:87-96 | ten `then(val => val + 1)` steps from 0 reach 10 |
| Scenarios.CancelBeforeTimer | src/tests.test.js:100-111 | a derived node cancelled before its parent's timer fires rejects with the cancel reason and keeps it after the parent resolves with 1. The parent's flag stays false. |
| Scenarios.CancelBothAfterThen | src/tests.test.js:116-134 | both flags start false and end true after both cancels. The fulfilled parent keeps 1. The still-pending child rejects with the cancel reason. |
| Scenarios.ParentCancelReachesChildAsDataOnly | src/cancelable-promise.js:27-30 | cancelling a pending parent rejects the child with the cancel reason through data flow only. The child's own flag stays false. |

## Findings

| source | as written | input that shows it | evidently intended | confidence | as-written member | corrected member |
|---|---|---|---|---|---|---|
| src/cancelable-promise.js:34-37 | the validating `then` is an own property, so the host's `Promise.prototype.catch(f)`, which calls `this.then(undefined, f)`, hits the check and throws | `cp.catch(f)` for any function `f` | `catch(f)` registers `f` for rejections and returns a new instance, as for any promise | medium (follows from the language's definition of `catch`; not executed) | Continuation.CatchAsWritten | Continuation.Catch |

## Left out

- Host scheduling (event loop, `setTimeout`, microtask FIFO order, `await`) is left out. Timer callbacks and reaction jobs are explicit steps (`ResolveAt`, `RejectAt`, `ReactAt`) taken in the order a test's timers would fire.
- Thenable adoption is left out: resolving with a promise, or a handler returning one, is abstracted to the outcome it eventually yields. The host's "resolved but still pending" phase is left out with it. In that phase a `cancel()` sets the flag but its reject is ignored.
- Side effects of executors and handlers other than their resolve/reject outcome are left out (`isCompleted = true`, `value = v`). In particular, the host still runs a cancelled child's handler when the parent settles; only its effect on the child is ignored, and that is what `Derive` models.
- Chains.Perform: an operation naming no instance, a resolve on a derived node, or a reaction job on a root changes nothing. A derived node's resolve stays inside the host. A reject on any node is modelled, since every instance exposes its `rejector`.
- Subclassing, species construction and the runtime reassignment of `then`/`oldThen` are left out, and so are callers that overwrite the exposed `rejector`, `oldThen` or `then` properties or call `oldThen` directly to skip the check. A derived node is built explicitly through the constructor with an executor that settles nothing (`DerivedBlock`).
- The test helper `getPromiseState` is left out; the model reads a node's state directly.
- JavaScript numbers are modelled as unbounded integers. `Increment` and `Double` give `Undefined` on non-numbers instead of the language's `+`/`*` results.
- `Symbol` identity is modelled as `Token`. Error message strings are not modelled.
- `finally` is not modelled. It also delegates to `then`: given a function it passes two callables and passes the check; given no function it passes that value first and throws like `catch`.
