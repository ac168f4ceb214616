/**
 The behaviours the repository's tests exercise, each as a lemma over the
 chain model. Timer callbacks are explicit steps taken in the order the
 tests' timers fire.
 */
module Scenarios {
  import opened Values
  import opened ControlBlock
  import opened Construction
  import opened Continuation
  import opened Chains

  /** `v => v`, also what `v => value = v` hands on. */
  function Identity(v: Value): Outcome {
    Fulfill(v)
  }

  /** `value => Promise.reject(value)`. */
  function RejectWith(v: Value): Outcome {
    Outcome.Reject(v)
  }

  /** `value => value * 2`, on numbers. */
  function Double(v: Value): Outcome {
    match v
    case Num(n) => Fulfill(Num(n * 2))
    case _ => Fulfill(Undefined)
  }

  /** `() => 2`. */
  function Two(v: Value): Outcome {
    Fulfill(Num(2))
  }

  /** An executor that resolves with `v` at once. */
  function ResolvesWith(v: Value): ExecutorArg {
    Function(Script([Fulfill(v)], None))
  }

  /** Missing and non-function executors throw and create nothing. */
  lemma WrongExecutorThrows(c: Chain)
    requires c.Valid()
    ensures NewInstance(c, NonFunction(Undefined)) == Step(c, Throws(ConstructionError))
    ensures NewInstance(c, NonFunction(Str("wrong"))) == Step(c, Throws(ConstructionError))
  {
  }

  /** The executor has run by the time the constructor returns: what it did
      synchronously is already visible, and the new instance is not
      cancelled. An executor that does nothing leaves it pending. */
  lemma ExecutorRunsDuringConstruction(v: Value)
    ensures Construct(Function(Silent)) == Ok(Block(Pending, false))
    ensures Construct(ResolvesWith(v)) == Ok(Block(Fulfilled(v), false))
    ensures Construct(Function(Script([], Some(v)))) == Ok(Block(Rejected(v), false))
  {
  }

  /** An executor that resolves or rejects with a unique value `Symbol()`
      from a timer: the instance is pending until the timer fires, then
      settles with that value. */
  lemma SettlesFromTimer(id: nat)
    ensures var v := Token(id);
            var s := NewInstance(Empty, Function(Silent));
            && s.chain.nodes[0].block.state.Pending?
            && ResolveAt(s.chain, 0, v).nodes[0].block.state == Fulfilled(v)
            && RejectAt(s.chain, 0, v).nodes[0].block.state == Rejected(v)
  {
  }

  /** `then('wrong')` throws, `then(undefined, f)` throws, `then()` and a
      non-function second argument after a function do not. */
  lemma ThenArgumentCheck(f: Handler, other: Value)
    ensures Then([NonFunction(Str("wrong"))]) == Throws(ArgumentError)
    ensures Then([NonFunction(Str("wrong")), Function(f)]) == Throws(ArgumentError)
    ensures Then([NonFunction(Undefined), Function(f)]) == Throws(ArgumentError)
    ensures Then([]).Ok?
    ensures Then([Function(f), NonFunction(other)]).Ok?
  {
  }

  /** `cp.then(onFulfilled)` on `cp` resolved with 10: a new node, pending
      until its reaction job runs, then fulfilled with 20, while `cp` keeps 10. */
  lemma ThenOnFulfilled()
    ensures var cp := NewInstance(Empty, ResolvesWith(Num(10)));
            var cp2 := ThenAt(cp.chain, 0, [Function(Double)]);
            && cp2.result == Ok(1) && cp2.result.value != cp.result.value
            && cp2.chain.nodes[1].block == Block(Pending, false)
            && ReactAt(cp2.chain, 1).nodes[0].block.state == Fulfilled(Num(10))
            && ReactAt(cp2.chain, 1).nodes[1].block.state == Fulfilled(Num(20))
  {
  }

  /** `cp.then(value => Promise.reject(value), func)` on `cp` resolved with
      10: the rejection handler is not used and the new node rejects with 10. */
  lemma ThenFulfilmentHandlerRejects()
    ensures var cp := NewInstance(Empty, ResolvesWith(Num(10)));
            var cp2 := ThenAt(cp.chain, 0, [Function(RejectWith), Function(Double)]);
            && cp2.result == Ok(1)
            && ReactAt(cp2.chain, 1).nodes[1].block.state == Rejected(Num(10))
  {
  }

  /** `then()` on an instance resolved with 10 gives a new node fulfilled with 10. */
  lemma EmptyThenOnResolved()
    ensures var cp := NewInstance(Empty, ResolvesWith(Num(10)));
            var cp2 := ThenAt(cp.chain, 0, []);
            && cp2.result == Ok(1)
            && ReactAt(cp2.chain, 1).nodes[1].block.state == Fulfilled(Num(10))
  {
  }

  /** Ten `then(val => val + 1)` steps from 0 reach 10. */
  lemma TenIncrementsReachTen()
    ensures Pipe(Fulfilled(Num(0)), Repeat(IncrementReaction, 10)) == Fulfilled(Num(10))
  {
    PipeIncrements(0, 10);
  }

  /** `new CancellablePromise(resolve => setTimeout(() => resolve(1), 100)).then(v => value = v)`,
      cancelled before the timer fires: the derived node rejects with the
      cancel reason and keeps it after the timer resolves the root with 1 and
      the reaction job runs; only the cancelled node has its flag set. */
  lemma CancelBeforeTimer()
    ensures var root := NewInstance(Empty, Function(Silent));
            var linked := ThenAt(root.chain, 0, [Function(Identity)]);
            var cancelled := CancelAt(linked.chain, 1);
            var fired := ResolveAt(cancelled, 0, Num(1));
            var reacted := ReactAt(fired, 1);
            && linked.chain.nodes[1].block.state.Pending?
            && cancelled.nodes[1].block == Block(Rejected(CancelReason), true)
            && reacted.nodes[1].block == Block(Rejected(CancelReason), true)
            && reacted.nodes[0].block == Block(Fulfilled(Num(1)), false)
  {
  }

  /** `promise1` resolved with 1 at construction, `promise2 = promise1.then(() => 2)`:
      both flags start false; after cancelling both, both flags are true,
      `promise1` keeps its fulfilment, and `promise2`, still pending when
      cancelled, rejects with the cancel reason and keeps it after its
      reaction job runs. */
  lemma CancelBothAfterThen()
    ensures var p1 := NewInstance(Empty, ResolvesWith(Num(1)));
            var p2 := ThenAt(p1.chain, 0, [Function(Two)]);
            var both := CancelAt(CancelAt(p2.chain, 0), 1);
            && !p2.chain.nodes[0].block.isCanceled && !p2.chain.nodes[1].block.isCanceled
            && both.nodes[0].block == Block(Fulfilled(Num(1)), true)
            && both.nodes[1].block == Block(Rejected(CancelReason), true)
            && ReactAt(both, 1).nodes[1].block == Block(Rejected(CancelReason), true)
  {
  }

  /** Cancelling a pending parent reaches its child only as data: the child
      rejects with the cancel reason once its reaction job runs, but its own
      flag stays false. */
  lemma ParentCancelReachesChildAsDataOnly()
    ensures var root := NewInstance(Empty, Function(Silent));
            var linked := ThenAt(root.chain, 0, []);
            var reacted := ReactAt(CancelAt(linked.chain, 0), 1);
            && reacted.nodes[0].block == Block(Rejected(CancelReason), true)
            && reacted.nodes[1].block == Block(Rejected(CancelReason), false)
  {
  }
}
