/**
 The continuation bridge: the validating `then`, the derived instance it
 builds, and how that instance settles once its parent has.
 */
module Continuation {
  import opened Values
  import opened ControlBlock
  import opened Construction

  /** An argument of `then`, a function or not. */
  type HandlerArg = JsArg<Handler>

  /** The handlers the host's chaining registers on the parent; a missing or
      non-callable one means pass-through. */
  datatype Reaction = Reaction(onFulfilled: Option<Handler>, onRejected: Option<Handler>)

  /** The handler at position `k` of the arguments, when there is a callable one. */
  function HandlerAt(args: seq<HandlerArg>, k: nat): Option<Handler> {
    if k < |args| && args[k].IsCallable() then Some(args[k].f) else None
  }

  /** The check of the `then` wrapper: it throws exactly when some argument is
      given and the first is not a function; otherwise the host's chaining
      takes the first two arguments, ignoring a non-callable second one and
      anything after it. */
  function ThenCheck(args: seq<HandlerArg>): (r: Result<Reaction>)
    ensures r.Throws? <==> |args| > 0 && !args[0].IsCallable()
    ensures r.Throws? ==> r.error == ArgumentError
    ensures r.Ok? ==> (r.value.onFulfilled.Some? <==> |args| > 0)
    ensures r.Ok? && |args| > 0 ==> r.value.onFulfilled == Some(args[0].f)
    ensures r.Ok? ==> (r.value.onRejected.Some? <==> |args| > 1 && args[1].IsCallable())
    ensures r.Ok? && |args| > 1 && args[1].IsCallable() ==> r.value.onRejected == Some(args[1].f)
  {
    if |args| > 0 && !args[0].IsCallable() then Throws(ArgumentError)
    else Ok(Reaction(HandlerAt(args, 0), HandlerAt(args, 1)))
  }

  /** The new node a successful `then` hands back. The host's chaining builds
      it through the same constructor with an executor that settles nothing,
      so it is pending with its own flag cleared. */
  function DerivedBlock(): (b: Block)
    ensures b.state.Pending? && !b.isCanceled
  {
    var made := Construct(Function(Silent));
    made.value
  }

  /** `instance.then(...args)`: the argument check, then a new derived node
      together with the reaction registered on the parent. */
  function Then(args: seq<HandlerArg>): (r: Result<(Block, Reaction)>)
    ensures r.Throws? <==> |args| > 0 && !args[0].IsCallable()
    ensures r.Throws? ==> r.error == ArgumentError
    ensures r.Ok? ==> r.value.0.state.Pending? && !r.value.0.isCanceled
    ensures r.Ok? ==> ThenCheck(args) == Ok(r.value.1)
  {
    match ThenCheck(args)
    case Throws(e) => Throws(e)
    case Ok(rx) => Ok((DerivedBlock(), rx))
  }

  /** What the reaction job hands to the derived node once the parent has
      settled: the matching handler applied to the value or reason, or the
      parent's settlement passed through when that handler is absent. */
  function React(parent: State, rx: Reaction): (r: Option<Outcome>)
    ensures r.None? <==> parent.Pending?
    ensures parent.Fulfilled? && rx.onFulfilled.None? ==> r == Some(Fulfill(parent.value))
    ensures parent.Fulfilled? && rx.onFulfilled.Some? ==> r == Some(rx.onFulfilled.value(parent.value))
    ensures parent.Rejected? && rx.onRejected.None? ==> r == Some(Outcome.Reject(parent.reason))
    ensures parent.Rejected? && rx.onRejected.Some? ==> r == Some(rx.onRejected.value(parent.reason))
  {
    match parent
    case Pending => None
    case Fulfilled(v) =>
      if rx.onFulfilled.Some? then Some(rx.onFulfilled.value(v)) else Some(Fulfill(v))
    case Rejected(e) =>
      if rx.onRejected.Some? then Some(rx.onRejected.value(e)) else Some(Outcome.Reject(e))
  }

  /** The step "the parent has settled, so the derived node settles": the
      reaction's outcome goes through the child's own resolve or reject, which
      ignore it if the child was already settled (for instance by its own
      `cancel()`). Nothing here touches the child's flag. */
  function Derive(child: Block, parent: State, rx: Reaction): (r: Block)
    ensures Extends(child, r) && r.isCanceled == child.isCanceled
    ensures parent.Pending? ==> r == child
    ensures child.state.Settled() ==> r == child
    ensures parent.Settled() && child.state.Pending? ==> r.state == StateOf(React(parent, rx).value)
  {
    match React(parent, rx)
    case None => child
    case Some(o) => Settle(child, o)
  }

  /** `then()` with no arguments passes the parent's settlement through
      unchanged to a fresh node. */
  lemma EmptyThenPassesThrough(parent: State)
    requires parent.Settled()
    ensures Then([]).Ok?
    ensures Derive(Then([]).value.0, parent, Then([]).value.1).state == parent
  {
  }

  /** On a fulfilled parent only `onFulfilled` runs: whatever the rejection
      handler is, the child settles as the fulfilment handler says, and a
      rejection it returns is what the child rejects with. */
  lemma FulfilledRunsOnlyOnFulfilled(v: Value, onFulfilled: Handler, onRejected: HandlerArg)
    ensures Then([Function(onFulfilled), onRejected]).Ok?
    ensures var rx := Then([Function(onFulfilled), onRejected]).value.1;
            Derive(DerivedBlock(), Fulfilled(v), rx).state == StateOf(onFulfilled(v))
  {
  }

  /** On a rejected parent only `onRejected` runs: whatever the fulfilment
      handler is, the child settles as the rejection handler says. */
  lemma RejectedRunsOnlyOnRejected(e: Value, onFulfilled: Handler, onRejected: Handler)
    ensures Then([Function(onFulfilled), Function(onRejected)]).Ok?
    ensures var rx := Then([Function(onFulfilled), Function(onRejected)]).value.1;
            Derive(DerivedBlock(), Rejected(e), rx).state == StateOf(onRejected(e))
  {
  }

  /** The state the last node of a straight chain reaches when every node is
      fresh and each reaction job runs in order after its parent settled. */
  function Pipe(s: State, rxs: seq<Reaction>): State
    decreases |rxs|
  {
    if |rxs| == 0 then s else Pipe(Derive(DerivedBlock(), s, rxs[0]).state, rxs[1..])
  }

  /** The handler `val => val + 1` on numbers. The other results of `+` in
      the host language (string concatenation, NaN) are not modelled; those
      inputs give `Undefined`. */
  function Increment(v: Value): Outcome {
    match v
    case Num(n) => Fulfill(Num(n + 1))
    case _ => Fulfill(Undefined)
  }

  /** The reaction `then(val => val + 1)` registers. */
  const IncrementReaction: Reaction := Reaction(Some(Increment), None)

  function Repeat(rx: Reaction, n: nat): (rxs: seq<Reaction>)
    ensures |rxs| == n
    ensures forall k :: 0 <= k < n ==> rxs[k] == rx
  {
    seq(n, k => rx)
  }

  /** `n` successive `then(val => val + 1)` steps from a value `k` end at `k + n`. */
  lemma {:induction false} PipeIncrements(k: int, n: nat)
    ensures Pipe(Fulfilled(Num(k)), Repeat(IncrementReaction, n)) == Fulfilled(Num(k + n))
    decreases n
  {
    if n > 0 {
      var rxs := Repeat(IncrementReaction, n);
      assert rxs[0] == IncrementReaction;
      assert rxs[1..] == Repeat(IncrementReaction, n - 1);
      assert Derive(DerivedBlock(), Fulfilled(Num(k)), IncrementReaction).state == Fulfilled(Num(k + 1));
      PipeIncrements(k + 1, n - 1);
    }
  }

  /** `Promise.prototype.catch(f)` as the source leaves it: the host's `catch`
      calls `this.then(undefined, f)`, which on this instance is the
      validating wrapper, so it throws for every `f`. */
  function CatchAsWritten(onRejected: HandlerArg): (r: Result<(Block, Reaction)>)
    ensures r == Throws(ArgumentError)
  {
    Then([NonFunction(Undefined), onRejected])
  }

  /** `catch(f)` as the host's contract intends it: it registers `f` for
      rejections only and never throws (the wrapper's check applies to
      callers of `then`, not to the host's own delegation). */
  function Catch(onRejected: HandlerArg): (r: Result<(Block, Reaction)>)
    ensures r.Ok? && r.value.0.state.Pending? && !r.value.0.isCanceled
    ensures r.value.1.onFulfilled.None?
    ensures r.value.1.onRejected.Some? <==> onRejected.IsCallable()
  {
    Ok((DerivedBlock(), Reaction(None, HandlerAt([onRejected], 0))))
  }

  /** The corrected `catch` recovers a rejection through its handler and
      passes a fulfilment through untouched. */
  lemma CatchRecovers(parent: State, f: Handler)
    requires parent.Settled()
    ensures var (child, rx) := Catch(Function(f)).value;
            Derive(child, parent, rx).state ==
              (if parent.Rejected? then StateOf(f(parent.reason)) else parent)
  {
  }
}
