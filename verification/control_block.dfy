/**
 The control block of one cancellable future and its transitions.

 A block holds the settlement state (which carries the result once settled)
 and the `isCanceled` flag. The reject capability captured at construction is
 this block's own `Reject` transition, so `Cancel` invokes `Reject` directly.
 */
module ControlBlock {
  import opened Values

  /** Pending, or settled for good with its value or reason. */
  datatype State = Pending | Fulfilled(value: Value) | Rejected(reason: Value) {
    predicate Settled() {
      !Pending?
    }
  }

  datatype Block = Block(state: State, isCanceled: bool) {
    /** The fulfilment value or rejection reason; absent while pending. */
    function Result(): Option<Value> {
      match state
      case Pending => None
      case Fulfilled(v) => Some(v)
      case Rejected(r) => Some(r)
    }
  }

  /** A block as construction leaves it before the executor runs. */
  const Fresh: Block := Block(Pending, false)

  /** The state machine of one instance: stay put, or leave Pending once. */
  predicate Transition(s: State, s': State) {
    s' == s || (s.Pending? && s'.Settled())
  }

  /** `b'` is a possible later version of `b`: its state follows `Transition`
      and its flag, once true, stays true. */
  predicate Extends(b: Block, b': Block) {
    Transition(b.state, b'.state) && (b.isCanceled ==> b'.isCanceled)
  }

  /** The settled state an outcome asks for. */
  function StateOf(o: Outcome): (s: State)
    ensures s.Settled()
    ensures s.Fulfilled? <==> o.Fulfill?
  {
    match o
    case Fulfill(v) => Fulfilled(v)
    case Reject(r) => Rejected(r)
  }

  /** The resolve capability. Once settled, a later call is ignored. */
  function Resolve(b: Block, v: Value): (r: Block)
    ensures Extends(b, r) && r.state.Settled()
    ensures r.isCanceled == b.isCanceled
    ensures b.state.Settled() ==> r == b
    ensures b.state.Pending? ==> r.Result() == Some(v) && r.state.Fulfilled?
  {
    if b.state.Pending? then b.(state := Fulfilled(v)) else b
  }

  /** The reject capability. Once settled, a later call is ignored; the flag
      is never touched. */
  function Reject(b: Block, reason: Value): (r: Block)
    ensures Extends(b, r) && r.state.Settled()
    ensures r.isCanceled == b.isCanceled
    ensures b.state.Settled() ==> r == b
    ensures b.state.Pending? ==> r.Result() == Some(reason) && r.state.Rejected?
  {
    if b.state.Pending? then b.(state := Rejected(reason)) else b
  }

  /** Settles with whatever an outcome asks for. */
  function Settle(b: Block, o: Outcome): (r: Block)
    ensures Extends(b, r) && r.isCanceled == b.isCanceled
    ensures r.state == (if b.state.Pending? then StateOf(o) else b.state)
  {
    match o
    case Fulfill(v) => Resolve(b, v)
    case Reject(reason) => Reject(b, reason)
  }

  /** `cancel()`: set the flag, then invoke the captured reject capability
      with `{ isCanceled: <the flag> }`. The flag changes whatever the state;
      the outcome changes only while pending. */
  function Cancel(b: Block): (r: Block)
    ensures r.isCanceled && Extends(b, r)
    ensures b.state.Pending? ==> r.state.Rejected? && IsCancelReason(r.state.reason)
    ensures b.state.Settled() ==> r.state == b.state
  {
    var flagged := b.(isCanceled := true);
    Reject(flagged, CancelRecord(flagged.isCanceled))
  }

  /** Repeating `cancel()` changes nothing. */
  lemma CancelIdempotent(b: Block)
    ensures Cancel(Cancel(b)) == Cancel(b)
  {
  }

  /** A call made on an instance's capabilities after construction. */
  datatype Op = ResolveOp(value: Value) | RejectOp(reason: Value) | CancelOp

  /** The settlement a call asks for when it reaches a pending block. */
  function Request(op: Op): Outcome {
    match op
    case ResolveOp(v) => Fulfill(v)
    case RejectOp(r) => Outcome.Reject(r)
    case CancelOp => Outcome.Reject(CancelReason)
  }

  function Apply(b: Block, op: Op): Block {
    match op
    case ResolveOp(v) => Resolve(b, v)
    case RejectOp(r) => Reject(b, r)
    case CancelOp => Cancel(b)
  }

  /** Any sequence of calls: the first call on a pending block decides the
      outcome for good, and the flag ends true exactly when it was already
      true or some call was a cancel. */
  function Run(b: Block, ops: seq<Op>): (r: Block)
    ensures Extends(b, r)
    ensures b.state.Pending? && |ops| > 0 ==> r.state == StateOf(Request(ops[0]))
    ensures b.state.Pending? && |ops| == 0 ==> r.state.Pending?
    ensures r.isCanceled <==> b.isCanceled || exists k :: 0 <= k < |ops| && ops[k].CancelOp?
    decreases |ops|
  {
    if |ops| == 0 then b
    else
      var next := Run(Apply(b, ops[0]), ops[1..]);
      assert forall k :: 1 <= k < |ops| ==> ops[k] == ops[1..][k - 1];
      next
  }

  /** Settlement is one-shot: on a settled block no sequence of resolve,
      reject or cancel calls changes the state or the result. */
  lemma SettledIsFinal(b: Block, ops: seq<Op>)
    requires b.state.Settled()
    ensures Run(b, ops).state == b.state
    ensures Run(b, ops).Result() == b.Result()
  {
  }
}
