/**
 Construction: the executor check and the synchronous run of the executor.
 */
module Construction {
  import opened Values
  import opened ControlBlock

  /** What an executor does while the constructor runs it: the calls it makes
      on `resolve` and `reject`, in order, and whether it then throws. Calls
      it schedules for later (a timer) are separate steps on the block. */
  datatype Script = Script(calls: seq<Outcome>, throws: Option<Value>)

  /** The constructor's argument, a function or not. A missing argument is
      `NonFunction(Undefined)`. */
  type ExecutorArg = JsArg<Script>

  /** An executor that returns without touching its capabilities, as the one
      the host's chaining passes when it builds a derived instance. */
  const Silent: Script := Script([], None)

  /** The resolve or reject call an outcome stands for. */
  function OpOf(o: Outcome): Op {
    match o
    case Fulfill(v) => ResolveOp(v)
    case Reject(r) => RejectOp(r)
  }

  /** The calls that reach the block during construction. A synchronous throw
      from the executor is caught by the host's constructor and turned into a
      reject call with the thrown value, after the executor's own calls. */
  function Effects(s: Script): (ops: seq<Op>)
    ensures forall k :: 0 <= k < |ops| ==> !ops[k].CancelOp?
    ensures |ops| == |s.calls| + (if s.throws.Some? then 1 else 0)
    ensures forall k :: 0 <= k < |s.calls| ==> Request(ops[k]) == s.calls[k]
    ensures s.throws.Some? ==> ops[|ops| - 1] == RejectOp(s.throws.value)
  {
    var own := seq(|s.calls|, k requires 0 <= k < |s.calls| => OpOf(s.calls[k]));
    if s.throws.Some? then own + [RejectOp(s.throws.value)] else own
  }

  /** The first settlement the executor asks for during construction. */
  function FirstRequest(s: Script): Option<Outcome> {
    if |s.calls| > 0 then Some(s.calls[0])
    else if s.throws.Some? then Some(Outcome.Reject(s.throws.value))
    else None
  }

  /** `new CancellablePromise(executor)`. A non-function executor throws
      before any instance exists. Otherwise the executor runs once, right
      away, against a fresh block; its first call decides the outcome, and
      with no call the instance stays pending. The flag starts false. */
  function Construct(executor: ExecutorArg): (r: Result<Block>)
    ensures r.Throws? <==> !executor.IsCallable()
    ensures r.Throws? ==> r.error == ConstructionError
    ensures r.Ok? ==> !r.value.isCanceled
    ensures r.Ok? && FirstRequest(executor.f).None? ==> r.value.state.Pending?
    ensures r.Ok? && FirstRequest(executor.f).Some? ==>
              r.value.state == StateOf(FirstRequest(executor.f).value)
  {
    if !executor.IsCallable() then Throws(ConstructionError)
    else Ok(Run(Fresh, Effects(executor.f)))
  }
}
