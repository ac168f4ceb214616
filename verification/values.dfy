/**
 The values a cancellable future handles: what it settles with, what a
 continuation handler produces, and the shape of a JavaScript argument that
 may or may not be callable.
 */
module Values {

  /** The JavaScript values the model distinguishes. */
  datatype Value =
    | Undefined
    | Num(n: int)
    | Str(s: string)
    | Token(id: nat)                  // a value with identity, such as a fresh Symbol()
    | CancelRecord(isCanceled: bool)  // the object literal { isCanceled: ... }

  /** The reason every cancellation rejects with: `{ isCanceled: true }`. */
  const CancelReason: Value := CancelRecord(true)

  /** A rejection reason that carries the property `isCanceled` set to true. */
  predicate IsCancelReason(v: Value) {
    v.CancelRecord? && v.isCanceled
  }

  /** What settling code asks for: resolve with a value or reject with a reason. */
  datatype Outcome = Fulfill(value: Value) | Reject(reason: Value)

  /** A continuation handler, abstracted to the outcome it hands to the derived
      future (a returned value fulfils it; a throw or a returned rejected
      future rejects it). */
  type Handler = Value -> Outcome

  /** An argument as `typeof` sees it: a function or anything else. */
  datatype JsArg<F> = Function(f: F) | NonFunction(v: Value) {
    predicate IsCallable() { Function? }
  }

  datatype Option<T> = None | Some(value: T)

  /** The synchronous errors of this component; neither goes through the
      rejection channel. */
  datatype Error = ConstructionError | ArgumentError

  /** A call that either returns a value or throws synchronously. */
  datatype Result<T> = Ok(value: T) | Throws(error: Error)
}
