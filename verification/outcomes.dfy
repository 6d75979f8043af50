/** Shared vocabulary for modelling Python calls that may raise.

    A Python method either returns a value or raises an exception, and in
    both cases the object may already have been changed by the statements
    that ran before the exception. `Outcome` pairs the state after the call
    with what the call produced.
 */
module Outcomes {

  /** An attribute that may not have been assigned yet (Python's
      `AttributeError` when it is read). */
  datatype Option<+T> = None | Some(value: T)

  /** The built-in exceptions the modelled code can raise. */
  datatype PyError =
    | KeyError            // a required key missing from a dict
    | IndexError          // a list or array index out of range
    | AttributeError      // an attribute read before it was ever assigned
    | ZeroDivisionError   // a division by zero

  /** What a call produced: a return value or a raised exception. */
  datatype Result<+R> = Ok(value: R) | Raised(error: PyError)

  /** The object's state after a call, with what the call produced. */
  datatype Outcome<+S, +R> = Outcome(state: S, result: Result<R>)
  {
    predicate Succeeded() { result.Ok? }
  }
}
