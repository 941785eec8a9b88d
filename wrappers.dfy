/** Failure-carrying results. The generator aborts the whole pass with a
    panic on every unsupported construct; the model returns the reason
    instead, so that each failure point can be stated and checked. */
module Wrappers {

  datatype Option<+T> = None | Some(value: T)

  datatype Result<+T, +E> = Success(value: T) | Failure(error: E)

  datatype Outcome<+E> = Pass | Fail(error: E)

  /** The panics of the generator, one constructor per message. */
  datatype GenError =
    | HandleUnsupported   // "Handle not yet supported"
    | TypeIdUnsupported   // "TypeId not yet supported"
    | EmptyTuple          // "no empty tuples"
    | TupleTooLong        // "tuples cannot exceed 10 items in Java"
    | AsyncUnsupported    // "async not supported yet"
}
