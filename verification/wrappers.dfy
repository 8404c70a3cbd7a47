/** Outcomes of operations that the Java code either returns normally from or
    leaves by throwing one of a handful of runtime exceptions. */
module Wrappers {

  /** The Java `null`-or-value pattern. */
  datatype Option<+T> = None | Some(value: T)

  /** The runtime exceptions the modelled code can throw. */
  datatype JavaException =
    | IllegalArgument(message: string)
    | IllegalState(message: string)
    | IndexOutOfBounds
    | NumberFormat
    | ClassCast
    | UnsupportedOperation

  /** Either a normal return value or the exception that ended the call. */
  datatype Result<+T> = Success(value: T) | Failure(error: JavaException) {
    predicate IsFailure() {
      Failure?
    }

    function PropagateFailure<U>(): Result<U>
      requires Failure?
    {
      Failure(error)
    }

    function Extract(): T
      requires Success?
    {
      value
    }
  }
}
