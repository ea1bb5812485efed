/** Option, Result and Outcome, and the two exceptions the core raises. */
module Wrappers {

  datatype Option<+T> = None | Some(value: T)

  /** The exceptions thrown by the modelled code. */
  datatype Error =
    | IllegalArgument(message: string)  // java.lang.IllegalArgumentException
    | IndexOutOfBounds                  // List.get on an index the list does not have

  /** A value or the exception that replaced it. */
  datatype Result<+T> = Success(value: T) | Failure(error: Error)

  /** Normal completion of a void method, or the exception it threw. */
  datatype Outcome = Pass | Fail(error: Error)
}
