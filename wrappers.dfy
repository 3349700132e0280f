/**
 * Optional values and the exceptions of the agents library, as values.
 *
 * Java `null` becomes `None`; a thrown exception becomes `Err` (for operations
 * that compute a value) or `Fail` (for operations that only change state).
 */
module Wrappers {

  datatype Option<T> = None | Some(value: T)

  /** The kinds of exception the modelled code throws, each with its message. */
  datatype Error =
    | IllegalArgument(message: string)        // IllegalArgumentException, NumberFormatException
    | IllegalState(message: string)           // IllegalStateException
    | NullPointer(message: string)            // NullPointerException (Objects.requireNonNull)
    | Arithmetic(message: string)             // ArithmeticException (integer division by zero)
    | BadConfiguration(message: string)       // AgentConfigurationException
    | InvalidClass(message: string)           // InvalidClassException and reflective failures
    | RejectedExecution(message: string)      // RejectedExecutionException of a shut-down executor

  datatype Result<T> = Ok(value: T) | Err(error: Error)
  {
    predicate IsFailure() { Err? }

    function PropagateFailure<U>(): Result<U>
      requires Err?
    {
      Err(error)
    }

    function Extract(): T
      requires Ok?
    {
      value
    }
  }

  /** The result of an operation that returns nothing but may throw. */
  datatype Outcome = Pass | Fail(error: Error)
}
