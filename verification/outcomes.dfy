/** Python exceptions that the modelled code raises on purpose, as values. */
module Outcomes {

  /** The exception classes the modelled code raises deliberately. */
  datatype Error =
    | ValueError
    | AssertionError
    | ZeroDivisionError
    | AttributeError

  /** Either the value a Python call returns, or the exception it raises. */
  datatype Result<+T> = Ok(value: T) | Raise(error: Error) {

    predicate IsFailure() {
      Raise?
    }

    function PropagateFailure<U>(): Result<U>
      requires Raise?
    {
      Raise(error)
    }

    function Extract(): T
      requires Ok?
    {
      value
    }
  }

  /** Python's `None` or a value. */
  datatype Option<+T> = None | Some(value: T)
}
