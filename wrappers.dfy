/** Option and Result, used for Python's `None` and for the exceptions the generator raises. */
module Wrappers {

  datatype Option<+T> = None | Some(value: T)

  /** A value, or the exception that stopped its computation; `:-` propagates the exception. */
  datatype Result<+T, +E> = Ok(value: T) | Err(error: E) {
    predicate IsFailure() {
      Err?
    }

    function PropagateFailure<U>(): Result<U, E>
      requires Err?
    {
      Err(error)
    }

    function Extract(): T
      requires Ok?
    {
      value
    }
  }
}
