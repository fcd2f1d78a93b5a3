/** Option and Result, the two failure-carrying wrappers the rest of the model uses. */
module Wrappers {

  /** `None` stands for Python's `None` or an absent value. */
  datatype Option<+T> = None | Some(value: T)

  /** `Err` stands for an exception the source raises; `:-` propagates it. */
  datatype Result<+T, +E> = Ok(value: T) | Err(error: E) {

    predicate IsFailure() {
      Err?
    }

    function PropagateFailure<U>(): Result<U, E>
      requires Err?
    {
      Err(error)
    }

    function Extract(): T
      requires Ok?
    {
      value
    }
  }
}
