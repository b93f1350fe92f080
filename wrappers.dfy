/** Option and Result, the two failure-carrying datatypes the model uses for
    Python's `None` and for the exceptions the wrapper raises. */
module Wrappers {

  datatype Option<+T> = None | Some(value: T)

  /** The exceptions raised by the wrapper, by Python class. */
  datatype Error = ValueError | TypeError

  datatype Result<+T> = Ok(value: T) | Err(error: Error) {
    predicate IsFailure() { Err? }

    function PropagateFailure<U>(): Result<U>
      requires Err?
    {
      Err(error)
    }

    function Extract(): T
      requires Ok?
    {
      value
    }
  }
}
