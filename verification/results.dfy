/** Failure-compatible result type standing for the Python exceptions the
    archive raises or lets through. */
module Results {

  datatype Option<+T> = None | Some(value: T)

  /** The exception classes that the archive code raises or propagates. */
  datatype Error =
    | ValueError(message: string)
    | TypeError(message: string)
    | KeyError(key: string)
    | AttributeError(name: string)
    | IndexError(message: string)
    | IOError(path: string)

  /** Either a value or the exception that interrupted the computation. */
  datatype Result<+T> = Ok(value: T) | Err(error: Error) {

    predicate IsFailure() {
      Err?
    }

    function PropagateFailure<U>(): Result<U>
      requires Err?
    {
      Err(error)
    }

    function Extract(): T
      requires Ok?
    {
      value
    }
  }
}
