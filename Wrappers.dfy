/** Option and Result, the failure-compatible wrappers used throughout the model. */
module Wrappers {

  datatype Option<+T> = None | Some(value: T)

  /** A value or the exception the Python code would raise instead. */
  datatype Result<+T, +E> = Ok(value: T) | Err(error: E) {

    predicate IsFailure() {
      Err?
    }

    function PropagateFailure<U>(): Result<U, E>
      requires Err?
    {
      Err(error)
    }

    function Extract(): T
      requires Ok?
    {
      value
    }
  }
}

/** The exceptions the DIDL-Lite code can raise, as values. */
module Errors {

  datatype Error =
    /** `KeyError(key)`: a dictionary lookup with a missing key. */
    | KeyError(key: string)
    /** `ValueError`: `a, b = s.split(c)` where `s` does not hold exactly one `c`. */
    | ValueError
    /** `Exception(key + ' is mandatory')`, raised by the required-property check. */
    | Mandatory(key: string)
    /** `TypeError`: a keyword argument given twice in one call. */
    | DuplicateArgument(name: string)
    /** `AttributeError(name)`: reading an attribute the object does not have. */
    | AttributeError(name: string)
}
