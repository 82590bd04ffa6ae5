/** Failure-carrying values shared by every module of the model.

    The repository is written in Python and signals malformed input by
    raising; here each raise becomes an `Err` carrying the kind of
    exception that would have escaped. */
module Wrappers {

  datatype Option<+T> = None | Some(value: T)

  /** The Python exception an operation would raise. */
  datatype PyError =
    | IndexError      // subscript past the end of a list
    | ValueError      // unpacking a split into the wrong number of parts
    | KeyError        // a missing XML attribute
    | AttributeError  // a method the value lacks: `None.split`, `str.keys`

  /** Either the value an operation returns or the exception it raises.
      Failure-compatible, so `:-` propagates an `Err`. */
  datatype Result<+T> = Ok(value: T) | Err(error: PyError) {

    predicate IsFailure() {
      Err?
    }

    function PropagateFailure<U>(): Result<U>
      requires Err?
    {
      Err(error)
    }

    function Extract(): T
      requires Ok?
    {
      value
    }
  }
}
