/**
 Return values and the Python exceptions the modelled code can raise.
 A `Raise` result stands for an exception escaping the Python function.
 */
module Outcomes {

  /** A Python `bytes` value. */
  type Bytes = seq<bv8>

  datatype Option<+T> = None | Some(value: T)

  /** The built-in Python exception classes that occur in the model, each
      with the text `str(e)` would give. */
  datatype PyError =
    | ValueError(message: string)
    | KeyError(key: string)
    | TypeError(message: string)

  datatype Result<+T> = Ok(value: T) | Raise(error: PyError)
}
