/** Option and Result values standing in for Python's None and for the
    exceptions the modelled code raises. */
module Outcomes {

  datatype Option<+T> = None | Some(value: T)

  /** The Python exceptions that the modelled code can raise at run time. */
  datatype Exception =
    | ZeroDivisionError   // float division by a zero total
    | IndexError          // a list index out of range, or random.choice on an empty list
    | RuntimeError        // incompatible matrix dimensions

  datatype Result<+T> = Ok(value: T) | Err(error: Exception)
}
