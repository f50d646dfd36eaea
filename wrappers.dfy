/** Option and Result types, and the Python exception kinds the model surfaces as errors. */
module Wrappers {

  datatype Option<+T> = None | Some(value: T)

  /** The exception a Python call would raise instead of returning. */
  datatype Error =
    | AssertionError   // a failed `assert` guarding an argument or constructor
    | ValueError
    | TypeError
    | IndexError
    | ZeroDivisionError
    | GenericException  // a bare `raise Exception(...)`

  datatype Result<+T> = Ok(value: T) | Err(error: Error)
}
