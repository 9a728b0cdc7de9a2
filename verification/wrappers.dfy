/** Option and Result datatypes shared by the other modules. */
module Wrappers {

  /** A value that may be absent (the C# code's nullable references). */
  datatype Option<+T> = None | Some(value: T)

  /** A computation that either produced a value or failed with an error. */
  datatype Result<+T, +E> = Ok(value: T) | Fail(error: E)
}
