/** Option and Result datatypes shared by the other modules. */
module Wrappers {

  /** A value that may be absent: JavaScript's `undefined`/`NaN`/unset cases. */
  datatype Option<+T> = None | Some(value: T)

  /** A computation that either produces a value or throws an error with a message. */
  datatype Result<+R> = Ok(value: R) | Throws(message: string)
}
