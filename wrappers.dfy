/** Option and Result values standing in for JavaScript's `null` and for a rejected promise or
    thrown `Error` (whose only part the application reads is its message). */
module Wrappers {

  datatype Option<+T> = None | Some(value: T)

  /** `Ok(v)` is a fulfilled promise or returned value, `Err(m)` an `Error` with message `m`. */
  datatype Result<+T> = Ok(value: T) | Err(message: string)
}
