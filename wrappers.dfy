/** Option and Result values used throughout the model. A thrown JavaScript error is an `Err`
 *  carrying the error message. */
module Wrappers {
  datatype Option<T> = None | Some(value: T)

  datatype Result<T> = Ok(value: T) | Err(error: string)

  /** A JavaScript number as the model sees it: a finite value or NaN. */
  datatype JsNum = Finite(r: real) | NaN
}
