/** Option and Result, the two failure-carrying datatypes the model uses.
    Option stands for a JavaScript value that may be `null` or `undefined`;
    Result stands for a Promise that either resolves or rejects. */
module Wrappers {

  /** `None` is JavaScript's `null`/`undefined`; `Some(v)` is a present value. */
  datatype Option<+T> = None | Some(value: T)

  /** `Success(v)` is a resolved promise, `Failure(e)` a rejected one whose
      error carries the message `e`. */
  datatype Result<+R, +E> = Success(value: R) | Failure(error: E)
}
