/** Optional values and pass/fail outcomes, standing in for Go's nil pointers and error returns. */
module Wrappers {

  datatype Option<+T> = None | Some(value: T)

  /** `Pass` is a nil error; `Fail(e)` carries the error's message. */
  datatype Outcome<+E> = Pass | Fail(error: E)
}
