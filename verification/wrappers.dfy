/** Failure-carrying shapes shared by the whole model. */
module Wrappers {

  /** A JavaScript value that may be `undefined`. */
  datatype Option<+T> = None | Some(value: T) {

    /** The value when present, `fallback` when absent (JavaScript's `x ?? fallback`). */
    function ValueOr(fallback: T): T {
      if Some? then value else fallback
    }
  }

  /** Either a value or the error a computation rejected with. */
  datatype Result<+T, +E> = Ok(value: T) | Err(error: E)
}
