/** Optional values and results, the shapes JavaScript expresses with
    `undefined`/`null` and with thrown errors. */
module Wrappers {

  /** A value that may be missing. */
  datatype Option<+T> = None | Some(value: T) {

    /** The value, or `default` when it is missing (`x ?? default`). */
    function GetOr(default: T): T {
      match this
      case Some(v) => v
      case None => default
    }
  }

  /** The outcome of an operation that can fail. */
  datatype Result<+T, +E> = Ok(value: T) | Err(error: E)
}
