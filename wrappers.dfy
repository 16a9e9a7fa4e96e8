/** Option, Result and Outcome: the values the controllers return instead of
    raising or answering with an error status. */
module Wrappers {

  /** A nullable column or an absent request key. */
  datatype Option<+T> = None | Some(value: T) {
    /** The value, or `default` when absent (Python's `dict.get(key, default)`). */
    function GetOr(default: T): T {
      match this
      case Some(v) => v
      case None => default
    }
  }

  /** The outcome of a controller call: a value, or an error response. */
  datatype Result<+T, +E> = Ok(value: T) | Err(error: E)

  /** The `(bool, message)` pair of a validator: pass, or the first rule that failed. */
  datatype Outcome<+E> = Pass | Fail(error: E)
}
