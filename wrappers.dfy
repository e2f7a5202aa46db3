/** Result shapes shared by the whole model. */
module Wrappers {

  /** A value or JavaScript's `null`/`undefined`. */
  datatype Option<+T> = None | Some(value: T) {
    function GetOr(default: T): T {
      match this
      case Some(v) => v
      case None => default
    }
  }

  /** The outcome of calling code that may throw: it returns a value or it throws. */
  datatype Call<+T> = Returned(value: T) | Threw
}
