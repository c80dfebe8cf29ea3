/** Option is used wherever the program works with a value that may be
    `null`/`undefined` (an unset active id, a missing field, a malformed record). */
module Wrappers {

  datatype Option<+T> = None | Some(value: T) {

    /** Returns the value in Some or a default for None (the `x || d` idiom). */
    function GetOr(default: T): T {
      match this
      case Some(v) => v
      case None => default
    }
  }
}
