/** The nullable / undefined results of the TypeScript code, as an Option. */
module Wrappers {

  /** `None` stands for `null` or `undefined`, `Some(v)` for a present value. */
  datatype Option<+T> = None | Some(value: T) {

    /** The value, or `default` when absent (the `x ?? default` idiom). */
    function GetOr(default: T): T {
      match this
      case Some(v) => v
      case None => default
    }
  }
}
