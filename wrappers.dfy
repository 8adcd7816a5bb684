/** The optional-value datatype, used for JSON fields that `dict.get(key)` reads as `None`
    (the key is absent or its value is null). */
module Wrappers {

  datatype Option<+T> = None | Some(value: T) {

    /** The value, or `default` when absent: the shape of Python's `dict.get(key, default)`. */
    function GetOr(default: T): T {
      match this
      case Some(v) => v
      case None => default
    }
  }
}
