/** The conventional optional value, used for every field the knowledge base may omit. */
module Wrappers {

  datatype Option<+T> = None | Some(value: T) {

    /** The value if present, otherwise `default`: what Python's `dict.get(key, default)` returns. */
    function GetOr(default: T): T {
      match this
      case Some(v) => v
      case None => default
    }
  }
}
