/** Python's `None`-or-value, as returned by `dict.get` and the fetch helpers. */
module Wrappers {

  datatype Option<+T> = None | Some(value: T) {

    /** `x or default`: the value if there is one, else the default. */
    function GetOr(default: T): T {
      match this
      case Some(v) => v
      case None => default
    }
  }
}
