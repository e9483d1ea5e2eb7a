/** The optional value used for PHP's `null`, `false`-on-failure and "key not set". */
module Wrappers {

  datatype Option<+T> = None | Some(value: T) {

    /** `$x ?? $default`: the value if present, otherwise the default. */
    function GetOr(default: T): T {
      match this
      case Some(v) => v
      case None => default
    }

    /** `$x ?? $y` where both sides may be null. */
    function OrElse(other: Option<T>): Option<T> {
      match this
      case Some(_) => this
      case None => other
    }
  }
}
