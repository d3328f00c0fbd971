/** The optional value used for nullable columns and for results that may be absent. */
module Wrappers {
  datatype Option<+T> = None | Some(value: T) {
    function GetOr<U>(default: U, f: T -> U): U {
      match this
      case None => default
      case Some(v) => f(v)
    }
  }
}
