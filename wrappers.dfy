/** Optional values: JavaScript's `undefined`/`null` (and, where a caller
    treats them alike, other falsy values) are `None`. */
module Wrappers {

  datatype Option<+T> = None | Some(value: T) {

    /** The wrapped value, or `default` when there is none. */
    function GetOr(default: T): T {
      match this
      case Some(v) => v
      case None => default
    }
  }
}
