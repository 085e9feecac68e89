/** Optional values: `None` stands for JavaScript's `undefined` (an absent
    property or argument) wherever the storefront's code tests for one. */
module Wrappers {

  datatype Option<+T> = None | Some(value: T) {

    /** The value, or `default` when absent (JavaScript's `x || default`
        where `x` can only be absent or a non-empty value). */
    function GetOr(default: T): T {
      match this
      case Some(v) => v
      case None => default
    }
  }
}
