/** Optional values, used for JSON keys that may be absent and for lookups that may miss. */
module Wrappers {

  datatype Option<+T> = None | Some(value: T) {

    /** The wrapped value, or `default` when there is none. */
    function GetOr(default: T): T {
      match this
      case Some(v) => v
      case None => default
    }
  }

  /**
   * Truthiness of a string that may be absent, the same in Python (`if v:`)
   * and JavaScript (`if (v)`): present and not the empty string.
   */
  predicate Truthy(v: Option<string>) {
    v.Some? && v.value != ""
  }
}
