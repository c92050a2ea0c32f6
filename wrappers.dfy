/** Optional values: a JSON key that may be absent (`undefined` in the scripts). */
module Wrappers {

  datatype Option<+T> = None | Some(value: T) {

    /** `this ?? default`: the value when present, otherwise the default. */
    function GetOr(default: T): T {
      match this
      case Some(v) => v
      case None => default
    }

    /** Object-spread precedence `{...base, ...over}` for one key: a key present in `this` wins. */
    function Or(base: Option<T>): Option<T> {
      if Some? then this else base
    }
  }
}
