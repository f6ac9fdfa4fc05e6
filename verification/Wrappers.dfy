/** Optional values, used for nullable columns and absent JSON fields. */
module Wrappers {
  datatype Option<T> = None | Some(value: T) {
    /** The first of two optional values that is present. */
    function OrElse(other: Option<T>): Option<T> {
      if Some? then this else other
    }
  }
}
