/** Optional values: an absent query parameter, header, environment variable or record key. */
module Wrappers {

  datatype Option<T> = None | Some(value: T) {

    /** The value when present, otherwise `default` (Python's `dict.get(k, default)`). */
    function GetOr(default: T): (r: T)
      ensures Some? ==> r == value
      ensures None? ==> r == default
    {
      match this
      case Some(v) => v
      case None => default
    }
  }
}
