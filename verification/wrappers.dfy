/** Optional values: an explicit "not found" / "no result" instead of a
    default-constructed placeholder. */
module Wrappers {

  datatype Option<+T> = None | Some(value: T)
}
