/** Optional values: a JSON field that may be missing, or a search that may find nothing. */
module Wrappers {

  datatype Option<+T> = None | Some(value: T)
}
