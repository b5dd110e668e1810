/** Optional values: the search answers either a route or "no route". */
module Wrappers {
  datatype Option<+T> = None | Some(value: T)
}
