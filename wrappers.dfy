/** Optional values, used for query lookups, redirect targets and the
    grid's pending flush slot. */
module Wrappers {

  datatype Option<+T> = None | Some(value: T)
}
