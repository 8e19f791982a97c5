/** Optional values, used where the source yields a number or NaN, or a record or null. */
module Wrappers {

  datatype Option<+T> = None | Some(value: T)
}
