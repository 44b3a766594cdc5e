/** Optional values, used wherever the source signals failure with a `bool` result. */
module Wrappers {

  datatype Option<+T> = None | Some(value: T)
}
