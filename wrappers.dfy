/** Optional values: the model's stand-in for a missing (NaN) cell. */
module Wrappers {

  datatype Option<+T> = None | Some(value: T)
}
