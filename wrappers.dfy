/** Optional values, standing in for Python's `None` where the model needs one. */
module Wrappers {

  datatype Option<+T> = None | Some(value: T)
}
