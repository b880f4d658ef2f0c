/** Optional values: the model's stand-in for Go's nil. */
module Wrappers {

  /** `None` plays the part of a nil pointer, nil interface or absent field. */
  datatype Option<+T> = None | Some(value: T)
}
