/** Optional values, standing in for the nullable columns and objects of the source. */
module Wrappers {

  /** `None` plays the part of a null column or a missing object. */
  datatype Option<+T> = None | Some(value: T)
}
