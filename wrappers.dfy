/** Small helper datatypes shared by the other modules. */
module Wrappers {

  /** A value that may be absent, such as `localStorage.getItem` returning `null`
      or `getAttribute` on an attribute that is not set. */
  datatype Option<+T> = None | Some(value: T)
}
