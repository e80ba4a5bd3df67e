/** The optional value used across the model for "found / not found" and "present / absent". */
module Wrappers {
  datatype Option<T> = None | Some(value: T)
}
