/** The optional value used for nullable columns and `None` results. */
module Wrappers {
  datatype Option<+T> = None | Some(value: T)
}
