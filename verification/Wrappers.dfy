/** The stock result types. */
module Wrappers {
  datatype Option<+T> = None | Some(value: T)
}
