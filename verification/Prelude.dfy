/** Shared data types. */
module Prelude {
  datatype Option<+T> = None | Some(value: T)
}
