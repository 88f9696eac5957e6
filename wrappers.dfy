/** Rust's `Option`, the type of the "maybe a user" argument. */
module Wrappers {
  datatype Option<+T> = None | Some(value: T)
}
