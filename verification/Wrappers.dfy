/** The Option type that stands for the source's nil pointers and "unset" values. */
module Wrappers {
  datatype Option<+T> = None | Some(value: T)
}
