/** The Option type used for nullable engine pointers and failed lookups. */
module Wrappers {

  datatype Option<+T> = None | Some(value: T)
}
