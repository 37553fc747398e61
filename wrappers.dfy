/** Presence or absence of a value; stands in for Kotlin's nullable `T?`. */
module Wrappers {

  datatype Option<+T> = None | Some(value: T)
}
