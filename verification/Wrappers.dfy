module Wrappers {

  // A Go pointer or a Go "value, ok" pair, seen as a value.
  datatype Option<+T> = None | Some(value: T)
}
