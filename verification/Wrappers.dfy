/** A value that may be missing, and the lesser of two numbers, shared by the components. */
module Wrappers {
  datatype Option<T> = None | Some(value: T)

  function Min(a: int, b: int): int {
    if a <= b then a else b
  }
}
