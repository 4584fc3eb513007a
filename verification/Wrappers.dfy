/** A value that may be missing, and a truth value as a number. */
module Wrappers {
  datatype Option<T> = None | Some(value: T)

  function Num(b: bool): nat {
    if b then 1 else 0
  }
}
