/** Shared small types. */
module Basics {
  datatype Option<+T> = None | Some(value: T)

  /** 1 for what is the case, to be counted. */
  function One(b: bool): nat {
    if b then 1 else 0
  }
}
