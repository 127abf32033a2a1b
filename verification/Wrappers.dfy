/** What every module shares: optional values, results, and the larger of two numbers. */
module Wrappers {
  datatype Option<+T> = None | Some(value: T)

  datatype Result<+T, +E> = Ok(value: T) | Err(error: E)

  function Larger(a: nat, b: nat): nat {
    if a < b then b else a
  }
}
