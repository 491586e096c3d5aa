/** The optional value used where the operator leaves a field nil or absent, a result or an error, and the smaller of
    two numbers. */
module Wrappers {
  datatype Option<+T> = None | Some(value: T)

  datatype Result<+T, +E> = Ok(value: T) | Err(error: E)

  function Smaller(a: int, b: int): int { if a < b then a else b }
}
