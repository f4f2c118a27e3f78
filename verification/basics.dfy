/** Small shared vocabulary: an optional value and two-argument min/max. */
module Basics {

  /** A value that may be absent — JavaScript's `null`/`undefined` made explicit. */
  datatype Option<+T> = None | Some(value: T)

  function Min(a: int, b: int): int
  {
    if a <= b then a else b
  }

  function MinReal(a: real, b: real): real
  {
    if a <= b then a else b
  }

  function MaxReal(a: real, b: real): real
  {
    if a >= b then a else b
  }
}
