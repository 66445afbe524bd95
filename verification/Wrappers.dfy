/** Option values and bytes, shared by every module. */
module Wrappers {
  datatype Option<+T> = None | Some(value: T)

  type byte = b: int | 0 <= b < 256

  function Min(a: int, b: int): int { if a <= b then a else b }

  function Max(a: int, b: int): int { if a >= b then a else b }
}
