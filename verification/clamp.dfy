/**
 JavaScript's `Math.max` and `Math.min` on two integers, which the window
 bounds and the Prev/Next buttons use to clamp page numbers.
 */
module Clamp {

  function Max(a: int, b: int): int
  {
    if a >= b then a else b
  }

  function Min(a: int, b: int): int
  {
    if a <= b then a else b
  }
}
