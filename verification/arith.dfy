/** `Math.max` and `Math.min` on integers, as the steppers and counters use them. */
module Arith {

  function Max(a: int, b: int): int
  {
    if a >= b then a else b
  }

  function Min(a: int, b: int): int
  {
    if a <= b then a else b
  }
}
