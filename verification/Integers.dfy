/** Go's integer division and the ceiling of a real. */
module Integers {
  /** It truncates toward zero. */
  function Quotient(x: int, y: int): int
    requires y > 0
  {
    if x >= 0 then x / y else -((-x) / y)
  }

  function Ceiling(x: real): int { if x.Floor as real == x then x.Floor else x.Floor + 1 }
}
