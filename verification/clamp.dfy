/** The clamping operators the counters use (Python's `min` and `max` on two integers). */
module Clamp {

  function Min(a: int, b: int): int { if a <= b then a else b }

  function Max(a: int, b: int): int { if a >= b then a else b }
}
