/** Python's numeric built-ins as the source uses them, over `real`. */
module Numeric {

  /** `max(a, b)`: the first argument when the two are equal. */
  function Max(a: real, b: real): real { if b > a then b else a }

  /** `min(a, b)`: the first argument when the two are equal. */
  function Min(a: real, b: real): real { if b < a then b else a }

  /** `max(a, b)` on integers. */
  function MaxInt(a: int, b: int): int { if b > a then b else a }

  function Abs(r: real): real { if r < 0.0 then -r else r }

  /** `int(r)` for a float `r`: truncation toward zero. */
  function Trunc(r: real): (n: int)
    ensures r >= 0.0 ==> 0.0 <= n as real <= r < n as real + 1.0
    ensures r < 0.0 ==> n as real - 1.0 < r <= n as real <= 0.0
  {
    if r >= 0.0 then r.Floor else -((-r).Floor)
  }
}
