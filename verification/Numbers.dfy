/** Small numeric functions used throughout. */
module Numbers {
  function Max(a: int, b: int): int { if a >= b then a else b }

  function Min(a: int, b: int): int { if a <= b then a else b }

  /** The remainder operator of C++, which has the sign of the dividend. */
  function TruncatedRemainder(value: int, divisor: int): int
    requires divisor > 0
  {
    if value >= 0 then value % divisor else -((-value) % divisor)
  }

  function Floor(x: real): (k: int)
    ensures k as real <= x < (k + 1) as real
  {
    x.Floor
  }

  function Ceil(x: real): (k: int)
    ensures (k - 1) as real < x <= k as real
  {
    -((-x).Floor)
  }

  function AbsReal(x: real): real { if x >= 0.0 then x else -x }

  /** std::round and std::llround: to the nearest integer, halves away from zero. */
  function Round(x: real): (k: int)
    ensures AbsReal(x - k as real) <= 0.5
  {
    if x >= 0.0 then Floor(x + 0.5) else Ceil(x - 0.5)
  }
}
