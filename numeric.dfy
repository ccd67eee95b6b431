/** Number helpers of the pipeline: `clamp`, `Math.round`, `Math.ceil`, `Math.min`/`Math.max`. */
module Numeric {

  /** `clamp(value, min, max)` from the slide extractor, over real numbers. */
  function Clamp(value: real, lo: real, hi: real): (r: real)
    ensures lo <= hi ==> lo <= r <= hi
    ensures lo <= value <= hi ==> r == value
    ensures value < lo ==> r == lo
    ensures lo <= value && hi < value ==> r == hi
  {
    if value < lo then lo else if value > hi then hi else value
  }

  /**
   * The same `clamp` applied to integer pixel values: the real clamp of integers is one of
   * them, so reading it back as an integer loses nothing.
   */
  function ClampInt(value: int, lo: int, hi: int): (r: int)
    ensures lo <= hi ==> lo <= r <= hi
    ensures lo <= value <= hi ==> r == value
    ensures value < lo ==> r == lo
    ensures lo <= value && hi < value ==> r == hi
  {
    Clamp(value as real, lo as real, hi as real).Floor
  }

  /** `Math.round(x)`: the nearest integer, halves rounded towards positive infinity. */
  function Round(x: real): (r: int)
    ensures x - 0.5 < r as real <= x + 0.5
  {
    (x + 0.5).Floor
  }

  /** `Math.ceil(x)`. */
  function Ceil(x: real): (r: int)
    ensures x <= r as real < x + 1.0
  {
    -((-x).Floor)
  }

  function MinInt(a: int, b: int): int { if a <= b then a else b }

  function MaxInt(a: int, b: int): int { if a >= b then a else b }

  function MaxReal(a: real, b: real): real { if a >= b then a else b }

  /** The sort key of a plain numeric `sort((a, b) => a - b)`. */
  function Identity(x: real): real { x }

  lemma RoundOfInteger(n: int)
    ensures Round(n as real) == n
  {
  }
}
