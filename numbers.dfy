/**
 * Python's built-in `round` on numbers modelled as exact reals: the nearest
 * integer, with halves going to the even neighbour ("banker's rounding").
 */
module Numbers {
  /** `round(x)`. */
  function Round(x: real): (r: int)
    ensures -0.5 <= r as real - x <= 0.5
    ensures r as real - x == 0.5 || x - r as real == 0.5 ==> r % 2 == 0
  {
    var f := x.Floor;
    var d := x - f as real;
    if d < 0.5 then f
    else if d > 0.5 then f + 1
    else if f % 2 == 0 then f
    else f + 1
  }

  /**
   * `round(x, digits)` for a non-negative number of decimal places: the
   * multiple of `10 ** -digits` nearest to `x`, a tie going to the even
   * multiple.
   */
  function RoundTo(x: real, digits: nat): (r: real)
    ensures -0.5 <= (r - x) * Scale(digits) as real <= 0.5
  {
    var p := Scale(digits) as real;
    var n := Round(x * p);
    ScaledBack(n as real, x, p);
    n as real / p
  }

  lemma ScaledBack(m: real, x: real, p: real)
    requires p > 0.0
    ensures (m / p - x) * p == m - x * p
  {
  }

  /** `10 ** digits`. */
  function Scale(digits: nat): (p: nat)
    ensures p >= 1
  {
    if digits == 0 then 1 else 10 * Scale(digits - 1)
  }
}
