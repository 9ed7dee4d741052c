/**
 * The floating-point primitives the borehole code takes from Python's `math`
 * module and from numpy. Their numeric behaviour is not modelled: they travel
 * as uninterpreted function values in `FloatOps`, so every property proved
 * about the code that uses them holds for any implementation of them.
 * What is modelled exactly is the integer conversions and the degree to
 * radian scaling, whose structure the code relies on.
 */
module Numerics {

  /** sin, cos, tan, acos, round(x, ndigits) and str(x), left uninterpreted. */
  datatype FloatOps = FloatOps(
    sin: real -> real,
    cos: real -> real,
    tan: real -> real,
    acos: real -> real,
    round: (real, nat) -> real,
    repr: real -> string)

  /** The value of `math.pi` (and `np.pi`), written out as a decimal. */
  const PI: real := 3.141592653589793

  /** `deg_to_rad`, and numpy's `np.radians`: degrees times pi/180. */
  function DegToRad(degrees: real): (r: real)
    ensures degrees == 180.0 ==> r == PI
    ensures degrees == 0.0 ==> r == 0.0
    ensures (r > 0.0 <==> degrees > 0.0) && (r < 0.0 <==> degrees < 0.0)
  {
    degrees * (PI / 180.0)
  }

  /** The conversion is linear: it preserves sums and scalar multiples. */
  lemma DegToRadLinear(a: real, b: real, k: real)
    ensures DegToRad(a + b) == DegToRad(a) + DegToRad(b)
    ensures DegToRad(k * a) == k * DegToRad(a)
  {
    calc {
      DegToRad(k * a);
      (k * a) * (PI / 180.0);
      { assert (k * a) * (PI / 180.0) == k * (a * (PI / 180.0)); }
      k * DegToRad(a);
    }
  }

  /** Python's `int(x)` on a float: truncation toward zero. */
  function Trunc(x: real): int
  {
    if 0.0 <= x then x.Floor else -((-x).Floor)
  }

  /** Truncation stays within one of `x`, on the side of zero. */
  lemma TruncBounds(x: real)
    ensures 0.0 <= x ==> Trunc(x) as real <= x < Trunc(x) as real + 1.0
    ensures x < 0.0 ==> Trunc(x) as real - 1.0 < x <= Trunc(x) as real
  {
  }

  /** The smallest integer not below `x` (the element count of `np.arange`). */
  function Ceil(x: real): int
  {
    if x.Floor as real == x then x.Floor else x.Floor + 1
  }

  /** The ceiling is the least integer at or above `x`. */
  lemma CeilBounds(x: real)
    ensures x <= Ceil(x) as real < x + 1.0
  {
  }
}
