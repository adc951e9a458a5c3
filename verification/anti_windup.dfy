/**
 The anti-windup clamp of the lateral PID controller.

 The integral term is limited to the fixed band [-IntegralLimit, IntegralLimit]
 by the expression `max(min(x, 2.0), -2.0)`. `Min` and `Max` follow Python's
 two-argument builtins: the first argument is returned unless the second is
 strictly smaller (respectively larger).
 */
module AntiWindup {

  /** Half-width of the anti-windup band; a fixed design constant, not a gain. */
  const IntegralLimit: real := 2.0

  /** Python's `min(a, b)`. */
  function Min(a: real, b: real): (m: real)
    ensures m <= a && m <= b
    ensures m == a || m == b
  {
    if b < a then b else a
  }

  /** Python's `max(a, b)`. */
  function Max(a: real, b: real): (m: real)
    ensures m >= a && m >= b
    ensures m == a || m == b
  {
    if b > a then b else a
  }

  /** True if `x` lies in the anti-windup band. */
  predicate InBand(x: real) {
    -IntegralLimit <= x <= IntegralLimit
  }

  function Abs(x: real): real {
    if x < 0.0 then -x else x
  }

  /** The clamp applied to the raw integral: saturates outside the band,
      leaves values inside the band untouched. */
  function Clamp(x: real): (c: real)
    ensures InBand(c)
    ensures InBand(x) ==> c == x
    ensures x > IntegralLimit ==> c == IntegralLimit
    ensures x < -IntegralLimit ==> c == -IntegralLimit
  {
    Max(Min(x, IntegralLimit), -IntegralLimit)
  }

  /** Clamping an already clamped value changes nothing. */
  lemma ClampIdempotent(x: real)
    ensures Clamp(Clamp(x)) == Clamp(x)
  {
  }

  /** Independent characterisation: the clamp returns the point of the band
      nearest to its argument, and no other point of the band is as near. */
  lemma ClampIsNearest(x: real, y: real)
    requires InBand(y)
    ensures Abs(Clamp(x) - x) <= Abs(y - x)
    ensures Abs(y - x) == Abs(Clamp(x) - x) ==> y == Clamp(x)
  {
  }

  /** Once the integral sits at an edge of the band, a further step of the
      same sign leaves it there: the accumulator does not wind up past the
      bound. */
  lemma SaturationHolds(delta: real)
    ensures delta >= 0.0 ==> Clamp(IntegralLimit + delta) == IntegralLimit
    ensures delta <= 0.0 ==> Clamp(-IntegralLimit + delta) == -IntegralLimit
  {
  }

  /** The payoff of anti-windup: a step of the opposite sign moves the
      integral back at once, with no stored excess to unwind. */
  lemma UnwindsImmediately(prev: real, delta: real)
    ensures delta < 0.0 && prev > -IntegralLimit ==> Clamp(prev + delta) < prev
    ensures delta > 0.0 && prev < IntegralLimit ==> Clamp(prev + delta) > prev
  {
  }

  /** A larger raw integral never yields a smaller clamped one. */
  lemma ClampMonotone(x: real, y: real)
    requires x <= y
    ensures Clamp(x) <= Clamp(y)
  {
  }

  /** The clamp never moves two values further apart. */
  lemma ClampNonExpansive(x: real, y: real)
    ensures Abs(Clamp(x) - Clamp(y)) <= Abs(x - y)
  {
  }
}
