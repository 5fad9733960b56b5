/** The scheduler works in double precision. Up to MAX_ROUND every rounding of a product with phi has
    the exact whole part, because |Form(m, k)| >= 1 keeps k*phi away from whole numbers. */
module FloatingPoint {
  import opened Golden
  import opened GoldenLaws
  import opened Scheduler

  /** The doubles nearest to phi and to 1/phi, as exact fractions. */
  const PHI_DOUBLE: real := 910872158600853.0 / 562949953421312.0
  const INV_PHI_DOUBLE: real := 5566755282872655.0 / 9007199254740992.0

  /** Half a unit in the last place, relative (section 4.3.1 of IEEE 754-2019). */
  const HALF_ULP: real := 1.0 / 9007199254740992.0

  const MAX_ROUND: nat := 42_000_000

  function Ceil(x: real): int {
    -((-x).Floor)
  }

  /** y may be the double that round-to-nearest gives for the positive real x below 2^53:
      the relative error is at most HALF_ULP, and no whole number (all are doubles) is crossed. */
  predicate Rounded(x: real, y: real) {
    x - x * HALF_ULP <= y <= x + x * HALF_ULP && x.Floor as real <= y <= Ceil(x) as real
  }

  lemma RealScale(a: real, b: real, c: real)
    requires a <= b && 0.0 <= c
    ensures a * c <= b * c
  {
  }

  lemma FactorSign(a: real, b: real)
    requires b > 0.0
    ensures a * b > 0.0 ==> a > 0.0
    ensures a * b < 0.0 ==> a < 0.0
  {
    if a <= 0.0 {
      RealScale(a, 0.0, b);
    }
    if a >= 0.0 {
      RealScale(0.0, a, b);
    }
  }

  /** Largest delta for which x*x*delta stays below one up to MAX_ROUND. */
  const DELTA: real := 0.000000000000000564

  lemma SquareRange(x: real)
    requires 0.0 <= x <= 42000000.0
    ensures 0.0 <= x * x <= 1764000000000000.0
  {
    RealScale(x, 42000000.0, x);
    assert x * x <= 42000000.0 * x;
    assert 42000000.0 * x <= 42000000.0 * 42000000.0;
  }

  lemma ProductWithin(s: real, e: real, m: real, d: real)
    requires 0.0 <= s <= m && -d <= e <= d
    ensures -(m * d) <= s * e <= m * d
  {
    RealScale(-d, e, s);
    RealScale(e, d, s);
    RealScale(s, m, d);
    assert -d * s == -(d * s) && e * s == s * e && d * s == s * d;
  }

  lemma SmallProduct(s: real, e: real)
    requires 0.0 <= s <= 1764000000000000.0 && -DELTA <= e <= DELTA
    ensures -1.0 < s * e < 1.0
  {
    ProductWithin(s, e, 1764000000000000.0, DELTA);
  }

  /** How far the slope c misses phi and 1/phi. */
  function PhiError(c: real): real { 1.0 + c - c * c }

  function InverseError(c: real): real { 1.0 - c - c * c }

  lemma PhiFactor(x: real, y: real, c: real, s: real)
    requires s == y * y
    ensures (x - c * y) * (x + (c - 1.0) * y) == RealForm(x, y) + s * PhiError(c)
  {
    assert s * PhiError(c) == y * y * (1.0 + c - c * c);
  }

  lemma InverseFactor(x: real, y: real, c: real, s: real)
    requires s == x * x
    ensures (y - c * x) * (y + (1.0 + c) * x) == s * InverseError(c) - RealForm(x, y)
  {
    assert s * InverseError(c) == x * x * (1.0 - c - c * c);
  }

  /** A slope c this close to phi separates the same numbers as phi does. */
  lemma PhiSlope(x: real, y: real, c: real)
    requires x >= 0.0 && 1.0 <= y <= 42000000.0 && c > 1.5
    ensures -DELTA <= PhiError(c) <= DELTA && RealForm(x, y) <= -1.0 ==> x < c * y
    ensures -DELTA <= PhiError(c) <= DELTA && RealForm(x, y) >= 1.0 ==> c * y < x
  {
    hide RealForm, PhiError;
    RealScale(0.5, c - 1.0, y);
    SquareRange(y);
    PhiFactor(x, y, c, y * y);
    SlopeSign(x - c * y, x + (c - 1.0) * y, RealForm(x, y), y * y, PhiError(c));
  }

  /** u*w = f + s*e with |s*e| < 1 has the sign of f once |f| >= 1. */
  lemma SlopeSign(u: real, w: real, f: real, s: real, e: real)
    requires w > 0.0 && u * w == f + s * e && 0.0 <= s <= 1764000000000000.0
    ensures -DELTA <= e <= DELTA && f <= -1.0 ==> u < 0.0
    ensures -DELTA <= e <= DELTA && f >= 1.0 ==> u > 0.0
  {
    if -DELTA <= e <= DELTA {
      SmallProduct(s, e);
      FactorSign(u, w);
    }
  }

  // cuts just below and just above phi and 1/phi, between which every rounding falls
  const PHI_LOW: real := 1.6180339887498947
  const PHI_HIGH: real := 1.6180339887498951
  const INV_LOW: real := 0.6180339887498946
  const INV_HIGH: real := 0.6180339887498950

  lemma CutsAreClose()
    ensures -DELTA <= PhiError(PHI_LOW) <= DELTA && -DELTA <= PhiError(PHI_HIGH) <= DELTA
  {
  }

  lemma RoundedWithinCuts(x: real, p: real, q: real)
    requires x >= 1.0
    ensures Rounded(x * PHI_DOUBLE, p) ==> PHI_LOW * x < p < PHI_HIGH * x
    ensures Rounded(x * INV_PHI_DOUBLE, q) ==> INV_LOW * x < q < INV_HIGH * x
  {
  }

  lemma FloorBounds(p: real, m: int)
    requires m as real <= p < (m + 1) as real
    ensures p.Floor == m
  {
  }
}
