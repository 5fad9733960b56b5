/** Double-precision numbers as real numbers, and rounding to the nearest of them with ties to even
    (section 4.3.1 of IEEE 754-2019). The exponent is unbounded: there is no overflow or underflow. */
module Doubles {
  import opened Arithmetic

  function Pow2(e: int): (p: real)
    ensures p > 0.0
    decreases if e >= 0 then e else -e
  {
    if e == 0 then 1.0 else if e > 0 then 2.0 * Pow2(e - 1) else Pow2(e + 1) / 2.0
  }

  lemma Pow2Next(e: int)
    ensures Pow2(e + 1) == 2.0 * Pow2(e)
  {
  }

  lemma Pow2Zero()
    ensures Pow2(0) == 1.0 && Pow2(1) == 2.0
  {
  }

  lemma Assoc(a: real, b: real, c: real)
    ensures (a * b) * c == a * (b * c)
  {
  }

  lemma TwiceProduct(a: real, b: real)
    ensures a * (2.0 * b) == 2.0 * (a * b)
  {
  }

  lemma {:induction false} Pow2Add(a: int, b: int)
    ensures Pow2(a + b) == Pow2(a) * Pow2(b)
    decreases if b >= 0 then b else -b
  {
    hide Pow2;
    if b == 0 {
      Pow2Zero();
    } else if b > 0 {
      Pow2Add(a, b - 1);
      Pow2Next(a + b - 1);
      Pow2Next(b - 1);
      TwiceProduct(Pow2(a), Pow2(b - 1));
    } else {
      Pow2Add(a, b + 1);
      Pow2Next(a + b);
      Pow2Next(b);
      TwiceProduct(Pow2(a), Pow2(b));
    }
  }

  lemma Pow2Inverse(e: int)
    ensures Pow2(e) * Pow2(-e) == 1.0
  {
    hide Pow2;
    Pow2Zero();
    Pow2Add(e, -e);
  }

  lemma {:induction false} Pow2Order(a: int, b: int)
    requires a <= b
    ensures Pow2(a) <= Pow2(b)
    decreases b - a
  {
    if a < b {
      Pow2Order(a, b - 1);
      Pow2Next(b - 1);
    }
  }

  // ---- the binade of a number ----

  function Steps(x: real): nat
    requires x > 0.0
  {
    if x >= 1.0 then x.Floor else (1.0 / x).Floor + 2
  }

  lemma HalvingSteps(x: real)
    requires x >= 2.0
    ensures Steps(x / 2.0) < Steps(x)
  {
  }

  lemma DoublingSteps(x: real)
    requires 0.0 < x < 1.0
    ensures Steps(2.0 * x) < Steps(x)
  {
    var y := 1.0 / x;
    assert x * y == 1.0;
    assert y > 1.0;
    if 2.0 * x < 1.0 {
      assert 1.0 / (2.0 * x) == y / 2.0;
      assert y > 2.0;
    }
  }

  function Exponent(x: real): (e: int)
    requires x > 0.0
    ensures Pow2(e) <= x < Pow2(e + 1)
    decreases Steps(x)
  {
    if x >= 2.0 then
      HalvingSteps(x);
      Pow2Next(Exponent(x / 2.0));
      Pow2Next(Exponent(x / 2.0) + 1);
      Exponent(x / 2.0) + 1
    else if x < 1.0 then
      DoublingSteps(x);
      Pow2Next(Exponent(2.0 * x) - 1);
      Pow2Next(Exponent(2.0 * x));
      Exponent(2.0 * x) - 1
    else 0
  }

  predicate InBinade(x: real, e: int) {
    Pow2(e) <= x < Pow2(e + 1)
  }

  lemma BinadeOrder(x: real, e: int, y: real, f: int)
    requires x <= y && InBinade(x, e) && InBinade(y, f)
    ensures e <= f
  {
    if f < e {
      Pow2Order(f + 1, e);
    }
  }

  lemma BinadeUnique(x: real, e: int)
    requires x > 0.0 && InBinade(x, e)
    ensures Exponent(x) == e
  {
    BinadeOrder(x, e, x, Exponent(x));
    BinadeOrder(x, Exponent(x), x, e);
  }

  // ---- nearest whole number ----

  function RoundEven(q: real): (k: int)
    ensures k as real - 0.5 <= q <= k as real + 0.5
  {
    var f := q.Floor;
    var r := q - f as real;
    if r < 0.5 || (r == 0.5 && f % 2 == 0) then f else f + 1
  }

  lemma NearestIs(q: real, k: int)
    requires k as real - 0.5 < q < k as real + 0.5
    ensures RoundEven(q) == k
  {
    IntOfReals(RoundEven(q), k + 1);
    IntOfReals(k, RoundEven(q) + 1);
  }

  lemma IntOfReals(a: int, b: int)
    ensures a as real < b as real <==> a < b
  {
  }

  lemma WholeIsNearest(k: int)
    ensures RoundEven(k as real) == k
  {
    NearestIs(k as real, k);
  }

  /** Half-way below an even number rounds up to it. */
  lemma TieBelowEven(q: real, k: int)
    requires k % 2 == 0 && q == k as real - 0.5
    ensures RoundEven(q) == k
  {
    assert q.Floor == k - 1;
  }

  lemma RoundEvenMonotone(p: real, q: real)
    requires p <= q
    ensures RoundEven(p) <= RoundEven(q)
  {
    var i, j := p.Floor, q.Floor;
    IntOfReals(i, j + 1);
  }

  // ---- rounding ----

  /** x in units of the last place of the binade of e. */
  function Scaled(x: real, e: int): real {
    x * Pow2(52 - e)
  }

  /** x rounded to 53 significant bits, when it lies in the binade of e. */
  function RoundAt(x: real, e: int): real {
    (RoundEven(Scaled(x, e)) as real) * Pow2(e - 52)
  }

  lemma RoundAtIs(x: real, e: int, q: real)
    requires q == x * Pow2(52 - e)
    ensures RoundAt(x, e) == RoundEven(q) as real * Pow2(e - 52)
  {
    hide Pow2, RoundEven;
    assert Scaled(x, e) == q;
  }

  function RoundPositive(x: real): real
    requires x > 0.0
  {
    RoundAt(x, Exponent(x))
  }

  /** The double nearest to x, of two equally near the one with an even significand. */
  function Round(x: real): real {
    if x > 0.0 then RoundPositive(x) else if x < 0.0 then -RoundPositive(-x) else 0.0
  }

  lemma RoundNegated(x: real)
    ensures Round(-x) == -Round(x)
  {
  }

  /** Significand and binade fix the rounding. */
  lemma RoundInBinade(x: real, e: int)
    requires x > 0.0 && InBinade(x, e)
    ensures Round(x) == RoundAt(x, e)
  {
    hide Exponent, RoundAt;
    BinadeUnique(x, e);
  }

  lemma ScaleLeq(a: real, b: real, c: real)
    requires a <= b && c >= 0.0
    ensures a * c <= b * c
  {
  }

  /** Rounding errs by half a unit in the last place at most. */
  lemma RoundError(x: real, e: int)
    requires x > 0.0 && InBinade(x, e)
    ensures x - Pow2(e - 53) <= Round(x) <= x + Pow2(e - 53)
  {
    hide Pow2, Exponent, RoundEven, Round, RoundAt;
    var q, u := x * Pow2(52 - e), Pow2(e - 52);
    RoundInBinade(x, e);
    RoundAtIs(x, e, q);
    Pow2Inverse(52 - e);
    Pow2Next(e - 53);
    Assoc(x, Pow2(52 - e), u);
    assert q * u == x;
    var k := RoundEven(q) as real;
    ScaleLeq(q - 0.5, k, u);
    ScaleLeq(k, q + 0.5, u);
  }

  lemma ScaledRange(x: real, e: int)
    requires InBinade(x, e)
    ensures Pow2(52) <= x * Pow2(52 - e) < Pow2(53)
  {
    hide Pow2;
    Pow2Add(e, 52 - e);
    Pow2Add(e + 1, 52 - e);
    ScaleLeq(Pow2(e), x, Pow2(52 - e));
    ScaleLess(x, Pow2(e + 1), Pow2(52 - e));
  }

  lemma ScaleLess(a: real, b: real, c: real)
    requires a < b && c > 0.0
    ensures a * c < b * c
  {
  }

  lemma Pow2At52()
    ensures Pow2(52) == 4503599627370496.0 && Pow2(53) == 9007199254740992.0
  {
    assert Pow2(13) == 8192.0;
    hide Pow2;
    Pow2Add(13, 13);
    Pow2Add(26, 26);
    Pow2Next(52);
  }

  lemma SignificandRange(q: real)
    requires Pow2(52) <= q < Pow2(53)
    ensures Pow2(52) <= RoundEven(q) as real <= Pow2(53)
  {
    hide Pow2, RoundEven;
    Pow2At52();
    RoundEvenMonotone(4503599627370496.0, q);
    RoundEvenMonotone(q, 9007199254740992.0);
    WholeIsNearest(4503599627370496);
    WholeIsNearest(9007199254740992);
  }

  /** Rounding stays within the closed binade. */
  lemma RoundStays(x: real, e: int)
    requires x > 0.0 && InBinade(x, e)
    ensures Pow2(e) <= Round(x) <= Pow2(e + 1)
  {
    hide Pow2, Exponent, RoundEven, Round, RoundAt;
    var q := x * Pow2(52 - e);
    RoundInBinade(x, e);
    RoundAtIs(x, e, q);
    ScaledRange(x, e);
    SignificandRange(q);
    var k, u := RoundEven(q) as real, Pow2(e - 52);
    ScaleLeq(Pow2(52), k, u);
    ScaleLeq(k, Pow2(53), u);
    Pow2Add(52, e - 52);
    Pow2Add(53, e - 52);
  }

  lemma SameBinadeMonotone(x: real, y: real, e: int)
    requires 0.0 < x <= y && InBinade(x, e) && InBinade(y, e)
    ensures Round(x) <= Round(y)
  {
    hide Pow2, Exponent, RoundEven, Round, RoundAt;
    var p, q := x * Pow2(52 - e), y * Pow2(52 - e);
    RoundInBinade(x, e);
    RoundInBinade(y, e);
    RoundAtIs(x, e, p);
    RoundAtIs(y, e, q);
    ScaleLeq(x, y, Pow2(52 - e));
    RoundEvenMonotone(p, q);
    var i, j, u := RoundEven(p), RoundEven(q), Pow2(e - 52);
    WholeLeq(i, j);
    ScaleLeq(i as real, j as real, u);
  }

  lemma WholeLeq(a: int, b: int)
    ensures a <= b <==> a as real <= b as real
  {
  }

  lemma RoundPositiveMonotone(x: real, y: real)
    requires 0.0 < x <= y
    ensures Round(x) <= Round(y)
  {
    hide Pow2, Exponent, RoundEven, Round;
    var e, f := Exponent(x), Exponent(y);
    BinadeOrder(x, e, y, f);
    if e < f {
      RoundStays(x, e);
      RoundStays(y, f);
      Pow2Order(e + 1, f);
    } else {
      SameBinadeMonotone(x, y, e);
    }
  }

  lemma RoundSign(x: real)
    ensures x > 0.0 ==> Round(x) > 0.0
    ensures x < 0.0 ==> Round(x) < 0.0
    ensures x == 0.0 ==> Round(x) == 0.0
  {
    if x > 0.0 {
      RoundStays(x, Exponent(x));
    } else if x < 0.0 {
      RoundStays(-x, Exponent(-x));
      RoundNegated(-x);
    }
  }

  /** Rounding keeps the order. */
  lemma RoundMonotone(x: real, y: real)
    requires x <= y
    ensures Round(x) <= Round(y)
  {
    RoundSign(x);
    RoundSign(y);
    hide Round;
    if x > 0.0 {
      RoundPositiveMonotone(x, y);
    } else if y < 0.0 {
      RoundPositiveMonotone(-y, -x);
      RoundNegated(x);
      RoundNegated(y);
    }
  }

  // ---- numbers that are doubles ----

  lemma {:induction false} WholePower(j: nat)
    ensures Pow2(j) == PowerOfTwo(j) as real && (j >= 1 ==> PowerOfTwo(j) % 2 == 0)
  {
    if j > 0 {
      WholePower(j - 1);
      Pow2Next(j - 1);
      PowerEven(j);
      var p := PowerOfTwo(j - 1);
      assert PowerOfTwo(j) == 2 * p && (2 * p) as real == 2.0 * (p as real);
    }
  }

  lemma AgainstPow53(m: int)
    ensures m < 9007199254740992 <==> m as real < Pow2(53)
    ensures m == 9007199254740992 <==> m as real == Pow2(53)
  {
    Pow2At52();
  }

  lemma BelowPower(m: int, j: int)
    requires m < 9007199254740992
    ensures m as real * Pow2(j) < Pow2(53 + j)
  {
    hide Pow2;
    Pow2Add(53, j);
    AgainstPow53(m);
    ScaleLess(m as real, Pow2(53), Pow2(j));
  }

  lemma BinadeBelow(x: real, e: int, f: int)
    requires InBinade(x, e) && x < Pow2(f)
    ensures e < f
  {
    hide Pow2;
    if f <= e {
      Pow2Order(f, e);
    }
  }

  /** A whole number of units in the last place is not rounded. */
  lemma WholeSignificand(x: real, e: int, k: int, v: real)
    requires x > 0.0 && InBinade(x, e)
    requires x * Pow2(52 - e) == k as real && v == k as real * Pow2(e - 52)
    ensures Round(x) == v
  {
    hide Pow2, Exponent, RoundEven, Round, InBinade, RoundAt;
    RoundInBinade(x, e);
    RoundAtIs(x, e, k as real);
    WholeIsNearest(k);
  }

  lemma RepresentableIn(x: real, e: int, m: nat, j: int)
    requires x > 0.0 && x == m as real * Pow2(j) && InBinade(x, e) && e <= 52 + j
    ensures Round(x) == x
  {
    hide Pow2, PowerOfTwo, Exponent, RoundEven, Round, InBinade;
    var d := j + 52 - e;
    WholePower(d);
    var k := PowerOfTwo(d);
    Pow2Add(j, 52 - e);
    Assoc(m as real, Pow2(j), Pow2(52 - e));
    WholeProduct(m, k);
    Pow2Add(d, e - 52);
    Assoc(m as real, Pow2(d), Pow2(e - 52));
    WholeSignificand(x, e, m * k, x);
  }

  lemma WholeProduct(m: int, k: int)
    ensures (m * k) as real == m as real * k as real
  {
  }

  /** Significands of up to 53 bits are not rounded. */
  lemma Representable(m: nat, j: int)
    requires 0 < m <= 9007199254740992
    ensures Round(m as real * Pow2(j)) == m as real * Pow2(j)
  {
    hide Pow2, Exponent, RoundEven, Round;
    AgainstPow53(m);
    if m == 9007199254740992 {
      Pow2Add(53, j);
      PowerIsDouble(53 + j);
    } else {
      ShortSignificand(m, j);
    }
  }

  lemma ShortSignificand(m: nat, j: int)
    requires 0 < m < 9007199254740992
    ensures Round(m as real * Pow2(j)) == m as real * Pow2(j)
  {
    hide Pow2, Exponent, RoundEven, Round, InBinade;
    var x := m as real * Pow2(j);
    ScaleLess(0.0, m as real, Pow2(j));
    var e := BinadeOf(x);
    BelowPower(m, j);
    BinadeBelow(x, e, 53 + j);
    RepresentableIn(x, e, m, j);
  }

  lemma BinadeOf(x: real) returns (e: int)
    requires x > 0.0
    ensures InBinade(x, e)
  {
    e := Exponent(x);
  }

  lemma PowerIsDouble(e: int)
    ensures Round(Pow2(e)) == Pow2(e)
  {
    hide Pow2, Exponent, RoundEven, Round;
    Pow2Next(e);
    RepresentableIn(Pow2(e), e, 1, e);
  }

  /** Whole numbers up to 2^53 are doubles. */
  lemma WholeIsDouble(m: int)
    requires -9007199254740992 <= m <= 9007199254740992
    ensures Round(m as real) == m as real
  {
    hide Round;
    RoundSign(m as real);
    if m > 0 {
      Representable(m, 0);
    } else if m < 0 {
      Representable(-m, 0);
      RoundNegated(m as real);
    }
  }

  /** No whole number up to 2^53 is crossed by rounding. */
  lemma WholeNotCrossed(x: real, m: int)
    requires -9007199254740992 <= m <= 9007199254740992
    ensures x <= m as real ==> Round(x) <= m as real
    ensures x >= m as real ==> Round(x) >= m as real
  {
    hide Round;
    WholeIsDouble(m);
    if x <= m as real { RoundMonotone(x, m as real); }
    if x >= m as real { RoundMonotone(m as real, x); }
  }

  /** The error relative to the number. */
  lemma RelativeError(x: real)
    requires x > 0.0
    ensures x - x * Pow2(-53) <= Round(x) <= x + x * Pow2(-53)
  {
    hide Pow2, Exponent, Round;
    var e := Exponent(x);
    RoundError(x, e);
    Pow2Add(e, -53);
    ScaleLeq(Pow2(e), x, Pow2(-53));
  }
}
