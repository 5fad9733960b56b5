/** Exact integer arithmetic for the golden ratio phi.
    phi is the positive root of x*x - x - 1, so for natural m and k the sign of
    Form(m, k) = m*m - m*k - k*k says on which side of k*phi the number m lies.
    No real number is needed: floor(k*phi) and ceil(n/phi) are fixed by signs of Form. */
module Golden {
  import opened Arithmetic

  function Form(m: int, k: int): int {
    m * m - m * k - k * k
  }

  /** m is the whole part of k*phi. */
  predicate IsFloorPhi(m: int, k: int) {
    Form(m, k) <= 0 < Form(m + 1, k)
  }

  // ---- identities and signs, each proved on its own ----

  /** The descent step (m, k) -> (k, m - k), and the reflection behind the Beatty partition. */
  lemma Reflect(n: int, a: int)
    ensures Form(a, n - a) == -Form(n, a)
  {
  }

  lemma RaiseM(m: int, d: int, k: int)
    ensures Form(m + d, k) == Form(m, k) + d * (2 * m + d - k)
  {
  }

  lemma RaiseK(m: int, k: int, d: int)
    ensures Form(m, k + d) == Form(m, k) - d * (m + 2 * k + d)
  {
  }

  lemma ShiftOne(m: int, k: int)
    ensures Form(m + 1, k + 1) == Form(m, k) + m - 3 * k - 1
  {
  }

  lemma ShiftTwo(a: int, k: int)
    ensures Form(a + 2, k + 1) == Form(a, k) + 3 * a + 1 - 4 * k
  {
  }

  lemma UpToK(m: nat, k: nat)
    requires m <= k
    ensures Form(m, k) <= -(k * k)
  {
    ProductNonNegative(m, k - m);
  }

  lemma BeyondTwoK(m: nat, k: nat)
    requires m > 2 * k
    ensures Form(m, k) > 0
  {
    var e := m - 2 * k;
    assert Form(2 * k + e, k) == k * k + 3 * (k * e) + e * e;
    ProductNonNegative(k, k);
    ProductNonNegative(k, e);
    ProductNonNegative(e - 1, e + 1);
  }

  lemma UpToFourThirds(a: nat, k: nat)
    requires 3 * a <= 4 * k
    ensures Form(a, k) <= 0
  {
    ProductNonNegative(k, k);
    if a <= k {
      UpToK(a, k);
    } else {
      var e := a - k;
      assert Form(k + e, k) == -(k * k) + k * e + e * e;
      ProductNonNegative(e, k - 3 * e);
      ProductNonNegative(k, k - 3 * e);
    }
  }

  /** Above k*phi the form stays positive. */
  lemma Up(m1: nat, m2: nat, k: nat)
    requires m1 <= m2 && Form(m1, k) > 0
    ensures Form(m2, k) > 0
  {
    if m1 <= k {
      UpToK(m1, k);
      ProductNonNegative(k, k);
    } else {
      RaiseM(m1, m2 - m1, k);
      ProductNonNegative(m2 - m1, m1 + m2 - k);
    }
  }

  /** Raising k can only lower the form. */
  lemma Down(m: nat, k1: nat, k2: nat)
    requires k1 <= k2
    ensures Form(m, k2) <= Form(m, k1)
  {
    RaiseK(m, k1, k2 - k1);
    ProductNonNegative(k2 - k1, m + k1 + k2);
  }

  /** phi is irrational: the form has no zero with k >= 1 (infinite descent). */
  lemma {:induction false} NeverZero(m: nat, k: nat)
    requires k >= 1
    ensures Form(m, k) != 0
    decreases m
  {
    if m <= k {
      UpToK(m, k);
      ProductNonNegative(k - 1, k + 1);
    } else {
      NeverZero(k, m - k);
      Reflect(m, k);
    }
  }

  lemma FloorPhiUnique(m1: nat, m2: nat, k: nat)
    requires IsFloorPhi(m1, k) && IsFloorPhi(m2, k)
    ensures m1 == m2
  {
    hide Form;
    if m1 < m2 {
      Up(m1 + 1, m2, k);
    } else if m2 < m1 {
      Up(m2 + 1, m1, k);
    }
  }

  /** Moving from k to k + 1 moves the whole part by one or two. */
  lemma FloorPhiNext(m: nat, k: nat)
    requires IsFloorPhi(m, k)
    ensures Form(m + 1, k + 1) <= 0 < Form(m + 3, k + 1)
  {
    assert m <= 2 * k by {
      if m > 2 * k { BeyondTwoK(m, k); }
    }
    ShiftOne(m, k);
    assert 3 * (m + 1) > 4 * k by {
      if 3 * (m + 1) <= 4 * k { UpToFourThirds(m + 1, k); }
    }
    ShiftTwo(m + 1, k);
  }

  /** floor(k * phi), exactly. */
  function FloorPhi(k: nat): (m: nat)
    ensures IsFloorPhi(m, k)
  {
    if k == 0 then 0
    else
      var m := FloorPhi(k - 1);
      FloorPhiNext(m, k - 1);
      if Form(m + 2, k) <= 0 then m + 2 else m + 1
  }

  lemma FloorPhiStep(k: nat)
    ensures FloorPhi(k) + 1 <= FloorPhi(k + 1) <= FloorPhi(k) + 2
  {
    hide Form;
  }

  /** A gap of d rounds moves the whole part by at least d and at most 2*d. */
  lemma {:induction false} FloorPhiGrowth(k: nat, d: nat)
    ensures FloorPhi(k) + d <= FloorPhi(k + d) <= FloorPhi(k) + 2 * d
    decreases d
  {
    hide Form;
    if d > 0 {
      FloorPhiGrowth(k, d - 1);
      FloorPhiStep(k + d - 1);
    }
  }

  /** k is the least number with n <= k*phi. */
  predicate IsCeilDivPhi(k: nat, n: nat) {
    Form(n, k) <= 0 && (k >= 1 ==> Form(n, k - 1) > 0)
  }

  lemma CeilDivPhiNext(n: nat, c: nat)
    requires IsCeilDivPhi(c, n)
    ensures IsCeilDivPhi(if Form(n + 1, c) <= 0 then c else c + 1, n + 1)
    ensures c == 0 ==> Form(n + 1, c) > 0
  {
    assert n <= 2 * c by {
      if n > 2 * c { BeyondTwoK(n, c); }
    }
    ShiftOne(n, c);
    if c >= 1 {
      Up(n, n + 1, c - 1);
    } else {
      ProductNonNegative(n, n + 2);
    }
  }

  /** ceil(n / phi), exactly. */
  function CeilDivPhi(n: nat): (k: nat)
    ensures IsCeilDivPhi(k, n)
    ensures n >= 1 ==> k >= 1
    ensures k <= n
  {
    if n == 0 then 0
    else
      var c := CeilDivPhi(n - 1);
      CeilDivPhiNext(n - 1, c);
      if Form(n, c) <= 0 then c else c + 1
  }

  /** The contract of CeilDivPhi pins it down. */
  lemma CeilDivPhiUnique(k1: nat, k2: nat, n: nat)
    requires IsCeilDivPhi(k1, n) && IsCeilDivPhi(k2, n)
    ensures k1 == k2
  {
    hide Form;
    if k1 < k2 {
      Down(n, k1, k2 - 1);
    } else if k2 < k1 {
      Down(n, k2, k1 - 1);
    }
  }
}

/** Laws of the whole part over sums of rounds, and the meaning of Form for a real phi. */
module GoldenLaws {
  import opened Arithmetic
  import opened Golden

  function RealForm(x: real, y: real): real {
    x * x - x * y - y * y
  }

  lemma FormOverReals(m: nat, k: nat)
    ensures Form(m, k) as real == RealForm(m as real, k as real)
  {
    assert (m * m) as real == (m as real) * (m as real);
    assert (m * k) as real == (m as real) * (k as real);
    assert (k * k) as real == (k as real) * (k as real);
  }

  /** For any positive root phi of x*x == x + 1, the sign of Form places m against k*phi. */
  lemma FormMeansPhi(phi: real, m: nat, k: nat)
    requires phi > 1.0 && phi * phi == phi + 1.0
    requires m > 0 || k > 0
    ensures (m as real) <= (k as real) * phi <==> Form(m, k) <= 0
  {
    hide Form;
    var x, y := m as real, k as real;
    FormOverReals(m, k);
    FactorForm(phi, x, y);
    ProductSign(x - y * phi, x + y * (phi - 1.0));
  }

  lemma FactorForm(phi: real, x: real, y: real)
    requires phi > 1.0 && phi * phi == phi + 1.0 && x >= 0.0 && y >= 0.0 && (x > 0.0 || y > 0.0)
    ensures x * x - x * y - y * y == (x - y * phi) * (x + y * (phi - 1.0))
    ensures x + y * (phi - 1.0) > 0.0
  {
    calc {
      (x - y * phi) * (x + y * (phi - 1.0));
      x * x - x * y - y * y * (phi * phi - phi);
      x * x - x * y - y * y;
    }
  }

  lemma ProductSign(a: real, b: real)
    requires b > 0.0
    ensures a * b <= 0.0 <==> a <= 0.0
  {
  }

  lemma Scale(c: int, m: int, k: int)
    ensures Form(c * m, c * k) == c * c * Form(m, k)
  {
  }

  lemma ScaleSign(c: nat, m: nat, k: nat)
    requires c >= 1
    ensures Form(c * m, c * k) > 0 <==> Form(m, k) > 0
  {
    Scale(c, m, k);
    var f := Form(m, k);
    if f > 0 {
      ProductNonNegative(c * c - 1, f);
    } else {
      ProductNonNegative(c * c, -f);
    }
  }

  /** Comparing fractions: u/v <= m/k keeps the lower side, for positive v and k. */
  lemma CrossCompare(u: nat, v: nat, m: nat, k: nat)
    requires v >= 1 && k >= 1 && u * k <= m * v
    ensures Form(u, v) > 0 ==> Form(m, k) > 0
  {
    ScaleSign(k, u, v);
    ScaleSign(v, m, k);
    if Form(u, v) > 0 {
      assert k * u <= v * m && k * v == v * k;
      Up(k * u, v * m, v * k);
    }
  }

  lemma MediantLow(m1: nat, a: nat, m2: nat, b: nat)
    requires Form(m1, a) <= 0 && Form(m2, b) <= 0
    ensures Form(m1 + m2, a + b) <= 0
  {
    if b == 0 || a == 0 {
      assert (if b == 0 then m2 else m1) == 0;
    } else if m1 * b <= m2 * a {
      assert (m1 + m2) * b <= m2 * (a + b);
      CrossCompare(m1 + m2, a + b, m2, b);
    } else {
      assert (m1 + m2) * a <= m1 * (a + b);
      CrossCompare(m1 + m2, a + b, m1, a);
    }
  }

  lemma MediantHigh(m1: nat, a: nat, m2: nat, b: nat)
    requires Form(m1, a) > 0 && Form(m2, b) > 0
    ensures Form(m1 + m2, a + b) > 0
  {
    if b == 0 || a == 0 {
      if b == 0 { Up(m1, m1 + m2, a); } else { Up(m2, m1 + m2, b); }
    } else if m1 * b <= m2 * a {
      assert m1 * (a + b) <= (m1 + m2) * a;
      CrossCompare(m1, a, m1 + m2, a + b);
    } else {
      assert m2 * (a + b) <= (m1 + m2) * b;
      CrossCompare(m2, b, m1 + m2, a + b);
    }
  }

  /** Of two numbers on opposite sides of k*phi, the one on the lower side is smaller. */
  lemma SidesOrder(low: nat, high: nat, k: nat)
    requires Form(low, k) <= 0 < Form(high, k)
    ensures low < high
  {
    if high <= low {
      Up(high, low, k);
    }
  }

  /** The whole part is additive up to one. */
  lemma FloorPhiAdd(a: nat, b: nat)
    ensures FloorPhi(a) + FloorPhi(b) <= FloorPhi(a + b) <= FloorPhi(a) + FloorPhi(b) + 1
  {
    hide Form;
    MediantLow(FloorPhi(a), a, FloorPhi(b), b);
    SidesOrder(FloorPhi(a) + FloorPhi(b), FloorPhi(a + b) + 1, a + b);
    MediantHigh(FloorPhi(a) + 1, a, FloorPhi(b) + 1, b);
    SidesOrder(FloorPhi(a + b), FloorPhi(a) + 1 + (FloorPhi(b) + 1), a + b);
  }
}
