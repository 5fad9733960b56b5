/** The first round whose pair is computed wrongly in double precision is 102334155: before it,
    multiples of phi that come too close below a whole number do not occur. They would be solutions
    of Form(m, k) = 1, 4 or 5, which are given by Fibonacci numbers. */
module RoundingLimit {
  import opened Arithmetic
  import opened Golden
  import opened GoldenLaws
  import opened Scheduler
  import opened FloatingPoint

  const FIRST_WRONG: nat := 102_334_155

  function Fib(n: nat): nat {
    if n < 2 then n else Fib(n - 1) + Fib(n - 2)
  }

  lemma {:induction false} FibGrows(i: nat, j: nat)
    requires i <= j
    ensures Fib(i) <= Fib(j)
    decreases j
  {
    if i < j {
      FibGrows(i, j - 1);
      assert Fib(j) >= Fib(j - 1);
    }
  }

  lemma FibTwenty()
    ensures Fib(20) == 6765 && Fib(21) == 10946
  {
    assert Fib(10) == 55 && Fib(11) == 89;
  }

  lemma FibNext(n: nat)
    ensures Fib(n + 2) == Fib(n + 1) + Fib(n)
  {
  }

  lemma FibValues()
    ensures Fib(36) == 14930352 && Fib(37) == 24157817
    ensures Fib(38) == 39088169 && Fib(39) == 63245986 && Fib(40) == 102334155
  {
    hide Fib;
    FibTwenty();
    FibNext(20);
    FibNext(21);
    FibNext(22);
    FibNext(23);
    FibNext(24);
    FibNext(25);
    FibNext(26);
    FibNext(27);
    FibNext(28);
    FibNext(29);
    FibNext(30);
    FibNext(31);
    FibNext(32);
    FibNext(33);
    FibNext(34);
    FibNext(35);
    FibNext(36);
    FibNext(37);
    FibNext(38);
  }

  // ---- solutions with small values ----

  /** Descending twice keeps the form. */
  lemma DescendTwice(m: int, k: int)
    ensures Form(m - k, 2 * k - m) == Form(m, k)
  {
    Reflect(m, k);
    Reflect(k, m - k);
  }

  lemma FarBeyond(m: nat, k: nat)
    requires k >= 1 && m > 2 * k
    ensures Form(m, k) >= 5
  {
    var e := m - 2 * k;
    assert Form(2 * k + e, k) == k * k + 3 * (k * e) + e * e;
    ScaleOrder(1, k, k);
    ScaleOrder(1, e, k);
    ScaleOrder(1, e, e);
  }

  lemma AtTwice(k: nat)
    requires k >= 1
    ensures Form(2 * k, k) >= k && (k >= 2 ==> Form(2 * k, k) >= 4)
  {
    assert Form(2 * k, k) == k * k;
    ScaleOrder(1, k, k);
    if k >= 2 {
      ScaleOrder(2, k, k);
    }
  }

  lemma UnitRange(m: nat, k: nat)
    requires k >= 1 && Form(m, k) == 1
    ensures k < m <= 2 * k && (m == 2 * k ==> k == 1)
  {
    hide Form;
    AtTwice(k);
    ProductNonNegative(k, k);
    if m <= k {
      UpToK(m, k);
    } else if m > 2 * k {
      FarBeyond(m, k);
    }
  }

  /** The solutions of Form = 1 are pairs of neighbouring Fibonacci numbers. */
  lemma {:induction false} UnitsAreFibonacci(m: nat, k: nat) returns (j: nat)
    requires k >= 1 && Form(m, k) == 1
    ensures j >= 1 && k == Fib(2 * j) && m == Fib(2 * j + 1)
    decreases k
  {
    hide Form;
    UnitRange(m, k);
    if m == 2 * k {
      j := 1;
    } else {
      DescendTwice(m, k);
      var i := UnitsAreFibonacci(m - k, 2 * k - m);
      j := i + 1;
      assert Fib(2 * i + 2) == Fib(2 * i + 1) + Fib(2 * i);
      assert Fib(2 * i + 3) == Fib(2 * i + 2) + Fib(2 * i + 1);
    }
  }

  lemma FormOfScaled(c: int, a: int, i: int, b: int, l: int)
    ensures Form(c * a + i, c * b + l)
            == c * (c * Form(a, b) + 2 * (a * i) - a * l - i * b - 2 * (b * l)) + Form(i, l)
  {
    assert (c * a) * (c * a) == c * (c * (a * a));
    assert (c * a) * (c * b) == c * (c * (a * b));
    assert (c * b) * (c * b) == c * (c * (b * b));
    assert (c * a) * i == c * (a * i) && (c * a) * l == c * (a * l);
    assert (c * b) * i == c * (i * b) && (c * b) * l == c * (b * l);
  }

  lemma FormIs(i: int, l: int, v: int)
    requires i * i - i * l - l * l == v
    ensures Form(i, l) == v
  {
  }

  lemma SmallForms()
    ensures Form(0, 0) == 0 && Form(0, 1) == -1 && Form(1, 0) == 1 && Form(1, 1) == -1
    ensures Form(0, 2) == -4 && Form(1, 2) == -5 && Form(2, 0) == 4 && Form(2, 1) == 1 && Form(2, 2) == -4
  {
    hide Form;
    FormIs(0, 0, 0);
    FormIs(0, 1, -1);
    FormIs(1, 0, 1);
    FormIs(1, 1, -1);
    FormIs(0, 2, -4);
    FormIs(1, 2, -5);
    FormIs(2, 0, 4);
    FormIs(2, 1, 1);
    FormIs(2, 2, -4);
  }

  /** The form is even only on even pairs, where it is a multiple of four. */
  lemma EvenForm(m: nat, k: nat)
    ensures Form(m, k) % 2 == 0 ==> m % 2 == 0 && k % 2 == 0 && Form(m, k) == 4 * Form(m / 2, k / 2)
  {
    hide Form;
    SmallForms();
    FormOfScaled(2, m / 2, m % 2, k / 2, k % 2);
    assert m == 2 * (m / 2) + m % 2 && k == 2 * (k / 2) + k % 2;
  }

  /** The form is a multiple of three only where it is a multiple of nine. */
  lemma NeverThree(m: nat, k: nat)
    ensures Form(m, k) != 3
  {
    hide Form;
    SmallForms();
    FormOfScaled(3, m / 3, m % 3, k / 3, k % 3);
    assert m == 3 * (m / 3) + m % 3 && k == 3 * (k / 3) + k % 3;
  }

  lemma AddFives(x: nat, y: nat)
    ensures (5 * x + y) % 5 == y % 5
  {
  }

  lemma SquareResidue(r: nat)
    requires r < 5
    ensures r * r == if r == 0 then 0 else if r == 1 then 1 else if r == 2 then 4 else if r == 3 then 9 else 16
  {
  }

  lemma SquareModFive(s: nat)
    requires (s * s) % 5 == 0
    ensures s % 5 == 0
  {
    var q, r := s / 5, s % 5;
    ProductNonNegative(q, q);
    ProductNonNegative(q, r);
    var x := 5 * (q * q) + 2 * (q * r);
    assert s * s == 5 * x + r * r;
    AddFives(x, r * r);
    SquareResidue(r);
  }

  /** A solution of Form = 5 is twice a Fibonacci number of even index plus the next one. */
  lemma FivesAreLucas(m: nat, k: nat) returns (j: nat)
    requires 1 <= k <= m < 2 * k && Form(m, k) == 5
    ensures j >= 1 && k == 2 * Fib(2 * j) + Fib(2 * j + 1)
  {
    hide Fib;
    var s := m + 2 * k;
    assert s * s == 5 * (1 + m * k + k * k);
    SquareModFive(s);
    var a := s / 5;
    var b := 2 * a - k;
    assert m == 5 * a - 2 * k;
    DividedByRootFive(a, k);
    Reflect(a, b);
    j := UnitsAreFibonacci(b, a - b);
  }

  lemma DividedByRootFive(a: int, k: int)
    ensures Form(5 * a - 2 * k, k) == -5 * Form(a, 2 * a - k)
  {
  }

  // ---- how close a multiple of phi comes to a whole number from below ----

  /** By how much the cuts around phi and 1/phi change the value of the form at r. */
  function CutError(r: nat): real {
    (r as real) * (r as real) * DELTA
  }

  lemma CutErrorIs(r: nat)
    ensures CutError(r) == ((r as real) * (r as real)) * DELTA
  {
  }

  lemma ErrorBound(s: real, e: real)
    requires s >= 0.0 && e >= -DELTA
    ensures s * e >= -(s * DELTA)
  {
    RealScale(-DELTA, e, s);
    assert -DELTA * s == -(s * DELTA);
  }

  lemma WiderIsPositive(x: real, y: real)
    requires x >= 0.0 && y >= 1.0
    ensures x + (PHI_HIGH - 1.0) * y > 0.0 && y * y >= 0.0
  {
    RealScale(0.5, PHI_HIGH - 1.0, y);
    RealScale(0.0, y, y);
  }

  /** With Form = f, a slope error of DELTA does not cross while r * r * DELTA < f. */
  lemma HighCutStaysBelow(m: nat, r: nat, f: int)
    requires 1 <= r && Form(m, r) == f && CutError(r) < f as real
    ensures PHI_HIGH * (r as real) < m as real
  {
    hide *;
    var x, y := m as real, r as real;
    var s, u, w := y * y, x - PHI_HIGH * y, x + (PHI_HIGH - 1.0) * y;
    CutErrorIs(r);
    CutsAreClose();
    FormOverReals(m, r);
    PhiFactor(x, y, PHI_HIGH, s);
    WiderIsPositive(x, y);
    ErrorBound(s, PhiError(PHI_HIGH));
    AboveZero(u, w, f as real, s * PhiError(PHI_HIGH), CutError(r));
  }

  lemma AboveZero(u: real, w: real, f: real, error: real, bound: real)
    requires w > 0.0 && u * w == f + error && error >= -bound && bound < f
    ensures u > 0.0
  {
    FactorSign(u, w);
  }

  lemma SquareBelow(r: nat, bound: nat)
    requires r <= bound
    ensures CutError(r) <= CutError(bound)
  {
    hide CutError;
    var x, y := r as real, bound as real;
    CutErrorIs(r);
    CutErrorIs(bound);
    SquareOrder(x, y);
    RealScale(x * x, y * y, DELTA);
  }

  lemma SquareOrder(x: real, y: real)
    requires 0.0 <= x <= y
    ensures x * x <= y * y
  {
    RealScale(x, y, x);
    RealScale(x, y, y);
  }

  lemma ErrorsAtBounds()
    ensures CutError(FIRST_WRONG) < 6.0 && CutError(78_176_338) < 4.0 && CutError(54_018_521) < 5.0
  {
  }

  /** Before FIRST_WRONG no multiple of phi is too close below a whole number. */
  lemma CloseOnlyLater(m: nat, r: nat)
    requires MAX_ROUND < r < FIRST_WRONG && r <= m < 2 * r && Form(m, r) > 0
    ensures CutError(r) < Form(m, r) as real
  {
    hide Form, Fib, CutError;
    var f := Form(m, r);
    ErrorsAtBounds();
    EvenForm(m, r);
    NeverThree(m, r);
    SquareBelow(r, FIRST_WRONG);
    if f == 1 {
      var j := UnitsAreFibonacci(m, r);
      BetweenFibs(j);
    } else if f == 4 {
      var j := UnitsAreFibonacci(m / 2, r / 2);
      BetweenFibs(j);
      SquareBelow(r, 78_176_338);
    } else if f == 5 {
      var j := FivesAreLucas(m, r);
      BetweenLucas(j);
      SquareBelow(r, 54_018_521);
    }
  }

  lemma BetweenFibs(j: nat)
    ensures Fib(2 * j) <= 39_088_169 || Fib(2 * j) >= FIRST_WRONG
  {
    hide Fib;
    FibValues();
    if j <= 19 { FibGrows(2 * j, 38); } else { FibGrows(40, 2 * j); }
  }

  lemma BetweenLucas(j: nat)
    ensures 2 * Fib(2 * j) + Fib(2 * j + 1) <= 54_018_521 || 2 * Fib(2 * j) + Fib(2 * j + 1) >= FIRST_WRONG
  {
    hide Fib;
    FibValues();
    if j <= 18 {
      FibGrows(2 * j, 36);
      FibGrows(2 * j + 1, 37);
    } else {
      FibGrows(38, 2 * j);
      FibGrows(39, 2 * j + 1);
    }
  }

  // ---- the rounds before it ----

  lemma RoundingKeeps(x: real, p: real, m: int)
    requires Rounded(x, p) && m as real <= x
    ensures m as real <= p
  {
    hide *;
    RoundedAboveFloor(x, p);
    WholeBelowFloor(x, m);
  }

  lemma WholeBelowFloor(x: real, m: int)
    requires m as real <= x
    ensures m as real <= x.Floor as real
  {
    var next := x.Floor + 1;
    assert x < next as real;
    RealOrder(m, next);
  }

  lemma RealOrder(a: int, b: int)
    ensures a as real < b as real <==> a < b
  {
  }

  lemma RoundedAboveFloor(x: real, p: real)
    requires Rounded(x, p)
    ensures x.Floor as real <= p
  {
  }

  lemma AboveSlope(x: real, y: real)
    requires x >= 0.0 && y >= 1.0 && RealForm(x, y) <= 0.0
    ensures x <= y * PHI_DOUBLE
  {
    hide RealForm;
    PhiFactor(x, y, PHI_DOUBLE, y * y);
    RealScale(0.0, y, y);
    assert PhiError(PHI_DOUBLE) <= 0.0;
    RealScale(PhiError(PHI_DOUBLE), 0.0, y * y);
    hide PhiError;
    assert (x - PHI_DOUBLE * y) * (x + (PHI_DOUBLE - 1.0) * y) <= 0.0;
    RealScale(0.5, PHI_DOUBLE - 1.0, y);
    NotPositive(x - PHI_DOUBLE * y, x + (PHI_DOUBLE - 1.0) * y);
  }

  lemma NotPositive(a: real, b: real)
    requires b > 0.0 && a * b <= 0.0
    ensures a <= 0.0
  {
  }

  lemma NearTwice(r: nat)
    requires r >= 3
    ensures Form(2 * r - 1, r) > 0
  {
    assert Form(2 * r - 1, r) == r * r - 3 * r + 1;
    ScaleOrder(3, r, r);
  }

  lemma UpToKNegative(m: nat, k: nat)
    ensures m <= k ==> Form(m, k) <= 0
  {
    hide Form;
    ProductNonNegative(k, k);
    if m <= k {
      UpToK(m, k);
    }
  }

  lemma FloorPhiRange(r: nat)
    requires r >= 3
    ensures r <= FloorPhi(r) + 1 < 2 * r
  {
    hide Form;
    var m := FloorPhi(r);
    NearTwice(r);
    UpToKNegative(m + 1, r);
    if m >= 2 * r - 1 {
      Up(2 * r - 1, m, r);
    }
  }

  lemma BySigns(m: nat, r: nat)
    requires IsFloorPhi(m, r)
    ensures Form(m, r) <= 0 < Form(m + 1, r) && RealForm(m as real, r as real) <= 0.0
  {
    hide Form, RealForm;
    FormOverReals(m, r);
  }

  lemma FloorCaught(r: nat, m: nat, p: real)
    requires r >= 1 && Rounded((r as real) * PHI_DOUBLE, p)
    requires m as real <= (r as real) * PHI_DOUBLE && PHI_HIGH * (r as real) < (m + 1) as real
    ensures p.Floor == m
  {
    hide Rounded;
    RoundedWithinCuts(r as real, p, 0.0);
    RoundingKeeps((r as real) * PHI_DOUBLE, p, m);
    FloorBounds(p, m);
  }

  /** Every round before FIRST_WRONG gets the exact whole part m of r*phi, however its product is
      rounded. */
  lemma FloorExactBeforeFirstWrong(r: nat, m: nat, p: real)
    requires 1 <= r < FIRST_WRONG && IsFloorPhi(m, r) && Rounded((r as real) * PHI_DOUBLE, p)
    ensures p.Floor == m
  {
    hide Form, RealForm, IsFloorPhi, Rounded, CutError, PhiError;
    BySigns(m, r);
    if r <= MAX_ROUND {
      FormOverReals(m + 1, r);
      CutsAreClose();
      PhiSlope((m + 1) as real, r as real, PHI_HIGH);
    } else {
      FloorPhiUnique(m, FloorPhi(r), r);
      FloorPhiRange(r);
      CloseOnlyLater(m + 1, r);
      HighCutStaysBelow(m + 1, r, Form(m + 1, r));
    }
    AboveSlope(m as real, r as real);
    FloorCaught(r, m, p);
  }

  lemma LargeForms()
    ensures IsFloorPhi(165580140, 102334155)
  {
  }

  /** At FIRST_WRONG, a Fibonacci number, the double nearest to phi is already so far above phi that
      the computed whole part is one too large. */
  lemma FloorWrongAtFirstWrong(p: real)
    requires Rounded((FIRST_WRONG as real) * PHI_DOUBLE, p)
    ensures FloorPhi(FIRST_WRONG) == 165580140 && p.Floor == 165580141
  {
    hide Form, FloorPhi, IsFloorPhi, Rounded;
    LargeForms();
    FloorPhiIs(165580140, 102334155);
    ProductThere();
    RoundedNear((FIRST_WRONG as real) * PHI_DOUBLE, p);
    FloorBetween(p, 165580141);
  }

  lemma RoundedNear(x: real, p: real)
    requires Rounded(x, p) && 165580141.0 <= x < 165580141.5
    ensures 165580141.0 <= p < 165580142.0
  {
    assert x.Floor == 165580141;
  }

  lemma ProductThere()
    ensures 165580141.0 <= (FIRST_WRONG as real) * PHI_DOUBLE < 165580141.5
  {
    assert FIRST_WRONG as real == 102334155.0;
  }

  lemma FloorPhiIs(m: nat, k: nat)
    requires IsFloorPhi(m, k)
    ensures FloorPhi(k) == m
  {
    hide Form;
    FloorPhiUnique(m, FloorPhi(k), k);
  }

  lemma FloorBetween(p: real, m: int)
    ensures m as real <= p < (m + 1) as real ==> p.Floor == m
  {
  }
}
