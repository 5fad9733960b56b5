/** The schedule as it is computed, in double precision, and the first rounds that go wrong. */
module ComputedSchedule {
  import opened Arithmetic
  import opened Types
  import opened Golden
  import opened GoldenLaws
  import opened Scheduler
  import opened SchedulerLaws
  import opened Doubles
  import opened FloatingPoint
  import opened RoundingLimit

  /** The constants are the doubles that the compiler computes. */
  lemma ConstantsAreDoubles()
    ensures Round(1.6180339887498948482) == PHI_DOUBLE
    ensures Round(1.0 / PHI_DOUBLE) == INV_PHI_DOUBLE
  {
    hide Round, RoundAt, Exponent, RoundEven;
    Binades();
    var x, y := 1.6180339887498948482, 1.0 / PHI_DOUBLE;
    RoundInBinade(x, 0);
    RoundAtIs(x, 0, x * 4503599627370496.0);
    NearestIs(x * 4503599627370496.0, 7286977268806824);
    RoundInBinade(y, -1);
    RoundAtIs(y, -1, y * 9007199254740992.0);
    InverseNear(y);
    NearestIs(y * 9007199254740992.0, 5566755282872655);
  }

  lemma Binades()
    ensures Pow2(52) == 4503599627370496.0 && Pow2(53) == 9007199254740992.0
    ensures Pow2(-52) == 1.0 / 4503599627370496.0 && Pow2(-53) == 1.0 / 9007199254740992.0
    ensures Pow2(0) == 1.0 && Pow2(1) == 2.0 && Pow2(-1) == 0.5
  {
    Pow2At52();
    Pow2Inverse(52);
    Pow2Inverse(53);
  }

  lemma InverseNear(y: real)
    requires y * PHI_DOUBLE == 1.0
    ensures 5566755282872654.5 < y * 9007199254740992.0 < 5566755282872655.5
    ensures 0.5 <= y < 1.0
  {
  }

  // ---- as computed ----

  /** floor(k * PHI), with k converted to double. */
  function ComputedFloor(k: int): int {
    Round(Round(k as real) * PHI_DOUBLE).Floor
  }

  function ComputedPair(n: nat, round: nat): GossipPair
    requires n >= 2 && NumPairs(n) > 0
  {
    DecodePair(n, ComputedFloor(round) % NumPairs(n))
  }

  /** ceil(n * INV_PHI). */
  function ComputedCandidate(n: nat): int {
    Ceil(Round(Round(n as real) * INV_PHI_DOUBLE))
  }

  function ComputedMode(round: nat): SyncMode {
    if ComputedFloor(ComputedCandidate(round)) == round then Pull else Push
  }

  const LARGEST: nat := 9_007_199_254_740_992

  /** Rounding to nearest is a rounding in the sense of Rounded. */
  lemma RoundIsRounded(x: real)
    requires 0.0 < x <= LARGEST as real
    ensures Rounded(x, Round(x))
  {
    hide Round, Pow2;
    RelativeError(x);
    Binades();
    FloorRange(x);
    WholeNotCrossed(x, x.Floor);
    WholeNotCrossed(x, Ceil(x));
  }

  lemma FloorRange(x: real)
    requires 0.0 < x <= LARGEST as real
    ensures 0 <= x.Floor <= LARGEST && 0 <= Ceil(x) <= LARGEST
    ensures x.Floor as real <= x <= Ceil(x) as real
  {
  }

  // ---- pairs ----

  lemma FloorComputed(r: nat)
    requires 1 <= r < FIRST_WRONG
    ensures ComputedFloor(r) == FloorPhi(r)
  {
    hide Round, Rounded, FloorPhi;
    WholeIsDouble(r);
    RoundIsRounded((r as real) * PHI_DOUBLE);
    FloorExactBeforeFirstWrong(r, FloorPhi(r), Round(Round(r as real) * PHI_DOUBLE));
  }

  lemma FloorMiscomputed()
    ensures FloorPhi(FIRST_WRONG) == 165580140 && ComputedFloor(FIRST_WRONG) == 165580141
  {
    hide Round, Rounded, FloorPhi;
    WholeIsDouble(FIRST_WRONG);
    RoundIsRounded((FIRST_WRONG as real) * PHI_DOUBLE);
    FloorWrongAtFirstWrong(Round(Round(FIRST_WRONG as real) * PHI_DOUBLE));
  }

  lemma NeighboursDiffer(v: nat, m: nat)
    requires m >= 2
    ensures v % m != (v + 1) % m
  {
    var q, r := v / m, v % m;
    assert v == q * m + r;
    if r + 1 < m {
      DivModUnique(v + 1, q, r + 1, m);
    } else {
      DivModUnique(v + 1, q + 1, 0, m);
    }
  }

  /** The pair of that round is another one, whatever the number of nodes. */
  lemma PairMiscomputed(n: nat)
    requires 2 <= n < TWO_32
    ensures NumPairs(n) > 0 && ComputedPair(n, FIRST_WRONG) != GetPair(n, FIRST_WRONG)
  {
    hide NumPairs, DecodePair, FloorPhi, ComputedFloor;
    NumPairsPositive(n);
    NumPairsEven(n);
    NumPairsBound(n);
    FloorMiscomputed();
    var m := NumPairs(n);
    NeighboursDiffer(165580140, m);
    if ComputedPair(n, FIRST_WRONG) == GetPair(n, FIRST_WRONG) {
      SamePairSameIndex(n, 165580141 % m, 165580140 % m);
    }
  }

  /** The computed pairs of all rounds up to last are exact if and only if last comes before
      102334155, for every number of nodes. */
  lemma PairsExactly(n: nat, last: nat)
    requires 2 <= n < TWO_32
    ensures NumPairs(n) > 0
    ensures (forall r: nat | 1 <= r <= last :: ComputedPair(n, r) == GetPair(n, r)) <==> last < FIRST_WRONG
  {
    hide NumPairs, DecodePair, FloorPhi, ComputedFloor;
    NumPairsPositive(n);
    PairMiscomputed(n);
    if last < FIRST_WRONG {
      forall r: nat | 1 <= r <= last
        ensures ComputedPair(n, r) == GetPair(n, r)
      {
        FloorComputed(r);
      }
    }
  }

  // ---- modes ----

  const FIRST_WRONG_MODE: nat := 165_580_140

  lemma BelowInverse(x: real, y: real)
    requires x >= 1.0 && y >= 0.0 && RealForm(x, y) <= 0.0
    ensures x * INV_PHI_DOUBLE <= y
  {
    hide RealForm;
    InverseFactor(x, y, INV_PHI_DOUBLE, x * x);
    RealScale(0.0, x, x);
    InverseErrorPositive();
    RealScale(0.0, InverseError(INV_PHI_DOUBLE), x * x);
    hide InverseError;
    RealScale(1.0, 1.0 + INV_PHI_DOUBLE, x);
    NotNegative(y - INV_PHI_DOUBLE * x, y + (1.0 + INV_PHI_DOUBLE) * x);
  }

  lemma InverseErrorPositive()
    ensures InverseError(INV_PHI_DOUBLE) >= 0.0
  {
  }

  lemma NotNegative(a: real, b: real)
    requires b > 0.0 && a * b >= 0.0
    ensures a >= 0.0
  {
  }

  lemma CeilAtMost(x: real, q: real, k: int)
    requires Rounded(x, q) && x <= k as real
    ensures Ceil(q) <= k
  {
    CeilOrder(x, k);
    CeilOrder(q, k);
    WholeLeq(Ceil(x), k);
  }

  lemma CeilOrder(x: real, k: int)
    ensures x <= k as real ==> Ceil(x) <= k
    ensures x > (k - 1) as real ==> Ceil(x) >= k
  {
  }

  /** The double used for 1/phi is below it, so the candidate is never too large; in a round of a
      pull, where n + 1 lies beyond k*phi, it is k. */
  lemma CandidateIs(n: nat, k: nat, q: real)
    requires 1 <= n && Rounded((n as real) * INV_PHI_DOUBLE, q) && (n as real) * INV_PHI_DOUBLE <= k as real
    ensures Ceil(q) <= k
    ensures 1 <= k <= n <= FIRST_WRONG_MODE && (n + 1) as real > PHI_LOW * (k as real) ==> Ceil(q) == k
  {
    hide Rounded, Ceil;
    CeilAtMost((n as real) * INV_PHI_DOUBLE, q, k);
    if 1 <= k <= n <= FIRST_WRONG_MODE && (n + 1) as real > PHI_LOW * (k as real) {
      RoundedWithinCuts(n as real, 0.0, q);
      LowCuts(n as real, k as real);
      CeilOrder(q, k);
    }
  }

  lemma PullForm(n: nat)
    requires n >= 1 && GetSyncMode(n) == Pull
    ensures 1 <= CeilDivPhi(n) <= n && Form(n + 1, CeilDivPhi(n)) > 0
  {
    hide Form;
  }

  lemma AboveLowCut(x: real, y: real)
    requires x >= 0.0 && y >= 1.0 && RealForm(x, y) > 0.0
    ensures x > PHI_LOW * y
  {
    hide RealForm;
    PhiFactor(x, y, PHI_LOW, y * y);
    RealScale(0.0, y, y);
    LowErrorPositive();
    RealScale(0.0, PhiError(PHI_LOW), y * y);
    hide PhiError;
    RealScale(0.5, PHI_LOW - 1.0, y);
    FactorSign(x - PHI_LOW * y, x + (PHI_LOW - 1.0) * y);
  }

  lemma LowErrorPositive()
    ensures PhiError(PHI_LOW) >= 0.0
  {
  }

  lemma LowCuts(n: real, k: real)
    requires n + 1.0 > PHI_LOW * k && 1.0 <= k <= n <= 200000000.0
    ensures INV_LOW * n > k - 1.0
  {
  }

  lemma CandidateLimit(n: nat)
    requires 1 <= n < FIRST_WRONG_MODE
    ensures 1 <= CeilDivPhi(n) < FIRST_WRONG
  {
    hide Form;
    var k := CeilDivPhi(n);
    LastForm();
    if k >= FIRST_WRONG {
      Down(n, FIRST_WRONG - 1, k - 1);
      Up(n, FIRST_WRONG_MODE - 1, FIRST_WRONG - 1);
    }
  }

  lemma LastForm()
    ensures Form(FIRST_WRONG_MODE - 1, FIRST_WRONG - 1) <= 0
  {
  }

  lemma CandidatePositive(n: nat, q: real)
    requires n >= 1 && Rounded((n as real) * INV_PHI_DOUBLE, q)
    ensures Ceil(q) >= 1
  {
    hide Rounded;
    RoundedWithinCuts(n as real, 0.0, q);
    CeilOrder(q, 1);
  }

  lemma PullThere()
    ensures CeilDivPhi(FIRST_WRONG_MODE) == FIRST_WRONG && GetSyncMode(FIRST_WRONG_MODE) == Pull
  {
    hide Form, FloorPhi, ComputedFloor;
    FloorMiscomputed();
    CandidateSuffices(FIRST_WRONG_MODE, FIRST_WRONG);
  }

  lemma ModeMiscomputed()
    ensures ComputedMode(FIRST_WRONG_MODE) != GetSyncMode(FIRST_WRONG_MODE)
  {
    hide Round, Rounded, Form, RealForm, FloorPhi, Ceil, ComputedFloor;
    PullThere();
    WholeIsDouble(FIRST_WRONG_MODE);
    RoundIsRounded((FIRST_WRONG_MODE as real) * INV_PHI_DOUBLE);
    PullForm(FIRST_WRONG_MODE);
    FormOverReals(FIRST_WRONG_MODE, FIRST_WRONG);
    BelowInverse(FIRST_WRONG_MODE as real, FIRST_WRONG as real);
    FormOverReals(FIRST_WRONG_MODE + 1, FIRST_WRONG);
    AboveLowCut((FIRST_WRONG_MODE + 1) as real, FIRST_WRONG as real);
    CandidateIs(FIRST_WRONG_MODE, FIRST_WRONG, Round(Round(FIRST_WRONG_MODE as real) * INV_PHI_DOUBLE));
    FloorMiscomputed();
  }

  /** The computed modes of all rounds up to last are exact if and only if last comes before
      165580140. */
  lemma ModesExactly(last: nat)
    ensures (forall r: nat | 1 <= r <= last :: ComputedMode(r) == GetSyncMode(r)) <==> last < FIRST_WRONG_MODE
  {
    hide Round, Rounded, Form, RealForm, FloorPhi, Ceil, ComputedFloor;
    ModeMiscomputed();
    if last < FIRST_WRONG_MODE {
      forall r: nat | 1 <= r <= last
        ensures ComputedMode(r) == GetSyncMode(r)
      {
        var q, c := Round(Round(r as real) * INV_PHI_DOUBLE), CeilDivPhi(r);
        WholeIsDouble(r);
        RoundIsRounded((r as real) * INV_PHI_DOUBLE);
        FormOverReals(r, c);
        BelowInverse(r as real, c as real);
        CandidateIs(r, c, q);
        CandidatePositive(r, q);
        CandidateLimit(r);
        FloorComputed(Ceil(q));
        if GetSyncMode(r) == Pull {
          PullForm(r);
          FormOverReals(r + 1, c);
          AboveLowCut((r + 1) as real, c as real);
        } else if FloorPhi(Ceil(q)) == r {
          CandidateSuffices(r, Ceil(q));
        }
      }
    }
  }
}
