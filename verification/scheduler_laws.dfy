/** Properties of the schedule over whole ranges of rounds. */
module SchedulerLaws {
  import opened Arithmetic
  import opened Types
  import opened Golden
  import opened GoldenLaws
  import opened Scheduler

  // ---- how many rounds pull ----

  function PullCount(n: nat): nat {
    if n == 0 then 0 else PullCount(n - 1) + (if GetSyncMode(n).Pull? then 1 else 0)
  }

  /** c is the whole part of n/phi. */
  predicate IsFloorDivPhi(c: nat, n: nat) {
    Form(n, c) >= 0 > Form(n, c + 1)
  }

  /** A pull round is exactly one at which ceil(n/phi) grows. */
  lemma CeilGrowsOnPull(n: nat)
    requires n >= 1
    ensures CeilDivPhi(n + 1) == CeilDivPhi(n) + (if GetSyncMode(n).Pull? then 1 else 0)
  {
    hide Form;
    var k := CeilDivPhi(n);
    CeilDivPhiNext(n, k);
    CeilDivPhiUnique(CeilDivPhi(n + 1), if Form(n + 1, k) <= 0 then k else k + 1, n + 1);
    if Form(n + 1, k) > 0 {
      FloorPhiUnique(n, FloorPhi(k), k);
    }
  }

  lemma {:induction false} PullCountIsCeil(n: nat)
    ensures PullCount(n) == CeilDivPhi(n + 1) - 1
  {
    hide Form;
    if n == 0 {
      CeilOne();
    } else {
      PullCountIsCeil(n - 1);
      CeilGrowsOnPull(n);
    }
  }

  lemma CeilOne()
    ensures CeilDivPhi(1) == 1
  {
  }

  /** Exactly floor((n+1)/phi) of the rounds 1..n pull, which is within one of n/phi. */
  lemma ExactPullCount(n: nat)
    ensures IsFloorDivPhi(PullCount(n), n + 1)
    ensures Form(n, PullCount(n) + 1) < 0
    ensures PullCount(n) >= 1 ==> Form(n, PullCount(n) - 1) > 0
  {
    hide Form;
    PullCountIsCeil(n);
    var c := PullCount(n);
    NeverZero(n + 1, c + 1);
    assert Form(n, c + 1) < 0 by {
      NeverZero(n, c + 1);
      if Form(n, c + 1) > 0 { Up(n, n + 1, c + 1); }
    }
    if c >= 1 && Form(n, c - 1) <= 0 {
      CeilDivPhiLater(n, c - 1);
    }
  }

  lemma CeilDivPhiLater(n: nat, c: nat)
    requires Form(n, c) <= 0
    ensures Form(n + 1, c + 1) <= 0
  {
    assert n <= 2 * c by {
      if n > 2 * c { BeyondTwoK(n, c); }
    }
    ShiftOne(n, c);
  }

  // ---- fairness ----

  lemma {:induction false} FirstReach(r0: nat, d: nat, target: nat) returns (r: nat)
    requires FloorPhi(r0) <= target <= FloorPhi(r0 + d)
    ensures r0 <= r <= r0 + d && target <= FloorPhi(r) <= target + 1
    decreases d
  {
    hide Form;
    if d == 0 || FloorPhi(r0 + d - 1) < target {
      r := r0 + d;
      if d > 0 { FloorPhiStep(r0 + d - 1); }
    } else {
      r := FirstReach(r0, d - 1, target);
    }
  }

  lemma NextMultiple(v: nat, base: nat, m: nat) returns (w: nat, q: nat)
    requires base < m
    ensures v <= w <= v + m - 1 && w == q * m + base
  {
    var r := v % m;
    var d := v / m;
    assert v == d * m + r;
    if r <= base {
      w, q := d * m + base, d;
    } else {
      w, q := d * m + m + base, d + 1;
      assert (d + 1) * m == d * m + m;
    }
  }

  // ---- the pair count ----

  lemma PowerOf32()
    ensures PowerOfTwo(32) == TWO_32
  {
    assert PowerOfTwo(8) == 0x100;
    assert PowerOfTwo(16) == 0x1_0000;
    assert PowerOfTwo(24) == 0x100_0000;
  }

  /** An odd factor does not help to be a multiple of a power of two. */
  lemma {:induction false} OddCancels(a: nat, b: nat, k: nat, q: nat)
    requires b % 2 == 1 && a * b == q * PowerOfTwo(k)
    ensures exists c: nat :: a == c * PowerOfTwo(k)
    decreases k
  {
    if k == 0 {
      assert a == a * PowerOfTwo(0);
    } else {
      var p := PowerOfTwo(k - 1);
      assert q * (2 * p) == 2 * (q * p);
      EvenFactor(a, b, q * p);
      var h := a / 2;
      assert (2 * h) * b == 2 * (h * b);
      OddCancels(h, b, k - 1, q);
      var c: nat :| h == c * p;
      assert a == c * (2 * p);
    }
  }

  lemma EvenFactor(a: nat, b: nat, x: nat)
    requires b % 2 == 1 && a * b == 2 * x
    ensures a % 2 == 0
  {
    var h := b / 2;
    assert a * b == a * (2 * h + 1) == 2 * (a * h) + a;
  }

  /** The 32-bit pair count of two or more nodes is never zero, although it may wrap: of n and
      n - 1 one is odd, so the other would have to be a multiple of 2^32. */
  lemma NumPairsPositive(n: nat)
    requires 2 <= n < TWO_32
    ensures NumPairs(n) > 0
  {
    if NumPairs(n) == 0 {
      PowerOf32();
      var q := (n * (n - 1)) / TWO_32;
      var a := if n % 2 == 1 then n - 1 else n;
      OddCancels(a, 2 * n - 1 - a, 32, q);
      var c: nat :| a == c * PowerOfTwo(32);
      NotAMultiple(a, c);
    }
  }

  lemma NotAMultiple(a: nat, c: nat)
    requires 1 <= a < TWO_32
    ensures a != c * TWO_32
  {
  }

  // ---- fairness ----

  /** With at least three nodes and no 32-bit wrap, in any n*(n-1) consecutive rounds every node
      is the sender at least once. */
  lemma EveryNodeSends(n: nat, s: nat, r0: nat) returns (r: nat)
    requires 3 <= n && n * (n - 1) < TWO_32 && s < n
    ensures r0 <= r < r0 + n * (n - 1) && NumPairs(n) > 0 && GetPair(n, r).sender == s
  {
    hide Form, NumPairs;
    var m := n * (n - 1);
    NumPairsBound(n);
    ScaleOrder(1, n, n - 1);
    ScaleOrder(s, n - 1, n - 1);
    ProductNonNegative(s, n - 1);
    var base := s * (n - 1);
    FloorPhiGrowth(r0, m - 1);
    var w, q := NextMultiple(FloorPhi(r0), base, m);
    r := FirstReach(r0, m - 1, w);
    var off := FloorPhi(r) - w;
    ScaleOrder(s + 1, n, n - 1);
    DivModUnique(FloorPhi(r), q, base + off, m);
    DivModUnique(base + off, s, off, n - 1);
  }

  predicate SenderAt(n: nat, r: nat, s: nat) {
    n >= 2 && NumPairs(n) > 0 && GetPair(n, r).sender == s
  }

  ghost predicate SendsInCycle(n: nat, s: nat, r0: nat) {
    exists r: nat :: r0 <= r < r0 + n * (n - 1) && SenderAt(n, r, s)
  }

  ghost predicate Fair(n: nat) {
    forall s: nat, r0: nat :: s < n ==> SendsInCycle(n, s, r0)
  }

  /** Where the 32-bit pair count wraps, what is left of it never reaches the last node. */
  lemma LastNodeNeverSends(n: nat, r: nat)
    requires 2 <= n < TWO_32 <= n * (n - 1) && NumPairs(n) > 0
    ensures GetPair(n, r).sender < n - 1
  {
    hide FloorPhi;
    var m := n * (n - 1);
    ModSmaller(m, TWO_32);
    var index := FloorPhi(r) % NumPairs(n);
    assert m == (n - 1) * (n - 1) + (n - 1);
    DivModRange(index, n - 1, n - 1);
  }

  lemma ModSmaller(x: nat, m: nat)
    requires 1 <= m <= x
    ensures x % m <= x - m
  {
    ModBound(x - m, m);
    DivModUnique(x, (x - m) / m + 1, (x - m) % m, m);
  }

  /** Fairness within one cycle of n*(n-1) rounds holds exactly for three nodes or more whose pair
      count does not wrap: of two nodes one sends rounds 1 and 2, and where the count wraps the last
      node never sends. */
  lemma FairExactly(n: nat)
    requires 2 <= n < TWO_32
    ensures Fair(n) <==> n >= 3 && n * (n - 1) < TWO_32
  {
    hide NumPairs, FloorPhi, GetPair;
    if n * (n - 1) >= TWO_32 {
      NumPairsPositive(n);
      LastNodeUnfair(n);
    } else if n >= 3 {
      forall s: nat, r0: nat | s < n
        ensures SendsInCycle(n, s, r0)
      {
        var r := EveryNodeSends(n, s, r0);
        assert SenderAt(n, r, s);
      }
    } else {
      TwoNodesUnfair();
    }
  }

  lemma LastNodeUnfair(n: nat)
    requires 2 <= n < TWO_32 <= n * (n - 1) && NumPairs(n) > 0
    ensures !SendsInCycle(n, n - 1, 1)
  {
    hide NumPairs, GetPair;
    var last := n - 1;
    forall r: nat
      ensures !SenderAt(n, r, last)
    {
      LastNodeNeverSends(n, r);
    }
  }

  lemma FirstForms()
    ensures IsFloorPhi(1, 1) && IsFloorPhi(3, 2)
  {
  }

  lemma FirstFloors()
    ensures FloorPhi(1) == 1 && FloorPhi(2) == 3
  {
    hide Form, IsFloorPhi;
    FirstForms();
    FloorPhiUnique(1, FloorPhi(1), 1);
    FloorPhiUnique(3, FloorPhi(2), 2);
  }

  lemma OddIndexOfTwo(v: nat)
    requires v % 2 == 1
    ensures NumPairs(2) == 2 && DecodePair(2, v % NumPairs(2)).sender == 1
  {
    assert NumPairs(2) == 2;
  }

  lemma TwoNodesUnfair()
    ensures !SendsInCycle(2, 0, 1)
  {
    hide Form, FloorPhi, NumPairs, DecodePair;
    FirstFloors();
    OddIndexOfTwo(1);
    OddIndexOfTwo(3);
    assert !SenderAt(2, 1, 0) && !SenderAt(2, 2, 0);
  }

  // ---- the schedule never becomes periodic ----

  lemma ProductEven(n: nat) returns (x: nat)
    requires n >= 1
    ensures n * (n - 1) == 2 * x
  {
    var h := n / 2;
    if n % 2 == 0 {
      x := h * (n - 1);
      assert n == 2 * h;
    } else {
      x := n * h;
      assert n - 1 == 2 * h;
    }
  }

  lemma NumPairsEven(n: nat)
    requires n >= 2
    ensures NumPairs(n) % 2 == 0
  {
    var x := ProductEven(n);
    EvenMod(x);
  }

  lemma EvenMod(x: nat)
    ensures ((2 * x) % TWO_32) % 2 == 0
  {
  }

  function RoundAfter(r: nat, p: nat, i: nat): (u: nat)
    ensures u >= r
  {
    ProductNonNegative(i, p);
    r + i * p
  }

  /** The pair of round r + i*p + p repeats that of round r + i*p. */
  predicate Repeats(n: nat, p: nat, r: nat, i: nat)
    requires n >= 2 && NumPairs(n) > 0
  {
    GetPair(n, RoundAfter(r, p, i) + p) == GetPair(n, RoundAfter(r, p, i))
  }

  lemma SameIndexAfter(n: nat, p: nat, u: nat)
    requires n >= 2 && NumPairs(n) > 0 && GetPair(n, u + p) == GetPair(n, u)
    ensures FloorPhi(u + p) % NumPairs(n) == FloorPhi(u) % NumPairs(n)
  {
    hide Form, NumPairs, DecodePair;
    NumPairsBound(n);
    SamePairSameIndex(n, FloorPhi(u + p) % NumPairs(n), FloorPhi(u) % NumPairs(n));
  }

  lemma CongruentGap(a: int, d1: int, b: int, d2: int, m: nat)
    requires m >= 2 && (a + d1) % m == a % m && (b + d2) % m == b % m && -1 <= d1 - d2 <= 1
    ensures d1 == d2
  {
    GapDivides(a, d1, m);
    GapDivides(b, d2, m);
    var q1, q2 := d1 / m, d2 / m;
    assert d1 == q1 * m && d2 == q2 * m;
    assert d1 - d2 == (q1 - q2) * m;
    if q1 - q2 >= 1 {
      ScaleOrder(1, q1 - q2, m);
    } else if q1 - q2 <= -1 {
      ScaleOrder(q1 - q2, -1, m);
    }
  }

  lemma GapDivides(a: int, d: int, m: nat)
    requires m >= 1 && (a + d) % m == a % m
    ensures d % m == 0
  {
    var q := (a + d) / m - a / m;
    assert d == q * m;
    MultipleMod(q, m);
  }

  lemma MultipleMod(q: int, m: nat)
    requires m >= 1
    ensures (q * m) % m == 0
  {
    var x := q * m;
    RemainderOfMultiple(q, x / m, x % m, m);
  }

  lemma RemainderOfMultiple(q: int, e: int, rem: int, m: nat)
    requires q * m == e * m + rem && 0 <= rem < m
    ensures rem == 0
  {
    if e < q {
      ScaleOrder(e + 1, q, m);
    } else {
      ScaleOrder(q, e, m);
    }
  }

  /** If the pairs repeat with period p at r, r+p, ..., r+(t-1)*p, the whole part drifts linearly. */
  lemma {:induction false} LinearDrift(n: nat, p: nat, r: nat, t: nat, d: nat)
    requires n >= 2 && NumPairs(n) > 0 && t >= 1
    requires forall i: nat :: i < t ==> Repeats(n, p, r, i)
    requires d == FloorPhi(r + p) - FloorPhi(r)
    ensures FloorPhi(RoundAfter(r, p, t)) == FloorPhi(r) + t * d
    decreases t
  {
    hide Form, NumPairs, FloorPhi, GetPair;
    if t > 1 {
      LinearDrift(n, p, r, t - 1, d);
      assert Repeats(n, p, r, t - 1) && Repeats(n, p, r, 0);
      DriftStep(n, p, r, RoundAfter(r, p, t - 1), d);
      assert RoundAfter(r, p, t - 1) + p == RoundAfter(r, p, t);
    }
  }

  lemma DriftStep(n: nat, p: nat, r: nat, u: nat, d: nat)
    requires n >= 2 && NumPairs(n) > 0
    requires GetPair(n, u + p) == GetPair(n, u) && GetPair(n, r + p) == GetPair(n, r)
    requires d == FloorPhi(r + p) - FloorPhi(r)
    ensures FloorPhi(u + p) == FloorPhi(u) + d
  {
    hide Form, NumPairs, GetPair;
    SameIndexAfter(n, p, u);
    SameIndexAfter(n, p, r);
    FloorPhiAdd(u, p);
    FloorPhiAdd(r, p);
    NumPairsEven(n);
    CongruentGap(FloorPhi(u), FloorPhi(u + p) - FloorPhi(u), FloorPhi(r), d, NumPairs(n));
  }

  function CrossTerm(x: int, y: int, d: int, p: int): int {
    2 * x * d - x * p - y * d - 2 * y * p
  }

  lemma FormAlongLine(x: int, y: int, d: int, p: int, t: int)
    ensures Form(x + t * d, y + t * p) == t * t * Form(d, p) + t * CrossTerm(x, y, d, p) + Form(x, y)
  {
  }

  function Abs(x: int): nat {
    if x >= 0 then x else -x
  }

  /** For a nonzero leading coefficient a the quadratic takes the sign of a at this t. */
  lemma QuadraticSign(a: int, b: int, c: int, t: int)
    requires a != 0 && t == Abs(b) + Abs(c) + 1
    ensures a > 0 ==> t * t * a + t * b + c > 0
    ensures a < 0 ==> t * t * a + t * b + c < 0
  {
    if a > 0 {
      QuadraticPositive(a, b, c, t);
    } else {
      QuadraticPositive(-a, -b, -c, t);
      assert t * t * (-a) + t * (-b) - c == -(t * t * a + t * b + c);
    }
  }

  lemma QuadraticPositive(a: int, b: int, c: int, t: int)
    requires a > 0 && t == Abs(b) + Abs(c) + 1
    ensures t * t * a + t * b + c > 0
  {
    var u := t * a + b;
    ProductNonNegative(t, a - 1);
    ProductNonNegative(t - 1, u);
    assert t * t * a + t * b == t * u;
  }

  /** At this many periods the whole part would have left the line it is confined to. */
  lemma DriftEscapes(p: nat, r0: nat, d: nat) returns (t: nat)
    requires p >= 1
    ensures t >= 1 && FloorPhi(RoundAfter(r0, p, t)) != FloorPhi(r0) + t * d
  {
    hide Form, CrossTerm, Abs;
    NeverZero(d, p);
    var up := if Form(d, p) < 0 then 1 else 0;
    var x := FloorPhi(r0) + up;
    var b, c := CrossTerm(x, r0, d, p), Form(x, r0);
    t := Abs(b) + Abs(c) + 1;
    FormAlongLine(x, r0, d, p, t);
    QuadraticSign(Form(d, p), b, c, t);
  }

  /** The schedule is not periodic, not even from some round on: for every node count with a
      usable pair count, every period p and every start r0, some later round differs from the
      round p after it. */
  lemma NeverPeriodic(n: nat, p: nat, r0: nat)
    requires n >= 2 && NumPairs(n) > 0 && p >= 1
    ensures exists r: nat :: r >= r0 && GetPair(n, r + p) != GetPair(n, r)
  {
    hide Form, NumPairs, GetPair;
    FloorPhiGrowth(r0, p);
    var d: nat := FloorPhi(r0 + p) - FloorPhi(r0);
    var t := DriftEscapes(p, r0, d);
    if forall i: nat :: i < t ==> Repeats(n, p, r0, i) {
      LinearDrift(n, p, r0, t, d);
    } else {
      var i: nat :| i < t && !Repeats(n, p, r0, i);
      assert GetPair(n, RoundAfter(r0, p, i) + p) != GetPair(n, RoundAfter(r0, p, i));
    }
  }
}
