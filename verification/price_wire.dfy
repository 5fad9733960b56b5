/** Prices on the wire: a double is multiplied by ten thousand, rounded, and truncated to a whole
    number of ticks; the reader divides, rounded again. What survives this, exactly. */
module PriceWire {
  import opened Arithmetic
  import opened Doubles

  /** Conversion to an integer drops the fraction. */
  function Truncate(x: real): int {
    if x >= 0.0 then x.Floor else -((-x).Floor)
  }

  /** The ticks sent for a price. */
  function Ticks(price: real): int {
    Truncate(Round(price * 10000.0))
  }

  /** The price read from ticks. */
  function FromTicks(t: int): real {
    Round(Round(t as real) / 10000.0)
  }

  /** The price after one trip over the wire. */
  function Carried(price: real): real {
    FromTicks(Ticks(price))
  }

  predicate Survives(price: real) {
    Carried(price) == price
  }

  // ---- any number of trips ----

  lemma TruncateMonotone(x: real, y: real)
    requires x <= y
    ensures Truncate(x) <= Truncate(y)
  {
    FloorMonotone(x, y);
    FloorMonotone(-y, -x);
  }

  lemma FloorMonotone(x: real, y: real)
    ensures x <= y ==> x.Floor <= y.Floor
    ensures x >= 0.0 ==> x.Floor >= 0
  {
  }

  /** A dearer price never arrives cheaper. */
  lemma CarriedMonotone(p: real, q: real)
    requires p <= q
    ensures Carried(p) <= Carried(q)
  {
    hide Round, Truncate;
    ScaleLeq(p, q, 10000.0);
    RoundMonotone(p * 10000.0, q * 10000.0);
    TruncateMonotone(Round(p * 10000.0), Round(q * 10000.0));
    var s, t := Ticks(p), Ticks(q);
    WholeLeq(s, t);
    RoundMonotone(s as real, t as real);
    TenthsLeq(Round(s as real), Round(t as real));
    RoundMonotone(Round(s as real) / 10000.0, Round(t as real) / 10000.0);
  }

  lemma TenthsLeq(a: real, b: real)
    requires a <= b
    ensures a / 10000.0 <= b / 10000.0
  {
  }

  /** The price after a number of trips, from node to node. */
  function Trips(price: real, n: nat): real {
    if n == 0 then price else Carried(Trips(price, n - 1))
  }

  lemma {:induction false} SurvivorStays(price: real, n: nat)
    requires Survives(price)
    ensures Trips(price, n) == price
  {
    hide Carried;
    if n > 0 {
      SurvivorStays(price, n - 1);
    }
  }

  lemma {:induction false} FallsAway(price: real, n: nat)
    requires n >= 1
    ensures Carried(price) < price ==> Trips(price, n) < price
    ensures Carried(price) > price ==> Trips(price, n) > price
  {
    hide Carried;
    var before := Trips(price, n - 1);
    if n > 1 {
      FallsAway(price, n - 1);
    }
    if before <= price { CarriedMonotone(before, price); }
    if before >= price { CarriedMonotone(price, before); }
  }

  /** A price that one trip changes is never restored by further ones: after any number of trips
      it is what it was if and only if it survives the first. */
  lemma TripsReturnExactly(price: real, n: nat)
    requires n >= 1
    ensures Trips(price, n) == price <==> Survives(price)
  {
    hide Carried;
    if Survives(price) {
      SurvivorStays(price, n);
    }
    FallsAway(price, n);
  }

  // ---- negative prices mirror positive ones ----

  lemma Mirrored(price: real, t: int)
    ensures Ticks(-price) == -Ticks(price) && FromTicks(-t) == -FromTicks(t)
  {
    hide Round;
    RoundNegated(price * 10000.0);
    assert -price * 10000.0 == -(price * 10000.0);
    RoundNegated(t as real);
    assert (-t) as real == -(t as real);
    RoundNegated(Round(t as real) / 10000.0);
    assert -Round(t as real) / 10000.0 == -(Round(t as real) / 10000.0);
  }

  // ---- which products reach a whole number ----

  /** Half the distance from a whole number to the double below it. */
  function HalfGap(t: nat): real
    requires t >= 1
  {
    var e := Exponent(t as real);
    if t as real == Pow2(e) then Pow2(e - 54) else Pow2(e - 53)
  }

  const TICK_LIMIT: nat := 4_503_599_627_370_496

  /** Below t minus the half gap, rounding stays below t. */
  lemma FallsShort(x: real, t: nat)
    requires 0.0 < x && t >= 1 && x < t as real - HalfGap(t)
    ensures Round(x) < t as real
  {
    hide Pow2, Exponent, Round;
    var e := Exponent(t as real);
    var f := BinadeOf(x);
    RoundError(x, f);
    BinadeOrder(x, f, t as real, e);
    if t as real == Pow2(e) {
      BinadeBelow(x, f, e);
      Pow2Order(f - 53, e - 54);
    } else {
      Pow2Order(f - 53, e - 53);
    }
  }

  lemma ExponentLimit(t: nat)
    requires 1 <= t <= TICK_LIMIT
    ensures 0 <= Exponent(t as real) <= 52
    ensures Exponent(t as real) == 52 ==> t as real == Pow2(52)
  {
    hide Pow2, Exponent;
    Pow2At52();
    Pow2Zero();
    var e := Exponent(t as real);
    if e < 0 {
      Pow2Order(e + 1, 0);
    }
    if e >= 52 {
      Pow2Order(52, e);
      if e >= 53 { Pow2Order(53, e); }
    }
  }

  /** At t minus the half gap the tie is won by t, whose significand is even. */
  lemma TieReaches(t: nat)
    requires 1 <= t <= TICK_LIMIT
    ensures t as real - HalfGap(t) > 0.0
    ensures Round(t as real - HalfGap(t)) == t as real
  {
    hide Pow2, Exponent, Round, RoundAt;
    var e := Exponent(t as real);
    ExponentLimit(t);
    if t as real == Pow2(e) {
      PowerTie(e);
    } else {
      WithinTie(t, e);
    }
  }

  /** Half-way below an even significand. */
  lemma TieUp(x: real, b: int, k: int, v: real)
    requires x > 0.0 && InBinade(x, b) && k % 2 == 0
    requires x * Pow2(52 - b) == k as real - 0.5 && v == k as real * Pow2(b - 52)
    ensures Round(x) == v
  {
    hide Pow2, Exponent, Round, RoundEven, PowerOfTwo;
    RoundInBinade(x, b);
    var q := x * Pow2(52 - b);
    RoundAtIs(x, b, q);
    TieBelowEven(q, k);
  }

  lemma Pow2MinusOne()
    ensures Pow2(-1) == 0.5
  {
  }

  lemma Distribute(a: real, b: real, c: real)
    ensures (a - b) * c == a * c - b * c
  {
  }

  /** Just below a power of two the doubles are twice as dense. */
  lemma PowerTie(e: int)
    ensures Pow2(e) - Pow2(e - 54) > 0.0
    ensures Round(Pow2(e) - Pow2(e - 54)) == Pow2(e)
  {
    hide Pow2, Exponent, Round, RoundEven, PowerOfTwo;
    var x, b := Pow2(e) - Pow2(e - 54), e - 1;
    WholePower(53);
    var k := PowerOfTwo(53);
    Pow2Next(e - 1);
    Pow2Order(e - 54, e - 1);
    Pow2Next(e - 54);
    Pow2Order(e - 53, e - 1);
    Pow2Add(e, 52 - b);
    Pow2Add(e - 54, 52 - b);
    Pow2MinusOne();
    Distribute(Pow2(e), Pow2(e - 54), Pow2(52 - b));
    Pow2Add(53, b - 52);
    TieUp(x, b, k, Pow2(e));
  }

  lemma WithinTie(t: nat, e: int)
    requires 1 <= t && 0 <= e <= 51 && Pow2(e) < t as real < Pow2(e + 1)
    ensures t as real - Pow2(e - 53) > 0.0
    ensures Round(t as real - Pow2(e - 53)) == t as real
  {
    hide Pow2, Exponent, Round, RoundEven, PowerOfTwo;
    var x, y := t as real - Pow2(e - 53), t as real;
    WholePower(52 - e);
    WholePower(e);
    var k, p := PowerOfTwo(52 - e), PowerOfTwo(e);
    WholeGap(t, p);
    Pow2Zero();
    Pow2Order(e - 53, 0);
    Pow2Order(e - 53, e);
    Pow2Add(e - 53, 52 - e);
    Pow2MinusOne();
    Distribute(y, Pow2(e - 53), Pow2(52 - e));
    WholeProduct(t, k);
    EvenProduct(t, k);
    Pow2Add(52 - e, e - 52);
    Assoc(y, Pow2(52 - e), Pow2(e - 52));
    TieUp(x, e, t * k, y);
  }

  lemma WholeGap(t: int, p: int)
    ensures t as real > p as real ==> t as real >= p as real + 1.0
  {
    WholeLeq(t, p);
    WholeLeq(p + 1, t);
    assert (p + 1) as real == p as real + 1.0;
  }

  lemma EvenProduct(t: int, k: int)
    requires k % 2 == 0
    ensures (t * k) % 2 == 0
  {
    var h := k / 2;
    assert t * k == 2 * (t * h);
  }

  /** A product is rounded to t or above if and only if it is at most half a gap below t. */
  lemma ReachesExactly(x: real, t: nat)
    requires 0.0 < x && 1 <= t <= TICK_LIMIT
    ensures Round(x) >= t as real <==> x >= t as real - HalfGap(t)
  {
    hide HalfGap, Round;
    TieReaches(t);
    if x >= t as real - HalfGap(t) {
      RoundMonotone(t as real - HalfGap(t), x);
    } else {
      FallsShort(x, t);
    }
  }

  /** The ticks sent for a price, decided before anything is rounded: t of them if and only if the
      exact product is at most half a gap below t and more than half a gap below t + 1. */
  lemma SentTicksExactly(price: real, t: nat)
    requires price > 0.0 && 1 <= t < TICK_LIMIT
    ensures Ticks(price) == t <==>
            t as real - HalfGap(t) <= price * 10000.0 < (t + 1) as real - HalfGap(t + 1)
  {
    hide HalfGap, Round;
    ScaleLess(0.0, price, 10000.0);
    var x := price * 10000.0;
    ReachesExactly(x, t);
    ReachesExactly(x, t + 1);
    RoundSign(x);
    FloorIs(Round(x), t);
  }

  lemma FloorIs(x: real, t: int)
    ensures x.Floor == t <==> t as real <= x < (t + 1) as real
  {
  }

  // ---- which ticks survive ----

  /** Tick t in units of the last place of the double t / 10000, for that double in binade b. */
  function InUnits(t: nat, b: int): nat
    requires b <= 52
  {
    t * PowerOfTwo(52 - b)
  }

  lemma WholeTenths(n: nat)
    requires n % 10000 != 5000
    ensures RoundEven(n as real / 10000.0) == if n % 10000 < 5000 then n / 10000 else n / 10000 + 1
  {
    hide RoundEven;
    var f, r := n / 10000, n % 10000;
    assert n as real == 10000.0 * (f as real) + r as real;
    NearestIs(n as real / 10000.0, if r < 5000 then f else f + 1);
  }

  /** The reader's price of tick t, from the nearest whole number of units. */
  lemma ReadUnits(t: nat, b: int) returns (k: real, u: real)
    requires 1 <= t <= TICK_LIMIT && b <= 52 && InBinade(t as real / 10000.0, b)
    ensures FromTicks(t) == k * u
    ensures k == RoundEven(InUnits(t, b) as real / 10000.0) as real && u == Pow2(b - 52)
  {
    hide Pow2, Exponent, Round, RoundAt, RoundEven, PowerOfTwo, InBinade;
    var x, n := t as real / 10000.0, InUnits(t, b);
    WholeIsDouble(t);
    RoundInBinade(x, b);
    WholePower(52 - b);
    WholeProduct(t, PowerOfTwo(52 - b));
    TenthScaled(t as real, Pow2(52 - b));
    RoundAtIs(x, b, n as real / 10000.0);
    k, u := RoundEven(n as real / 10000.0) as real, Pow2(b - 52);
  }

  /** What the reader makes of tick t, times ten thousand, in those units. */
  lemma ReadTick(t: nat, b: int)
    requires 1 <= t <= TICK_LIMIT && b <= 52 && InBinade(t as real / 10000.0, b)
    requires InUnits(t, b) % 10000 != 5000
    ensures var n := InUnits(t, b);
            FromTicks(t) * 10000.0 * Pow2(52 - b)
            == if n % 10000 < 5000 then (n - n % 10000) as real else (n - n % 10000 + 10000) as real
  {
    hide Pow2, FromTicks, RoundEven, InUnits, InBinade;
    var n := InUnits(t, b);
    var k, u := ReadUnits(t, b);
    WholeTenths(n);
    Pow2Inverse(52 - b);
    UnitsBack(FromTicks(t), k, u, Pow2(52 - b));
    TenThousandths(n);
  }

  lemma TenThousandths(n: nat)
    ensures (n / 10000) as real * 10000.0 == (n - n % 10000) as real
    ensures (n / 10000 + 1) as real * 10000.0 == (n - n % 10000 + 10000) as real
  {
    assert n - n % 10000 == 10000 * (n / 10000);
  }

  lemma TenthScaled(t: real, p: real)
    ensures t / 10000.0 * p == (t * p) / 10000.0
  {
  }

  lemma UnitsBack(f: real, k: real, u: real, p: real)
    requires p * u == 1.0 && f == k * u
    ensures f * 10000.0 * p == k * 10000.0
  {
    assert f * p == k * (p * u);
    assert f * 10000.0 * p == (f * p) * 10000.0;
  }

  /** With half a gap worth g units, t is reached again unless the remainder exceeds g. */
  lemma ReachedAgain(t: nat, b: int, g: nat)
    requires 1 <= t <= TICK_LIMIT && b <= 52 && InBinade(t as real / 10000.0, b)
    requires InUnits(t, b) % 10000 != 5000 && HalfGap(t) * Pow2(52 - b) == g as real
    ensures FromTicks(t) * 10000.0 >= t as real - HalfGap(t) <==>
            InUnits(t, b) % 10000 > 5000 || InUnits(t, b) % 10000 <= g
  {
    hide Pow2, HalfGap, FromTicks, PowerOfTwo, InBinade;
    var n := InUnits(t, b);
    var r := n % 10000;
    ReadTick(t, b);
    WholePower(52 - b);
    WholeProduct(t, PowerOfTwo(52 - b));
    Distribute(t as real, HalfGap(t), Pow2(52 - b));
    var x, y := FromTicks(t) * 10000.0, t as real - HalfGap(t);
    assert y * Pow2(52 - b) == n as real - g as real;
    ScaleLeqExactly(y, x, Pow2(52 - b));
    if r < 5000 {
      WholeDifference(n, g, r);
    } else {
      assert (n - r + 10000) as real > n as real;
    }
  }

  lemma WholeDifference(n: int, g: int, r: int)
    ensures n as real - g as real <= (n - r) as real <==> r <= g
  {
    WholeLeq(r, g);
    assert (n - r) as real == n as real - r as real;
  }

  lemma ScaleLeqExactly(a: real, b: real, c: real)
    requires c > 0.0
    ensures a <= b <==> a * c <= b * c
  {
    if a <= b { ScaleLeq(a, b, c); } else { ScaleLess(b, a, c); }
  }

  /** The binade of t / 10000, by the leading bits of t: 10000 is 1.22 times 2^13. */
  predicate Upper(t: nat)
    requires t >= 1
  {
    10000 * PowerOfTwo(Log2(t)) <= 8192 * t
  }

  function TickBinade(t: nat): (b: int)
    requires t >= 1
  {
    if Upper(t) then Log2(t) - 13 else Log2(t) - 14
  }

  lemma SmallPowers()
    ensures Pow2(12) == 4096.0 && Pow2(13) == 8192.0 && Pow2(14) == 16384.0
  {
  }

  lemma TickInBinade(t: nat)
    requires t >= 1
    ensures InBinade(t as real / 10000.0, TickBinade(t))
  {
    hide Pow2, PowerOfTwo, Log2;
    var e := Log2(t);
    var p := PowerOfTwo(e);
    LogBounds(t);
    WholePower(e);
    WholeLeq(p, t);
    WholeLeq(t + 1, 2 * p);
    WholeLeq(10000 * p, 8192 * t);
    Pow2Next(e);
    Pow2Down(e);
    assert (2 * p) as real == 2.0 * (p as real) && (10000 * p) as real == 10000.0 * (p as real);
    assert (8192 * t) as real == 8192.0 * (t as real);
  }

  lemma LogBounds(t: nat)
    requires t >= 1
    ensures PowerOfTwo(Log2(t)) <= t < 2 * PowerOfTwo(Log2(t))
  {
  }

  lemma Pow2Down(e: int)
    ensures Pow2(e) == 8192.0 * Pow2(e - 13) && Pow2(e) == 16384.0 * Pow2(e - 14)
    ensures Pow2(e - 12) == 2.0 * Pow2(e - 13)
  {
    hide Pow2;
    SmallPowers();
    Pow2Add(e - 13, 13);
    Pow2Next(e - 14);
    Pow2Next(e - 13);
  }

  lemma LogIsExponent(t: nat)
    requires t >= 1
    ensures Exponent(t as real) == Log2(t)
    ensures Pow2(Log2(t)) == PowerOfTwo(Log2(t)) as real
  {
    hide Pow2, PowerOfTwo, Log2, Exponent;
    var e := Log2(t);
    LogBounds(t);
    WholePower(e);
    Pow2Next(e);
    WholeLeq(PowerOfTwo(e), t);
    WholeLeq(t + 1, 2 * PowerOfTwo(e));
    BinadeUnique(t as real, e);
  }

  lemma LogLimit(t: nat)
    requires 1 <= t < TICK_LIMIT
    ensures Log2(t) <= 51
  {
    hide Pow2, PowerOfTwo, Log2, Exponent;
    LogIsExponent(t);
    ExponentLimit(t);
    Pow2At52();
  }

  /** Half a gap below t in units of the last place of t / 10000. */
  lemma GapInUnits(t: nat)
    requires t >= 1
    ensures HalfGap(t) * Pow2(52 - TickBinade(t))
            == if t == PowerOfTwo(Log2(t)) || Upper(t) then 4096.0 else 8192.0
    ensures t == PowerOfTwo(Log2(t)) ==> !Upper(t)
  {
    hide Pow2, PowerOfTwo, Log2, Exponent;
    LogIsExponent(t);
    var e: int, b := Log2(t), TickBinade(t);
    WholeLeq(t, PowerOfTwo(e));
    WholeLeq(PowerOfTwo(e), t);
    SmallPowers();
    Pow2Add(e - 54, 52 - b);
    Pow2Add(e - 53, 52 - b);
  }

  lemma UnitsDivisible(t: nat, b: int)
    requires b <= 48
    ensures InUnits(t, b) % 16 == 0 && InUnits(t, b) % 10000 % 16 == 0
  {
    hide PowerOfTwo;
    PowerAdd(48 - b, 4);
    SixteenIs();
    var c := t * PowerOfTwo(48 - b);
    assert t * (PowerOfTwo(48 - b) * 16) == 16 * c;
    Sixteenths(c);
  }

  lemma SixteenIs()
    ensures PowerOfTwo(4) == 16
  {
  }

  lemma Sixteenths(c: nat)
    ensures (16 * c) % 16 == 0 && (16 * c) % 10000 % 16 == 0
  {
    var n := 16 * c;
    assert n % 10000 == n - 10000 * (n / 10000);
    assert n % 10000 == 16 * (c - 625 * (n / 10000));
  }

  /** Powers of two: 2^66 leaves 6464, so their ticks are rounded up. */
  lemma PowerUnits(e: nat)
    requires e <= 51
    ensures InUnits(PowerOfTwo(e), e - 14) % 10000 == 6464
  {
    hide PowerOfTwo;
    PowerAdd(e, 66 - e);
    Power66();
  }

  lemma Power66()
    ensures PowerOfTwo(66) == 73786976294838206464
  {
    assert PowerOfTwo(11) == 2048;
    hide PowerOfTwo;
    PowerAdd(11, 11);
    PowerAdd(22, 11);
    PowerAdd(33, 33);
  }

  /** Tick t is lost, decided by t alone. */
  predicate LosesATick(t: nat)
    requires 1 <= t < TICK_LIMIT
  {
    LogLimit(t);
    Upper(t) && 4096 < (t * PowerOfTwo(65 - Log2(t))) % 10000 < 5000
  }

  lemma ReachedExactly(t: nat)
    requires 1 <= t < TICK_LIMIT
    ensures FromTicks(t) * 10000.0 >= t as real - HalfGap(t) <==> !LosesATick(t)
  {
    hide Pow2, PowerOfTwo, Log2, Exponent, HalfGap, FromTicks, Upper;
    var e, b := Log2(t), TickBinade(t);
    LogLimit(t);
    LogFloor(t);
    TickInBinade(t);
    GapInUnits(t);
    UnitsDivisible(t, b);
    var r := InUnits(t, b) % 10000;
    SixteenNot5000(r);
    if t == PowerOfTwo(e) {
      PowerUnits(e);
      ReachedAgain(t, b, 4096);
    } else {
      ReachedAgain(t, b, if Upper(t) then 4096 else 8192);
    }
  }

  lemma LogFloor(t: nat)
    requires t >= 1
    ensures Log2(t) >= 0
  {
  }

  lemma SixteenNot5000(r: nat)
    requires r % 16 == 0
    ensures r != 5000
  {
  }

  /** The price of a tick, times ten thousand, is within a third of the tick. */
  lemma CloseToTick(t: nat)
    requires 1 <= t < TICK_LIMIT
    ensures t as real - 0.33 < FromTicks(t) * 10000.0 < t as real + 0.33
  {
    hide Pow2, PowerOfTwo, Log2, Exponent, Round, InBinade;
    LogLimit(t);
    TickInBinade(t);
    var x, b := t as real / 10000.0, TickBinade(t);
    WholeIsDouble(t);
    RoundError(x, b);
    Pow2Order(b - 53, -15);
    SmallInverse();
    assert x * 10000.0 == t as real;
  }

  lemma SmallInverse()
    ensures Pow2(-15) * 10000.0 < 0.33
  {
    Pow2Inverse(15);
    assert Pow2(14) == 16384.0;
    Pow2Next(14);
  }

  /** A half gap is a quarter at most. */
  lemma GapLimit(t: nat)
    requires 1 <= t <= TICK_LIMIT
    ensures 0.0 < HalfGap(t) <= 0.25
  {
    hide Pow2, Exponent;
    ExponentLimit(t);
    var e := Exponent(t as real);
    Pow2Order(e - 54, -2);
    if e <= 51 {
      Pow2Order(e - 53, -2);
    }
    Quarter();
  }

  lemma Quarter()
    ensures Pow2(-2) == 0.25
  {
  }

  lemma TicksPositive(t: nat)
    requires 1 <= t < TICK_LIMIT
    ensures FromTicks(t) > 0.0
  {
    hide FromTicks;
    CloseToTick(t);
  }

  lemma NeverLosesOne()
    ensures !LosesATick(1)
  {
    hide PowerOfTwo;
    LogBounds(1);
    PowerOne();
  }

  lemma PowerOne()
    ensures PowerOfTwo(0) == 1 && Log2(1) == 0
  {
  }

  /** What arrives of tick t, in whole ticks: t, or one less where t loses a tick. */
  lemma TickArrives(t: nat)
    requires 1 <= t < TICK_LIMIT
    ensures Ticks(FromTicks(t)) == if LosesATick(t) then t - 1 else t
  {
    hide Ticks, FromTicks, HalfGap, LosesATick;
    var price := FromTicks(t);
    TicksPositive(t);
    CloseToTick(t);
    GapLimit(t);
    GapLimit(t + 1);
    ReachedExactly(t);
    NeverLosesOne();
    assert (t + 1) as real == t as real + 1.0;
    if LosesATick(t) {
      GapLimit(t - 1);
      assert (t - 1) as real == t as real - 1.0;
      SentTicksExactly(price, t - 1);
    } else {
      SentTicksExactly(price, t);
    }
  }

  lemma TicksApart(t: nat)
    requires 2 <= t < TICK_LIMIT
    ensures FromTicks(t - 1) < FromTicks(t)
  {
    hide FromTicks;
    CloseToTick(t);
    CloseToTick(t - 1);
    assert (t - 1) as real == t as real - 1.0;
  }

  /** The round trip of a tick price, decided by the number of ticks alone: the price nearest to t
      ten-thousandths comes back unchanged if and only if t does not lose a tick; otherwise it comes
      back as the price of t - 1. */
  lemma TickSurvivesExactly(t: nat)
    requires 1 <= t < TICK_LIMIT
    ensures Survives(FromTicks(t)) <==> !LosesATick(t)
    ensures LosesATick(t) ==> Carried(FromTicks(t)) == FromTicks(t - 1) < FromTicks(t)
  {
    hide Ticks, FromTicks, LosesATick;
    TickArrives(t);
    NeverLosesOne();
    if LosesATick(t) {
      TicksApart(t);
    }
  }

  /** Ticks whose leading bits are below 10000 / 2^13, that is 1.22, never lose. */
  lemma LowLeadingBitsSurvive(t: nat)
    requires 1 <= t < TICK_LIMIT && 8192 * t < 10000 * PowerOfTwo(Log2(t))
    ensures Survives(FromTicks(t))
  {
    hide Ticks, FromTicks, Survives;
    TickSurvivesExactly(t);
  }

  lemma NothingSent(price: real)
    requires Ticks(price) == 0
    ensures Carried(price) == 0.0
  {
    WholeIsDouble(0);
    RoundSign(0.0);
  }

  lemma TicksNotNegative(price: real)
    requires price > 0.0
    ensures Ticks(price) >= 0
  {
    hide Round;
    ScaleLess(0.0, price, 10000.0);
    RoundSign(price * 10000.0);
    FloorMonotone(0.0, Round(price * 10000.0));
  }

  /** Which positive prices survive a trip: those nearest to a number of ticks that loses none. */
  lemma PriceSurvivesExactly(price: real)
    requires price > 0.0 && Ticks(price) < TICK_LIMIT
    ensures Survives(price) <==> exists t: nat :: 1 <= t < TICK_LIMIT && price == FromTicks(t) && !LosesATick(t)
  {
    hide Ticks, FromTicks, LosesATick, Carried, Survives;
    var s := Ticks(price);
    TicksNotNegative(price);
    SurvivesMeans(price);
    if s == 0 {
      NothingSent(price);
    } else {
      TickSurvivesExactly(s);
    }
    forall t: nat | 1 <= t < TICK_LIMIT && price == FromTicks(t) && !LosesATick(t)
      ensures Survives(price)
    {
      TickSurvivesExactly(t);
    }
  }

  lemma SurvivesMeans(price: real)
    ensures Survives(price) <==> Carried(price) == price
    ensures Carried(price) == FromTicks(Ticks(price))
  {
  }

  // ---- small cases ----

  lemma TickCases()
    ensures LosesATick(3) && LosesATick(10010) && LosesATick(10009) && !LosesATick(10008)
  {
    PowersUsed();
    hide PowerOfTwo;
    LogIs(3, 1);
    LogIs(10010, 13);
    LogIs(10009, 13);
    LogIs(10008, 13);
  }

  lemma LogIs(t: nat, e: nat)
    requires t >= 1 && PowerOfTwo(e) <= t < 2 * PowerOfTwo(e)
    ensures Log2(t) == e
  {
    hide PowerOfTwo, Log2;
    LogBounds(t);
    var k := Log2(t);
    PowerOrder(k, e);
    PowerOrder(e, k);
  }

  lemma {:induction false} PowerOrder(a: nat, b: nat)
    ensures a < b ==> 2 * PowerOfTwo(a) <= PowerOfTwo(b)
    decreases b
  {
    if a < b - 1 {
      PowerOrder(a, b - 1);
    }
  }

  lemma SmallPowersOfTwo()
    ensures PowerOfTwo(1) == 2 && PowerOfTwo(12) == 4096
  {
    assert PowerOfTwo(6) == 64;
  }

  lemma PowersUsed()
    ensures PowerOfTwo(1) == 2 && PowerOfTwo(13) == 8192
    ensures PowerOfTwo(52) == 4503599627370496 && PowerOfTwo(64) == 18446744073709551616
  {
    SmallPowersOfTwo();
    hide PowerOfTwo;
    PowerAdd(1, 12);
    PowerAdd(13, 13);
    PowerAdd(26, 26);
    PowerAdd(52, 12);
  }

  /** 0.0003 is carried as 0.0002. */
  lemma ThreeBecomesTwo()
    ensures Ticks(FromTicks(3)) == 2 && !Survives(FromTicks(3))
  {
    hide Ticks, FromTicks, Survives;
    TickCases();
    TickArrives(3);
    TickSurvivesExactly(3);
  }

  /** 1.0010 loses a tick on each of two trips: where an order went matters. */
  lemma TwoTripsLoseTwo()
    ensures Trips(FromTicks(10010), 1) == FromTicks(10009)
    ensures Trips(FromTicks(10010), 2) == FromTicks(10008)
    ensures FromTicks(10008) < FromTicks(10009) < FromTicks(10010)
  {
    hide Ticks, FromTicks, Survives, LosesATick, Carried;
    TickCases();
    TickSurvivesExactly(10010);
    TickSurvivesExactly(10009);
    var p := FromTicks(10010);
    assert Trips(p, 0) == p && Trips(p, 1) == Carried(p) && Trips(p, 2) == Carried(Trips(p, 1));
  }

  /** 1.00005 is carried as 1.0. */
  lemma FinePriceIsCut()
    ensures Carried(Round(1.00005)) == 1.0 < Round(1.00005)
  {
    hide Round, HalfGap;
    var price := Round(1.00005);
    OneBinade();
    RoundError(1.00005, 0);
    GapLimit(10000);
    GapLimit(10001);
    SentTicksExactly(price, 10000);
    WholeIsDouble(10000);
    WholeIsDouble(1);
  }

  lemma OneBinade()
    ensures InBinade(1.00005, 0) && Pow2(-53) < 0.00001
  {
    Pow2Inverse(20);
    assert Pow2(10) == 1024.0;
    Pow2Add(10, 10);
    Pow2Order(-53, -20);
  }
}
