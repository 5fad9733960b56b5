/** Products, quotients and remainders. */
module Arithmetic {
  lemma ProductNonNegative(a: int, b: int)
    requires a >= 0 && b >= 0
    ensures a * b >= 0
  {
  }

  lemma ScaleOrder(x: int, y: int, c: nat)
    requires x <= y
    ensures x * c <= y * c
  {
    ProductNonNegative(y - x, c);
  }

  lemma DivModRange(a: nat, b: nat, c: nat)
    requires c >= 1 && a < b * c
    ensures 0 <= a / c < b && 0 <= a % c < c && a == (a / c) * c + a % c
  {
    if a / c >= b {
      ScaleOrder(b, a / c, c);
    }
  }

  lemma DivModUnique(a: nat, q: nat, r: nat, c: nat)
    requires r < c && a == q * c + r
    ensures a / c == q && a % c == r
  {
    if a / c < q {
      ScaleOrder(a / c + 1, q, c);
    } else if q < a / c {
      ScaleOrder(q + 1, a / c, c);
    }
  }

  lemma ModBound(x: nat, m: nat)
    requires m >= 1
    ensures x % m <= x && (x < m ==> x % m == x)
  {
  }

  function PowerOfTwo(k: nat): (p: nat)
    ensures p >= 1
  {
    if k == 0 then 1 else 2 * PowerOfTwo(k - 1)
  }

  lemma PowerEven(k: nat)
    requires k >= 1
    ensures PowerOfTwo(k) % 2 == 0
  {
  }

  lemma {:induction false} PowerAdd(a: nat, b: nat)
    ensures PowerOfTwo(a + b) == PowerOfTwo(a) * PowerOfTwo(b)
    decreases b
  {
    if b > 0 {
      PowerAdd(a, b - 1);
      var p, q := PowerOfTwo(a), PowerOfTwo(b - 1);
      assert PowerOfTwo(a + b) == 2 * (p * q) && PowerOfTwo(b) == 2 * q;
      assert p * (2 * q) == 2 * (p * q);
    }
  }

  /** The position of the highest bit. */
  function Log2(t: nat): (e: nat)
    requires t >= 1
    ensures PowerOfTwo(e) <= t < PowerOfTwo(e + 1)
  {
    if t == 1 then 0 else Log2(t / 2) + 1
  }
}
