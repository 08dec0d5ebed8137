/** Floored integer arithmetic: every quotient of the contracts rounds towards zero on
    non-negative operands, and a `Decimal` is a count of 10^-18 units. */
module FixedPoint {

  /** The number of atomics in the decimal 1.0. */
  const ONE: nat := 1_000_000_000_000_000_000

  /** The number of nanoseconds in a second. */
  const NANOS: nat := 1_000_000_000

  function Pow2(n: nat): (p: nat)
    ensures p >= 1
  {
    if n == 0 then 1 else 2 * Pow2(n - 1)
  }

  function Pow10(n: nat): (p: nat)
    ensures p >= 1
  {
    if n == 0 then 1 else 10 * Pow10(n - 1)
  }

  /** Integer division rounding down, with the two bounds that characterise it. */
  function Floor(n: nat, d: nat): (q: nat)
    requires d > 0
    ensures q * d <= n < q * d + d
  {
    n / d
  }

  /** Integer division rounding up. */
  function Ceil(n: nat, d: nat): (q: nat)
    requires d > 0
    ensures n <= q * d < n + d
  {
    if n % d == 0 then n / d else n / d + 1
  }

  /** `Decimal::from_ratio`, in atomics. */
  function Ratio(n: nat, d: nat): nat
    requires d > 0
  {
    Floor(n * ONE, d)
  }

  /** `Uint128 * Decimal`: a whole amount times a decimal, rounded down to a whole amount. */
  function Scale(amount: nat, decimal: nat): nat {
    Floor(amount * decimal, ONE)
  }

  lemma FloorAtLeast(n: nat, d: nat, k: nat)
    requires d > 0 && k * d <= n
    ensures k <= Floor(n, d)
  {
    var q := Floor(n, d);
    if q < k {
      MulMono(q + 1, k, d);
      assert false;
    }
  }

  lemma FloorAtMost(n: nat, d: nat, k: nat)
    requires d > 0 && n < (k + 1) * d
    ensures Floor(n, d) <= k
  {
    var q := Floor(n, d);
    if q > k {
      MulMono(k + 1, q, d);
      assert false;
    }
  }

  lemma FloorIs(n: nat, d: nat, k: nat)
    requires d > 0 && k * d <= n < (k + 1) * d
    ensures Floor(n, d) == k
  {
    FloorAtLeast(n, d, k);
    FloorAtMost(n, d, k);
  }

  lemma FloorMono(m: nat, n: nat, d: nat)
    requires d > 0 && m <= n
    ensures Floor(m, d) <= Floor(n, d)
  {
    FloorAtLeast(n, d, Floor(m, d));
  }

  /** A larger divisor never gives a larger quotient. */
  lemma FloorAntitone(m: nat, n: nat, small: nat, large: nat)
    requires m <= n && 0 < small <= large
    ensures Floor(m, large) <= Floor(n, small)
  {
    MulMono(small, large, Floor(m, large));
    FloorAtLeast(n, small, Floor(m, large));
  }

  /** Two floors never exceed the floor of the sum. */
  lemma FloorSuperadditive(m: nat, n: nat, d: nat)
    requires d > 0
    ensures Floor(m, d) + Floor(n, d) <= Floor(m + n, d)
  {
    var a, b := Floor(m, d), Floor(n, d);
    assert (a + b) * d == a * d + b * d;
    FloorAtLeast(m + n, d, a + b);
  }

  lemma CeilAtMost(n: nat, d: nat, k: nat)
    requires d > 0 && n <= k * d
    ensures Ceil(n, d) <= k
  {
    var q := Ceil(n, d);
    if q > k {
      MulMono(k, q - 1, d);
      assert false;
    }
  }

  lemma CeilAtLeast(n: nat, d: nat, k: nat)
    requires d > 0 && k * d < n + d
    ensures k <= Ceil(n, d)
  {
    var q := Ceil(n, d);
    if q < k {
      MulMono(q, k - 1, d);
      assert false;
    }
  }

  lemma MulMono(a: nat, b: nat, c: nat)
    requires a <= b
    ensures a * c <= b * c && c * a <= c * b
  {
    assert b * c == a * c + (b - a) * c;
  }
}
