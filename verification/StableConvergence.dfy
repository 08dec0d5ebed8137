/** The source expects its Newton loop always to converge within 32 steps. With two pools that depends
    on how large the invariant is against the amplified new offer balance: up to 2^42 times it the
    loop always converges, and from 2^64 times it on it never does. */
module StableConvergence {
  import opened FixedPoint
  import opened Results
  import opened StableNewton
  import opened StableSwap
  import StableInvariant

  /** The largest coefficient there is for two pools. */
  const MAX_ANN: nat := StableAmp.MAX_AMP * 2

  /** Up to this ratio of D to the new offer balance times the coefficient, 32 steps are enough. */
  const ENOUGH: nat := 0x400_0000_0000

  /** From this ratio on they are not. */
  const TOO_FAR: nat := 0x1_0000_0000_0000_0000

  /** The two pools are those of the offered and of the asked asset, in either order. */
  predicate AreTraded(pools: seq<Pool>, from: nat, to: nat) {
    && from != to && |pools| == 2
    && ((pools[0].info == from && pools[1].info == to) || (pools[0].info == to && pools[1].info == from))
  }

  /** The quadratic for two pools, `x` being the new offer balance in whole units. */
  function TwoPools(x: nat, d: nat, ann: nat): Quadratic
    requires x > 0 && ann > 0
  {
    Quadratic(x + Floor(d, ann) - d, Product(x, d, ann))
  }

  /** d^3 / (4 * x * ann), floored twice. */
  function Product(x: nat, d: nat, ann: nat): nat
    requires x > 0 && ann > 0
  {
    Floor(Once(x, d) * d, ann * 2)
  }

  function Once(x: nat, d: nat): nat
    requires x > 0
  {
    Floor(d * d, x * 2)
  }

  // ---- the slope at the root ----

  /** The slope at the root is about the square root of the discriminant. */
  lemma SlopeSquared(s: nat, e: int, c: nat) returns (w: nat)
    requires IsRoot(s, e, c)
    ensures w == 2 * s + e + 2 && w >= 2 && w > -e && w * w >= 4 * c + 4
  {
    SlopePositive(s, e, c);
    w := 2 * s + e + 2;
    var t := 2 * (s + 1);
    assert 4 * F(s + 1, e) == t * t + 2 * (e * t);
    assert w * w == t * t + 2 * (e * t) + e * e;
    AboveNegated(e, w, c);
  }

  lemma AboveNegated(e: int, w: nat, c: nat)
    requires w * w >= e * e + 4 * c + 4
    ensures -e < w && w * w >= 4 * c + 4
  {
    assert e * e >= 0;
    if -e >= w {
      var a: nat := -e;
      assert a * a == e * e;
      MulMono(w, a, w);
      MulMono(w, a, a);
      assert false;
    }
  }

  /** Whatever the pools, the slope is not much smaller than d: a flat quadratic would need a sum
      close to d, and then the product part is large. */
  lemma SlopeIsSteep(x: nat, d: nat, ann: nat, e: int, c: nat, s: nat)
    requires x > 0 && d >= 16384 && 2 <= ann <= MAX_ANN
    requires TwoPools(x, d, ann) == Quadratic(e, c) && IsRoot(s, e, c)
    ensures d < 8192 * (2 * s + e)
  {
    var w := SlopeSquared(s, e, c);
    Steep(x, d, ann, e, c, w, Floor(d, ann));
  }

  lemma Steep(x: nat, d: nat, ann: nat, e: int, c: nat, w: nat, part: nat)
    requires x > 0 && d >= 16384 && 0 < ann <= MAX_ANN
    requires e == x + part - d && c == Product(x, d, ann) && w > -e && w >= e + 2 && w * w >= 4 * c + 4
    ensures d < 8192 * (w - 2)
  {
    if 4 * e < d && -4 * e < d {
      LargeProduct(x, d, ann, w, c);
    }
  }

  lemma LargeProduct(x: nat, d: nat, ann: nat, w: nat, c: nat)
    requires d >= 16384 && 0 < ann <= MAX_ANN && 4 * x <= 5 * d && w * w >= 4 * c + 4
    requires x > 0 && c == Product(x, d, ann)
    ensures d < 4096 * w
  {
    var k := Once(x, d);
    FoldIsLarge(x, d, k);
    ProductAgainstSlope(c, ann, k * d, w * w);
    FoldTimes(d, k, w * w);
    CompareRoots(d, w);
  }

  lemma FoldTimes(d: nat, k: nat, ww: nat)
    requires d >= 16384 && 5 * k >= 2 * d - 4 && 2 * (k * d) < MAX_ANN * ww
    ensures 3 * (d * d) < 10_000_000 * ww
  {
    MulMono(2 * d - 4, 5 * k, d);
    assert (2 * d - 4) * d == 2 * (d * d) - 4 * d && 5 * k * d == 5 * (k * d);
    MulMono(16384, d, d);
  }

  lemma ProductAgainstSlope(c: nat, ann: nat, kd: nat, ww: nat)
    requires ann <= MAX_ANN && kd < c * (ann * 2) + ann * 2 && ww >= 4 * c + 4
    ensures 2 * kd < MAX_ANN * ww
  {
    MulMono(4 * c + 4, ww, ann);
    assert (4 * c + 4) * ann == 2 * (c * (ann * 2) + ann * 2);
    MulMono(ann, MAX_ANN, ww);
  }

  lemma CompareRoots(d: nat, w: nat)
    requires 3 * (d * d) < 10_000_000 * (w * w)
    ensures d < 4096 * w
  {
    var t := 4096 * w;
    assert t * t == 16777216 * (w * w);
    if t <= d {
      MulMono(t, d, t);
      MulMono(t, d, d);
      assert false;
    }
  }

  lemma FoldIsLarge(x: nat, d: nat, k: nat)
    requires d > 0 && 4 * x <= 5 * d && d * d < k * (x * 2) + x * 2
    ensures 5 * k >= 2 * d - 4
  {
    assert 2 * (k * (x * 2) + x * 2) == (k + 1) * (4 * x);
    MulMono(4 * x, 5 * d, k + 1);
    assert (k + 1) * (5 * d) == 5 * (k + 1) * d;
    if 5 * (k + 1) <= 2 * d {
      MulMono(5 * (k + 1), 2 * d, d);
      assert false;
    }
  }

  // ---- a root above the start ----

  /** How far the root can lie above d. */
  lemma RootIsNear(x: nat, d: nat, ann: nat, e: int, c: nat, s: nat)
    requires x > 0 && d > 0 && ann >= 2 && d <= ENOUGH * (ann * x) && s > d
    requires TwoPools(x, d, ann) == Quadratic(e, c) && IsRoot(s, e, c)
    ensures s - d < 0x10_0000 * d
  {
    var h := s - d;
    ProductIsSmall(x, d, ann, Once(x, d), c);
    assert F(s, e) == s * (s + e);
    MulMono(h, s + e, s);
    assert s * h == h * h + d * h;
    BelowSquare(h, d, c);
  }

  lemma BelowSquare(h: nat, d: nat, c: nat)
    requires d > 0 && h * h + d * h <= c <= 0x100_0000_0000 * (d * d)
    ensures h < 0x10_0000 * d
  {
    var t := 0x10_0000 * d;
    assert t * t == 0x100_0000_0000 * (d * d);
    if h >= t {
      MulMono(t, h, h);
      MulMono(t, h, t);
      MulMono(1, h, d);
      assert false;
    }
  }

  lemma ProductIsSmall(x: nat, d: nat, ann: nat, k: nat, c: nat)
    requires d > 0 && d <= ENOUGH * (ann * x) && k * (x * 2) <= d * d && c * (ann * 2) <= k * d
    ensures c <= 0x100_0000_0000 * (d * d)
  {
    ProductAtMost(x, d, ann, k, c);
    AgainstInvariant(ann * x, d, c, ENOUGH, d * d);
  }

  lemma ProductAtMost(x: nat, d: nat, ann: nat, k: nat, c: nat)
    requires k * (x * 2) <= d * d && c * (ann * 2) <= k * d
    ensures 4 * (c * (ann * x)) <= d * d * d
  {
    MulMono(c * (ann * 2), k * d, x * 2);
    MulMono(k * (x * 2), d * d, d);
    assert k * d * (x * 2) == k * (x * 2) * d;
    assert c * (ann * 2) * (x * 2) == 4 * (c * (ann * x));
  }

  lemma AgainstInvariant(z: nat, d: nat, c: nat, p: nat, dd: nat)
    requires d > 0 && d <= p * z && 4 * (c * z) <= dd * d
    ensures 4 * c <= p * dd
  {
    MulMono(d, p * z, c);
    assert c * (p * z) == p * (c * z);
    MulMono(4 * (c * z), dd * d, p);
    assert p * (dd * d) == p * dd * d;
    Cancel(p * dd, 4 * c, d);
  }

  lemma Cancel(a: nat, b: nat, q: nat)
    requires q > 0 && b * q <= a * q
    ensures b <= a
  {
    if a < b {
      MulMono(a + 1, b, q);
      assert false;
    }
  }

  /** From below, the first step overshoots by at most 2^19 slopes. */
  lemma OvershootIsSmall(s: nat, d: nat, e: int, next: nat, slope: nat)
    requires 0 < d < s && s - d < 0x10_0000 * d && 2 * (s - d) <= slope && d < 2 * d + e && s <= next
    requires (next - s) * (2 * d + e) <= (d - s) * (d - s) + slope
    ensures 4 * (next - s) <= 0x20_0000 * slope
  {
    var h, g := s - d, next - s;
    assert (d - s) * (d - s) == h * h;
    MulMono(d + 1, 2 * d + e, g);
    MulMono(2 * h, slope, h);
    MulMono(h + 2, 0x10_0000 * (d + 1), slope);
    assert 2 * (g * (d + 1)) <= (h + 2) * slope;
    HalfAMillion(g, d + 1, slope);
  }

  lemma HalfAMillion(g: nat, d: nat, slope: nat)
    requires d > 0 && 2 * (g * d) <= slope * (0x10_0000 * d)
    ensures 2 * g <= 0x10_0000 * slope
  {
    assert slope * (0x10_0000 * d) == 0x10_0000 * slope * d;
    assert 2 * (g * d) == 2 * g * d;
    Cancel(0x10_0000 * slope, 2 * g, d);
  }

  // ---- 32 steps ----

  lemma TowerEight()
    ensures Tower(8) >= 0x1_0000_0000_0000_0000 && Tower(9) == Tower(8) * Tower(8)
  {
    assert Tower(3) == 256;
    assert Tower(5) == 0x1_0000_0000;
    assert Tower(6) == 0x1_0000_0000_0000_0000;
    assert Tower(7) == Tower(6) * Tower(6) && Tower(8) == Tower(7) * Tower(7);
  }

  /** A slope of two pools below 2^256 is in reach of the quadratic phase. */
  lemma SlopeFits(slope: nat)
    requires slope <= 0x80_0000 * Tower(8)
    ensures slope <= 4 * Tower(9)
  {
    TowerEight();
    MulMono(0x80_0000, Tower(8), Tower(8));
  }

  lemma Powers()
    ensures Pow2(15) == 0x8000 && Pow2(21) == 0x20_0000 && Pow2(31) == 0x8000_0000
  {
    assert Pow2(10) == 0x400;
    assert Pow2(15) == 0x8000;
    assert Pow2(21) == 0x20_0000;
    assert Pow2(26) == 0x400_0000;
  }

  lemma FromAbove(x: nat, d: nat, ann: nat, e: int, c: nat, s: nat)
    requires 0 < x < Tower(8) && d < Tower(8) && 2 <= ann <= MAX_ANN && s <= d
    requires TwoPools(x, d, ann) == Quadratic(e, c) && IsRoot(s, e, c)
    ensures Solve(d, e, c, ITERATIONS).Ok?
  {
    Powers();
    if d <= s + Pow2(31) {
      SolveConverges(s, d, e, c, ITERATIONS);
    } else {
      SlopeIsSteep(x, d, ann, e, c, s);
      FloorAtMost(d, ann, d) by { MulMono(1, ann, d + 1); }
      SlopeFits(2 * s + e);
      SolveConvergesFast(s, d, e, c, 15, 8, ITERATIONS);
    }
  }

  lemma FromBelow(x: nat, d: nat, ann: nat, e: int, c: nat, s: nat)
    requires 0 < x < Tower(8) && d < Tower(8) && 2 <= ann <= MAX_ANN && 0 < d < s
    requires d <= ENOUGH * (ann * x)
    requires TwoPools(x, d, ann) == Quadratic(e, c) && IsRoot(s, e, c)
    ensures Solve(d, e, c, ITERATIONS).Ok?
  {
    var next := Newton(d, e, c).value;
    if !Close(next, d) {
      StepKeepsPositive(s, d, e, c, next);
      RootIsNear(x, d, ann, e, c, s);
      GapSquares(s, d, e, c, next);
      OvershootIsSmall(s, d, e, next, 2 * s + e);
      FloorAtMost(d, ann, d) by { MulMono(1, ann, d + 1); }
      SlopeFits(2 * s + e);
      Powers();
      SolveConvergesFast(s, next, e, c, 21, 8, ITERATIONS - 1);
    }
  }

  /** From D the loop always answers within its 32 steps, for any balances and invariant below 2^256,
      at every amplifier there is, if D is at most 2^42 times the amplified new offer balance. */
  lemma TwoPoolsConverge(pools: seq<Pool>, lsd: Lsd, from: nat, to: nat, newAmount: nat, d: nat, amp: nat, unit: nat)
    requires unit > 0 && StableAmp.InRange(amp) && AreTraded(pools, from, to)
    requires var x, ann := Floor(Applied(lsd, from, newAmount), unit), amp * 2 / StableAmp.AMP_PRECISION;
             0 < x < Tower(8) && d < Tower(8) && d <= ENOUGH * (ann * x)
    ensures Unscaled(pools, lsd, from, to, newAmount, d, amp, unit).Ok?
  {
    UnscaledIsTwoPools(pools, lsd, from, to, newAmount, d, amp, unit);
    var ann := amp * 2 / StableAmp.AMP_PRECISION;
    TwoPoolsAnswer(Floor(Applied(lsd, from, newAmount), unit), d, ann);
  }

  lemma TwoPoolsAnswer(x: nat, d: nat, ann: nat)
    requires 0 < x < Tower(8) && d < Tower(8) && d <= ENOUGH * (ann * x) && 2 <= ann <= MAX_ANN
    ensures var q := TwoPools(x, d, ann); Solve(d, q.e, q.c, ITERATIONS).Ok?
  {
    var q := TwoPools(x, d, ann);
    var s := Root(q.e, q.c);
    if d == 0 {
      ZeroStart(x, ann);
    } else if s <= d {
      FromAbove(x, d, ann, q.e, q.c, s);
    } else {
      FromBelow(x, d, ann, q.e, q.c, s);
    }
  }

  lemma ZeroStart(x: nat, ann: nat)
    requires x > 0 && ann > 0
    ensures var q := TwoPools(x, 0, ann); Solve(0, q.e, q.c, ITERATIONS) == Ok(0)
  {
    FloorIs(0, ann, 0);
    FloorIs(0, x * 2, 0);
    FloorIs(0, ann * 2, 0);
    FloorIs(0, x, 0);
  }

  lemma UnscaledIsTwoPools(pools: seq<Pool>, lsd: Lsd, from: nat, to: nat, newAmount: nat, d: nat, amp: nat, unit: nat)
    requires unit > 0 && StableAmp.InRange(amp) && AreTraded(pools, from, to)
    requires Floor(Applied(lsd, from, newAmount), unit) > 0
    ensures var offer, ann := Applied(lsd, from, newAmount), amp * 2 / StableAmp.AMP_PRECISION;
            && 2 <= ann <= MAX_ANN
            && var f := FoldPools(pools, lsd, from, to, offer, d, 2, unit);
               f.Ok? && Coefficients(f.value, d, amp, 2, unit) == Ok(TwoPools(Floor(offer, unit), d, ann))
  {
    var offer := Applied(lsd, from, newAmount);
    FoldTwo(pools, lsd, from, to, offer, d, unit);
    assert offer == Fold(Floor(d * d, Floor(offer, unit) * 2), offer).sum;
  }

  lemma FoldTwo(pools: seq<Pool>, lsd: Lsd, from: nat, to: nat, offer: nat, d: nat, unit: nat)
    requires unit > 0 && AreTraded(pools, from, to) && Floor(offer, unit) > 0
    ensures FoldPools(pools, lsd, from, to, offer, d, 2, unit)
            == Ok(Fold(Floor(d * d, Floor(offer, unit) * 2), offer))
  {
    var one := pools[..1];
    assert pools[..|pools| - 1] == one && one[..|one| - 1] == [];
    assert FoldPools([], lsd, from, to, offer, d, 2, unit) == Ok(Fold(d, 0));
    assert Folded(Fold(d, 0), offer, d, 2, unit) == Ok(Fold(Floor(d * d, Floor(offer, unit) * 2), offer));
  }

  // ---- not always ----

  /** Far above the root a step does little more than halve, so the loop runs out of steps. */
  lemma {:induction false} SlowDescent(y: nat, e: int, c: nat, n: nat, low: nat)
    requires e <= 0 && 2 <= low + e && low * (low + e - 2) - e > c
    requires n > 0 ==> y >= Pow2(n - 1) * low
    ensures Solve(y, e, c, n) == Err(NotConverging)
    decreases n
  {
    if n > 0 {
      AtLeastOnce(Pow2(n - 1), low);
      StepIsLong(y, e, c, low);
      if n > 1 {
        TwiceHalf(n, low);
        HalvesAtMost(y, e, c, Pow2(n - 2) * low);
        SlowDescent(Floor(y * y + c, 2 * y + e), e, c, n - 1, low);
      }
    }
  }

  lemma AtLeastOnce(p: nat, low: nat)
    requires p >= 1
    ensures low <= p * low
  {
    MulMono(1, p, low);
  }

  lemma TwiceHalf(n: nat, low: nat)
    requires n > 1
    ensures 2 * (Pow2(n - 2) * low) == Pow2(n - 1) * low
  {
    assert Pow2(n - 1) == 2 * Pow2(n - 2);
  }

  lemma StepIsLong(y: nat, e: int, c: nat, low: nat)
    requires 2 <= low + e && low * (low + e - 2) - e > c && low <= y
    ensures 2 * y + e > 0 && Floor(y * y + c, 2 * y + e) <= y - 2
  {
    var a, b := low + e - 2, y + e - 2;
    MulMono(low, y, a);
    MulMono(a, b, y);
    assert (y - 2 + 1) * (2 * y + e) == y * y + y * b - e;
    FloorAtMost(y * y + c, 2 * y + e, y - 2);
  }

  lemma HalvesAtMost(y: nat, e: int, c: nat, half: nat)
    requires e <= 0 && 2 * y + e > 0 && 2 * half <= y
    ensures half <= Floor(y * y + c, 2 * y + e)
  {
    MulMono(2 * y + e, 2 * y, half);
    MulMono(2 * half, y, y);
    FloorAtLeast(y * y + c, 2 * y + e, half);
  }

  // ---- a root far above the start ----

  /** d^3 / (4 * x * ann) from below, through both floors. */
  lemma ProductAtLeast(x: nat, d: nat, ann: nat, k: nat, c: nat)
    requires x > 0 && d * d < k * (x * 2) + x * 2 && k * d < c * (ann * 2) + ann * 2
    ensures d * d * d <= 4 * ((c + 1) * (ann * x)) + 2 * (x * d)
  {
    MulMono(d * d, k * (x * 2) + x * 2, d);
    assert (k * (x * 2) + x * 2) * d == k * d * (x * 2) + 2 * (x * d);
    MulMono(k * d, c * (ann * 2) + ann * 2, x * 2);
    assert (c * (ann * 2) + ann * 2) * (x * 2) == 4 * ((c + 1) * (ann * x));
  }

  /** So at the ratio `TOO_FAR` it is nearly 2^62 squares of d. */
  lemma ProductIsLarge(x: nat, d: nat, z: nat, c: nat)
    requires x > 0 && x <= z && d >= TOO_FAR * z && d * d * d <= 4 * ((c + 1) * z) + 2 * (x * d)
    ensures c >= 0x3C00_0000_0000_0000 * (d * d)
  {
    var dd, bound := d * d, 0x3C00_0000_0000_0000 * (d * d);
    if c < bound {
      MulMono(c + 1, bound, z);
      ScaledCube(z, d, dd);
      MulMono(d, dd, 1) by { MulMono(1, d, d); }
      SixteenthOfCube(x, d, dd);
      assert false;
    }
  }

  lemma ScaledCube(z: nat, d: nat, dd: nat)
    requires d >= TOO_FAR * z
    ensures 16 * (4 * (0x3C00_0000_0000_0000 * dd * z)) <= 15 * (dd * d)
  {
    MulMono(TOO_FAR * z, d, dd);
    assert TOO_FAR * z * dd == TOO_FAR * (dd * z);
    assert 0x3C00_0000_0000_0000 * dd * z == 0x3C00_0000_0000_0000 * (dd * z);
  }

  lemma SixteenthOfCube(x: nat, d: nat, dd: nat)
    requires x > 0 && d >= TOO_FAR * x && dd == d * d
    ensures dd * d > 16 * (2 * (x * d))
  {
    MulMono(d, dd, 1) by { MulMono(1, d, d); }
    MulMono(32 * x + 1, dd, d);
    assert (32 * x + 1) * d == 16 * (2 * (x * d)) + d;
  }

  /** The first step from D goes so far up that its 2^30th part still has a value above c. */
  lemma FirstStep(d: nat, den: nat, c: nat, low: nat)
    requires d >= TOO_FAR && 0 < den && 64 * den <= 97 * d && d * d + c < (low + 1) * 0x4000_0000 * den + den
    ensures 0x6100_0000 * (low * d) >= c
  {
    var unit := 0x4000_0000 * den;
    assert (low + 1) * 0x4000_0000 * den == low * unit + unit;
    MulMono(TOO_FAR, d, d);
    assert low * unit >= c;
    MulMono(64 * den, 97 * d, low);
    assert low * (64 * den) == 64 * (low * den) && low * (97 * d) == 97 * (low * d);
    assert low * unit == 0x4000_0000 * (low * den);
  }

  lemma LowIsHigh(d: nat, c: nat, low: nat)
    requires d > 0 && 0x6100_0000 * (low * d) >= c && c >= 0x3C00_0000_0000_0000 * (d * d)
    ensures low >= 0x8000_0000 * d
  {
    assert 0x8000_0000 * d * d == 0x8000_0000 * (d * d);
    MulMono(1, d, d);
    if low < 0x8000_0000 * d {
      MulMono(low, 0x8000_0000 * d, d);
      assert false;
    }
  }

  /** The square of `low` is more than one and a half times c. */
  lemma LowSquared(d: nat, c: nat, low: nat)
    requires d > 0 && 0x6100_0000 * (low * d) >= c && c >= 0x3C00_0000_0000_0000 * (d * d)
    ensures 9409 * (low * low) >= 15360 * c
  {
    var dd, ll := d * d, low * low;
    var side := 0x6100_0000 * (low * d);
    MulMono(c, side, c);
    MulMono(c, side, side);
    assert side * side == 0x6100_0000 * 0x6100_0000 * (ll * dd);
    MulMono(0x3C00_0000_0000_0000 * dd, c, c);
    assert 0x3C00_0000_0000_0000 * dd * c == 0x3C00_0000_0000_0000 * (c * dd);
    Cancel(9409 * ll, 15360 * c, dd) by {
      assert 9409 * ll * dd == 9409 * (ll * dd) && 15360 * c * dd == 15360 * (c * dd);
      MulMono(1, d, d);
    }
  }

  lemma LowIsAbove(d: nat, e: int, c: nat, low: nat)
    requires 0 <= d + e && e <= 0 && c > 0 && low >= 0x8000_0000 * d && d > 0 && 9409 * (low * low) >= 15360 * c
    ensures 2 <= low + e && low * (low + e - 2) - e > c
  {
    var rest: nat := low + e - 2;
    MulMono(15 * low, 16 * rest, low);
    assert low * (15 * low) == 15 * (low * low) && low * (16 * rest) == 16 * (low * rest);
  }

  lemma Denominator(x: nat, d: nat, ann: nat, part: nat)
    requires x > 0 && ann >= 2 && d >= TOO_FAR * (ann * x) && part * ann <= d
    ensures d >= TOO_FAR * x && d >= TOO_FAR && 2 * part <= d && 64 * (d + x + part) <= 97 * d
    ensures x <= ann * x
  {
    MulMono(1, ann, x);
    MulMono(2, ann, part);
  }

  /** From the ratio `TOO_FAR` on the loop never answers, whatever the amplifier. */
  lemma TwoPoolsFail(x: nat, d: nat, ann: nat)
    requires x > 0 && ann >= 2 && d >= TOO_FAR * (ann * x)
    ensures var q := TwoPools(x, d, ann); Solve(d, q.e, q.c, ITERATIONS) == Err(NotConverging)
  {
    var part, k, c := Floor(d, ann), Once(x, d), Product(x, d, ann);
    Denominator(x, d, ann, part);
    ProductAtLeast(x, d, ann, k, c);
    ProductIsLarge(x, d, ann * x, c);
    Fails(d, x + part - d, c, d + x + part);
  }

  lemma Fails(d: nat, e: int, c: nat, den: nat)
    requires d >= TOO_FAR && den == 2 * d + e && d <= den && 64 * den <= 97 * d
    requires c >= 0x3C00_0000_0000_0000 * (d * d)
    ensures Solve(d, e, c, ITERATIONS) == Err(NotConverging)
  {
    var next := Floor(d * d + c, den);
    var low := Floor(next, 0x4000_0000);
    Overshoots(d, c, den, next, low);
    StartIsHigh(d, e, c, low);
    Pow2Thirty();
    SlowDescent(next, e, c, 31, low);
    FirstOfAll(d, e, c, den, next, low);
  }

  /** From the floored 2^30th part of the first iterate on, every step is long. */
  lemma StartIsHigh(d: nat, e: int, c: nat, low: nat)
    requires d >= TOO_FAR && 0 <= d + e && 2 * d + e <= 2 * d && 0x6100_0000 * (low * d) >= c
    requires c >= 0x3C00_0000_0000_0000 * (d * d)
    ensures low >= 2 * d && 2 <= low + e && low * (low + e - 2) - e > c
  {
    LowIsHigh(d, c, low);
    LowSquared(d, c, low);
    MulMono(1, d, d);
    LowIsAbove(d, e, c, low);
  }

  /** The first step itself is a long one, up. */
  lemma FirstOfAll(d: nat, e: int, c: nat, den: nat, next: nat, low: nat)
    requires den == 2 * d + e && den > 0 && next == Floor(d * d + c, den) && d >= 2
    requires low >= 2 * d && low * 0x4000_0000 <= next && Solve(next, e, c, 31) == Err(NotConverging)
    ensures Solve(d, e, c, ITERATIONS) == Err(NotConverging)
  {
    assert Newton(d, e, c) == Ok(next) && !Close(next, d);
  }

  lemma Overshoots(d: nat, c: nat, den: nat, next: nat, low: nat)
    requires d >= TOO_FAR && 0 < den && 64 * den <= 97 * d
    requires d * d + c < next * den + den && next < low * 0x4000_0000 + 0x4000_0000
    ensures 0x6100_0000 * (low * d) >= c
  {
    MulMono(next, (low + 1) * 0x4000_0000, den);
    FirstStep(d, den, c, low);
  }

  lemma Pow2Thirty()
    ensures Pow2(30) == 0x4000_0000
  {
    assert Pow2(10) == 0x400;
    assert Pow2(20) == 0x10_0000;
  }

  /** From D = 2^64 times the amplified new offer balance on, the loop never answers, at any amplifier
      there is. */
  lemma TwoPoolsRunOut(pools: seq<Pool>, lsd: Lsd, from: nat, to: nat, newAmount: nat, d: nat, amp: nat, unit: nat)
    requires unit > 0 && StableAmp.InRange(amp) && AreTraded(pools, from, to)
    requires var x, ann := Floor(Applied(lsd, from, newAmount), unit), amp * 2 / StableAmp.AMP_PRECISION;
             x > 0 && d >= TOO_FAR * (ann * x)
    ensures Unscaled(pools, lsd, from, to, newAmount, d, amp, unit) == Err(NotConverging)
  {
    UnscaledIsTwoPools(pools, lsd, from, to, newAmount, d, amp, unit);
    TwoPoolsFail(Floor(Applied(lsd, from, newAmount), unit), d, amp * 2 / StableAmp.AMP_PRECISION);
  }

  /** Two pools of 2^64 units each, whose invariant is exactly their sum, at the smallest amplifier: a
      reverse quote for all but one unit of one of them is not answered. */
  lemma LoopRunsOut()
    ensures StableInvariant.Excess(TOO_FAR as real * 2.0, TOO_FAR as real, TOO_FAR as real,
                                   StableInvariant.AnnOfD(StableAmp.AMP_PRECISION)) == 0.0
    ensures CalcY(Pool(0, TOO_FAR), 1, 1, [Pool(0, TOO_FAR), Pool(1, TOO_FAR)], Lsd(None, ONE), TOO_FAR * 2,
                  StableAmp.AMP_PRECISION, 1) == Err(NotConverging)
  {
    var pools, lsd := [Pool(0, TOO_FAR), Pool(1, TOO_FAR)], Lsd(None, ONE);
    var side := TOO_FAR as real;
    StableInvariant.SumIsAbove(side, side, StableInvariant.AnnOfD(StableAmp.AMP_PRECISION));
    FloorIs(1, 1, 1);
    TwoPoolsRunOut(pools, lsd, 0, 1, 1, TOO_FAR * 2, StableAmp.AMP_PRECISION, 1);
  }
}
