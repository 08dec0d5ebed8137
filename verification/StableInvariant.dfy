/** The iteration for the stableswap invariant D of two pools, in exact arithmetic: it descends
    from the sum of the pools and never passes below D. */
module StableInvariant {
  import StableAmp
  import StableNewton

  /** One pool folded into the product term: acc * d / (pool * 2). */
  function Folded(acc: real, d: real, pool: real): (r: real)
    requires pool > 0.0
    ensures acc > 0.0 && d > 0.0 ==> r > 0.0
    ensures r * (pool * 2.0) == acc * d
  {
    FoldedPositive(acc, d, pool);
    acc * d / (pool * 2.0)
  }

  lemma FoldedPositive(acc: real, d: real, pool: real)
    requires pool > 0.0
    ensures acc > 0.0 && d > 0.0 ==> acc * d / (pool * 2.0) > 0.0
  {
    if acc > 0.0 && d > 0.0 {
      Times(acc, d);
      PositiveQuotient(acc * d, pool * 2.0);
    }
  }

  /** The product term: D folded with each pool in turn. */
  function ProductTerm(d: real, x: real, y: real): real
    requires x > 0.0 && y > 0.0
  {
    Folded(Folded(d, d, x), d, y)
  }

  /** One step of the iteration, `ann` being the amplification times the number of pools. */
  function NextD(d: real, x: real, y: real, ann: real): real
    requires x > 0.0 && y > 0.0 && d > 0.0 && ann >= 1.0
  {
    var term := ProductTerm(d, x, y);
    DenominatorPositive(d, term, ann);
    (ann * (x + y) + term * 2.0) * d / ((ann - 1.0) * d + 3.0 * term)
  }

  /** The stableswap equation, as a function of D that is zero at the invariant: the equation
      ann * sum + D = ann * D + D^3 / (4 * x * y), brought to one side. */
  function Excess(d: real, x: real, y: real, ann: real): real
    requires x > 0.0 && y > 0.0
  {
    ExcessOf(x, y, d, ann, Cube(d) / Quad(x, y))
  }

  function ExcessOf(x: real, y: real, d: real, ann: real, k: real): real {
    k + (ann - 1.0) * d - ann * (x + y)
  }

  function Cube(d: real): real {
    d * d * d
  }

  function Quad(x: real, y: real): (q: real)
    requires x > 0.0 && y > 0.0
    ensures q > 0.0
  {
    Times(x, y);
    4.0 * (x * y)
  }

  /** The coefficient of `compute_d` for two pools: a decimal, which keeps the fraction. */
  function AnnOfD(amp: nat): real {
    (amp * 2) as real / StableAmp.AMP_PRECISION as real
  }

  // ---- arithmetic ----

  lemma Times(a: real, b: real)
    requires a > 0.0 && b > 0.0
    ensures a * b > 0.0
  {
  }

  lemma Times0(a: real, b: real)
    requires a >= 0.0 && b >= 0.0
    ensures a * b >= 0.0
  {
  }

  lemma TermIsCube(d: real, x: real, y: real)
    requires x > 0.0 && y > 0.0
    ensures ProductTerm(d, x, y) * Quad(x, y) == Cube(d)
    ensures ProductTerm(d, x, y) == Cube(d) / Quad(x, y)
  {
    var first := Folded(d, d, x);
    var term := ProductTerm(d, x, y);
    assert term * (4.0 * (x * y)) == term * (y * 2.0) * (x * 2.0);
    assert first * d * (x * 2.0) == first * (x * 2.0) * d;
    Quotient(term, Quad(x, y), Cube(d));
  }

  lemma Quotient(a: real, b: real, c: real)
    requires b > 0.0 && a * b == c
    ensures a == c / b
  {
    var q := c / b;
    assert q * b == c;
    if a < q {
      Times(q - a, b);
    } else if a > q {
      Times(a - q, b);
    }
  }

  lemma DenominatorPositive(d: real, term: real, ann: real)
    requires d > 0.0 && term > 0.0 && ann >= 1.0
    ensures (ann - 1.0) * d + 3.0 * term > 0.0
  {
    Times0(ann - 1.0, d);
  }

  /** A cube lies above its tangents on the positive side. */
  lemma CubeAboveTangent(d: real, u: real)
    requires d > 0.0 && u > 0.0
    ensures Cube(u) >= Cube(d) + 3.0 * (d * d) * (u - d)
  {
    var g := u - d;
    Times0(g * g, u + 2.0 * d) by { assert g * g >= 0.0; }
    assert g * g * (u + 2.0 * d) == Cube(u) - Cube(d) - 3.0 * (d * d) * (u - d);
  }

  // ---- one step ----

  /** The step is Newton's: it goes down by the excess over the slope. */
  lemma StepIsNewton(d: real, x: real, y: real, ann: real)
    requires x > 0.0 && y > 0.0 && d > 0.0 && ann >= 1.0
    ensures var den := (ann - 1.0) * d + 3.0 * ProductTerm(d, x, y);
            den > 0.0 && (d - NextD(d, x, y, ann)) * den == d * Excess(d, x, y, ann)
  {
    var term := ProductTerm(d, x, y);
    TermIsCube(d, x, y);
    DenominatorPositive(d, term, ann);
    NewtonStep(d, term, ann, ann * (x + y), NextD(d, x, y, ann));
  }

  lemma NewtonStep(d: real, term: real, ann: real, sum: real, next: real)
    requires (ann - 1.0) * d + 3.0 * term > 0.0
    requires next == (sum + term * 2.0) * d / ((ann - 1.0) * d + 3.0 * term)
    ensures (d - next) * ((ann - 1.0) * d + 3.0 * term) == d * (term + (ann - 1.0) * d - sum)
  {
    var den := (ann - 1.0) * d + 3.0 * term;
    assert next * den == (sum + term * 2.0) * d;
    Distribute(d, next, den);
    Distribute(den, sum + term * 2.0, d);
  }

  lemma Distribute(a: real, b: real, c: real)
    ensures (a - b) * c == a * c - b * c
  {
  }

  /** From above, a step never goes up and stays positive. */
  lemma StepGoesDown(d: real, x: real, y: real, ann: real)
    requires x > 0.0 && y > 0.0 && d > 0.0 && ann >= 1.0 && Excess(d, x, y, ann) >= 0.0
    ensures 0.0 < NextD(d, x, y, ann) <= d
  {
    var term := ProductTerm(d, x, y);
    var den := (ann - 1.0) * d + 3.0 * term;
    StepIsNewton(d, x, y, ann);
    Times0(d, Excess(d, x, y, ann));
    SignOfProduct(d - NextD(d, x, y, ann), den);
    Times(ann, x + y);
    Times(ann * (x + y) + term * 2.0, d);
    PositiveQuotient((ann * (x + y) + term * 2.0) * d, den);
  }

  lemma SignOfProduct(a: real, b: real)
    requires b > 0.0 && a * b >= 0.0
    ensures a >= 0.0
  {
    if a < 0.0 {
      Times(-a, b);
      assert false;
    }
  }

  lemma PositiveQuotient(a: real, b: real)
    requires a > 0.0 && b > 0.0
    ensures a / b > 0.0
  {
  }

  /** From above, a step stays above: the excess after it is still not negative, because the cubic
      is convex. */
  lemma StepStaysAbove(d: real, x: real, y: real, ann: real)
    requires x > 0.0 && y > 0.0 && d > 0.0 && ann >= 1.0 && Excess(d, x, y, ann) >= 0.0
    ensures NextD(d, x, y, ann) > 0.0 && Excess(NextD(d, x, y, ann), x, y, ann) >= 0.0
  {
    var u, q, term := NextD(d, x, y, ann), Quad(x, y), ProductTerm(d, x, y);
    StepGoesDown(d, x, y, ann);
    StepIsNewton(d, x, y, ann);
    TermIsCube(d, x, y);
    CubeAboveTangent(d, u);
    var k := Cube(u) / q;
    assert k * q == Cube(u);
    Tangent(d, u, q, term, k, ann, ann * (x + y), Excess(d, x, y, ann));
  }

  /** The tangent at d reaches zero exactly at the next iterate. */
  lemma Tangent(d: real, u: real, q: real, term: real, k: real, ann: real, sum: real, excess: real)
    requires d > 0.0 && q > 0.0 && term * q == Cube(d) && k * q == Cube(u)
    requires excess == term + (ann - 1.0) * d - sum
    requires (d - u) * ((ann - 1.0) * d + 3.0 * term) == d * excess
    requires Cube(u) >= Cube(d) + 3.0 * (d * d) * (u - d)
    ensures k + (ann - 1.0) * u - sum >= 0.0
  {
    TermAboveTangent(d, u, q, term, k);
    ExcessAtZero(d, u, k, term, ann, sum, excess);
    SignOfProduct(k + (ann - 1.0) * u - sum, d);
  }

  /** The product term, like the cube, lies above its tangent. */
  lemma TermAboveTangent(d: real, u: real, q: real, term: real, k: real)
    requires d > 0.0 && q > 0.0 && term * q == Cube(d) && k * q == Cube(u)
    requires Cube(u) >= Cube(d) + 3.0 * (d * d) * (u - d)
    ensures d * (k - term) >= 3.0 * term * (u - d)
  {
    TimesMono(Cube(u) - Cube(d), 3.0 * (d * d) * (u - d), d);
    assert d * (k - term) * q == d * (k * q - term * q);
    assert d * (3.0 * (d * d) * (u - d)) == 3.0 * Cube(d) * (u - d);
    assert 3.0 * term * (u - d) * q == 3.0 * (term * q) * (u - d);
    CancelFactor(d * (k - term), 3.0 * term * (u - d), q);
  }

  lemma ExcessAtZero(d: real, u: real, k: real, term: real, ann: real, sum: real, excess: real)
    requires excess == term + (ann - 1.0) * d - sum
    requires (d - u) * ((ann - 1.0) * d + 3.0 * term) == d * excess
    requires d * (k - term) >= 3.0 * term * (u - d)
    ensures (k + (ann - 1.0) * u - sum) * d >= 0.0
  {
    var slope := (ann - 1.0) * (u - d);
    assert k + (ann - 1.0) * u - sum == k - term + slope + excess;
    assert (k - term + slope + excess) * d == d * (k - term) + d * slope + d * excess;
    assert (d - u) * ((ann - 1.0) * d + 3.0 * term) == -(d * slope) - 3.0 * term * (u - d);
  }

  lemma TimesMono(a: real, b: real, c: real)
    requires a >= b && c > 0.0
    ensures c * a >= c * b
  {
    Times0(a - b, c);
    assert c * a - c * b == (a - b) * c;
  }

  lemma CancelFactor(a: real, b: real, q: real)
    requires q > 0.0 && a * q >= b * q
    ensures a >= b
  {
    SignOfProduct(a - b, q);
  }

  /** The sum of the pools is a start from above, by the inequality of the means. */
  lemma SumIsAbove(x: real, y: real, ann: real)
    requires x > 0.0 && y > 0.0 && ann >= 1.0
    ensures Excess(x + y, x, y, ann) >= 0.0
    ensures x == y ==> Excess(x + y, x, y, ann) == 0.0
  {
    var s, q := x + y, Quad(x, y);
    assert s * s == (x - y) * (x - y) + q;
    assert (x - y) * (x - y) >= 0.0;
    TimesMono(s * s, q, s);
    assert s * (s * s) == Cube(s);
    var k := Cube(s) / q;
    assert k * q == Cube(s);
    CancelFactor(k, s, q);
    assert (ann - 1.0) * s - ann * s == -s;
    if x == y {
      assert Cube(s) == s * q;
      Quotient(s, q, Cube(s));
    }
  }

  /** The excess grows with D, so a point of non-negative excess is not below the invariant. */
  lemma RootIsBelow(r: real, d: real, x: real, y: real, ann: real)
    requires x > 0.0 && y > 0.0 && d > 0.0 && r > 0.0 && ann >= 1.0
    requires Excess(r, x, y, ann) <= 0.0 <= Excess(d, x, y, ann)
    ensures r <= d
  {
    if r > d {
      CubeGrows(d, r);
      QuotientGrows(Cube(d), Cube(r), Quad(x, y));
      LinearGrows(d, r, ann);
      assert false;
    }
  }

  lemma QuotientGrows(a: real, b: real, q: real)
    requires q > 0.0 && a < b
    ensures a / q < b / q
  {
    var k, l := a / q, b / q;
    assert k * q == a && l * q == b;
    if k >= l {
      TimesMono(k, l, q);
      assert false;
    }
  }

  lemma LinearGrows(d: real, r: real, ann: real)
    requires d < r && ann >= 1.0
    ensures (ann - 1.0) * d <= (ann - 1.0) * r
  {
    Times0(ann - 1.0, r - d);
    assert (ann - 1.0) * (r - d) == (ann - 1.0) * r - (ann - 1.0) * d;
  }

  lemma CubeGrows(d: real, r: real)
    requires 0.0 < d < r
    ensures Cube(d) < Cube(r)
  {
    var g := r - d;
    Times(g, d);
    Times(g, r);
    Times(g * d, d);
    Times(g * d, r);
    Times(g * r, r);
    assert Cube(r) - Cube(d) == g * d * d + g * d * r + g * r * r;
  }

  // ---- the quadratic of `calc_y` ----

  /** The quadratic that `calc_y` builds from the other pool x, brought to one side:
      y^2 + (x + d/ann - d) * y - d^3 / (4 * x * ann). */
  function Residue(x: real, y: real, d: real, ann: real): real
    requires x > 0.0 && ann > 0.0
  {
    Times(x, ann);
    ResidueOf(x, y, d, d / ann, Cube(d) / (4.0 * (x * ann)))
  }

  function ResidueOf(x: real, y: real, d: real, r: real, c: real): real {
    y * y + (x + r - d) * y - c
  }

  /** With one coefficient for both, a new balance solves the quadratic exactly when the two pools
      have the invariant d. `StableRounding` says what becomes of this when the coefficients differ. */
  lemma QuadraticIsInvariant(x: real, y: real, d: real, ann: real)
    requires x > 0.0 && y > 0.0 && ann > 0.0
    ensures Residue(x, y, d, ann) == 0.0 <==> Excess(d, x, y, ann) == 0.0
  {
    Times(x, ann);
    Undo(Cube(d), Quad(x, y));
    Undo(Cube(d), 4.0 * (x * ann));
    Undo(d, ann);
    SameZeros(x, y, d, ann, Cube(d) / Quad(x, y), Cube(d) / (4.0 * (x * ann)), d / ann, Cube(d));
  }

  lemma SameZeros(x: real, y: real, d: real, ann: real, k: real, c: real, r: real, cube: real)
    requires x > 0.0 && y > 0.0 && ann > 0.0
    requires k * (4.0 * (x * y)) == cube && c * (4.0 * (x * ann)) == cube && r * ann == d
    ensures ResidueOf(x, y, d, r, c) == 0.0 <==> ExcessOf(x, y, d, ann, k) == 0.0
  {
    SameQuotient(x, y, ann, k, c, cube);
    ScaledEquation(x, y, d, ann, k, c, r);
    BothZero(ResidueOf(x, y, d, r, c), ExcessOf(x, y, d, ann, k), ann, y);
  }

  lemma Undo(a: real, b: real)
    requires b != 0.0
    ensures a / b * b == a
  {
  }

  lemma BothZero(a: real, b: real, p: real, q: real)
    requires p > 0.0 && q > 0.0 && a * p == -(b * q)
    ensures a == 0.0 <==> b == 0.0
  {
    if a == 0.0 {
      ZeroFactor(b, q);
    }
    if b == 0.0 {
      ZeroFactor(a, p);
    }
  }

  lemma SameQuotient(x: real, y: real, ann: real, k: real, c: real, cube: real)
    requires x > 0.0 && k * (4.0 * (x * y)) == cube && c * (4.0 * (x * ann)) == cube
    ensures k * y == c * ann
  {
    assert (k * y - c * ann) * (4.0 * x) == 0.0;
    ZeroFactor(k * y - c * ann, 4.0 * x);
  }

  lemma ZeroFactor(a: real, b: real)
    requires b > 0.0 && a * b == 0.0
    ensures a == 0.0
  {
    if a > 0.0 {
      Times(a, b);
    } else if a < 0.0 {
      Times(-a, b);
    }
  }

  /** The quadratic times ann is the equation times -y. */
  lemma ScaledEquation(x: real, y: real, d: real, ann: real, k: real, c: real, r: real)
    requires k * y == c * ann && r * ann == d
    ensures ResidueOf(x, y, d, r, c) * ann == -(ExcessOf(x, y, d, ann, k) * y)
  {
    assert r * ann * y == d * y;
    assert ResidueOf(x, y, d, r, c) * ann == y * y * ann + x * y * ann + r * ann * y - d * y * ann - c * ann;
    assert ExcessOf(x, y, d, ann, k) * y == k * y + ann * d * y - d * y - ann * x * y - ann * y * y;
  }

  // ---- how fast the iteration gets to D ----

  /** (2/3)^n. */
  function TwoThirds(n: nat): (p: real)
    ensures p > 0.0
  {
    if n == 0 then 1.0 else TwoThirds(n - 1) * 2.0 / 3.0
  }

  /** A step goes at least a third of the way from above to the invariant `r`. */
  lemma StepGoesAThird(d: real, r: real, x: real, y: real, ann: real)
    requires x > 0.0 && y > 0.0 && ann >= 1.0 && 0.0 < r <= d && Excess(r, x, y, ann) == 0.0
    ensures 3.0 * (NextD(d, x, y, ann) - r) <= 2.0 * (d - r)
  {
    var den := (ann - 1.0) * d + 3.0 * ProductTerm(d, x, y);
    StepIsNewton(d, x, y, ann);
    ExcessAtLeastAThird(d, r, x, y, ann);
    AThird(d - NextD(d, x, y, ann), d - r, den, d * Excess(d, x, y, ann));
  }

  lemma ExcessAtLeastAThird(d: real, r: real, x: real, y: real, ann: real)
    requires x > 0.0 && y > 0.0 && ann >= 1.0 && 0.0 < r <= d && Excess(r, x, y, ann) == 0.0
    ensures 3.0 * (d * Excess(d, x, y, ann)) >= (d - r) * ((ann - 1.0) * d + 3.0 * ProductTerm(d, x, y))
  {
    TermIsCube(d, x, y);
    var term, k, sum := Cube(d) / Quad(x, y), Cube(r) / Quad(x, y), ann * (x + y);
    ExcessIs(d, x, y, ann, term, sum);
    ExcessIs(r, x, y, ann, k, sum);
    CubesCross(d, r, term, k, Quad(x, y));
    ThirdOfSlope(d, r, term, k, ann, sum, Excess(d, x, y, ann), Excess(r, x, y, ann));
  }

  lemma ExcessIs(d: real, x: real, y: real, ann: real, k: real, sum: real)
    requires x > 0.0 && y > 0.0 && k == Cube(d) / Quad(x, y) && sum == ann * (x + y)
    ensures Excess(d, x, y, ann) == k + (ann - 1.0) * d - sum
  {
  }

  /** The product term over the cube of its argument is the same at both points. */
  lemma CubesCross(d: real, r: real, term: real, k: real, q: real)
    requires q > 0.0 && 0.0 < r <= d && term == Cube(d) / q && k == Cube(r) / q
    ensures d * k <= term * r
  {
    Undo(Cube(d), q);
    Undo(Cube(r), q);
    Times(d, r);
    SquaresMono(r, d);
    TimesMono(d * d, r * r, d * r);
    assert d * k * q == d * Cube(r) == d * r * (r * r);
    assert term * r * q == Cube(d) * r == d * r * (d * d);
    CancelFactor(term * r, d * k, q);
  }

  lemma SquaresMono(r: real, d: real)
    requires 0.0 < r <= d
    ensures r * r <= d * d
  {
    TimesMono(d, r, d);
    TimesMono(d, r, r);
  }

  lemma ThirdOfSlope(d: real, r: real, term: real, k: real, ann: real, sum: real, excess: real, none: real)
    requires ann >= 1.0 && 0.0 < r <= d && d * k <= term * r
    requires excess == term + (ann - 1.0) * d - sum && none == k + (ann - 1.0) * r - sum && none == 0.0
    ensures 3.0 * (d * excess) >= (d - r) * ((ann - 1.0) * d + 3.0 * term)
  {
    var slope := (ann - 1.0) * (d - r);
    Times0(ann - 1.0, d - r);
    Times0(slope, d);
    assert excess == term - k + slope;
    assert d * excess == d * term - d * k + slope * d;
    assert (d - r) * ((ann - 1.0) * d + 3.0 * term) == slope * d + 3.0 * (d * term) - 3.0 * (term * r);
  }

  lemma AThird(step: real, gap: real, den: real, scaled: real)
    requires den > 0.0 && step * den == scaled && 3.0 * scaled >= gap * den
    ensures 3.0 * step >= gap
  {
    assert 3.0 * step * den == 3.0 * (step * den);
    CancelFactor(3.0 * step, gap, den);
  }

  /** No invariant of the pools is more than `gap` below `d`. */
  ghost predicate GapsWithin(d: real, x: real, y: real, ann: real, gap: real)
    requires x > 0.0 && y > 0.0
  {
    forall r {:trigger Excess(r, x, y, ann)} | r > 0.0 && Excess(r, x, y, ann) == 0.0 :: d - r <= gap
  }

  /** How far D can be after `n` steps: (2/3)^n of the sum of the pools. */
  function GapAfter(n: nat, x: real, y: real): real {
    TwoThirds(n) * (x + y)
  }

  lemma GapShrinks(sum: real, gap: real, gap1: real, n: nat)
    requires 3.0 * gap1 <= 2.0 * gap && gap <= TwoThirds(n) * sum
    ensures gap1 <= TwoThirds(n + 1) * sum
  {
    assert TwoThirds(n + 1) * sum == TwoThirds(n) * sum * 2.0 / 3.0;
  }

  /** One step from above brings the gaps to two thirds, and to at most twice the length of the step. */
  lemma StepShrinksGaps(d: real, x: real, y: real, ann: real, n: nat)
    requires x > 0.0 && y > 0.0 && ann >= 1.0 && d > 0.0 && Excess(d, x, y, ann) >= 0.0
    requires GapsWithin(d, x, y, ann, GapAfter(n, x, y))
    ensures var next := NextD(d, x, y, ann);
            && GapsWithin(next, x, y, ann, GapAfter(n + 1, x, y))
            && GapsWithin(next, x, y, ann, 2.0 * (d - next))
  {
    var next := NextD(d, x, y, ann);
    forall r | r > 0.0 && Excess(r, x, y, ann) == 0.0
      ensures next - r <= GapAfter(n + 1, x, y) && next - r <= 2.0 * (d - next)
    {
      RootIsBelow(r, d, x, y, ann);
      StepGoesAThird(d, r, x, y, ann);
      GapShrinks(x + y, d - r, next - r, n);
    }
  }

  lemma GapsWiden(d: real, x: real, y: real, ann: real, gap: real, wider: real)
    requires x > 0.0 && y > 0.0 && gap <= wider && GapsWithin(d, x, y, ann, gap)
    ensures GapsWithin(d, x, y, ann, wider)
  {
  }

  lemma SumGaps(x: real, y: real, ann: real)
    requires x > 0.0 && y > 0.0
    ensures GapsWithin(x + y, x, y, ann, GapAfter(0, x, y))
  {
  }

  /** D is never below an invariant, and at most two precisions above it, or (2/3)^32 of the sum of the pools
      if the iteration ran out of steps. */
  ghost predicate NearInvariant(d: real, x: real, y: real, ann: real, precision: real)
    requires x > 0.0 && y > 0.0
  {
    && (forall r {:trigger Excess(r, x, y, ann)} | r > 0.0 && Excess(r, x, y, ann) == 0.0 :: r <= d)
    && (GapsWithin(d, x, y, ann, 2.0 * precision)
        || GapsWithin(d, x, y, ann, GapAfter(StableNewton.ITERATIONS, x, y)))
  }

  /** One step of the loop, from above to above. */
  method StepDown(prev: real, x: real, y: real, ann: real, ghost n: nat) returns (d: real)
    requires x > 0.0 && y > 0.0 && ann >= 1.0 && prev > 0.0 && Excess(prev, x, y, ann) >= 0.0
    requires GapsWithin(prev, x, y, ann, GapAfter(n, x, y))
    ensures d == NextD(prev, x, y, ann) && 0.0 < d <= prev && Excess(d, x, y, ann) >= 0.0
    ensures GapsWithin(d, x, y, ann, GapAfter(n + 1, x, y)) && GapsWithin(d, x, y, ann, 2.0 * (prev - d))
  {
    StepGoesDown(prev, x, y, ann);
    StepStaysAbove(prev, x, y, ann);
    StepShrinksGaps(prev, x, y, ann, n);
    d := NextD(prev, x, y, ann);
  }

  /** `compute_d` for two pools, stopping at the first step of at most `precision`. */
  method ComputeD(amp: nat, x: real, y: real, precision: real) returns (d: real)
    requires x >= 0.0 && y >= 0.0 && amp >= StableAmp.AMP_PRECISION
    ensures x == 0.0 || y == 0.0 ==> d == 0.0
    ensures x > 0.0 && y > 0.0 ==>
              0.0 < d <= x + y && Excess(d, x, y, AnnOfD(amp)) >= 0.0 && NearInvariant(d, x, y, AnnOfD(amp), precision)
  {
    if x == 0.0 || y == 0.0 {
      return 0.0;
    }
    var ann := AnnOfD(amp);
    assert ann >= 1.0;
    d := x + y;
    SumIsAbove(x, y, ann);
    SumGaps(x, y, ann);
    ghost var arrived := false;
    var i := 0;
    while i < StableNewton.ITERATIONS
      invariant 0 <= i <= StableNewton.ITERATIONS
      invariant 0.0 < d <= x + y && Excess(d, x, y, ann) >= 0.0
      invariant GapsWithin(d, x, y, ann, GapAfter(i, x, y))
    {
      var prev := d;
      d := StepDown(prev, x, y, ann, i);
      if (d >= prev && d - prev <= precision) || (d < prev && prev - d <= precision) {
        GapsWiden(d, x, y, ann, 2.0 * (prev - d), 2.0 * precision);
        arrived := true;
        break;
      }
      i := i + 1;
    }
    assert arrived ==> GapsWithin(d, x, y, ann, 2.0 * precision);
    NothingAbove(d, x, y, ann);
  }

  lemma NothingAbove(d: real, x: real, y: real, ann: real)
    requires x > 0.0 && y > 0.0 && ann >= 1.0 && d > 0.0 && Excess(d, x, y, ann) >= 0.0
    ensures forall r {:trigger Excess(r, x, y, ann)} | r > 0.0 && Excess(r, x, y, ann) == 0.0 :: r <= d
  {
    forall r | r > 0.0 && Excess(r, x, y, ann) == 0.0 ensures r <= d {
      RootIsBelow(r, d, x, y, ann);
    }
  }
}
