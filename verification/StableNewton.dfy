/** The integer Newton iteration with which the stableswap pair solves y^2 + e*y = c for the new
    balance of the ask pool. The coefficient e = b - d may be negative. */
module StableNewton {
  import opened FixedPoint
  import opened Results

  const ITERATIONS: nat := 32

  function F(y: nat, e: int): int {
    y * y + e * y
  }

  /** `s` is the root, rounded down. */
  predicate IsRoot(s: nat, e: int, c: nat) {
    F(s, e) <= c < F(s + 1, e)
  }

  /** One Newton step; the subtraction of d must not underflow, nor the denominator be zero. */
  function Newton(y: nat, e: int, c: nat): Result<nat> {
    if 2 * y + e <= 0 then Err(Overflow) else Ok(Floor(y * y + c, 2 * y + e))
  }

  predicate Close(y: nat, prev: nat) {
    -1 <= y - prev <= 1
  }

  /** The loop: at most `n` more steps, stopping at the first that moves by at most one. */
  function Solve(y: nat, e: int, c: nat, n: nat): Result<nat>
    decreases n
  {
    if n == 0 then Err(NotConverging)
    else
      var next :- Newton(y, e, c);
      if Close(next, y) then Ok(next) else Solve(next, e, c, n - 1)
  }

  // ---- the root ----

  /** The root exists and can be found by counting up; it is unique and splits the line in two. */
  function Root(e: int, c: nat): (s: nat)
    ensures IsRoot(s, e, c)
  {
    RootBelow(e, c, c + Abs(e) + 1);
    Search(e, c, 0)
  }

  function Abs(e: int): nat {
    if e < 0 then -e else e
  }

  lemma RootBelow(e: int, c: nat, top: nat)
    requires top > c + Abs(e)
    ensures F(top, e) > c
  {
    assert F(top, e) == top * (top + e);
    if top + e < c + 1 { assert false; }
    MulMono(1, top + e, top);
  }

  function Search(e: int, c: nat, from: nat): (s: nat)
    requires F(from, e) <= c
    ensures IsRoot(s, e, c)
    decreases c + Abs(e) + 1 - from
  {
    if F(from + 1, e) > c then from
    else
      assert from + 1 <= c + Abs(e) by {
        if from + 1 > c + Abs(e) { RootBelow(e, c, from + 1); }
      }
      Search(e, c, from + 1)
  }

  /** Above the root the value exceeds c, at and below it it does not. */
  lemma RootSplits(s: nat, y: nat, e: int, c: nat)
    requires IsRoot(s, e, c)
    ensures F(y, e) <= c <==> y <= s
  {
    if y > s {
      Above(s + 1, y, e);
      SlopePositive(s, e, c);
    } else {
      Between(y, s, e, c);
    }
  }

  /** The slope at the root: F grows from there on. */
  lemma SlopePositive(s: nat, e: int, c: nat)
    requires IsRoot(s, e, c)
    ensures 2 * s + 1 + e > 0
  {
    assert F(s + 1, e) == F(s, e) + 2 * s + 1 + e;
  }

  lemma Above(p: nat, y: nat, e: int)
    requires p <= y
    ensures F(y, e) == F(p, e) + (y - p) * (y + p + e)
  {
    assert (y - p) * (y + p + e) == y * y - p * p + e * (y - p);
    assert e * (y - p) == e * y - e * p;
  }

  /** F is convex and 0 at 0, so it stays below c between 0 and the root. */
  lemma Between(y: nat, s: nat, e: int, c: nat)
    requires y <= s && F(s, e) <= c
    ensures F(y, e) <= c
  {
    assert F(y, e) == y * (y + e) && F(s, e) == s * (s + e);
    if y + e > 0 {
      MulMono(y + e, s + e, y);
      MulMono(y, s, s + e);
    } else {
      Nonpositive(y, y + e);
    }
  }

  lemma Nonpositive(a: nat, b: int)
    requires b <= 0
    ensures a * b <= 0
  {
  }

  // ---- one step ----

  /** From any point with a positive denominator the next iterate is at or above the root. */
  lemma NeverBelow(s: nat, y: nat, e: int, c: nat)
    requires F(s, e) <= c && 2 * y + e > 0
    ensures s <= Floor(y * y + c, 2 * y + e)
  {
    var d := y - s;
    assert d * d >= 0;
    assert d * d == y * y - 2 * (s * y) + s * s;
    assert s * (2 * y + e) == 2 * (s * y) + e * s;
    FloorAtLeast(y * y + c, 2 * y + e, s);
  }

  /** At or above the root the denominator is positive, except at zero when e is not positive. */
  lemma DenominatorPositive(s: nat, y: nat, e: int, c: nat)
    requires IsRoot(s, e, c) && s <= y
    ensures 2 * y + e > 0 <==> y > 0 || e > 0
  {
    SlopePositive(s, e, c);
    if 2 * s + e == 0 {
      assert F(s + 1, e) == (s + 1) * (1 - s);
      if s >= 1 {
        Nonpositive(s + 1, 1 - s);
        assert false;
      }
    }
  }

  /** Strictly above the root a step moves strictly down. */
  lemma StepsDown(s: nat, p: nat, e: int, c: nat)
    requires IsRoot(s, e, c) && s < p && 2 * p + e > 0
    ensures Floor(p * p + c, 2 * p + e) < p
  {
    RootSplits(s, p, e, c);
    assert p * (2 * p + e) == p * p + F(p, e);
    FloorAtMost(p * p + c, 2 * p + e, p - 1);
  }

  /** A step down by exactly one from above the root has arrived at it, or one above it. */
  lemma LastStep(s: nat, y: nat, e: int, c: nat)
    requires IsRoot(s, e, c)
    requires y * (2 * (y + 1) + e) <= (y + 1) * (y + 1) + c
    ensures y <= s + 1
  {
    assert y * (2 * (y + 1) + e) == F(y, e) + y * y + 2 * y;
    assert (y + 1) * (y + 1) == y * y + 2 * y + 1;
    if y > s + 1 {
      Above(s + 1, y, e);
      SlopePositive(s, e, c);
      MulMono(1, y - (s + 1), y + (s + 1) + e);
      assert false;
    }
  }

  /** A step that moves by at most one has arrived: at the root or one above it. */
  lemma ArrivedAtRoot(s: nat, p: nat, e: int, c: nat, next: nat)
    requires IsRoot(s, e, c) && Newton(p, e, c) == Ok(next) && Close(next, p)
    ensures s <= next <= s + 1
  {
    NeverBelow(s, p, e, c);
    if p > s {
      StepsDown(s, p, e, c);
      LastStep(s, next, e, c);
    }
  }

  // ---- the whole loop ----

  /** Whatever the start, an answer of the loop is the root rounded down, or that plus one. */
  lemma {:induction false} SolveFindsRoot(s: nat, y: nat, e: int, c: nat, n: nat)
    requires IsRoot(s, e, c) && Solve(y, e, c, n).Ok?
    ensures s <= Solve(y, e, c, n).value <= s + 1
    decreases n
  {
    var next := Newton(y, e, c).value;
    if Close(next, y) {
      ArrivedAtRoot(s, y, e, c, next);
    } else {
      SolveFindsRoot(s, next, e, c, n - 1);
    }
  }

  /** A step that does not stop the loop leaves a positive denominator for the next one. */
  lemma StepKeepsPositive(s: nat, y: nat, e: int, c: nat, next: nat)
    requires IsRoot(s, e, c) && Newton(y, e, c) == Ok(next) && !Close(next, y)
    ensures s <= next && 2 * next + e > 0
  {
    NeverBelow(s, y, e, c);
    DenominatorPositive(s, next, e, c);
    if next == 0 && e <= 0 {
      RootSplits(s, 1, e, c);
      assert e == 0 && c == 0;
      if y >= 2 {
        FloorAtLeast(y * y, 2 * y, 1) by { MulMono(2, y, y); }
      }
    }
  }

  /** From a start with a positive denominator, no later subtraction underflows and no later
      division is by zero: the only failure is running out of steps. */
  lemma {:induction false} SolveNeverPanics(s: nat, y: nat, e: int, c: nat, n: nat)
    requires IsRoot(s, e, c) && 2 * y + e > 0
    ensures Solve(y, e, c, n).Err? ==> Solve(y, e, c, n).error == NotConverging
    decreases n
  {
    if n > 0 {
      var next := Newton(y, e, c).value;
      if !Close(next, y) {
        StepKeepsPositive(s, y, e, c, next);
        SolveNeverPanics(s, next, e, c, n - 1);
      }
    }
  }

  /** Above the root each step at least halves the distance to it. */
  lemma GapHalves(s: nat, p: nat, e: int, c: nat, y: nat)
    requires IsRoot(s, e, c) && s < p && 2 * p + e > 0
    requires y * (2 * p + e) <= p * p + c
    ensures 2 * (y - s) <= p - s
  {
    SlopePositive(s, e, c);
    HalfwayUp(p, s + 1, e);
    if 2 * y >= p + (s + 1) {
      MulMono(p + (s + 1), 2 * y, 2 * p + e);
      assert false;
    }
  }

  /** The tangent at p meets F = F(q) at most half way between q and p. */
  lemma HalfwayUp(p: nat, q: nat, e: int)
    requires q <= p && 2 * q + e >= 0
    ensures 2 * (p * p + F(q, e)) <= (p + q) * (2 * p + e)
  {
    assert (p + q) * (2 * p + e) - 2 * (p * p + F(q, e)) == (p - q) * (2 * q + e);
    MulMono(0, p - q, 2 * q + e);
  }

  /** At the root, or one above it, the next step stops the loop. */
  lemma StopsAtRoot(s: nat, p: nat, e: int, c: nat, next: nat)
    requires IsRoot(s, e, c) && s <= p <= s + 1 && Newton(p, e, c) == Ok(next)
    ensures Close(next, p)
  {
    NeverBelow(s, p, e, c);
    if p == s + 1 {
      StepsDown(s, p, e, c);
    } else {
      assert F(s + 1, e) == F(s, e) + 2 * s + 1 + e;
      assert (s + 1 + 1) * (2 * s + e) == s * s + F(s, e) + 2 * (2 * s + e);
      FloorAtMost(s * s + c, 2 * s + e, s + 1);
    }
  }

  /** The loop converges from any point at most 2^(n-1) above the root. */
  lemma {:induction false} SolveConverges(s: nat, y: nat, e: int, c: nat, n: nat)
    requires IsRoot(s, e, c) && 2 * y + e > 0 && n >= 1 && s <= y <= s + Pow2(n - 1)
    ensures Solve(y, e, c, n).Ok?
    decreases n
  {
    var next := Newton(y, e, c).value;
    if y <= s + 1 {
      StopsAtRoot(s, y, e, c, next);
    } else if !Close(next, y) {
      StepKeepsPositive(s, y, e, c, next);
      GapHalves(s, y, e, c, next);
      SolveConverges(s, next, e, c, n - 1);
    }
  }

  // ---- the quadratic phase ----

  /** 2^(2^k). */
  function Tower(k: nat): (p: nat)
    ensures p >= 2
  {
    if k == 0 then 2 else Squared(Tower(k - 1))
  }

  function Squared(p: nat): (q: nat)
    ensures p >= 2 ==> q >= 2
  {
    if p >= 2 then MulMono(2, p, p); p * p else p * p
  }

  /** The gap after a step, against its square before it; `slope` is the slope at the root. */
  lemma GapSquares(s: nat, y: nat, e: int, c: nat, next: nat)
    requires IsRoot(s, e, c) && Newton(y, e, c) == Ok(next)
    ensures (next - s) * (2 * y + e) <= (y - s) * (y - s) + (2 * s + e)
  {
    assert F(s + 1, e) == F(s, e) + 2 * s + 1 + e;
    assert (next - s) * (2 * y + e) == next * (2 * y + e) - (2 * (s * y) + s * e);
    assert (y - s) * (y - s) == y * y - 2 * (s * y) + s * s;
  }

  /** A gap whose square is at most the slope is closed, up to one, by the next step. */
  lemma LastSquare(g: nat, slope: nat, next: nat)
    requires slope > 0 && next * (slope + 2 * g) <= g * g + slope && g * g <= slope
    ensures next <= 1
  {
    if next >= 2 {
      MulMono(2, next, slope + 2 * g);
      assert false;
    }
  }

  lemma SquareOfProduct(g: nat, p: nat, slope: nat)
    requires 2 * g * p <= slope
    ensures 4 * (g * g) * (p * p) <= slope * slope
  {
    var twice := 2 * g * p;
    assert 4 * (g * g) * (p * p) == twice * twice;
    MulMono(twice, slope, twice);
    MulMono(twice, slope, slope);
  }

  /** Otherwise the gap, measured against the slope, is squared. */
  lemma GapSquared(g: nat, slope: nat, next: nat, p: nat)
    requires next * (slope + 2 * g) <= g * g + slope && 0 < slope < g * g && 2 * g * p <= slope
    ensures 2 * next * (p * p) <= slope
  {
    SquareOfProduct(g, p, slope);
    DropTerm(next, slope, g);
    DivideSquares(next, slope, g * g, p * p);
  }

  lemma DropTerm(next: nat, slope: nat, g: nat)
    requires next * (slope + 2 * g) <= g * g + slope && slope < g * g
    ensures next * slope <= 2 * (g * g)
  {
    MulMono(slope, slope + 2 * g, next);
  }

  lemma DivideSquares(next: nat, slope: nat, gg: nat, pp: nat)
    requires next * slope <= 2 * gg && 4 * gg * pp <= slope * slope && slope > 0
    ensures 2 * next * pp <= slope
  {
    MulMono(next * slope, 2 * gg, 2 * pp);
    assert 2 * gg * (2 * pp) == 4 * gg * pp;
    var twice := 2 * next * pp;
    assert next * slope * (2 * pp) == twice * slope;
    if twice > slope {
      MulMono(slope + 1, twice, slope);
      assert false;
    }
  }

  lemma TopReached(g: nat, slope: nat, p: nat)
    requires slope > 0 && 2 * g * p <= slope <= 4 * (p * p)
    ensures g * g <= slope
  {
    SquareOfProduct(g, p, slope);
    CompareSquares(g * g, p * p, slope);
  }

  lemma CompareSquares(gg: nat, pp: nat, slope: nat)
    requires 0 < slope <= 4 * pp && 4 * gg * pp <= slope * slope
    ensures gg <= slope
  {
    if gg > slope {
      MulMono(slope, 4 * pp, slope);
      MulMono(slope + 1, gg, 4 * pp);
      assert false;
    }
  }

  /** Once the slope at the root is at least 4 times the gap, the number of correct digits doubles
      with every step. */
  lemma {:induction false} QuadraticPhase(s: nat, y: nat, e: int, c: nat, k: nat, top: nat, n: nat)
    requires IsRoot(s, e, c) && s <= y && 2 * s + e > 0
    requires 2 * (y - s) * Tower(k) <= 2 * s + e <= 4 * Tower(top + 1) && k <= top
    requires n >= top - k + 2
    ensures Solve(y, e, c, n).Ok?
    decreases n
  {
    var g, slope, next := y - s, 2 * s + e, Newton(y, e, c).value;
    if !Close(next, y) {
      StepKeepsPositive(s, y, e, c, next);
      GapSquares(s, y, e, c, next);
      if g * g <= slope {
        LastSquare(g, slope, next - s);
        SolveConverges(s, next, e, c, n - 1);
      } else {
        GapSquared(g, slope, next - s, Tower(k));
        if k == top {
          TopReached(g, slope, Tower(top));
          assert false;
        }
        QuadraticPhase(s, next, e, c, k + 1, top, n - 1);
      }
    }
  }

  /** The loop converges within j + top + 2 steps from any point above the root whose gap is at most
      2^j / 4 times the slope at the root, a slope of at most 4 * 2^(2^(top + 1)). */
  lemma {:induction false} SolveConvergesFast(s: nat, y: nat, e: int, c: nat, j: nat, top: nat, n: nat)
    requires IsRoot(s, e, c) && s <= y && 0 < 2 * s + e <= 4 * Tower(top + 1)
    requires 4 * (y - s) <= Pow2(j) * (2 * s + e) && n >= j + top + 2
    ensures Solve(y, e, c, n).Ok?
    decreases n
  {
    if j == 0 {
      QuadraticPhase(s, y, e, c, 0, top, n);
    } else {
      var next := Newton(y, e, c).value;
      if y <= s + 1 {
        StopsAtRoot(s, y, e, c, next);
      } else if !Close(next, y) {
        StepKeepsPositive(s, y, e, c, next);
        GapHalves(s, y, e, c, next);
        HalfBound(y - s, next - s, Pow2(j - 1), 2 * s + e);
        SolveConvergesFast(s, next, e, c, j - 1, top, n - 1);
      }
    }
  }

  lemma HalfBound(gap: nat, half: nat, p: nat, slope: nat)
    requires 2 * half <= gap && 4 * gap <= 2 * p * slope
    ensures 4 * half <= p * slope
  {
    assert 2 * p * slope == 2 * (p * slope);
  }
}
