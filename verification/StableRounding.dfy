/** `compute_d` keeps the fraction of the amplification coefficient and `calc_y` floors it: exactly
    when the two still agree, and in whose favour they differ. */
module StableRounding {
  import opened FixedPoint
  import opened Results
  import opened StableAmp
  import opened StableInvariant

  /** The coefficient of `calc_y` for two pools: a whole number. */
  function AnnOfY(amp: nat): nat {
    amp * 2 / AMP_PRECISION
  }

  lemma AnnOfYIsFloor(amp: nat)
    ensures AnnOfY(amp) as real <= AnnOfD(amp)
    ensures AnnOfY(amp) as real == AnnOfD(amp) <==> amp * 2 % AMP_PRECISION == 0
  {
    var q, r := amp * 2 / AMP_PRECISION, amp * 2 % AMP_PRECISION;
    assert amp * 2 == q * AMP_PRECISION + r;
    assert AnnOfD(amp) == q as real + r as real / 100.0;
  }

  /** The excess under one coefficient and under another differ by how far d is from the sum. */
  lemma ExcessMoves(d: real, x: real, y: real, a: real, b: real)
    requires x > 0.0 && y > 0.0
    ensures Excess(d, x, y, a) - Excess(d, x, y, b) == (a - b) * (d - (x + y))
  {
    var k, s := Cube(d) / Quad(x, y), x + y;
    assert (a - b) * (d - s) == a * d - a * s - b * d + b * s;
  }

  /** Pools whose invariant is their sum are balanced. */
  lemma SumIsInvariantIff(d: real, x: real, y: real, ann: real)
    requires x > 0.0 && y > 0.0 && d > 0.0 && ann >= 1.0 && Excess(d, x, y, ann) == 0.0
    ensures d <= x + y
    ensures d == x + y <==> x == y
  {
    SumIsAbove(x, y, ann);
    RootIsBelow(d, x + y, x, y, ann);
    if x == y {
      RootIsBelow(x + y, d, x, y, ann);
    }
    if d == x + y {
      CubeOfSum(x, y, d, Cube(d) / Quad(x, y));
    }
  }

  lemma CubeOfSum(x: real, y: real, s: real, k: real)
    requires x > 0.0 && y > 0.0 && s == x + y && k == Cube(s) / Quad(x, y) && k == s
    ensures x == y
  {
    var q := Quad(x, y);
    Undo(Cube(s), q);
    assert s * (s * s - q) == Cube(s) - s * q;
    ZeroFactor(s * s - q, s);
    var g := x - y;
    assert g * g == s * s - q;
    NoOtherZero(g, g);
  }

  /** The quadratic times its coefficient is the equation times -y, so their signs are opposite. */
  lemma OppositeSigns(x: real, y: real, d: real, ann: real)
    requires x > 0.0 && y > 0.0 && ann > 0.0
    ensures Excess(d, x, y, ann) >= 0.0 ==> Residue(x, y, d, ann) <= 0.0
  {
    Times(x, ann);
    Undo(Cube(d), Quad(x, y));
    Undo(Cube(d), 4.0 * (x * ann));
    Undo(d, ann);
    var k, c, r := Cube(d) / Quad(x, y), Cube(d) / (4.0 * (x * ann)), d / ann;
    SameQuotient(x, y, ann, k, c, Cube(d));
    ScaledEquation(x, y, d, ann, k, c, r);
    if Excess(d, x, y, ann) >= 0.0 {
      Times0(Excess(d, x, y, ann), y);
      SignOfProduct(-Residue(x, y, d, ann), ann);
    }
  }

  /** Pools with the invariant d under one coefficient solve the quadratic under another exactly when
      the two are equal or d is the sum of the pools. */
  lemma TwoCoefficients(x: real, y: real, d: real, a: real, b: real)
    requires x > 0.0 && y > 0.0 && a > 0.0 && b > 0.0 && Excess(d, x, y, a) == 0.0
    ensures Residue(x, y, d, b) == 0.0 <==> a == b || d == x + y
  {
    QuadraticIsInvariant(x, y, d, b);
    SameExcessIff(d, x, y, a, b);
  }

  lemma SameExcessIff(d: real, x: real, y: real, a: real, b: real)
    requires x > 0.0 && y > 0.0 && Excess(d, x, y, a) == 0.0
    ensures Excess(d, x, y, b) == 0.0 <==> a == b || d == x + y
  {
    ExcessMoves(d, x, y, a, b);
    NoExcess(Excess(d, x, y, a), Excess(d, x, y, b), a - b, d - (x + y));
  }

  lemma NoExcess(one: real, other: real, p: real, q: real)
    requires one == 0.0 && one - other == p * q
    ensures other == 0.0 <==> p == 0.0 || q == 0.0
  {
    NoOtherZero(p, q);
  }

  lemma NoOtherZero(p: real, q: real)
    ensures p * q == 0.0 <==> p == 0.0 || q == 0.0
  {
  }

  /** With the two coefficients of the code: pools that have the invariant d solve the quadratic that
      `calc_y` builds from d if and only if the amplifier leaves no fraction or the pools are balanced.
      Otherwise the solution lies above the balance: the ask pool keeps more, never less. */
  lemma CoefficientsAgreeIff(amp: nat, x: real, y: real, d: real)
    requires amp >= AMP_PRECISION && x > 0.0 && y > 0.0 && d > 0.0 && Excess(d, x, y, AnnOfD(amp)) == 0.0
    ensures Residue(x, y, d, AnnOfY(amp) as real) == 0.0 <==> amp * 2 % AMP_PRECISION == 0 || x == y
    ensures Residue(x, y, d, AnnOfY(amp) as real) <= 0.0
  {
    var a, b := AnnOfD(amp), AnnOfY(amp) as real;
    AnnOfYIsFloor(amp);
    SumIsInvariantIff(d, x, y, a);
    TwoCoefficients(x, y, d, a, b);
    SmallerLeavesExcess(d, x, y, a, b);
    OppositeSigns(x, y, d, b);
  }

  lemma SmallerLeavesExcess(d: real, x: real, y: real, a: real, b: real)
    requires x > 0.0 && y > 0.0 && b <= a && d <= x + y && Excess(d, x, y, a) == 0.0
    ensures Excess(d, x, y, b) >= 0.0
  {
    ExcessMoves(d, x, y, a, b);
    Negated(a - b, d - (x + y));
  }

  lemma Negated(p: real, q: real)
    requires p >= 0.0 && q <= 0.0
    ensures p * q <= 0.0
  {
    Times0(p, -q);
  }

  /** Such amplifiers are reached: on the way from 1 to 2 the coefficients become 2.1 against 2 and
      then 2.5 against 2. */
  lemma RampLeavesFraction()
    ensures var started := Start(Initial(1, 0).value, 86400, 2, 186400);
            && Initial(1, 0).Ok? && started.Ok?
            && Current(started.value, 91400) == Ok(105)
            && Current(started.value, 111400) == Ok(125)
    ensures AnnOfD(105) == 2.1 && AnnOfY(105) == 2
    ensures AnnOfD(125) == 2.5 && AnnOfY(125) == 2
  {
    FloorIs(100 * 5000, 100000, 5);
    FloorIs(100 * 25000, 100000, 25);
  }

  /** Two pools at the first of them: they have the invariant 42, yet do not solve the quadratic. */
  lemma UnbalancedPools()
    ensures Excess(42.0, 28.0, 15.0, AnnOfD(105)) == 0.0
    ensures Residue(28.0, 15.0, 42.0, AnnOfY(105) as real) < 0.0
  {
    var x, y, d := 28.0, 15.0, 42.0;
    assert Quad(x, y) == 1680.0 && Cube(d) == 74088.0;
    Quotient(44.1, Quad(x, y), Cube(d));
    RampLeavesFraction();
    CoefficientsAgreeIff(105, x, y, d);
  }
}
