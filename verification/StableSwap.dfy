/** The stableswap pair's new ask balance: the coefficients of the quadratic are folded up from the
    pools, and the integer Newton loop solves it. The invariant D is taken as given. */
module StableSwap {
  import opened FixedPoint
  import opened Results
  import opened StableNewton
  import StableAmp

  /** A pool balance as a decimal; `info` names the asset. */
  datatype Pool = Pool(info: nat, amount: nat)

  /** The liquid staking asset of the pair, if any, and its target rate. */
  datatype Lsd = Lsd(asset: Option<nat>, rate: nat)

  /** `apply_rate_decimal`. */
  function Applied(lsd: Lsd, info: nat, amount: nat): nat {
    if lsd.asset == Some(info) then Scale(amount, lsd.rate) else amount
  }

  /** `inverse_rate`. */
  function Unapplied(lsd: Lsd, info: nat, y: nat): Result<nat> {
    if lsd.asset != Some(info) then Ok(y)
    else if lsd.rate == 0 then Err(Overflow)
    else Ok(Floor(y * ONE, lsd.rate))
  }

  /** The product part and the sum of all balances but the ask pool's, with the new offer balance. */
  datatype Fold = Fold(c: nat, sum: nat)

  /** One pool more: `unit` is the number of atomics in one unit of the target precision. */
  function Folded(f: Fold, amount: nat, d: nat, n: nat, unit: nat): Result<Fold>
    requires unit > 0
  {
    var divisor := Floor(amount, unit) * n;
    if divisor == 0 then Err(Overflow) else Ok(Fold(Floor(f.c * d, divisor), f.sum + amount))
  }

  function FoldPools(pools: seq<Pool>, lsd: Lsd, from: nat, to: nat, offer: nat, d: nat, n: nat,
                     unit: nat): Result<Fold>
    requires unit > 0
  {
    if pools == [] then Ok(Fold(d, 0))
    else
      var f :- FoldPools(pools[..|pools| - 1], lsd, from, to, offer, d, n, unit);
      var last := pools[|pools| - 1];
      if last.info == from then Folded(f, offer, d, n, unit)
      else if last.info != to then Folded(f, Applied(lsd, last.info, last.amount), d, n, unit)
      else Ok(f)
  }

  /** The quadratic y^2 + e*y = c of a new offer balance. */
  datatype Quadratic = Quadratic(e: int, c: nat)

  function Coefficients(f: Fold, d: nat, amp: nat, n: nat, unit: nat): Result<Quadratic>
    requires unit > 0
  {
    var ann := amp * n / StableAmp.AMP_PRECISION;
    if ann * n == 0 then Err(Overflow)
    else Ok(Quadratic(Floor(f.sum, unit) + Floor(d, ann) - d, Floor(f.c * d, ann * n)))
  }

  /** The unscaled new balance: what the loop returns before the target rate is taken off. */
  function Unscaled(pools: seq<Pool>, lsd: Lsd, from: nat, to: nat, newAmount: nat, d: nat, amp: nat,
                    unit: nat): Result<nat>
    requires unit > 0
  {
    var offer := Applied(lsd, from, newAmount);
    var f :- FoldPools(pools, lsd, from, to, offer, d, |pools|, unit);
    var q :- Coefficients(f, d, amp, |pools|, unit);
    Solve(d, q.e, q.c, ITERATIONS)
  }

  /** `calc_y`. */
  function CalcY(offered: Pool, to: nat, newAmount: nat, pools: seq<Pool>, lsd: Lsd, d: nat, amp: nat,
                 unit: nat): Result<nat>
    requires unit > 0
  {
    if to == offered.info then Err(SameAssets)
    else if offered.amount == newAmount then Err(InvalidZeroAmount)
    else
      var y :- Unscaled(pools, lsd, offered.info, to, newAmount, d, amp, unit);
      Unapplied(lsd, to, y)
  }

  /** The same with the source's two loops. */
  method ComputeY(offered: Pool, to: nat, newAmount: nat, pools: seq<Pool>, lsd: Lsd, d: nat, amp: nat, unit: nat)
    returns (r: Result<nat>)
    requires unit > 0
    ensures r == CalcY(offered, to, newAmount, pools, lsd, d, amp, unit)
  {
    if to == offered.info {
      return Err(SameAssets);
    }
    if offered.amount == newAmount {
      return Err(InvalidZeroAmount);
    }
    var folded := FoldAll(pools, lsd, offered.info, to, Applied(lsd, offered.info, newAmount), d, |pools|, unit);
    if folded.Err? {
      return Err(folded.error);
    }
    var q := Coefficients(folded.value, d, amp, |pools|, unit);
    if q.Err? {
      return Err(q.error);
    }
    var y := Iterate(d, q.value.e, q.value.c);
    match y {
      case Err(e) => return Err(e);
      case Ok(v) => return Unapplied(lsd, to, v);
    }
  }

  method FoldAll(pools: seq<Pool>, lsd: Lsd, from: nat, to: nat, offer: nat, d: nat, n: nat, unit: nat)
    returns (r: Result<Fold>)
    requires unit > 0
    ensures r == FoldPools(pools, lsd, from, to, offer, d, n, unit)
  {
    var c, sum, i := d, 0, 0;
    while i < |pools|
      invariant 0 <= i <= |pools|
      invariant FoldPools(pools[..i], lsd, from, to, offer, d, n, unit) == Ok(Fold(c, sum))
    {
      var pool := pools[i];
      assert pools[..i + 1][..i] == pools[..i];
      if pool.info != to || pool.info == from {
        var amount := if pool.info == from then offer else Applied(lsd, pool.info, pool.amount);
        var step := Folded(Fold(c, sum), amount, d, n, unit);
        if step.Err? {
          FoldFails(pools, i + 1, lsd, from, to, offer, d, n, unit);
          return Err(Overflow);
        }
        c, sum := step.value.c, step.value.sum;
      }
      i := i + 1;
    }
    assert pools[..i] == pools;
    return Ok(Fold(c, sum));
  }

  /** Once one pool cannot be folded in, the rest is never reached. */
  lemma {:induction false} FoldFails(pools: seq<Pool>, i: nat, lsd: Lsd, from: nat, to: nat, offer: nat, d: nat,
                                     n: nat, unit: nat)
    requires unit > 0 && i <= |pools|
    requires FoldPools(pools[..i], lsd, from, to, offer, d, n, unit) == Err(Overflow)
    ensures FoldPools(pools, lsd, from, to, offer, d, n, unit) == Err(Overflow)
    decreases |pools|
  {
    if i < |pools| {
      assert pools[..|pools| - 1][..i] == pools[..i];
      FoldFails(pools[..|pools| - 1], i, lsd, from, to, offer, d, n, unit);
    } else {
      assert pools[..i] == pools;
    }
  }

  /** The Newton loop from `d`, at most 32 steps. */
  method Iterate(d: nat, e: int, c: nat) returns (r: Result<nat>)
    ensures r == Solve(d, e, c, ITERATIONS)
  {
    var y := d;
    for i := 0 to ITERATIONS
      invariant Solve(d, e, c, ITERATIONS) == Solve(y, e, c, ITERATIONS - i)
    {
      var prev := y;
      var step := Newton(prev, e, c);
      if step.Err? {
        return step;
      }
      y := step.value;
      if Close(y, prev) {
        return Ok(y);
      }
    }
    return Err(NotConverging);
  }

  // ---- what the answer is ----

  /** An answer is the floored root of the quadratic, or that plus one. */
  lemma UnscaledIsRoot(pools: seq<Pool>, lsd: Lsd, from: nat, to: nat, newAmount: nat, d: nat, amp: nat, unit: nat)
    returns (q: Quadratic, s: nat)
    requires unit > 0 && Unscaled(pools, lsd, from, to, newAmount, d, amp, unit).Ok?
    ensures var f := FoldPools(pools, lsd, from, to, Applied(lsd, from, newAmount), d, |pools|, unit);
            f.Ok? && Coefficients(f.value, d, amp, |pools|, unit) == Ok(q)
    ensures IsRoot(s, q.e, q.c)
    ensures s <= Unscaled(pools, lsd, from, to, newAmount, d, amp, unit).value <= s + 1
  {
    var f := FoldPools(pools, lsd, from, to, Applied(lsd, from, newAmount), d, |pools|, unit).value;
    q := Coefficients(f, d, amp, |pools|, unit).value;
    s := Root(q.e, q.c);
    SolveFindsRoot(s, d, q.e, q.c, ITERATIONS);
  }

  /** With D positive no subtraction underflows and nothing is divided by zero: the loop answers, or
      reports that it did not converge. */
  lemma LoopNeverPanics(f: Fold, d: nat, amp: nat, n: nat, unit: nat)
    requires unit > 0 && d > 0 && Coefficients(f, d, amp, n, unit).Ok?
    ensures var q := Coefficients(f, d, amp, n, unit).value;
            var r := Solve(d, q.e, q.c, ITERATIONS);
            r.Err? ==> r.error == NotConverging
  {
    var q := Coefficients(f, d, amp, n, unit).value;
    SolveNeverPanics(Root(q.e, q.c), d, q.e, q.c, ITERATIONS);
  }

  // ---- larger offers ----

  lemma FoldedMono(f: Fold, g: Fold, amount: nat, more: nat, d: nat, n: nat, unit: nat)
    requires unit > 0 && g.c <= f.c && f.sum <= g.sum && amount <= more
    requires Folded(f, amount, d, n, unit).Ok?
    ensures Folded(g, more, d, n, unit).Ok?
    ensures Folded(g, more, d, n, unit).value.c <= Folded(f, amount, d, n, unit).value.c
    ensures Folded(f, amount, d, n, unit).value.sum <= Folded(g, more, d, n, unit).value.sum
  {
    FloorMono(amount, more, unit);
    MulMono(Floor(amount, unit), Floor(more, unit), n);
    MulMono(g.c, f.c, d);
    var small, large := Floor(amount, unit) * n, Floor(more, unit) * n;
    FloorAntitone(g.c * d, f.c * d, small, large);
  }

  /** A larger offer makes the sum larger and the product part smaller. */
  lemma {:induction false} FoldMono(pools: seq<Pool>, lsd: Lsd, from: nat, to: nat, offer: nat, more: nat, d: nat,
                                    n: nat, unit: nat)
    requires unit > 0 && offer <= more
    requires FoldPools(pools, lsd, from, to, offer, d, n, unit).Ok?
    ensures var f, g := FoldPools(pools, lsd, from, to, offer, d, n, unit),
            FoldPools(pools, lsd, from, to, more, d, n, unit);
            g.Ok? && g.value.c <= f.value.c && f.value.sum <= g.value.sum
    decreases |pools|
  {
    if pools != [] {
      var before, last := pools[..|pools| - 1], pools[|pools| - 1];
      FoldMono(before, lsd, from, to, offer, more, d, n, unit);
      var f := FoldPools(before, lsd, from, to, offer, d, n, unit).value;
      var g := FoldPools(before, lsd, from, to, more, d, n, unit).value;
      if last.info == from {
        FoldedMono(f, g, offer, more, d, n, unit);
      } else if last.info != to {
        var own := Applied(lsd, last.info, last.amount);
        FoldedMono(f, g, own, own, d, n, unit);
      }
    }
  }

  lemma CoefficientsMono(f: Fold, g: Fold, d: nat, amp: nat, n: nat, unit: nat)
    requires unit > 0 && g.c <= f.c && f.sum <= g.sum && Coefficients(f, d, amp, n, unit).Ok?
    ensures var p, q := Coefficients(f, d, amp, n, unit), Coefficients(g, d, amp, n, unit);
            q.Ok? && p.value.e <= q.value.e && q.value.c <= p.value.c
  {
    var ann := amp * n / StableAmp.AMP_PRECISION;
    FloorMono(f.sum, g.sum, unit);
    MulMono(g.c, f.c, d);
    FloorMono(g.c * d, f.c * d, ann * n);
  }

  /** A steeper quadratic with a smaller right-hand side has a smaller root. */
  lemma RootMono(s: nat, e: int, c: nat, t: nat, e1: int, c1: nat)
    requires IsRoot(s, e, c) && IsRoot(t, e1, c1) && e <= e1 && c1 <= c
    ensures t <= s
  {
    MulMono(0, e1 - e, t);
    assert e1 * t == e * t + (e1 - e) * t;
    RootSplits(s, t, e, c);
  }

  /** Offering more never leaves the ask pool more than one unit higher, so it never yields more
      than one unit less. */
  lemma LargerOfferYieldsNoLess(pools: seq<Pool>, lsd: Lsd, from: nat, to: nat, newAmount: nat, more: nat,
                                d: nat, amp: nat, unit: nat)
    requires unit > 0 && newAmount <= more
    requires Unscaled(pools, lsd, from, to, newAmount, d, amp, unit).Ok?
    requires Unscaled(pools, lsd, from, to, more, d, amp, unit).Ok?
    ensures Unscaled(pools, lsd, from, to, more, d, amp, unit).value
            <= Unscaled(pools, lsd, from, to, newAmount, d, amp, unit).value + 1
  {
    var q, s := UnscaledIsRoot(pools, lsd, from, to, newAmount, d, amp, unit);
    var q1, t := UnscaledIsRoot(pools, lsd, from, to, more, d, amp, unit);
    AppliedMono(lsd, from, newAmount, more);
    var offer, offer1 := Applied(lsd, from, newAmount), Applied(lsd, from, more);
    FoldMono(pools, lsd, from, to, offer, offer1, d, |pools|, unit);
    CoefficientsMono(FoldPools(pools, lsd, from, to, offer, d, |pools|, unit).value,
                     FoldPools(pools, lsd, from, to, offer1, d, |pools|, unit).value, d, amp, |pools|, unit);
    RootMono(s, q.e, q.c, t, q1.e, q1.c);
  }

  lemma AppliedMono(lsd: Lsd, info: nat, a: nat, b: nat)
    requires a <= b
    ensures Applied(lsd, info, a) <= Applied(lsd, info, b)
  {
    MulMono(a, b, lsd.rate);
    FloorMono(a * lsd.rate, b * lsd.rate, ONE);
  }
}
