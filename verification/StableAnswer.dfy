/** What `calc_y` answers once the target rate of a liquid staking asset is put on and taken off again, and
    what the loop over the pools adds up to. */
module StableAnswer {
  import opened FixedPoint
  import opened Results
  import opened StableNewton
  import opened StableSwap
  import opened StableConvergence

  // ---- the target rate ----

  /** A balance counts at the target rate if it is of the liquid staking asset, and as it is otherwise. */
  lemma AppliedIs(lsd: Lsd, info: nat, amount: nat)
    ensures var v := Applied(lsd, info, amount);
            if lsd.asset == Some(info) then v * ONE <= amount * lsd.rate < (v + 1) * ONE else v == amount
  {
  }

  /** `r` is `y` with the target rate taken off again, rounded down. */
  predicate TakenOff(r: nat, y: nat, lsd: Lsd, info: nat) {
    if lsd.asset == Some(info) then r * lsd.rate <= y * ONE < (r + 1) * lsd.rate else r == y
  }

  lemma UnappliedIs(lsd: Lsd, info: nat, y: nat)
    requires Unapplied(lsd, info, y).Ok?
    ensures TakenOff(Unapplied(lsd, info, y).value, y, lsd, info)
  {
    if lsd.asset == Some(info) {
      var r := Floor(y * ONE, lsd.rate);
      assert (r + 1) * lsd.rate == r * lsd.rate + lsd.rate;
    }
  }

  /** Putting the rate on what was taken off gives back no more than there was, and less than it by no more
      than the rate and one. */
  lemma OffAndOn(lsd: Lsd, info: nat, y: nat, r: nat)
    requires TakenOff(r, y, lsd, info)
    ensures Applied(lsd, info, r) <= y
    ensures lsd.asset == Some(info) ==> y * ONE < (Applied(lsd, info, r) + 1) * ONE + lsd.rate
  {
    if lsd.asset == Some(info) {
      FloorAtMost(r * lsd.rate, ONE, y);
      assert (r + 1) * lsd.rate == r * lsd.rate + lsd.rate;
    }
  }

  // ---- the answer ----

  /** An answer of `calc_y`: the floored root of the quadratic built from the pools, or that plus one, with
      the target rate taken off if the asked asset is the liquid staking one. */
  lemma CalcYAnswers(offered: Pool, to: nat, newAmount: nat, pools: seq<Pool>, lsd: Lsd, d: nat, amp: nat, unit: nat)
    returns (q: Quadratic, s: nat, y: nat)
    requires unit > 0 && CalcY(offered, to, newAmount, pools, lsd, d, amp, unit).Ok?
    ensures to != offered.info && newAmount != offered.amount
    ensures var f := FoldPools(pools, lsd, offered.info, to, Applied(lsd, offered.info, newAmount), d, |pools|, unit);
            f.Ok? && Coefficients(f.value, d, amp, |pools|, unit) == Ok(q)
    ensures IsRoot(s, q.e, q.c) && s <= y <= s + 1
    ensures TakenOff(CalcY(offered, to, newAmount, pools, lsd, d, amp, unit).value, y, lsd, to)
  {
    q, s := UnscaledIsRoot(pools, lsd, offered.info, to, newAmount, d, amp, unit);
    y := Unscaled(pools, lsd, offered.info, to, newAmount, d, amp, unit).value;
    UnappliedIs(lsd, to, y);
  }

  /** A larger offer never yields more than one unit less; of a liquid staking asset, never less by more than
      one unit at the target rate, rounded up. */
  lemma LargerOfferAnswersNoLess(offered: Pool, to: nat, newAmount: nat, more: nat, pools: seq<Pool>, lsd: Lsd, d: nat,
                                 amp: nat, unit: nat)
    requires unit > 0 && newAmount <= more
    requires CalcY(offered, to, newAmount, pools, lsd, d, amp, unit).Ok?
    requires CalcY(offered, to, more, pools, lsd, d, amp, unit).Ok?
    ensures CalcY(offered, to, more, pools, lsd, d, amp, unit).value
            <= CalcY(offered, to, newAmount, pools, lsd, d, amp, unit).value + OneUnit(lsd, to)
  {
    LargerOfferYieldsNoLess(pools, lsd, offered.info, to, newAmount, more, d, amp, unit);
    var y := Unscaled(pools, lsd, offered.info, to, newAmount, d, amp, unit).value;
    var y1 := Unscaled(pools, lsd, offered.info, to, more, d, amp, unit).value;
    var r, r1 := Unapplied(lsd, to, y).value, Unapplied(lsd, to, y1).value;
    if lsd.asset == Some(to) {
      OneMoreTakenOff(y, y1, lsd.rate, r, r1);
    }
  }

  /** One unit with the rate taken off, rounded up. */
  function OneUnit(lsd: Lsd, info: nat): nat {
    if lsd.asset == Some(info) && lsd.rate > 0 then Ceil(ONE, lsd.rate) else 1
  }

  lemma OneMoreTakenOff(y: nat, y1: nat, rate: nat, r: nat, r1: nat)
    requires rate > 0 && y1 <= y + 1 && r == Floor(y * ONE, rate) && r1 == Floor(y1 * ONE, rate)
    ensures r1 <= r + Ceil(ONE, rate)
  {
    var more := Ceil(ONE, rate);
    assert (r + more + 1) * rate == r * rate + more * rate + rate;
    FloorAtMost(y1 * ONE, rate, r + more);
  }

  // ---- what the loop over the pools adds up to ----

  /** The balance a pool enters the loop with: the new one for the offered asset, nothing for the asked one,
      and its own, at the target rate where that applies, for any other. */
  function Entry(pool: Pool, lsd: Lsd, from: nat, to: nat, offer: nat): Option<nat> {
    if pool.info == from then Some(offer)
    else if pool.info == to then None
    else Some(Applied(lsd, pool.info, pool.amount))
  }

  function EntrySum(pools: seq<Pool>, lsd: Lsd, from: nat, to: nat, offer: nat): nat {
    if pools == [] then 0
    else
      var n := |pools| - 1;
      var e := Entry(pools[n], lsd, from, to, offer);
      EntrySum(pools[..n], lsd, from, to, offer) + if e.Some? then e.value else 0
  }

  /** The product of n times each entry, in whole units. */
  function EntryProduct(pools: seq<Pool>, lsd: Lsd, from: nat, to: nat, offer: nat, n: nat, unit: nat): nat
    requires unit > 0
  {
    if pools == [] then 1
    else
      var k := |pools| - 1;
      var e := Entry(pools[k], lsd, from, to, offer);
      EntryProduct(pools[..k], lsd, from, to, offer, n, unit) * if e.Some? then Floor(e.value, unit) * n else 1
  }

  function EntryCount(pools: seq<Pool>, lsd: Lsd, from: nat, to: nat, offer: nat): nat {
    if pools == [] then 0
    else
      var k := |pools| - 1;
      EntryCount(pools[..k], lsd, from, to, offer) + if Entry(pools[k], lsd, from, to, offer).Some? then 1 else 0
  }

  function Power(d: nat, k: nat): nat {
    if k == 0 then 1 else Power(d, k - 1) * d
  }

  /** What the floors of the loop can have lost, scaled by the divisors so far. */
  function Lost(pools: seq<Pool>, lsd: Lsd, from: nat, to: nat, offer: nat, d: nat, n: nat, unit: nat): nat
    requires unit > 0
  {
    if pools == [] then 0
    else
      var k := |pools| - 1;
      var before := Lost(pools[..k], lsd, from, to, offer, d, n, unit);
      if Entry(pools[k], lsd, from, to, offer).None? then before
      else before * d + EntryProduct(pools, lsd, from, to, offer, n, unit)
  }

  /** The loop over the pools ends with the sum of all entries, and with D to the power of their number plus
      one over the product of n times each, rounded down once for each. */
  lemma {:induction false} FoldIs(pools: seq<Pool>, lsd: Lsd, from: nat, to: nat, offer: nat, d: nat, n: nat,
                                  unit: nat)
    requires unit > 0 && FoldPools(pools, lsd, from, to, offer, d, n, unit).Ok?
    ensures var f := FoldPools(pools, lsd, from, to, offer, d, n, unit).value;
            var product, power := EntryProduct(pools, lsd, from, to, offer, n, unit),
                                  Power(d, EntryCount(pools, lsd, from, to, offer) + 1);
            && f.sum == EntrySum(pools, lsd, from, to, offer)
            && f.c * product <= power <= f.c * product + Lost(pools, lsd, from, to, offer, d, n, unit)
  {
    if pools == [] {
      assert Power(d, 1) == Power(d, 0) * d;
    } else {
      var k := |pools| - 1;
      FoldIs(pools[..k], lsd, from, to, offer, d, n, unit);
      var f := FoldPools(pools[..k], lsd, from, to, offer, d, n, unit).value;
      var e := Entry(pools[k], lsd, from, to, offer);
      if e.Some? {
        var divisor := Floor(e.value, unit) * n;
        OneMoreFactor(f.c, d, divisor, Floor(f.c * d, divisor), EntryProduct(pools[..k], lsd, from, to, offer, n, unit),
                      Power(d, EntryCount(pools[..k], lsd, from, to, offer) + 1),
                      Lost(pools[..k], lsd, from, to, offer, d, n, unit));
      }
    }
  }

  lemma OneMoreFactor(c: nat, d: nat, divisor: nat, next: nat, product: nat, power: nat, lost: nat)
    requires next * divisor <= c * d < next * divisor + divisor
    requires c * product <= power <= c * product + lost
    ensures next * (product * divisor) <= power * d <= next * (product * divisor) + (lost * d + product * divisor)
  {
    FactorAtMost(c, d, divisor, next, product, power);
    FactorAtLeast(c, d, divisor, next, product, power, lost);
  }

  lemma FactorAtMost(c: nat, d: nat, divisor: nat, next: nat, product: nat, power: nat)
    requires next * divisor <= c * d && c * product <= power
    ensures next * (product * divisor) <= power * d
  {
    MulMono(next * divisor, c * d, product);
    MulMono(c * product, power, d);
    assert c * d * product == c * product * d;
    assert next * divisor * product == next * (product * divisor);
  }

  lemma FactorAtLeast(c: nat, d: nat, divisor: nat, next: nat, product: nat, power: nat, lost: nat)
    requires c * d < next * divisor + divisor && power <= c * product + lost
    ensures power * d <= next * (product * divisor) + (lost * d + product * divisor)
  {
    MulMono(power, c * product + lost, d);
    assert (c * product + lost) * d == c * d * product + lost * d;
    MulMono(c * d, next * divisor + divisor, product);
    assert (next * divisor + divisor) * product == next * (product * divisor) + product * divisor;
  }

  /** The coefficients for any number of pools: ann is amp * n / AMP_PRECISION rounded down, and with it
      e = sum + d / ann - d and c = product part * d / (ann * n), each quotient rounded down. */
  lemma CoefficientsAre(f: Fold, d: nat, amp: nat, n: nat, unit: nat) returns (ann: nat)
    requires unit > 0 && Coefficients(f, d, amp, n, unit).Ok?
    ensures ann * StableAmp.AMP_PRECISION <= amp * n < (ann + 1) * StableAmp.AMP_PRECISION
    ensures var q := Coefficients(f, d, amp, n, unit).value;
            var sum := Floor(f.sum, unit);
            && (q.e + d - sum) * ann <= d < (q.e + d - sum + 1) * ann
            && q.c * (ann * n) <= f.c * d < (q.c + 1) * (ann * n)
  {
    ann := amp * n / StableAmp.AMP_PRECISION;
    assert ann == Floor(amp * n, StableAmp.AMP_PRECISION);
    var q := Coefficients(f, d, amp, n, unit).value;
    assert (q.c + 1) * (ann * n) == q.c * (ann * n) + ann * n;
    assert (Floor(d, ann) + 1) * ann == Floor(d, ann) * ann + ann;
  }

  /** The quadratic for two pools in whole numbers: y^2 + (x + d/ann - d) * y = d^3 / (4 * x * ann), each quotient
      rounded down. */
  lemma TwoPoolsIs(x: nat, d: nat, ann: nat)
    requires x > 0 && ann > 0
    ensures var q := TwoPools(x, d, ann);
            && (q.e + d - x) * ann <= d < (q.e + d - x + 1) * ann
            && 4 * (q.c * (ann * x)) <= d * d * d <= 4 * ((q.c + 1) * (ann * x)) + 2 * (x * d)
  {
    var q, k := TwoPools(x, d, ann), Once(x, d);
    var part := Floor(d, ann);
    assert q.e + d - x == part && (part + 1) * ann == part * ann + ann;
    ProductAtMost(x, d, ann, k, q.c);
    ProductAtLeast(x, d, ann, k, q.c);
  }
}
