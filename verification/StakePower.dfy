/** What the reward power is: stake times multiplier over `tokens_per_power`, summed over the unbonding
    periods, and what a distribution pays by it. */
module StakePower {
  import opened FixedPoint
  import opened StakeState
  import opened StakeTotals
  import opened StakeLazy

  /** One unit of power, in stake times multiplier atomics. */
  function Unit(cfg: Config): (unit: nat)
    ensures unit >= ONE
  {
    MulMono(1, cfg.tokensPerPower, ONE);
    cfg.tokensPerPower * ONE
  }

  /** What a stake weighs at a multiplier: nothing below `min_bond`. */
  function Weight(cfg: Config, stake: nat, rate: nat): nat {
    Powered(cfg, stake) * rate
  }

  /** A staker's weight across the unbonding periods. */
  function WeightAcross(cfg: Config, stakes: Stakes, multipliers: seq<Multiplier>, a: Addr): nat {
    if multipliers == [] then 0
    else
      var n := |multipliers| - 1;
      WeightAcross(cfg, stakes, multipliers[..n], a)
      + Weight(cfg, StakeIn(stakes, a, multipliers[n].period), multipliers[n].rate)
  }

  /** The weight of the stored totals across the unbonding periods. */
  function StoredWeight(cfg: Config, totals: seq<TotalStake>, multipliers: seq<Multiplier>): nat
    requires |totals| == |multipliers|
  {
    if multipliers == [] then 0
    else
      var n := |multipliers| - 1;
      StoredWeight(cfg, totals[..n], multipliers[..n]) + Weight(cfg, totals[n].powered, multipliers[n].rate)
  }

  /** The power of a stake of at least `min_bond` is stake times multiplier over `tokens_per_power`,
      rounded down once; below `min_bond` it is zero. */
  lemma CalcPowerIs(cfg: Config, stake: nat, rate: nat)
    ensures var p := CalcPower(cfg, stake, rate);
            && (stake >= cfg.minBond ==>
                  p * cfg.tokensPerPower * ONE <= stake * rate < (p + 1) * cfg.tokensPerPower * ONE)
            && (stake < cfg.minBond ==> p == 0)
  {
    var p, q := CalcPower(cfg, stake, rate), Scale(stake, rate);
    if stake >= cfg.minBond {
      MulMono(p * cfg.tokensPerPower, q, ONE);
      assert (p + 1) * cfg.tokensPerPower == p * cfg.tokensPerPower + cfg.tokensPerPower;
      MulMono(q + 1, (p + 1) * cfg.tokensPerPower, ONE);
    }
  }

  /** The same in weights. */
  lemma PowerOfWeight(cfg: Config, stake: nat, rate: nat)
    ensures var p := CalcPower(cfg, stake, rate);
            p * Unit(cfg) <= Weight(cfg, stake, rate) <= p * Unit(cfg) + (Unit(cfg) - 1)
  {
    var p := CalcPower(cfg, stake, rate);
    CalcPowerIs(cfg, stake, rate);
    assert p * cfg.tokensPerPower * ONE == p * Unit(cfg);
    assert (p + 1) * cfg.tokensPerPower * ONE == p * Unit(cfg) + Unit(cfg);
  }

  lemma AddUnits(p: nat, q: nat, unit: nat, w: nat, v: nat, n: nat)
    requires unit > 0 && Rounds(p, w, n, unit) && q * unit <= v <= q * unit + (unit - 1)
    ensures Rounds(p + q, w + v, n + 1, unit)
  {
    assert (p + q) * unit == p * unit + q * unit;
    assert (n + 1) * (unit - 1) == n * (unit - 1) + (unit - 1);
  }

  /** `power` units are the weight, rounded down once for each of `n` periods. */
  predicate Rounds(power: nat, weight: nat, n: nat, unit: nat) {
    power * unit <= weight && (unit > 0 ==> weight <= power * unit + n * (unit - 1))
  }

  /** A staker's power is the weight across the periods in units, rounded down once for each period. */
  lemma {:induction false} RewardsPowerIs(cfg: Config, stakes: Stakes, multipliers: seq<Multiplier>, a: Addr)
    ensures Rounds(RewardsPower(cfg, stakes, multipliers, a), WeightAcross(cfg, stakes, multipliers, a),
                   |multipliers|, Unit(cfg))
  {
    if multipliers != [] {
      var n := |multipliers| - 1;
      var m := multipliers[n];
      RewardsPowerIs(cfg, stakes, multipliers[..n], a);
      PowerOfWeight(cfg, StakeIn(stakes, a, m.period), m.rate);
      AddUnits(RewardsPower(cfg, stakes, multipliers[..n], a), CalcPower(cfg, StakeIn(stakes, a, m.period), m.rate),
               Unit(cfg), WeightAcross(cfg, stakes, multipliers[..n], a),
               Weight(cfg, StakeIn(stakes, a, m.period), m.rate), n);
    }
  }

  /** And the total power is that of the stored powered totals. */
  lemma {:induction false} TotalPowerIs(cfg: Config, totals: seq<TotalStake>, multipliers: seq<Multiplier>)
    requires |totals| == |multipliers|
    ensures Rounds(TotalPower(cfg, totals, multipliers), StoredWeight(cfg, totals, multipliers), |multipliers|,
                   Unit(cfg))
  {
    if multipliers != [] {
      var n := |multipliers| - 1;
      var m := multipliers[n];
      TotalPowerIs(cfg, totals[..n], multipliers[..n]);
      PowerOfWeight(cfg, totals[n].powered, m.rate);
      AddUnits(TotalPower(cfg, totals[..n], multipliers[..n]), CalcPower(cfg, totals[n].powered, m.rate), Unit(cfg),
               StoredWeight(cfg, totals[..n], multipliers[..n]), Weight(cfg, totals[n].powered, m.rate), n);
    }
  }

  // ---- what a distribution pays ----

  lemma ScaleUnits(credit: int, points: nat, p: nat, unit: nat, w: nat, n: nat)
    requires unit > 0 && Rounds(p, w, n, unit) && credit == points * p
    ensures PaysByWeight(credit, points, w, n, unit)
  {
    MulMono(p * unit, w, points);
    MulMono(w, p * unit + n * (unit - 1), points);
    assert points * (p * unit) == credit * unit;
    assert points * (p * unit + n * (unit - 1)) == points * (p * unit) + points * (n * (unit - 1));
  }

  /** What a distribute message adds to a staker's entitlement. */
  function Credited(s: State, now: nat, coins: seq<Coin>, x: Asset, a: Addr): int
    requires Distribute(s, now, coins).Ok?
  {
    EntitlementIn(Distribute(s, now, coins).value, x, a) - EntitlementIn(s, x, a)
  }

  lemma CreditedIs(s: State, now: nat, coins: seq<Coin>, x: Asset, a: Addr)
    requires Distribute(s, now, coins).Ok? && x in s.flows
    ensures Credited(s, now, coins, x, a)
            == PointsCredited(s, now, coins, x) * RewardsPower(s.cfg, s.stakes, s.flows[x].multipliers, a)
  {
    DistributeMoves(s, now, coins, x, a);
  }

  /** What a distribute message credits to a staker: the points of the flow times the weight of the
      stake, in units of power, too little by less than one unit a period and never too much. */
  lemma DistributePaysByWeight(s: State, now: nat, coins: seq<Coin>, x: Asset, a: Addr)
    requires Distribute(s, now, coins).Ok? && x in s.flows
    ensures PaysByWeight(Credited(s, now, coins, x, a), PointsCredited(s, now, coins, x),
                         WeightAcross(s.cfg, s.stakes, s.flows[x].multipliers, a), |s.flows[x].multipliers|,
                             Unit(s.cfg))
  {
    var ms := s.flows[x].multipliers;
    CreditedIs(s, now, coins, x, a);
    RewardsPowerIs(s.cfg, s.stakes, ms, a);
    ScaleUnits(Credited(s, now, coins, x, a), PointsCredited(s, now, coins, x),
               RewardsPower(s.cfg, s.stakes, ms, a), Unit(s.cfg), WeightAcross(s.cfg, s.stakes, ms, a), |ms|);
  }

  predicate PaysByWeight(credit: int, points: nat, weight: nat, periods: nat, unit: nat) {
    0 <= credit * unit <= points * weight <= credit * unit + points * (periods * (unit - 1))
  }

  /** The points: what the flow's balance holds beyond what is owed or locked, with the leftover, shared
      out over the total power. */
  lemma PointsAreShared(s: State, now: nat, coins: seq<Coin>, x: Asset)
    requires Distribute(s, now, coins).Ok? && x in s.flows
    ensures var f := ReceiveEach(s.flows, coins)[x];
            var total, d := StoredPower(s, x), Distributable(f, now / NANOS);
            var points := PointsCredited(s, now, coins, x);
            if total == 0 || d <= 0 then points == 0
            else points * total <= d * SHARES + f.leftover < (points + 1) * total
  {
    var f := ReceiveEach(s.flows, coins)[x];
    var total, d := StoredPower(s, x), Distributable(f, now / NANOS);
    if total > 0 && d > 0 {
      SharedOut(d * SHARES + f.leftover, total);
    }
  }

  lemma SharedOut(points: nat, total: nat)
    requires total > 0
    ensures points / total * total <= points < (points / total + 1) * total
  {
    assert Floor(points, total) == points / total;
    assert (points / total + 1) * total == points / total * total + total;
  }

  function StoredPower(s: State, x: Asset): nat
    requires x in s.flows
  {
    assert PeriodsMatch(s.cfg, s.flows[x].multipliers);
    TotalPower(s.cfg, s.totals, s.flows[x].multipliers)
  }

  /** Any two stakers are credited in proportion to their powers, exactly. */
  lemma CreditsAreProportional(s: State, now: nat, coins: seq<Coin>, x: Asset, a: Addr, b: Addr)
    requires Distribute(s, now, coins).Ok? && x in s.flows
    ensures var ms := s.flows[x].multipliers;
            Credited(s, now, coins, x, a) * RewardsPower(s.cfg, s.stakes, ms, b)
            == Credited(s, now, coins, x, b) * RewardsPower(s.cfg, s.stakes, ms, a)
  {
    var ms := s.flows[x].multipliers;
    CreditedIs(s, now, coins, x, a);
    CreditedIs(s, now, coins, x, b);
    Swapped(PointsCredited(s, now, coins, x), RewardsPower(s.cfg, s.stakes, ms, a),
        RewardsPower(s.cfg, s.stakes, ms, b));
  }

  lemma Swapped(points: nat, p: nat, q: nat)
    ensures points * p * q == points * q * p
  {
  }
}
