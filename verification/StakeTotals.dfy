/** The per-period totals are sums over all stakers, and what every change of a bond does to them. */
module StakeTotals {
  import opened FixedPoint
  import opened FiniteSums
  import opened Results
  import opened Bonding
  import opened StakeState

  /** Everyone with a stored bond, possibly of zero tokens. */
  ghost function Holders(stakes: Stakes): set<Addr> {
    set k | k in stakes :: k.0
  }

  ghost function StakeAt(stakes: Stakes, period: nat): Addr -> int {
    a => StakeIn(stakes, a, period)
  }

  /** The part of a stake that counts for power: nothing below `min_bond`. */
  function Powered(cfg: Config, stake: nat): nat {
    if stake < cfg.minBond then 0 else stake
  }

  ghost function PoweredAt(cfg: Config, stakes: Stakes, period: nat): Addr -> int {
    a => Powered(cfg, StakeIn(stakes, a, period))
  }

  ghost function TotalStaked(stakes: Stakes, period: nat): int {
    Sum(Holders(stakes), StakeAt(stakes, period))
  }

  ghost function TotalPowered(cfg: Config, stakes: Stakes, period: nat): int {
    Sum(Holders(stakes), PoweredAt(cfg, stakes, period))
  }

  /** Each period's `staked` is the sum of all stakers' total stake in it. */
  ghost predicate StakedOk(cfg: Config, stakes: Stakes, totals: seq<TotalStake>) {
    && |totals| == |cfg.periods|
    && forall i | 0 <= i < |totals| :: totals[i].staked == TotalStaked(stakes, cfg.periods[i])
  }

  /** Each period's `powered_stake` is the sum of only the stakes of at least `min_bond`. */
  ghost predicate PoweredOk(cfg: Config, stakes: Stakes, totals: seq<TotalStake>) {
    && |totals| == |cfg.periods|
    && forall i | 0 <= i < |totals| :: totals[i].powered == TotalPowered(cfg, stakes, cfg.periods[i])
  }

  /** One stake moving from `o` to `n` moves the two totals by the change of stake and of powered
      stake, and fails only where that would make one of them negative. */
  lemma UpdateTotalMeaning(cfg: Config, t: TotalStake, o: nat, n: nat)
    ensures var staked, powered := t.staked - o + n, t.powered - Powered(cfg, o) + Powered(cfg, n);
            UpdateTotal(cfg, t, o, n) ==
            if staked >= 0 && powered >= 0 then Ok(TotalStake(staked, powered)) else Err(Overflow)
  {
  }

  lemma DistinctPeriods(cfg: Config, i: nat, j: nat)
    requires i < |cfg.periods| && j < |cfg.periods| && i != j
    ensures cfg.periods[i] != cfg.periods[j]
  {
    assert if i < j then Shorter(cfg.periods, i, j) else Shorter(cfg.periods, j, i);
  }

  lemma HoldersAfterPut(cfg: Config, stakes: Stakes, a: Addr, period: nat, b: Bond)
    requires StakesMatch(cfg, stakes) && period in cfg.periods
    ensures Holders(PutBond(cfg, stakes, a, period, b)) == Holders(stakes) + {a}
  {
    var after := PutBond(cfg, stakes, a, period, b);
    assert (a, period) in after;
    forall x | x in Holders(stakes) + {a} ensures x in Holders(after) {
      if x != a {
        var k :| k in stakes && k.0 == x;
        assert k in after;
      }
    }
  }

  lemma StakeOfStranger(stakes: Stakes, a: Addr, period: nat)
    requires a !in Holders(stakes)
    ensures StakeIn(stakes, a, period) == 0
  {
    assert (a, period) !in stakes;
  }

  /** Storing one bond moves the sums of its own period by the change, and no other period's. */
  lemma PutBondSums(cfg: Config, stakes: Stakes, a: Addr, period: nat, b: Bond, p: nat)
    requires StakesMatch(cfg, stakes) && period in cfg.periods
    ensures var after := PutBond(cfg, stakes, a, period, b); var o, n := StakeIn(stakes, a, period), Total(b);
            && TotalStaked(after, p) == TotalStaked(stakes, p) + (if p == period then n - o else 0)
            && TotalPowered(cfg, after, p) ==
               TotalPowered(cfg, stakes, p) + (if p == period then Powered(cfg, n) - Powered(cfg, o) else 0)
  {
    var after := PutBond(cfg, stakes, a, period, b);
    HoldersAfterPut(cfg, stakes, a, period, b);
    if a !in Holders(stakes) {
      StakeOfStranger(stakes, a, p);
    }
    SumUpdate(Holders(stakes), a, StakeAt(stakes, p), StakeAt(after, p));
    SumUpdate(Holders(stakes), a, PoweredAt(cfg, stakes, p), PoweredAt(cfg, after, p));
  }

  lemma StakeWithinTotal(cfg: Config, stakes: Stakes, a: Addr, p: nat)
    ensures 0 <= StakeIn(stakes, a, p) <= TotalStaked(stakes, p)
    ensures 0 <= Powered(cfg, StakeIn(stakes, a, p)) <= TotalPowered(cfg, stakes, p)
  {
    if a in Holders(stakes) {
      SumDominates(Holders(stakes), StakeAt(stakes, p), a);
      SumDominates(Holders(stakes), PoweredAt(cfg, stakes, p), a);
    } else {
      StakeOfStranger(stakes, a, p);
      SumNonNegative(Holders(stakes), StakeAt(stakes, p));
      SumNonNegative(Holders(stakes), PoweredAt(cfg, stakes, p));
    }
  }

  /** In the period of the changed bond: what the update of its total returns. */
  lemma PutBondOwnPeriod(cfg: Config, stakes: Stakes, a: Addr, p: nat, b: Bond, t: TotalStake)
    requires StakesMatch(cfg, stakes) && p in cfg.periods && t.staked == TotalStaked(stakes, p)
    ensures var after := PutBond(cfg, stakes, a, p, b);
            var r := UpdateTotal(cfg, t, StakeIn(stakes, a, p), Total(b));
            && (r.Ok? ==> r.value.staked == TotalStaked(after, p))
            && (r.Err? ==> r.error == Overflow)
            && (t.powered == TotalPowered(cfg, stakes, p) ==> r.Ok? && r.value.powered == TotalPowered(cfg, after, p))
  {
    UpdateTotalMeaning(cfg, t, StakeIn(stakes, a, p), Total(b));
    StakeWithinTotal(cfg, stakes, a, p);
    PutBondSums(cfg, stakes, a, p, b, p);
  }

  /** The update the contract makes with one staker's old and new stake keeps both totals exact,
      and never fails when they were. */
  lemma PutBondKeepsTotals(cfg: Config, stakes: Stakes, totals: seq<TotalStake>, a: Addr, i: nat, b: Bond)
    requires StakesMatch(cfg, stakes) && i < |cfg.periods| && StakedOk(cfg, stakes, totals)
    ensures var p := cfg.periods[i]; var after := PutBond(cfg, stakes, a, p, b);
            var r := UpdateTotals(cfg, totals, i, StakeIn(stakes, a, p), Total(b));
            && (r.Ok? ==> StakedOk(cfg, after, r.value))
            && (r.Err? ==> r.error == Overflow)
            && (PoweredOk(cfg, stakes, totals) ==> r.Ok? && PoweredOk(cfg, after, r.value))
  {
    PutBondOwnPeriod(cfg, stakes, a, cfg.periods[i], b, totals[i]);
    PutBondKeepsStaked(cfg, stakes, totals, a, i, b);
    if PoweredOk(cfg, stakes, totals) {
      PutBondKeepsPowered(cfg, stakes, totals, a, i, b);
    }
  }

  lemma PutBondKeepsStaked(cfg: Config, stakes: Stakes, totals: seq<TotalStake>, a: Addr, i: nat, b: Bond)
    requires StakesMatch(cfg, stakes) && i < |cfg.periods| && StakedOk(cfg, stakes, totals)
    ensures var p := cfg.periods[i];
            var r := UpdateTotals(cfg, totals, i, StakeIn(stakes, a, p), Total(b));
            r.Ok? ==> StakedOk(cfg, PutBond(cfg, stakes, a, p, b), r.value)
  {
    PutBondOwnPeriod(cfg, stakes, a, cfg.periods[i], b, totals[i]);
    forall j | 0 <= j < |cfg.periods| && j != i
      ensures TotalStaked(PutBond(cfg, stakes, a, cfg.periods[i], b), cfg.periods[j]) == totals[j].staked
    {
      PutBondOtherPeriod(cfg, stakes, a, i, b, j);
    }
  }

  lemma PutBondKeepsPowered(cfg: Config, stakes: Stakes, totals: seq<TotalStake>, a: Addr, i: nat, b: Bond)
    requires StakesMatch(cfg, stakes) && i < |cfg.periods|
    requires StakedOk(cfg, stakes, totals) && PoweredOk(cfg, stakes, totals)
    ensures var p := cfg.periods[i];
            var r := UpdateTotals(cfg, totals, i, StakeIn(stakes, a, p), Total(b));
            r.Ok? && PoweredOk(cfg, PutBond(cfg, stakes, a, p, b), r.value)
  {
    PutBondOwnPeriod(cfg, stakes, a, cfg.periods[i], b, totals[i]);
    forall j | 0 <= j < |cfg.periods| && j != i
      ensures TotalPowered(cfg, PutBond(cfg, stakes, a, cfg.periods[i], b), cfg.periods[j]) == totals[j].powered
    {
      PutBondOtherPeriod(cfg, stakes, a, i, b, j);
    }
  }

  lemma PutBondOtherPeriod(cfg: Config, stakes: Stakes, a: Addr, i: nat, b: Bond, j: nat)
    requires StakesMatch(cfg, stakes) && i < |cfg.periods| && j < |cfg.periods| && i != j
    ensures var after := PutBond(cfg, stakes, a, cfg.periods[i], b);
            && TotalStaked(after, cfg.periods[j]) == TotalStaked(stakes, cfg.periods[j])
            && TotalPowered(cfg, after, cfg.periods[j]) == TotalPowered(cfg, stakes, cfg.periods[j])
  {
    DistinctPeriods(cfg, i, j);
    PutBondSums(cfg, stakes, a, cfg.periods[i], b, cfg.periods[j]);
  }

  // ---- the totals bound the power of all stakers ----

  ghost function PowerAt(cfg: Config, stakes: Stakes, multipliers: seq<Multiplier>): Addr -> int {
    a => RewardsPower(cfg, stakes, multipliers, a)
  }

  ghost function CalcAt(cfg: Config, stakes: Stakes, period: nat, rate: nat): Addr -> int {
    a => CalcPower(cfg, StakeIn(stakes, a, period), rate)
  }

  /** Power does not grow by splitting a powered stake. */
  lemma CalcPowerSuperadditive(cfg: Config, m: nat, n: nat, rate: nat)
    requires m == 0 || m >= cfg.minBond
    requires n == 0 || n >= cfg.minBond
    ensures CalcPower(cfg, m, rate) + CalcPower(cfg, n, rate) <= CalcPower(cfg, m + n, rate)
  {
    if m > 0 && n > 0 {
      assert m * rate + n * rate == (m + n) * rate;
      FloorSuperadditive(m * rate, n * rate, ONE);
      FloorSuperadditive(Scale(m, rate), Scale(n, rate), cfg.tokensPerPower);
      FloorMono(Scale(m, rate) + Scale(n, rate), Scale(m + n, rate), cfg.tokensPerPower);
    }
  }

  /** Within one period: the power of the powered total is at least the sum of the powers. */
  lemma {:induction false} PeriodPowerBound(cfg: Config, stakes: Stakes, s: set<Addr>, period: nat, rate: nat)
    ensures var powered := Sum(s, PoweredAt(cfg, stakes, period));
            && (powered == 0 || powered >= cfg.minBond)
            && Sum(s, CalcAt(cfg, stakes, period, rate)) <= CalcPower(cfg, powered, rate)
  {
    if s != {} {
      var x :| x in s;
      SumPick(s, PoweredAt(cfg, stakes, period), x);
      SumPick(s, CalcAt(cfg, stakes, period, rate), x);
      PeriodPowerBound(cfg, stakes, s - {x}, period, rate);
      var own := Powered(cfg, StakeIn(stakes, x, period));
      CalcPowerSuperadditive(cfg, own, Sum(s - {x}, PoweredAt(cfg, stakes, period)), rate);
      assert CalcPower(cfg, StakeIn(stakes, x, period), rate) == CalcPower(cfg, own, rate);
    } else {
      assert Sum(s, PoweredAt(cfg, stakes, period)) == 0;
    }
  }

  /** The total a distribution is divided by is at least the sum of everyone's power, despite both
      floors and the `min_bond` cut-off. */
  lemma TotalPowerBound(cfg: Config, stakes: Stakes, totals: seq<TotalStake>, multipliers: seq<Multiplier>)
    requires PoweredOk(cfg, stakes, totals) && PeriodsMatch(cfg, multipliers)
    ensures Sum(Holders(stakes), PowerAt(cfg, stakes, multipliers)) <= TotalPower(cfg, totals, multipliers)
  {
    assert totals[..|totals|] == totals && multipliers[..|multipliers|] == multipliers;
    PrefixPowerBound(cfg, stakes, totals, multipliers, |multipliers|);
  }

  lemma {:induction false} PrefixPowerBound(cfg: Config, stakes: Stakes, totals: seq<TotalStake>,
                                            multipliers: seq<Multiplier>, n: nat)
    requires PoweredOk(cfg, stakes, totals) && PeriodsMatch(cfg, multipliers) && n <= |multipliers|
    ensures Sum(Holders(stakes), PowerAt(cfg, stakes, multipliers[..n]))
            <= TotalPower(cfg, totals[..n], multipliers[..n])
  {
    if n == 0 {
      SumZero(Holders(stakes), PowerAt(cfg, stakes, multipliers[..n]));
    } else {
      PrefixPowerBound(cfg, stakes, totals, multipliers, n - 1);
      assert multipliers[..n][..n - 1] == multipliers[..n - 1] && totals[..n][..n - 1] == totals[..n - 1];
      var m := multipliers[n - 1];
      SumPlus(Holders(stakes), PowerAt(cfg, stakes, multipliers[..n - 1]), CalcAt(cfg, stakes, m.period, m.rate),
              PowerAt(cfg, stakes, multipliers[..n]));
      PeriodPowerBound(cfg, stakes, Holders(stakes), m.period, m.rate);
    }
  }
}
