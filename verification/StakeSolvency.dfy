/** When a distribution keeps a flow solvent: exactly when the total power it divides by is at least
    everyone's power together. */
module StakeSolvency {
  import opened FixedPoint
  import opened FiniteSums
  import opened Results
  import opened StakeState
  import opened StakeTotals
  import opened StakeRewards
  import opened StakeBooks
  import opened StakeRuns

  /** What everybody could withdraw together is there to be withdrawn. */
  ghost predicate PaysAll(cfg: Config, stakes: Stakes, f: Flow) {
    Sum(Holders(stakes), WithdrawableAt(cfg, stakes, f)) <= f.withdrawable
  }

  /** The flow after `amount` more has arrived and is distributed with everything else. */
  function After(f: Flow, amount: nat, total: nat, seconds: nat): Flow {
    var r := DistributeFlow(Receive(f, amount), total, seconds);
    if r.Ok? then r.value else f
  }

  lemma ReceivedBooks(cfg: Config, stakes: Stakes, f: Flow, amount: nat, total: nat, seconds: nat)
    requires FlowBooks(cfg, stakes, f, seconds)
    ensures FlowBooks(cfg, stakes, Receive(f, amount), seconds)
    ensures Sum(Holders(stakes), PowerAt(cfg, stakes, Receive(f, amount).multipliers))
            == Sum(Holders(stakes), PowerAt(cfg, stakes, f.multipliers))
    ensures Solvent(cfg, stakes, f) ==> Solvent(cfg, stakes, Receive(f, amount))
    ensures DistributeFlow(Receive(f, amount), total, seconds).Ok?
    ensures FlowBooks(cfg, stakes, After(f, amount, total, seconds), seconds)
  {
    ReceiveKeeps(cfg, stakes, f, amount, seconds);
    DistributeKeepsFlow(cfg, stakes, Receive(f, amount), total, seconds);
  }

  /** The sum of the whole tokens of all entitlements loses less than one token for each holder. */
  lemma WholeTokens(cfg: Config, stakes: Stakes, f: Flow)
    requires Covered(cfg, stakes, f)
    ensures var h := Holders(stakes);
            SHARES * (Sum(h, WithdrawableAt(cfg, stakes, f)) + Sum(h, WithdrawnAt(f)) + Sum(h, _ => 1))
            >= Sum(h, EntitlementAt(cfg, stakes, f))
  {
    var h := Holders(stakes);
    var one := (a: Addr) => 1;
    var taken := (a: Addr) => Withdrawable(cfg, stakes, f, a) + AdjustmentOf(f, a).withdrawn;
    var rounded := (a: Addr) => taken(a) + 1;
    var shares := (a: Addr) => SHARES * rounded(a);
    forall a ensures EntitlementAt(cfg, stakes, f)(a) <= shares(a) {
      WithdrawableIs(cfg, stakes, f, a);
    }
    SumPlus(h, WithdrawableAt(cfg, stakes, f), WithdrawnAt(f), taken);
    SumPlus(h, taken, one, rounded);
    SumTimes(h, SHARES, rounded, shares);
    SumAtMost(h, EntitlementAt(cfg, stakes, f), shares);
    SumAgrees(h, one, _ => 1);
  }

  // ---- when the powers outweigh the total ----

  /** Enough tokens to make the difference show: the points per share exceed every rounding. */
  function Enough(total: nat, owed: nat): nat {
    total * (total + SHARES * owed)
  }

  lemma PointsGrow(total: nat, owed: nat, d: nat, leftover: nat)
    requires total > 0
    ensures var points := (d + Enough(total, owed)) * SHARES + leftover;
            points / total >= total + SHARES * owed && points / total * total > points - total
  {
    var k := total + SHARES * owed;
    var points := (d + Enough(total, owed)) * SHARES + leftover;
    assert k * total <= points by {
      MulMono(1, SHARES, k * total);
      assert (d + total * k) * SHARES == d * SHARES + k * total * SHARES;
    }
    FloorAtLeast(points, total, k);
    assert points == points / total * total + points % total;
  }

  /** The sums of a distribution: entitlements grow by points per share times all powers. */
  lemma EntitlementsGrow(cfg: Config, stakes: Stakes, f: Flow, amount: nat, total: nat, seconds: nat)
    requires FlowBooks(cfg, stakes, f, seconds) && total > 0 && Distributable(f, seconds) + amount > 0
    ensures var g := After(f, amount, total, seconds); var h := Holders(stakes);
            var pps := PointsPerShare(f, total, Distributable(f, seconds) + amount);
            && g.withdrawable == f.withdrawable + Distributable(f, seconds) + amount
            && Sum(h, EntitlementAt(cfg, stakes, g))
               == Sum(h, EntitlementAt(cfg, stakes, f)) + pps * Sum(h, PowerAt(cfg, stakes, f.multipliers))
            && Sum(h, WithdrawnAt(g)) == Sum(h, WithdrawnAt(f))
  {
    ReceivedBooks(cfg, stakes, f, amount, total, seconds);
    var h, p, g := Holders(stakes), Receive(f, amount), After(f, amount, total, seconds);
    var pps := PointsPerShare(f, total, Distributable(f, seconds) + amount);
    var credit := (a: Addr) => pps * PowerAt(cfg, stakes, f.multipliers)(a);
    forall a ensures EntitlementAt(cfg, stakes, g)(a) == EntitlementAt(cfg, stakes, f)(a) + credit(a) {
      DistributeCredits(cfg, stakes, p, total, seconds, a);
    }
    SumPlus(h, EntitlementAt(cfg, stakes, f), credit, EntitlementAt(cfg, stakes, g));
    SumTimes(h, pps, PowerAt(cfg, stakes, f.multipliers), credit);
    SumAgrees(h, WithdrawnAt(g), WithdrawnAt(f));
  }

  ghost function Holdings(stakes: Stakes): nat {
    SumNonNegative(Holders(stakes), _ => 1);
    Sum(Holders(stakes), _ => 1)
  }

  lemma SumsAreNat(cfg: Config, stakes: Stakes, f: Flow)
    requires Covered(cfg, stakes, f)
    ensures Sum(Holders(stakes), EntitlementAt(cfg, stakes, f)) >= 0
    ensures Sum(Holders(stakes), WithdrawnAt(f)) >= 0
  {
    forall a ensures EntitlementAt(cfg, stakes, f)(a) >= 0 && WithdrawnAt(f)(a) >= 0 {
      assert AdjustmentOf(f, a).withdrawn * SHARES <= Entitlement(cfg, stakes, f, a);
    }
    SumNonNegative(Holders(stakes), EntitlementAt(cfg, stakes, f));
    SumNonNegative(Holders(stakes), WithdrawnAt(f));
  }

  /** When the powers together exceed the total a distribution divides by, some amount of rewards
      leaves the stakers with more to withdraw than there is. */
  lemma OutweighedUnderpays(cfg: Config, stakes: Stakes, f: Flow, total: nat, seconds: nat) returns (amount: nat)
    requires FlowBooks(cfg, stakes, f, seconds) && total > 0
    requires Sum(Holders(stakes), PowerAt(cfg, stakes, f.multipliers)) > total
    ensures !PaysAll(cfg, stakes, After(f, amount, total, seconds))
  {
    SumsAreNat(cfg, stakes, f);
    var h, d := Holders(stakes), Distributable(f, seconds);
    var owed: nat := f.withdrawable + Sum(h, WithdrawnAt(f)) + Holdings(stakes);
    assert d >= 0;
    amount := Enough(total, owed);
    assert amount > 0 by { MulMono(1, total + SHARES * owed, total); }
    PointsGrow(total, owed, d, f.leftover);
    EntitlementsGrow(cfg, stakes, f, amount, total, seconds);
    ReceivedBooks(cfg, stakes, f, amount, total, seconds);
    var g := After(f, amount, total, seconds);
    WholeTokens(cfg, stakes, g);
    ShareOut(Sum(h, WithdrawableAt(cfg, stakes, g)), Sum(h, WithdrawnAt(f)), Holdings(stakes), f.withdrawable,
             d + amount, f.leftover, Sum(h, EntitlementAt(cfg, stakes, f)), PointsPerShare(f, total, d + amount),
             Sum(h, PowerAt(cfg, stakes, f.multipliers)), total);
  }

  lemma ShareOut(due: int, withdrawn: int, holders: int, withdrawable: nat, amount: int, leftover: nat, before: int,
                 points: nat, power: int, total: nat)
    requires before >= 0 && power > total
    requires SHARES * (due + withdrawn + holders) >= before + points * power
    requires points >= total + SHARES * (withdrawable + withdrawn + holders)
    requires points * total > amount * SHARES + leftover - total
    ensures due > withdrawable + amount
  {
    assert points * power >= points * total + points by {
      assert points * power == points * total + points * (power - total);
      MulMono(1, power - total, points);
    }
  }

  // ---- the exact condition ----

  /** A solvent flow stays solvent under every amount of rewards, and everybody stays payable, if and
      only if the total is at least everyone's power together. */
  lemma SolventForEveryAmountIff(cfg: Config, stakes: Stakes, f: Flow, total: nat, seconds: nat)
    requires FlowBooks(cfg, stakes, f, seconds) && Solvent(cfg, stakes, f) && total > 0
    ensures (forall amount: nat :: Solvent(cfg, stakes, After(f, amount, total, seconds)))
            <==> Sum(Holders(stakes), PowerAt(cfg, stakes, f.multipliers)) <= total
    ensures (forall amount: nat :: PaysAll(cfg, stakes, After(f, amount, total, seconds)))
            <==> Sum(Holders(stakes), PowerAt(cfg, stakes, f.multipliers)) <= total
  {
    forall amount: nat
      ensures Solvent(cfg, stakes, After(f, amount, total, seconds)) ==>
              PaysAll(cfg, stakes, After(f, amount, total, seconds))
      ensures Sum(Holders(stakes), PowerAt(cfg, stakes, f.multipliers)) <= total ==>
                Solvent(cfg, stakes, After(f, amount, total, seconds))
    {
      ReceivedBooks(cfg, stakes, f, amount, total, seconds);
      DistributeKeepsFlow(cfg, stakes, Receive(f, amount), total, seconds);
      if Solvent(cfg, stakes, After(f, amount, total, seconds)) {
        RewardsAreBacked(cfg, stakes, After(f, amount, total, seconds), seconds);
      }
    }
    if Sum(Holders(stakes), PowerAt(cfg, stakes, f.multipliers)) > total {
      var amount := OutweighedUnderpays(cfg, stakes, f, total, seconds);
      assert !PaysAll(cfg, stakes, After(f, amount, total, seconds));
    }
  }

  /** The total power a distribution of `x` divides by. */
  function StoredTotal(s: State, x: Asset): nat
    requires x in s.flows
  {
    assert PeriodsMatch(s.cfg, s.flows[x].multipliers);
    TotalPower(s.cfg, s.totals, s.flows[x].multipliers)
  }

  function Transferred(s: State, x: Asset, amount: nat): State
    requires x in s.flows
  {
    s.(flows := s.flows[x := Receive(s.flows[x], amount)])
  }

  /** The outcome when `amount` of `x` arrives and the rewards are distributed next. */
  function NextDistribution(s: State, e: Env, x: Asset, amount: nat): Result<State>
    requires x in s.flows
  {
    Distribute(Transferred(s, x, amount), e.now, [])
  }

  /** One flow of a distribution. */
  lemma DistributeOneFlow(s: State, now: nat, x: Asset)
    requires Ledgers(s, now / NANOS) && !s.unbondAll && x in s.flows
    ensures var r := Distribute(s, now, []);
            r.Ok? && x in r.value.flows
            && DistributeFlow(s.flows[x], StoredTotal(s, x), now / NANOS) == Ok(r.value.flows[x])
  {
    DistributeAllKeeps(s.cfg, s.stakes, s.totals, s.flows, now / NANOS);
    assert ReceiveEach(s.flows, []) == s.flows;
    assert DistributeAll(s.cfg, s.totals, s.flows, now / NANOS)[x]
           == DistributeOne(s.cfg, s.totals, s.flows[x], now / NANOS);
  }

  lemma NextIs(s: State, e: Env, x: Asset, amount: nat)
    requires Ledgers(s, e.now / NANOS) && x in s.flows && !s.unbondAll
    ensures var r := NextDistribution(s, e, x, amount);
            && r.Ok? && x in r.value.flows
            && r.value.flows[x] == After(s.flows[x], amount, StoredTotal(s, x), e.now / NANOS)
  {
    TransferKeeps(s, x, amount, e.now / NANOS);
    DistributeOneFlow(Transferred(s, x, amount), e.now, x);
  }

  /** In a state with its books in order and every flow solvent: the next distribution of an asset
      leaves everybody payable, whatever amount of it has arrived by then, if and only if the total
      power from the stored totals is zero or at least everyone's power together. */
  lemma NextDistributionPaysIff(s: State, e: Env, x: Asset)
    requires Books(s) && Backed(s) && x in s.flows && !s.unbondAll && s.clock <= e.now
    ensures forall amount: nat ::
              NextDistribution(s, e, x, amount).Ok? && x in NextDistribution(s, e, x, amount).value.flows
    ensures (forall amount: nat :: PaysAll(s.cfg, s.stakes, NextDistribution(s, e, x, amount).value.flows[x]))
            <==> Outweighs(s.cfg, s.stakes, s.totals, s.flows[x])
  {
    assert s.clock / NANOS <= e.now / NANOS;
    LedgersLater(s, s.clock / NANOS, e.now / NANOS);
    var f, total := s.flows[x], StoredTotal(s, x);
    assert PeriodsMatch(s.cfg, f.multipliers);
    forall amount: nat
      ensures NextDistribution(s, e, x, amount).Ok? && x in NextDistribution(s, e, x, amount).value.flows
      ensures NextDistribution(s, e, x, amount).value.flows[x] == After(f, amount, total, e.now / NANOS)
    {
      NextIs(s, e, x, amount);
    }
    FlowPaysIff(s.cfg, s.stakes, f, total, e.now / NANOS);
    assert (forall amount: nat :: PaysAll(s.cfg, s.stakes, NextDistribution(s, e, x, amount).value.flows[x]))
           <==> (forall amount: nat :: PaysAll(s.cfg, s.stakes, After(f, amount, total, e.now / NANOS))) by {
      forall amount: nat
        ensures PaysAll(s.cfg, s.stakes, NextDistribution(s, e, x, amount).value.flows[x])
                <==> PaysAll(s.cfg, s.stakes, After(f, amount, total, e.now / NANOS))
      {
      }
    }
  }

  lemma FlowPaysIff(cfg: Config, stakes: Stakes, f: Flow, total: nat, seconds: nat)
    requires FlowBooks(cfg, stakes, f, seconds) && Solvent(cfg, stakes, f)
    ensures (forall amount: nat :: PaysAll(cfg, stakes, After(f, amount, total, seconds)))
            <==> total == 0 || Sum(Holders(stakes), PowerAt(cfg, stakes, f.multipliers)) <= total
  {
    if total > 0 {
      SolventForEveryAmountIff(cfg, stakes, f, total, seconds);
    } else {
      forall amount: nat ensures PaysAll(cfg, stakes, After(f, amount, total, seconds)) {
        ReceivedBooks(cfg, stakes, f, amount, total, seconds);
        RewardsAreBacked(cfg, stakes, Receive(f, amount), seconds);
      }
    }
  }
}
