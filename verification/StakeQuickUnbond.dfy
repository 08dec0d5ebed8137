/** Quick-unbonding: one sweep over a list of stakers and one aggregated update per period, and
    exactly when that agrees with handling the stakers one by one. */
module StakeQuickUnbond {
  import opened FiniteSums
  import opened Results
  import opened Bonding
  import opened StakeState
  import opened StakeTotals
  import opened StakeRewards
  import opened StakeBooks

  ghost function Members(stakers: seq<Addr>): set<Addr> {
    set a | a in stakers
  }

  /** What the listed stakers, each counted once, have staked in a period. */
  ghost function Aggregate(stakes: Stakes, stakers: seq<Addr>, period: nat): int {
    Sum(Members(stakers), StakeAt(stakes, period))
  }

  ghost function AggregatePowered(cfg: Config, stakes: Stakes, stakers: seq<Addr>, period: nat): int {
    Sum(Members(stakers), PoweredAt(cfg, stakes, period))
  }

  /** The condition for one aggregated update to be right: in each period the aggregate is below
      `min_bond`, or every listed stake is nothing or at least `min_bond`. */
  ghost predicate CleanIn(cfg: Config, stakes: Stakes, stakers: seq<Addr>, period: nat) {
    || Aggregate(stakes, stakers, period) < cfg.minBond
    || forall a | a in stakers :: StakeIn(stakes, a, period) == 0 || StakeIn(stakes, a, period) >= cfg.minBond
  }

  ghost predicate Clean(s: State, stakers: seq<Addr>) {
    forall i | 0 <= i < |s.cfg.periods| :: CleanIn(s.cfg, s.stakes, stakers, s.cfg.periods[i])
  }

  // ---- the aggregate and the powered stakes it stands for ----

  lemma {:induction false} PoweredSumsAreBig(cfg: Config, h: set<Addr>, f: Addr -> int, g: Addr -> int)
    requires forall a | a in h :: f(a) >= 0 && g(a) == Powered(cfg, f(a))
    ensures 0 <= Sum(h, g) <= Sum(h, f)
    ensures Sum(h, g) == 0 || Sum(h, g) >= cfg.minBond
    ensures Sum(h, g) == Sum(h, f) <==> forall a | a in h :: f(a) == g(a)
  {
    if h != {} {
      var x :| x in h;
      SumPick(h, f, x);
      SumPick(h, g, x);
      PoweredSumsAreBig(cfg, h - {x}, f, g);
    }
  }

  /** Treating the aggregate as one stake counts it exactly as the stakes it is made of, if and only
      if the period is clean. */
  lemma AggregateIsExact(cfg: Config, stakes: Stakes, stakers: seq<Addr>, period: nat)
    ensures Aggregate(stakes, stakers, period) >= 0
    ensures AggregatePowered(cfg, stakes, stakers, period) == Powered(cfg, Aggregate(stakes, stakers, period))
            <==> CleanIn(cfg, stakes, stakers, period)
  {
    var h := Members(stakers);
    PoweredSumsAreBig(cfg, h, StakeAt(stakes, period), PoweredAt(cfg, stakes, period));
    if CleanIn(cfg, stakes, stakers, period) && Aggregate(stakes, stakers, period) >= cfg.minBond {
      forall a | a in h ensures StakeAt(stakes, period)(a) == PoweredAt(cfg, stakes, period)(a) {
        assert a in stakers;
      }
    }
    if !CleanIn(cfg, stakes, stakers, period) {
      var a :| a in stakers && 0 < StakeIn(stakes, a, period) < cfg.minBond;
      assert a in h && StakeAt(stakes, period)(a) != PoweredAt(cfg, stakes, period)(a);
    }
  }

  // ---- the sweep ----

  /** After the sweep exactly the listed stakers' bonds are empty. */
  lemma {:induction false} SweptStakes(s: State, stakers: seq<Addr>, x: Addr, period: nat)
    ensures BondOf(Swept(s, stakers).stakes, x, period) == if x in stakers then EMPTY else BondOf(s.stakes, x, period)
  {
    if stakers != [] {
      SweptStakes(s, stakers[..|stakers| - 1], x, period);
    }
  }

  lemma ClearHolders(stakes: Stakes, a: Addr)
    ensures Holders(ClearStakes(stakes, a)) == Holders(stakes)
  {
    var after := ClearStakes(stakes, a);
    forall x | x in Holders(stakes) ensures x in Holders(after) {
      var k :| k in stakes && k.0 == x;
      assert k in after;
    }
  }

  lemma ClearMoves(stakes: Stakes, a: Addr)
    ensures OnlyMoved(stakes, ClearStakes(stakes, a), a)
  {
    ClearHolders(stakes, a);
  }

  /** Clearing one staker takes exactly that staker's stake out of each sum. */
  lemma ClearSums(cfg: Config, stakes: Stakes, a: Addr, period: nat)
    ensures var after := ClearStakes(stakes, a);
            && TotalStaked(after, period) == TotalStaked(stakes, period) - StakeIn(stakes, a, period)
            && TotalPowered(cfg, after, period) == TotalPowered(cfg, stakes, period)
               - Powered(cfg, StakeIn(stakes, a, period))
  {
    var after := ClearStakes(stakes, a);
    ClearHolders(stakes, a);
    var h := Holders(stakes);
    if a in h {
      assert h + {a} == h;
      SumUpdate(h, a, StakeAt(stakes, period), StakeAt(after, period));
      SumUpdate(h, a, PoweredAt(cfg, stakes, period), PoweredAt(cfg, after, period));
    } else {
      StakeOfStranger(stakes, a, period);
      SumAgrees(h, StakeAt(stakes, period), StakeAt(after, period));
      SumAgrees(h, PoweredAt(cfg, stakes, period), PoweredAt(cfg, after, period));
    }
  }

  /** The sum over a list with one more staker, who may have been in it already. */
  lemma MembersGrow(stakers: seq<Addr>, f: Addr -> int)
    requires stakers != []
    ensures var front, a := stakers[..|stakers| - 1], stakers[|stakers| - 1];
            Sum(Members(stakers), f) == Sum(Members(front), f) + if a in front then 0 else f(a)
  {
    var front, a := stakers[..|stakers| - 1], stakers[|stakers| - 1];
    assert stakers == front + [a];
    assert Members(stakers) == Members(front) + {a};
    if a in front {
      assert Members(stakers) == Members(front);
    } else {
      SumPick(Members(stakers), f, a);
      assert Members(stakers) - {a} == Members(front);
    }
  }

  /** Duplicates or not: the sweep counts each listed staker's stake once, and takes out of the sums
      exactly the listed stakes and their powered part. */
  lemma {:induction false} SweptSums(s: State, stakers: seq<Addr>, i: nat)
    requires i < |s.cfg.periods|
    ensures var w := Swept(s, stakers); var p := s.cfg.periods[i];
            && w.unbonded[i] == Aggregate(s.stakes, stakers, p)
            && TotalStaked(w.stakes, p) == TotalStaked(s.stakes, p) - Aggregate(s.stakes, stakers, p)
            && TotalPowered(s.cfg, w.stakes, p) == TotalPowered(s.cfg, s.stakes, p)
               - AggregatePowered(s.cfg, s.stakes, stakers, p)
            && Holders(w.stakes) == Holders(s.stakes)
  {
    var p := s.cfg.periods[i];
    if stakers == [] {
      assert Members(stakers) == {};
    } else {
      var front, a := stakers[..|stakers| - 1], stakers[|stakers| - 1];
      SweptSums(s, front, i);
      SweptStakes(s, front, a, p);
      MembersGrow(stakers, StakeAt(s.stakes, p));
      MembersGrow(stakers, PoweredAt(s.cfg, s.stakes, p));
      ClearSums(s.cfg, Swept(s, front).stakes, a, p);
      ClearHolders(Swept(s, front).stakes, a);
    }
  }

  // ---- flows through the sweep ----

  lemma {:induction false} PowerOfCleared(cfg: Config, stakes: Stakes, multipliers: seq<Multiplier>, a: Addr)
    ensures RewardsPower(cfg, ClearStakes(stakes, a), multipliers, a) == 0
  {
    forall period ensures StakeIn(ClearStakes(stakes, a), a, period) == 0 {
    }
    PowerOfStranger(cfg, ClearStakes(stakes, a), multipliers, a);
  }

  /** The correction made with "new power is zero" is the correction for the cleared stakes. */
  lemma {:induction false} SweptFlows(s: State, seconds: nat, stakers: seq<Addr>, x: Asset)
    requires x in s.flows && FlowBooks(s.cfg, s.stakes, s.flows[x], seconds)
    ensures var w := Swept(s, stakers);
            && x in w.flows
            && FlowBooks(s.cfg, w.stakes, w.flows[x], seconds)
            && (Solvent(s.cfg, s.stakes, s.flows[x]) ==> Solvent(s.cfg, w.stakes, w.flows[x]))
  {
    if stakers != [] {
      var front, a := stakers[..|stakers| - 1], stakers[|stakers| - 1];
      SweptFlows(s, seconds, front, x);
      var w := Swept(s, front);
      ClearMoves(w.stakes, a);
      PowerOfCleared(s.cfg, w.stakes, w.flows[x].multipliers, a);
      CorrectKeepsFlow(s.cfg, w.stakes, ClearStakes(w.stakes, a), w.flows[x], a, seconds);
    }
  }

  // ---- claims and payments through the sweep ----

  lemma {:induction false} SeqSumAdds(xs: seq<nat>, ys: seq<nat>, zs: seq<nat>)
    requires |xs| == |ys| == |zs| && forall i | 0 <= i < |xs| :: zs[i] == xs[i] + ys[i]
    ensures SeqSum(zs) == SeqSum(xs) + SeqSum(ys)
  {
    if xs != [] {
      var n := |xs| - 1;
      SeqSumAdds(xs[..n], ys[..n], zs[..n]);
    }
  }

  /** A staker's stake across the periods, as a list. */
  function StakeList(stakes: Stakes, a: Addr, periods: seq<nat>): (xs: seq<nat>)
    ensures |xs| == |periods| && SeqSum(xs) == StakeAcross(stakes, a, periods)
  {
    if periods == [] then []
    else
      var n := |periods| - 1;
      var front := StakeList(stakes, a, periods[..n]);
      assert (front + [StakeIn(stakes, a, periods[n])])[..n] == front;
      front + [StakeIn(stakes, a, periods[n])]
  }

  lemma {:induction false} StakeListAt(stakes: Stakes, a: Addr, periods: seq<nat>, i: nat)
    requires i < |periods|
    ensures StakeList(stakes, a, periods)[i] == StakeIn(stakes, a, periods[i])
  {
    if i < |periods| - 1 {
      StakeListAt(stakes, a, periods[..|periods| - 1], i);
    }
  }

  lemma {:induction false} ZerosSum(n: nat)
    ensures SeqSum(seq(n, _ => 0)) == 0
  {
    if n > 0 {
      assert seq(n, _ => 0 as nat)[..n - 1] == seq(n - 1, _ => 0);
      ZerosSum(n - 1);
    }
  }

  /** The sweep pays out exactly the stakes and claims it removes. */
  lemma {:induction false} SweptPayments(s: State, stakers: seq<Addr>)
    ensures var w := Swept(s, stakers);
            && w.paid == SeqSum(w.unbonded) + w.claimed
            && Sum(w.claims.Keys, ClaimAt(w.claims)) == Sum(s.claims.Keys, ClaimAt(s.claims)) - w.claimed
  {
    if stakers == [] {
      ZerosSum(|s.cfg.periods|);
    } else {
      var front, a := stakers[..|stakers| - 1], stakers[|stakers| - 1];
      SweptPayments(s, front);
      var w := Swept(s, front);
      var list := StakeList(w.stakes, a, s.cfg.periods);
      forall i | 0 <= i < |s.cfg.periods| ensures list[i] == StakeIn(w.stakes, a, s.cfg.periods[i]) {
        StakeListAt(w.stakes, a, s.cfg.periods, i);
      }
      SeqSumAdds(w.unbonded, list, Swept(s, stakers).unbonded);
      ClaimsUpdate(w.claims, a, []);
    }
  }

  // ---- the aggregated update ----

  lemma {:induction false} ReducedSum(totals: seq<TotalStake>, after: seq<TotalStake>, unbonded: seq<nat>)
    requires |totals| == |after| == |unbonded|
    requires forall i | 0 <= i < |totals| :: after[i].staked == totals[i].staked - unbonded[i]
    ensures StakedSum(after) == StakedSum(totals) - SeqSum(unbonded)
  {
    if totals != [] {
      var n := |totals| - 1;
      ReducedSum(totals[..n], after[..n], unbonded[..n]);
    }
  }

  /** What a sweep of `stakers` did to one period: `u` is their aggregate, and the sums lost it. */
  ghost predicate PeriodSwept(cfg: Config, before: Stakes, after: Stakes, stakers: seq<Addr>, u: nat, period: nat) {
    && u == Aggregate(before, stakers, period)
    && TotalStaked(after, period) == TotalStaked(before, period) - u
    && TotalPowered(cfg, after, period) == TotalPowered(cfg, before, period)
       - AggregatePowered(cfg, before, stakers, period)
  }

  /** The aggregated update of one period, from an exact powered total, is right if and only if the
      period is clean. */
  lemma ReducePeriodExact(cfg: Config, before: Stakes, after: Stakes, stakers: seq<Addr>, u: nat, period: nat,
                          t: TotalStake)
    requires PeriodSwept(cfg, before, after, stakers, u, period) && t.staked == TotalStaked(before, period)
    ensures var r := UpdateTotal(cfg, t, u, 0); r.Ok? ==> r.value.staked == TotalStaked(after, period) == t.staked - u
    ensures var r := UpdateTotal(cfg, t, u, 0);
            t.powered == TotalPowered(cfg, before, period) ==>
              (r.Ok? && r.value.powered == TotalPowered(cfg, after, period) <==> CleanIn(cfg, before, stakers, period))
  {
    AggregateIsExact(cfg, before, stakers, period);
    SumNonNegative(Holders(after), StakeAt(after, period));
    SumNonNegative(Holders(after), PoweredAt(cfg, after, period));
    UpdateTotalMeaning(cfg, t, u, 0);
  }

  /** All periods: where the updates succeed at all the staked totals are exact. */
  lemma ReduceTotalsStaked(cfg: Config, before: Stakes, after: Stakes, stakers: seq<Addr>, unbonded: seq<nat>,
                           totals: seq<TotalStake>)
    requires StakedOk(cfg, before, totals) && |unbonded| == |totals|
    requires forall i | 0 <= i < |unbonded| :: PeriodSwept(cfg, before, after, stakers, unbonded[i], cfg.periods[i])
    ensures var r := ReduceTotals(cfg, totals, unbonded);
            r.Ok? ==> StakedOk(cfg, after, r.value) && StakedSum(r.value) == StakedSum(totals) - SeqSum(unbonded)
  {
    var r := ReduceTotals(cfg, totals, unbonded);
    if r.Ok? {
      forall i | 0 <= i < |totals|
        ensures r.value[i].staked == TotalStaked(after, cfg.periods[i]) == totals[i].staked - unbonded[i]
      {
        ReducePeriodExact(cfg, before, after, stakers, unbonded[i], cfg.periods[i], totals[i]);
      }
      ReducedSum(totals, r.value, unbonded);
    }
  }

  /** And the updates are right exactly when every period is clean. */
  lemma ReduceTotalsExact(cfg: Config, before: Stakes, after: Stakes, stakers: seq<Addr>, unbonded: seq<nat>,
                          totals: seq<TotalStake>)
    requires StakedOk(cfg, before, totals) && PoweredOk(cfg, before, totals) && |unbonded| == |totals|
    requires forall i | 0 <= i < |unbonded| :: PeriodSwept(cfg, before, after, stakers, unbonded[i], cfg.periods[i])
    ensures var r := ReduceTotals(cfg, totals, unbonded);
            (r.Ok? && PoweredOk(cfg, after, r.value))
            <==> forall i | 0 <= i < |cfg.periods| :: CleanIn(cfg, before, stakers, cfg.periods[i])
  {
    forall i | 0 <= i < |totals|
      ensures var r := UpdateTotal(cfg, totals[i], unbonded[i], 0);
              r.Ok? && r.value.powered == TotalPowered(cfg, after, cfg.periods[i])
              <==> CleanIn(cfg, before, stakers, cfg.periods[i])
    {
      ReducePeriodExact(cfg, before, after, stakers, unbonded[i], cfg.periods[i], totals[i]);
    }
  }

  /** Everything the last part of a quick-unbond relies on. */
  ghost predicate SweepDone(s: State, seconds: nat, stakers: seq<Addr>, w: Sweep) {
    && |w.unbonded| == |s.cfg.periods| && StakesMatch(s.cfg, w.stakes) && FlowsMatch(s.cfg, w.flows)
    && (forall i | 0 <= i < |w.unbonded| ::
          PeriodSwept(s.cfg, s.stakes, w.stakes, stakers, w.unbonded[i], s.cfg.periods[i]))
    && AllBooks(s.cfg, w.stakes, w.flows, seconds)
    && (Backed(s) ==> AllSolvent(s.cfg, w.stakes, w.flows))
    && w.paid == SeqSum(w.unbonded) + w.claimed
    && Sum(w.claims.Keys, ClaimAt(w.claims)) == Sum(s.claims.Keys, ClaimAt(s.claims)) - w.claimed
    && Sum(w.claims.Keys, ClaimAt(w.claims)) >= 0
  }

  lemma SweptPeriods(s: State, stakers: seq<Addr>)
    ensures var w := Swept(s, stakers);
            forall i | 0 <= i < |w.unbonded| ::
              PeriodSwept(s.cfg, s.stakes, w.stakes, stakers, w.unbonded[i], s.cfg.periods[i])
  {
    var w := Swept(s, stakers);
    forall i | 0 <= i < |w.unbonded|
      ensures PeriodSwept(s.cfg, s.stakes, w.stakes, stakers, w.unbonded[i], s.cfg.periods[i])
    {
      SweptSums(s, stakers, i);
    }
  }

  lemma SweptAllFlows(s: State, seconds: nat, stakers: seq<Addr>)
    requires AllBooks(s.cfg, s.stakes, s.flows, seconds)
    ensures var w := Swept(s, stakers);
            && AllBooks(s.cfg, w.stakes, w.flows, seconds)
            && (AllSolvent(s.cfg, s.stakes, s.flows) ==> AllSolvent(s.cfg, w.stakes, w.flows))
  {
    var w := Swept(s, stakers);
    SweepShape(s, stakers);
    forall x | x in w.flows
      ensures FlowBooks(s.cfg, w.stakes, w.flows[x], seconds)
      ensures Solvent(s.cfg, s.stakes, s.flows[x]) ==> Solvent(s.cfg, w.stakes, w.flows[x])
    {
      SweptFlows(s, seconds, stakers, x);
    }
  }

  lemma SweptIsDone(s: State, seconds: nat, stakers: seq<Addr>)
    requires Ledgers(s, seconds)
    ensures SweepDone(s, seconds, stakers, Swept(s, stakers))
  {
    var w := Swept(s, stakers);
    SweptPayments(s, stakers);
    SumNonNegative(w.claims.Keys, ClaimAt(w.claims));
    SweptPeriods(s, stakers);
    SweptAllFlows(s, seconds, stakers);
  }

  /** Once the totals are reduced the token counters cannot underflow, and tokens are conserved. */
  lemma FinishTokens(s: State, w: Sweep, totals: seq<TotalStake>)
    requires |w.unbonded| == |s.cfg.periods| && StakesMatch(s.cfg, w.stakes) && FlowsMatch(s.cfg, w.flows)
    requires TokensConserved(s) && ReduceTotals(s.cfg, s.totals, w.unbonded) == Ok(totals)
    requires StakedSum(totals) == StakedSum(s.totals) - SeqSum(w.unbonded)
    requires w.paid == SeqSum(w.unbonded) + w.claimed
    requires 0 <= Sum(w.claims.Keys, ClaimAt(w.claims)) == Sum(s.claims.Keys, ClaimAt(s.claims)) - w.claimed
    ensures var r := FinishSweep(s, w);
            && r.Ok? && TokensConserved(r.value)
            && r.value.totals == totals && r.value.cfg == s.cfg && r.value.stakes == w.stakes
            && r.value.flows == w.flows
  {
  }

  lemma FinishExact(s: State, seconds: nat, stakers: seq<Addr>, w: Sweep)
    requires Ledgers(s, seconds) && TokensConserved(s) && SweepDone(s, seconds, stakers, w)
    ensures var r := FinishSweep(s, w);
            r.Ok? ==> Ledgers(r.value, seconds) && TokensConserved(r.value) && (Backed(s) ==> Backed(r.value))
    ensures var r := FinishSweep(s, w); Exact(s) ==> (r.Ok? && Exact(r.value) <==> Clean(s, stakers))
  {
    ReduceTotalsStaked(s.cfg, s.stakes, w.stakes, stakers, w.unbonded, s.totals);
    var r := ReduceTotals(s.cfg, s.totals, w.unbonded);
    if r.Ok? {
      FinishTokens(s, w, r.value);
    }
    if Exact(s) {
      ReduceTotalsExact(s.cfg, s.stakes, w.stakes, stakers, w.unbonded, s.totals);
    }
  }

  /** Quick-unbonding keeps the books and solvency whenever it succeeds. From exact totals it succeeds
      with exact totals if and only if the caller is the unbonder and every period is clean. */
  lemma QuickUnbondExact(s: State, seconds: nat, a: Addr, stakers: seq<Addr>)
    requires Ledgers(s, seconds) && TokensConserved(s)
    ensures var r := QuickUnbond(s, a, stakers);
            r.Ok? ==> Ledgers(r.value, seconds) && TokensConserved(r.value) && (Backed(s) ==> Backed(r.value))
    ensures var r := QuickUnbond(s, a, stakers);
            Exact(s) ==> (r.Ok? && Exact(r.value) <==> s.cfg.unbonder == Some(a) && Clean(s, stakers))
  {
    SweptIsDone(s, seconds, stakers);
    FinishExact(s, seconds, stakers, Swept(s, stakers));
  }

  ghost predicate AggregateFits(s: State, stakers: seq<Addr>, i: nat)
    requires i < |s.cfg.periods|
  {
    var u := Aggregate(s.stakes, stakers, s.cfg.periods[i]);
    u < s.cfg.minBond || u <= s.totals[i].powered
  }

  lemma AggregateReduces(s: State, stakers: seq<Addr>, w: Sweep, i: nat)
    requires i < |s.cfg.periods| == |w.unbonded| && StakedOk(s.cfg, s.stakes, s.totals)
    requires PeriodSwept(s.cfg, s.stakes, w.stakes, stakers, w.unbonded[i], s.cfg.periods[i])
    ensures UpdateTotal(s.cfg, s.totals[i], w.unbonded[i], 0).Ok? <==> AggregateFits(s, stakers, i)
  {
    SumNonNegative(Holders(w.stakes), StakeAt(w.stakes, s.cfg.periods[i]));
    UpdateTotalMeaning(s.cfg, s.totals[i], w.unbonded[i], 0);
  }

  lemma SweepReducesIff(s: State, seconds: nat, stakers: seq<Addr>, w: Sweep)
    requires StakedOk(s.cfg, s.stakes, s.totals) && SweepDone(s, seconds, stakers, w)
    ensures ReduceTotals(s.cfg, s.totals, w.unbonded).Ok?
            <==> forall i | 0 <= i < |s.cfg.periods| :: AggregateFits(s, stakers, i)
  {
    forall i | 0 <= i < |s.cfg.periods|
      ensures UpdateTotal(s.cfg, s.totals[i], w.unbonded[i], 0).Ok? <==> AggregateFits(s, stakers, i)
    {
      AggregateReduces(s, stakers, w, i);
    }
  }

  /** Once the totals can be reduced nothing else can fail. */
  lemma FinishSucceedsIff(s: State, seconds: nat, stakers: seq<Addr>, w: Sweep)
    requires StakedOk(s.cfg, s.stakes, s.totals) && TokensConserved(s) && SweepDone(s, seconds, stakers, w)
    ensures FinishSweep(s, w).Ok? <==> ReduceTotals(s.cfg, s.totals, w.unbonded).Ok?
  {
    ReduceTotalsStaked(s.cfg, s.stakes, w.stakes, stakers, w.unbonded, s.totals);
    var r := ReduceTotals(s.cfg, s.totals, w.unbonded);
    if r.Ok? {
      FinishTokens(s, w, r.value);
    }
  }

  /** Whatever the powered totals are, quick-unbonding succeeds exactly when the unbonder asks for it and
      each period's powered total is at least the aggregate, counted as one stake. */
  lemma QuickUnbondSucceedsIff(s: State, seconds: nat, a: Addr, stakers: seq<Addr>)
    requires Ledgers(s, seconds) && TokensConserved(s)
    ensures QuickUnbond(s, a, stakers).Ok?
            <==> s.cfg.unbonder == Some(a) && forall i | 0 <= i < |s.cfg.periods| :: AggregateFits(s, stakers, i)
  {
    SweptIsDone(s, seconds, stakers);
    SweepReducesIff(s, seconds, stakers, Swept(s, stakers));
    FinishSucceedsIff(s, seconds, stakers, Swept(s, stakers));
  }

  /** All it can fail with, when the unbonder asks, is an underflow. */
  lemma QuickUnbondFails(s: State, a: Addr, stakers: seq<Addr>)
    requires s.cfg.unbonder == Some(a) && QuickUnbond(s, a, stakers).Err?
    ensures QuickUnbond(s, a, stakers) == Err(Overflow)
  {
  }

  // ---- one by one ----

  /** The same stakers, each quick-unbonded in a call of its own. */
  function OneByOne(s: State, a: Addr, stakers: seq<Addr>): Result<State> {
    if stakers == [] then Ok(s)
    else
      var front :- OneByOne(s, a, stakers[..|stakers| - 1]);
      QuickUnbond(front, a, [stakers[|stakers| - 1]])
  }

  /** A call for a single staker is always clean. */
  lemma SingleIsClean(s: State, x: Addr)
    ensures Clean(s, [x])
  {
    forall i | 0 <= i < |s.cfg.periods| ensures CleanIn(s.cfg, s.stakes, [x], s.cfg.periods[i]) {
      MembersGrow([x], StakeAt(s.stakes, s.cfg.periods[i]));
      assert Members([x][..0]) == {};
    }
  }

  /** The parts of the storage that a sweep writes, as the sweep left them. */
  ghost predicate Carries(t: State, w: Sweep) {
    t.stakes == w.stakes && t.flows == w.flows && t.claims == w.claims && t.sent == w.sent
  }

  /** `t` differs from `s` only in what a quick-unbond may change. */
  ghost predicate OnlyUnbonded(s: State, t: State) {
    t == s.(stakes := t.stakes, flows := t.flows, claims := t.claims, sent := t.sent,
            totals := t.totals, token := t.token, lpHeld := t.lpHeld)
  }

  lemma FinishCarries(s: State, w: Sweep)
    requires |w.unbonded| == |s.cfg.periods| && StakesMatch(s.cfg, w.stakes) && FlowsMatch(s.cfg, w.flows)
    requires FinishSweep(s, w).Ok?
    ensures Carries(FinishSweep(s, w).value, w) && OnlyUnbonded(s, FinishSweep(s, w).value)
  {
  }

  /** Sweeping one more staker gives the same storage with fresh counters as with running ones. */
  lemma SweepOneCarries(cfg: Config, w: Sweep, v: Sweep, x: Addr)
    requires |w.unbonded| == |v.unbonded| == |cfg.periods|
    requires w.stakes == v.stakes && w.flows == v.flows && w.claims == v.claims && w.sent == v.sent
    ensures var w', v' := SweepOne(cfg, w, x), SweepOne(cfg, v, x);
            w'.stakes == v'.stakes && w'.flows == v'.flows && w'.claims == v'.claims && w'.sent == v'.sent
  {
  }

  lemma SweptLast(s: State, stakers: seq<Addr>)
    requires stakers != []
    ensures Swept(s, stakers) == SweepOne(s.cfg, Swept(s, stakers[..|stakers| - 1]), stakers[|stakers| - 1])
  {
  }

  lemma SweptOnly(s: State, x: Addr)
    ensures Swept(s, [x]) == SweepOne(s.cfg, StartSweep(s), x)
  {
    assert [x][..0] == [];
    assert SweepAll(s.cfg, StartSweep(s), []) == StartSweep(s);
  }

  /** Sweeping the last staker from a state that carries what the sweep of the others left. */
  lemma SweepContinues(s: State, t: State, stakers: seq<Addr>, u: State)
    requires stakers != [] && t.cfg == s.cfg
    requires Carries(t, Swept(s, stakers[..|stakers| - 1])) && Carries(u, Swept(t, [stakers[|stakers| - 1]]))
    ensures Carries(u, Swept(s, stakers))
  {
    SweptLast(s, stakers);
    SweptOnly(t, stakers[|stakers| - 1]);
    SweepOneCarries(s.cfg, Swept(s, stakers[..|stakers| - 1]), StartSweep(t), stakers[|stakers| - 1]);
  }

  /** A success that keeps everything exact and writes what the sweep of `stakers` writes. */
  ghost predicate Settled(s: State, seconds: nat, stakers: seq<Addr>, r: Result<State>) {
    && r.Ok?
    && Ledgers(r.value, seconds) && TokensConserved(r.value) && Exact(r.value)
    && Carries(r.value, Swept(s, stakers)) && OnlyUnbonded(s, r.value)
  }

  /** One by one always succeeds, keeps the totals exact, and changes what the joint sweep changes. */
  lemma {:induction false} OneByOneIsSweep(s: State, seconds: nat, a: Addr, stakers: seq<Addr>)
    requires Ledgers(s, seconds) && TokensConserved(s) && Exact(s) && s.cfg.unbonder == Some(a)
    ensures Settled(s, seconds, stakers, OneByOne(s, a, stakers))
    decreases |stakers|
  {
    if stakers == [] {
      NothingSwept(s, seconds, a);
    } else {
      OneByOneIsSweep(s, seconds, a, stakers[..|stakers| - 1]);
      OneMore(s, seconds, a, stakers);
    }
  }

  lemma NothingSwept(s: State, seconds: nat, a: Addr)
    requires Ledgers(s, seconds) && TokensConserved(s) && Exact(s)
    ensures Settled(s, seconds, [], OneByOne(s, a, []))
  {
  }

  lemma OneMore(s: State, seconds: nat, a: Addr, stakers: seq<Addr>)
    requires stakers != [] && s.cfg.unbonder == Some(a)
    requires var front := stakers[..|stakers| - 1]; Settled(s, seconds, front, OneByOne(s, a, front))
    ensures Settled(s, seconds, stakers, OneByOne(s, a, stakers))
  {
    var t, x := OneByOne(s, a, stakers[..|stakers| - 1]).value, stakers[|stakers| - 1];
    assert OneByOne(s, a, stakers) == QuickUnbond(t, a, [x]);
    SingleIsClean(t, x);
    QuickUnbondExact(t, seconds, a, [x]);
    FinishCarries(t, Swept(t, [x]));
    SweepContinues(s, t, stakers, QuickUnbond(t, a, [x]).value);
  }

  /** The same bonds and claims with exact totals and conserved tokens: the same totals and counters. */
  lemma TotalsAreDetermined(s: State, t: State, u: State, seconds: nat)
    requires OnlyUnbonded(s, t) && OnlyUnbonded(s, u)
    requires t.stakes == u.stakes && t.flows == u.flows && t.claims == u.claims && t.sent == u.sent
    requires Ledgers(t, seconds) && Ledgers(u, seconds) && Exact(t) && Exact(u)
    requires TokensConserved(t) && TokensConserved(u)
    ensures t == u
  {
    forall i | 0 <= i < |t.totals| ensures t.totals[i] == u.totals[i] {
    }
    assert t.totals == u.totals;
  }

  /** Quick-unbonding a list, duplicates allowed, in one aggregated call ends in the same storage,
      totals, corrections and payouts as handling the stakers one by one, if and only if every
      period is clean. */
  lemma QuickUnbondMatchesOneByOne(s: State, seconds: nat, a: Addr, stakers: seq<Addr>)
    requires Ledgers(s, seconds) && TokensConserved(s) && Exact(s) && s.cfg.unbonder == Some(a)
    ensures OneByOne(s, a, stakers).Ok?
    ensures QuickUnbond(s, a, stakers) == OneByOne(s, a, stakers) <==> Clean(s, stakers)
  {
    QuickUnbondExact(s, seconds, a, stakers);
    OneByOneIsSweep(s, seconds, a, stakers);
    var q, o := QuickUnbond(s, a, stakers), OneByOne(s, a, stakers);
    if q.Ok? && Exact(q.value) {
      FinishCarries(s, Swept(s, stakers));
      TotalsAreDetermined(s, q.value, o.value, seconds);
    }
  }
}
