/** The lazy reward ledger against an eager one that credits everybody at every distribution. */
module StakeLazy {
  import opened FixedPoint
  import opened Results
  import opened Bonding
  import opened StakeState
  import opened StakeRewards
  import opened StakeBooks
  import opened StakeQuickUnbond
  import opened StakeRuns

  /** A staker's entitlement in a state; nothing in an asset without a distribution. */
  function EntitlementIn(s: State, x: Asset, a: Addr): int {
    if x in s.flows then Entitlement(s.cfg, s.stakes, s.flows[x], a) else 0
  }

  function PowerIn(s: State, x: Asset, a: Addr): nat {
    if x in s.flows then RewardsPower(s.cfg, s.stakes, s.flows[x].multipliers, a) else 0
  }

  /** The points a distribution adds for one unit of power in an asset. */
  function PointsCredited(s: State, now: nat, coins: seq<Coin>, x: Asset): nat {
    if x !in s.flows then 0
    else
      var f := ReceiveEach(s.flows, coins)[x];
      assert PeriodsMatch(s.cfg, s.flows[x].multipliers);
      var total := TotalPower(s.cfg, s.totals, f.multipliers);
      if total == 0 || Distributable(f, now / NANOS) <= 0 then 0
      else PointsPerShare(f, total, Distributable(f, now / NANOS))
  }

  /** What one message credits a staker in the eager ledger. */
  function Credit(s: State, e: Env, m: Msg, x: Asset, a: Addr): int {
    if m.DistributeMsg? && Execute(s, e, m).Ok? then PointsCredited(s, e.now, m.coins, x) * PowerIn(s, x, a) else 0
  }

  /** The eager ledger: each distribution of the run credits its points times the power the staker
      has at that moment, and nothing else ever changes a balance. */
  function Eager(s: State, events: seq<Event>, x: Asset, a: Addr): int {
    if events == [] then EntitlementIn(s, x, a)
    else
      var n := |events| - 1;
      Eager(s, events[..n], x, a) + Credit(Run(s, events[..n]), events[n].env, events[n].msg, x, a)
  }

  // ---- messages that credit nothing ----

  lemma RestakeUnmoved(s: State, stakes: Stakes, totals: seq<TotalStake>, y: Addr, x: Asset, a: Addr)
    requires StakesMatch(s.cfg, stakes) && |totals| == |s.totals| && OnlyMoved(s.stakes, stakes, y)
    ensures EntitlementIn(Restake(s, stakes, totals, y), x, a) == EntitlementIn(s, x, a)
  {
    if x in s.flows {
      CorrectKeepsEntitlement(s.cfg, s.stakes, stakes, s.flows[x], y, a);
      assert SameClaim(s.cfg, s.stakes, s.flows[x], stakes, Recorrect(s.cfg, s.stakes, stakes, s.flows[x], y), a);
    }
  }

  lemma MoveBondUnmoved(s: State, i: nat, y: Addr, b: Bond, x: Asset, a: Addr)
    requires i < |s.cfg.periods|
    ensures var r := MoveBond(s, i, y, b); r.Ok? ==> EntitlementIn(r.value, x, a) == EntitlementIn(s, x, a)
  {
    var r := MoveBond(s, i, y, b);
    if r.Ok? {
      PutMoves(s.cfg, s.stakes, y, s.cfg.periods[i], b);
      RestakeUnmoved(s, r.value.stakes, r.value.totals, y, x, a);
    }
  }

  lemma MoveBondsUnmoved(s: State, y: Addr, i: nat, b: Bond, j: nat, c: Bond, x: Asset, a: Addr)
    requires i < |s.cfg.periods| && j < |s.cfg.periods|
    ensures var r := MoveBonds(s, y, i, b, j, c); r.Ok? ==> EntitlementIn(r.value, x, a) == EntitlementIn(s, x, a)
  {
    var r := MoveBonds(s, y, i, b, j, c);
    if r.Ok? {
      var mid := PutBond(s.cfg, s.stakes, y, s.cfg.periods[i], b);
      PutMoves(s.cfg, s.stakes, y, s.cfg.periods[i], b);
      PutMoves(s.cfg, mid, y, s.cfg.periods[j], c);
      RestakeUnmoved(s, r.value.stakes, r.value.totals, y, x, a);
    }
  }

  lemma {:induction false} BondEachUnmoved(s: State, i: nat, ds: seq<Delegation>, x: Asset, a: Addr)
    requires i < |s.cfg.periods|
    ensures var r := BondEach(s, i, ds); r.Ok? ==> EntitlementIn(r.value, x, a) == EntitlementIn(s, x, a)
  {
    if ds != [] {
      var n := |ds| - 1;
      BondEachUnmoved(s, i, ds[..n], x, a);
      var m := BondEach(s, i, ds[..n]);
      if m.Ok? {
        MoveBondUnmoved(m.value, i, ds[n].to,
            AddUnlocked(BondOf(m.value.stakes, ds[n].to, s.cfg.periods[i]), ds[n].amount), x, a);
      }
    }
  }

  lemma MassBondUnmoved(s: State, cw20: Addr, sent: nat, period: nat, ds: seq<Delegation>, x: Asset, a: Addr)
    ensures var r := MassBond(s, cw20, sent, period, ds);
            r.Ok? ==> EntitlementIn(r.value, x, a) == EntitlementIn(s, x, a)
  {
    match FindPeriod(s.cfg.periods, period)
    case None =>
    case Some(i) => BondEachUnmoved(s, i, ds, x, a);
  }

  lemma RebondUnmoved(s: State, now: nat, y: Addr, amount: nat, bondFrom: nat, bondTo: nat, x: Asset, a: Addr)
    ensures var r := Rebond(s, now, y, amount, bondFrom, bondTo);
            r.Ok? ==> EntitlementIn(r.value, x, a) == EntitlementIn(s, x, a)
  {
    var r := Rebond(s, now, y, amount, bondFrom, bondTo);
    if r.Ok? {
      var i, j := FindPeriod(s.cfg.periods, bondFrom).value, FindPeriod(s.cfg.periods, bondTo).value;
      MoveBondsUnmoved(s, y, i, Release(BondOf(s.stakes, y, bondFrom), now, amount).value,
                       j, Raised(BondOf(s.stakes, y, bondTo), now, amount, bondFrom, bondTo), x, a);
    }
  }

  lemma RemoveStakeUnmoved(s: State, now: nat, y: Addr, period: nat, amount: nat, x: Asset, a: Addr)
    ensures var r := RemoveStake(s, now, y, period, amount);
            r.Ok? ==> EntitlementIn(r.value, x, a) == EntitlementIn(s, x, a)
  {
    var r := RemoveStake(s, now, y, period, amount);
    if r.Ok? {
      MoveBondUnmoved(s, FindPeriod(s.cfg.periods, period).value, y,
          Release(BondOf(s.stakes, y, period), now, amount).value, x, a);
    }
  }

  lemma {:induction false} SweptUnmoved(s: State, stakers: seq<Addr>, x: Asset, a: Addr)
    requires x in s.flows
    ensures var w := Swept(s, stakers);
            x in w.flows && Entitlement(s.cfg, w.stakes, w.flows[x], a) == Entitlement(s.cfg, s.stakes, s.flows[x], a)
  {
    if stakers != [] {
      var n := |stakers| - 1;
      SweptUnmoved(s, stakers[..n], x, a);
      SweptLast(s, stakers);
      var w := Swept(s, stakers[..n]);
      SweepOneUnmoved(s.cfg, w, stakers[n], x, a);
    }
  }

  lemma SweepOneUnmoved(cfg: Config, w: Sweep, y: Addr, x: Asset, a: Addr)
    requires |w.unbonded| == |cfg.periods| && x in w.flows
    ensures var v := SweepOne(cfg, w, y);
            x in v.flows && Entitlement(cfg, v.stakes, v.flows[x], a) == Entitlement(cfg, w.stakes, w.flows[x], a)
  {
    ClearMoves(w.stakes, y);
    PowerOfCleared(cfg, w.stakes, w.flows[x].multipliers, y);
    CorrectKeepsEntitlement(cfg, w.stakes, ClearStakes(w.stakes, y), w.flows[x], y, a);
    assert SameClaim(cfg, w.stakes, w.flows[x], ClearStakes(w.stakes, y),
           Recorrect(cfg, w.stakes, ClearStakes(w.stakes, y), w.flows[x], y), a);
  }

  lemma QuickUnbondUnmoved(s: State, y: Addr, stakers: seq<Addr>, x: Asset, a: Addr)
    ensures var r := QuickUnbond(s, y, stakers); r.Ok? ==> EntitlementIn(r.value, x, a) == EntitlementIn(s, x, a)
  {
    var r := QuickUnbond(s, y, stakers);
    if r.Ok? {
      FinishCarries(s, Swept(s, stakers));
      SweepShape(s, stakers);
      if x in s.flows {
        SweptUnmoved(s, stakers, x, a);
      }
    }
  }

  lemma {:induction false} FundEachUnmoved(flows: map<Asset, Flow>, coins: seq<Coin>, info: Funding, x: Asset)
    requires FundEach(flows, coins, info).Ok?
    ensures var r := FundEach(flows, coins, info);
            && (x in r.value <==> x in flows)
            && (x in flows ==> r.value[x] == flows[x].(curve := r.value[x].curve, balance := r.value[x].balance))
  {
    if coins != [] {
      FundEachUnmoved(flows, coins[..|coins| - 1], info, x);
    }
  }

  lemma WithdrawUnmoved(s: State, y: Addr, owner: Addr, x: Asset, a: Addr)
    ensures var r := Withdraw(s, y, owner); r.Ok? ==> EntitlementIn(r.value, x, a) == EntitlementIn(s, x, a)
  {
    var r := Withdraw(s, y, owner);
    if r.Ok? && x in s.flows {
      assert WithdrawAll(s.cfg, s.stakes, s.flows, owner)[x] == WithdrawFlow(s.cfg, s.stakes, s.flows[x], owner);
      WithdrawPays(s.cfg, s.stakes, s.flows[x], owner);
    }
  }

  /** A distribution credits exactly its points times the power, and in no other way. */
  lemma DistributeMoves(s: State, now: nat, coins: seq<Coin>, x: Asset, a: Addr)
    ensures var r := Distribute(s, now, coins);
            r.Ok? ==> EntitlementIn(r.value, x, a)
                      == EntitlementIn(s, x, a) + PointsCredited(s, now, coins, x) * PowerIn(s, x, a)
  {
    var r := Distribute(s, now, coins);
    if r.Ok? && x in s.flows {
      var flows := ReceiveEach(s.flows, coins);
      assert PeriodsMatch(s.cfg, s.flows[x].multipliers);
      assert DistributeAll(s.cfg, s.totals, flows, now / NANOS)[x]
             == DistributeOne(s.cfg, s.totals, flows[x], now / NANOS);
      DistributeOneMoves(s.cfg, s.stakes, s.totals, s.flows[x], flows[x], now / NANOS, a);
    }
  }

  lemma DistributeOneMoves(cfg: Config, stakes: Stakes, totals: seq<TotalStake>, f: Flow, received: Flow,
                           seconds: nat, a: Addr)
    requires |totals| == |cfg.periods| && PeriodsMatch(cfg, f.multipliers)
    requires received == f.(balance := received.balance) && DistributeOne(cfg, totals, received, seconds).Ok?
    ensures var g := DistributeOne(cfg, totals, received, seconds).value;
            var total := TotalPower(cfg, totals, received.multipliers);
            var points := if total == 0 || Distributable(received, seconds) <= 0 then 0
                          else PointsPerShare(received, total, Distributable(received, seconds));
            Entitlement(cfg, stakes, g, a)
            == Entitlement(cfg, stakes, f, a) + points * RewardsPower(cfg, stakes, f.multipliers, a)
  {
    var total := TotalPower(cfg, totals, received.multipliers);
    DistributeCredits(cfg, stakes, received, total, seconds, a);
    PointsAre(received, total, seconds);
  }

  lemma PointsAre(f: Flow, total: nat, seconds: nat)
    requires DistributeFlow(f, total, seconds).Ok?
    ensures DistributeFlow(f, total, seconds).value.sharesPerPoint - f.sharesPerPoint ==
            if total == 0 || Distributable(f, seconds) <= 0 then 0
            else PointsPerShare(f, total, Distributable(f, seconds))
  {
  }

  lemma NewFlowHasNothing(cfg: Config, stakes: Stakes, rewards: seq<Multiplier>, held: nat, a: Addr)
    ensures Entitlement(cfg, stakes, Flow(0, 0, 0, 0, rewards, [], map[], held), a) == 0
  {
  }

  lemma CreateFlowUnmoved(s: State, y: Addr, asset: Asset, rewards: seq<Multiplier>, held: nat, x: Asset, a: Addr)
    ensures var r := CreateFlow(s, y, asset, rewards, held);
            r.Ok? ==> EntitlementIn(r.value, x, a) == EntitlementIn(s, x, a)
  {
    NewFlowHasNothing(s.cfg, s.stakes, rewards, held, a);
  }

  lemma FundUnmoved(s: State, now: nat, coins: seq<Coin>, info: Funding, x: Asset, a: Addr)
    ensures var r := Fund(s, now, coins, info); r.Ok? ==> EntitlementIn(r.value, x, a) == EntitlementIn(s, x, a)
  {
    if Fund(s, now, coins, info).Ok? {
      FundEachUnmoved(s.flows, coins, info, x);
    }
  }

  lemma FundTokenUnmoved(s: State, now: nat, token: Addr, sent: nat, info: Funding, x: Asset, a: Addr)
    ensures var r := FundToken(s, now, token, sent, info);
            r.Ok? ==> EntitlementIn(r.value, x, a) == EntitlementIn(s, x, a)
  {
  }

  lemma TransferUnmoved(s: State, e: Env, asset: Asset, amount: nat, x: Asset, a: Addr)
    ensures EntitlementIn(Execute(s, e, TransferIn(asset, amount)).value, x, a) == EntitlementIn(s, x, a)
  {
  }

  lemma RewardMsgMoves(s: State, e: Env, m: Msg, x: Asset, a: Addr)
    requires IsRewardMsg(m)
    ensures var r := Execute(s, e, m);
            r.Ok? ==> EntitlementIn(r.value, x, a) == EntitlementIn(s, x, a) + Credit(s, e, m, x, a)
  {
    if m.DistributeMsg? {
      DistributeMoves(s, e.now, m.coins, x, a);
    } else if m.WithdrawMsg? {
      WithdrawUnmoved(s, e.sender, m.owner, x, a);
    } else if m.CreateFlowMsg? || m.FundMsg? || m.FundTokenMsg? {
      FundingUnmoved(s, e, m, x, a);
    } else if m.TransferIn? {
      TransferUnmoved(s, e, m.asset, m.amount, x, a);
    } else {
      FlagMsgUnmoved(s, e, m, x, a);
    }
  }

  lemma FundingUnmoved(s: State, e: Env, m: Msg, x: Asset, a: Addr)
    requires m.CreateFlowMsg? || m.FundMsg? || m.FundTokenMsg?
    ensures var r := Execute(s, e, m); r.Ok? ==> EntitlementIn(r.value, x, a) == EntitlementIn(s, x, a)
  {
    match m {
      case CreateFlowMsg(asset, rewards, held) => CreateFlowUnmoved(s, e.sender, asset, rewards, held, x, a);
      case FundMsg(coins, info) => FundUnmoved(s, e.now, coins, info, x, a);
      case FundTokenMsg(token, sent, info) => FundTokenUnmoved(s, e.now, token, sent, info, x, a);
    }
  }

  lemma FlagMsgUnmoved(s: State, e: Env, m: Msg, x: Asset, a: Addr)
    requires m.UnbondAllMsg? || m.StopUnbondAllMsg? || m.DelegateMsg? || m.UpdateAdminMsg?
    ensures var r := Execute(s, e, m); r.Ok? ==> EntitlementIn(r.value, x, a) == EntitlementIn(s, x, a)
  {
  }

  lemma StakeMsgUnmoved(s: State, e: Env, m: Msg, x: Asset, a: Addr)
    requires !IsRewardMsg(m)
    ensures var r := Execute(s, e, m); r.Ok? ==> EntitlementIn(r.value, x, a) == EntitlementIn(s, x, a)
  {
    match m {
      case BondMsg(cw20, amount, period, staker) =>
        MassBondUnmoved(s, cw20, amount, period, [Delegation(staker, amount)], x, a);
      case MassBondMsg(cw20, sent, period, ds) => MassBondUnmoved(s, cw20, sent, period, ds, x, a);
      case RebondMsg(amount, bondFrom, bondTo) => RebondUnmoved(s, e.now, e.sender, amount, bondFrom, bondTo, x, a);
      case UnbondMsg(amount, period) => RemoveStakeUnmoved(s, e.now, e.sender, period, amount, x, a);
      case MigrateMsg(amount, period) => RemoveStakeUnmoved(s, e.now, e.sender, period, amount, x, a);
      case QuickUnbondMsg(stakers) => QuickUnbondUnmoved(s, e.sender, stakers, x, a);
      case ClaimMsg =>
    }
  }

  /** Bonding, rebonding, unbonding, quick-unbonding, migrating, claiming, funding and withdrawing
      leave every entitlement as it is; distributing credits the eager amount. */
  lemma StepMoves(s: State, e: Env, m: Msg, x: Asset, a: Addr)
    ensures EntitlementIn(Step(s, e, m), x, a) == EntitlementIn(s, x, a) + Credit(s, e, m, x, a)
  {
    if IsRewardMsg(m) {
      RewardMsgMoves(s, e, m, x, a);
    } else {
      StakeMsgUnmoved(s, e, m, x, a);
    }
    ClockMoves(Execute(s, e, m), e.now, x, a);
  }

  lemma ClockMoves(r: Result<State>, now: nat, x: Asset, a: Addr)
    ensures r.Ok? ==> EntitlementIn(r.value.(clock := now), x, a) == EntitlementIn(r.value, x, a)
  {
  }

  /** The lazy ledger refines the eager one: after any run, power times the per-point counter plus
      the correction is what the eager ledger holds for the staker. */
  lemma {:induction false} LazyRefinesEager(s: State, events: seq<Event>, x: Asset, a: Addr)
    ensures EntitlementIn(Run(s, events), x, a) == Eager(s, events, x, a)
  {
    if events != [] {
      var n := |events| - 1;
      LazyRefinesEager(s, events[..n], x, a);
      StepMoves(Run(s, events[..n]), events[n].env, events[n].msg, x, a);
    }
  }

  /** From instantiation on, in time order, no entitlement is ever negative, and what a staker has
      withdrawn plus what is withdrawable is the whole tokens of the eager balance. */
  lemma EagerBalanceIsPaid(cfg: Config, now: nat, events: seq<Event>, x: Asset, a: Addr)
    requires InOrder(now, events) && x in Run(Init(cfg, now), events).flows
    ensures var s := Run(Init(cfg, now), events); var eager := Eager(Init(cfg, now), events, x, a);
            && eager >= 0
            && Withdrawable(s.cfg, s.stakes, s.flows[x], a) + AdjustmentOf(s.flows[x], a).withdrawn == eager / SHARES
  {
    var s0 := Init(cfg, now);
    InitIsGood(cfg, now);
    RunKeeps(s0, events);
    var s := Run(s0, events);
    LazyRefinesEager(s0, events, x, a);
    assert FlowBooks(s.cfg, s.stakes, s.flows[x], s.clock / NANOS);
    WithdrawableIs(s.cfg, s.stakes, s.flows[x], a);
    assert AdjustmentOf(s.flows[x], a).withdrawn * SHARES <= Entitlement(s.cfg, s.stakes, s.flows[x], a);
  }
}
