/** Whole runs of the staking contract: every message keeps the invariants, so every run does. */
module StakeRuns {
  import opened FixedPoint
  import opened FiniteSums
  import opened Results
  import opened StakeState
  import opened StakeTotals
  import opened StakeRewards
  import opened StakeBooks
  import opened StakeQuickUnbond

  // ---- the reward messages ----

  lemma AddScheduleKeeps(cfg: Config, stakes: Stakes, f: Flow, c: Schedule, sent: nat, seconds: nat)
    requires FlowBooks(cfg, stakes, f, seconds) && c.amount <= sent
    ensures var g := f.(curve := f.curve + [c], balance := f.balance + sent);
            FlowBooks(cfg, stakes, g, seconds) && (Solvent(cfg, stakes, f) ==> Solvent(cfg, stakes, g))
  {
    var g := f.(curve := f.curve + [c], balance := f.balance + sent);
    assert g.curve[..|g.curve| - 1] == f.curve;
    SameLedger(cfg, stakes, f, g);
  }

  /** Flows that agree on the counter, the multipliers and the adjustments agree on all entitlements. */
  lemma SameLedger(cfg: Config, stakes: Stakes, f: Flow, g: Flow)
    requires f.sharesPerPoint == g.sharesPerPoint && f.multipliers == g.multipliers && f.adjustments == g.adjustments
    ensures Covered(cfg, stakes, f) <==> Covered(cfg, stakes, g)
    ensures Sum(Holders(stakes), EntitlementAt(cfg, stakes, f)) == Sum(Holders(stakes), EntitlementAt(cfg, stakes, g))
    ensures Sum(Holders(stakes), WithdrawnAt(f)) == Sum(Holders(stakes), WithdrawnAt(g))
  {
    forall a
      ensures Entitlement(cfg, stakes, f, a) == Entitlement(cfg, stakes, g, a)
      ensures AdjustmentOf(f, a) == AdjustmentOf(g, a)
    {
    }
    SumAgrees(Holders(stakes), EntitlementAt(cfg, stakes, f), EntitlementAt(cfg, stakes, g));
    SumAgrees(Holders(stakes), WithdrawnAt(f), WithdrawnAt(g));
  }

  lemma ReceiveKeeps(cfg: Config, stakes: Stakes, f: Flow, amount: nat, seconds: nat)
    requires FlowBooks(cfg, stakes, f, seconds)
    ensures FlowBooks(cfg, stakes, Receive(f, amount), seconds)
    ensures Solvent(cfg, stakes, f) ==> Solvent(cfg, stakes, Receive(f, amount))
  {
    SameLedger(cfg, stakes, f, Receive(f, amount));
  }

  lemma PutFlowKeeps(cfg: Config, stakes: Stakes, flows: map<Asset, Flow>, x: Asset, g: Flow, seconds: nat)
    requires AllBooks(cfg, stakes, flows, seconds) && FlowBooks(cfg, stakes, g, seconds)
    ensures AllBooks(cfg, stakes, flows[x := g], seconds)
    ensures AllSolvent(cfg, stakes, flows) && Solvent(cfg, stakes, g) ==> AllSolvent(cfg, stakes, flows[x := g])
  {
  }

  lemma FundAssetKeeps(cfg: Config, stakes: Stakes, flows: map<Asset, Flow>, asset: Asset, sent: nat, info: Funding,
                       seconds: nat)
    requires AllBooks(cfg, stakes, flows, seconds)
    ensures var r := FundAsset(flows, asset, sent, info);
            r.Ok? ==> AllBooks(cfg, stakes, r.value, seconds)
                      && (AllSolvent(cfg, stakes, flows) ==> AllSolvent(cfg, stakes, r.value))
  {
    var r := FundAsset(flows, asset, sent, info);
    if r.Ok? {
      var c := Schedule(info.start, info.start + info.duration, info.amount);
      var f := flows[asset];
      var g := f.(curve := f.curve + [c], balance := f.balance + sent);
      assert FlowBooks(cfg, stakes, f, seconds);
      AddScheduleKeeps(cfg, stakes, f, c, sent, seconds);
      assert r.value == flows[asset := g];
      PutFlowKeeps(cfg, stakes, flows, asset, g, seconds);
    }
  }

  lemma {:induction false} FundEachKeeps(cfg: Config, stakes: Stakes, flows: map<Asset, Flow>, coins: seq<Coin>,
                                         info: Funding, seconds: nat)
    requires AllBooks(cfg, stakes, flows, seconds)
    ensures var r := FundEach(flows, coins, info);
            r.Ok? ==>
              AllBooks(cfg, stakes, r.value, seconds)
              && (AllSolvent(cfg, stakes, flows) ==> AllSolvent(cfg, stakes, r.value))
  {
    if coins != [] {
      var n := |coins| - 1;
      FundEachKeeps(cfg, stakes, flows, coins[..n], info, seconds);
      var front := FundEach(flows, coins[..n], info);
      if front.Ok? {
        FundAssetKeeps(cfg, stakes, front.value, Native(coins[n].denom), coins[n].amount, info, seconds);
      }
    }
  }

  lemma {:induction false} ReceiveEachKeeps(cfg: Config, stakes: Stakes, flows: map<Asset, Flow>, coins: seq<Coin>,
                                            seconds: nat)
    requires AllBooks(cfg, stakes, flows, seconds)
    ensures AllBooks(cfg, stakes, ReceiveEach(flows, coins), seconds)
    ensures AllSolvent(cfg, stakes, flows) ==> AllSolvent(cfg, stakes, ReceiveEach(flows, coins))
  {
    if coins != [] {
      var n := |coins| - 1;
      ReceiveEachKeeps(cfg, stakes, flows, coins[..n], seconds);
      var front, asset := ReceiveEach(flows, coins[..n]), Native(coins[n].denom);
      if asset in front {
        ReceiveKeeps(cfg, stakes, front[asset], coins[n].amount, seconds);
        PutFlowKeeps(cfg, stakes, front, asset, Receive(front[asset], coins[n].amount), seconds);
      }
    }
  }

  /** The total a distribution of the flow is divided by is at least everyone's power together, or
      nothing is distributed at all. */
  ghost predicate Outweighs(cfg: Config, stakes: Stakes, totals: seq<TotalStake>, f: Flow) {
    && |totals| == |cfg.periods| && PeriodsMatch(cfg, f.multipliers)
    && var total := TotalPower(cfg, totals, f.multipliers);
       total == 0 || Sum(Holders(stakes), PowerAt(cfg, stakes, f.multipliers)) <= total
  }

  ghost predicate AllOutweigh(cfg: Config, stakes: Stakes, totals: seq<TotalStake>, flows: map<Asset, Flow>) {
    forall x | x in flows :: Outweighs(cfg, stakes, totals, flows[x])
  }

  /** A distribution now keeps every flow solvent. */
  ghost predicate Weighed(s: State) {
    AllOutweigh(s.cfg, s.stakes, s.totals, s.flows)
  }

  /** Exact totals outweigh the powers, despite the floors and the `min_bond` cut-off. */
  lemma ExactIsWeighed(s: State)
    requires PoweredOk(s.cfg, s.stakes, s.totals)
    ensures Weighed(s)
  {
    forall x | x in s.flows ensures Outweighs(s.cfg, s.stakes, s.totals, s.flows[x]) {
      assert PeriodsMatch(s.cfg, s.flows[x].multipliers);
      TotalPowerBound(s.cfg, s.stakes, s.totals, s.flows[x].multipliers);
    }
  }

  /** Every flow's distribution succeeds and keeps its books, and its solvency where the total
      outweighs the powers. */
  lemma DistributeAllKeeps(cfg: Config, stakes: Stakes, totals: seq<TotalStake>, flows: map<Asset, Flow>, seconds: nat)
    requires |totals| == |cfg.periods| && FlowsMatch(cfg, flows) && AllBooks(cfg, stakes, flows, seconds)
    ensures var r := Collect(DistributeAll(cfg, totals, flows, seconds));
            && r.Ok? && AllBooks(cfg, stakes, r.value, seconds)
            && (AllOutweigh(cfg, stakes, totals, flows) && AllSolvent(cfg, stakes, flows) ==>
                  AllSolvent(cfg, stakes, r.value))
  {
    forall x | x in flows
      ensures var r := DistributeOne(cfg, totals, flows[x], seconds);
              && r.Ok? && FlowBooks(cfg, stakes, r.value, seconds)
              && (Outweighs(cfg, stakes, totals, flows[x]) && Solvent(cfg, stakes, flows[x]) ==>
                    Solvent(cfg, stakes, r.value))
    {
      assert PeriodsMatch(cfg, flows[x].multipliers);
      DistributeKeepsFlow(cfg, stakes, flows[x], TotalPower(cfg, totals, flows[x].multipliers), seconds);
    }
  }

  /** Every withdrawal keeps the books and solvency, and from solvent flows none fails. */
  lemma WithdrawAllKeeps(cfg: Config, stakes: Stakes, flows: map<Asset, Flow>, owner: Addr, seconds: nat)
    requires AllBooks(cfg, stakes, flows, seconds)
    ensures var r := Collect(WithdrawAll(cfg, stakes, flows, owner));
            && (r.Ok? ==>
                  AllBooks(cfg, stakes, r.value, seconds)
                  && (AllSolvent(cfg, stakes, flows) ==> AllSolvent(cfg, stakes, r.value)))
            && (AllSolvent(cfg, stakes, flows) ==> r.Ok?)
  {
    forall x | x in flows
      ensures var r := WithdrawFlow(cfg, stakes, flows[x], owner);
              && (Solvent(cfg, stakes, flows[x]) ==> r.Ok?)
              && (r.Ok? ==>
                    FlowBooks(cfg, stakes, r.value, seconds)
                    && (Solvent(cfg, stakes, flows[x]) ==> Solvent(cfg, stakes, r.value)))
    {
      WithdrawKeepsFlow(cfg, stakes, flows[x], owner, seconds);
    }
  }

  lemma NewFlowKeeps(cfg: Config, stakes: Stakes, rewards: seq<Multiplier>, held: nat, seconds: nat)
    ensures var f := Flow(0, 0, 0, 0, rewards, [], map[], held);
            FlowBooks(cfg, stakes, f, seconds) && Solvent(cfg, stakes, f)
  {
    var f := Flow(0, 0, 0, 0, rewards, [], map[], held);
    forall a ensures Entitlement(cfg, stakes, f, a) == 0 && AdjustmentOf(f, a) == Adjustment(0, 0) {
    }
    SumZero(Holders(stakes), EntitlementAt(cfg, stakes, f));
    SumZero(Holders(stakes), WithdrawnAt(f));
  }

  /** The messages that touch only flows, flags and delegations. */
  predicate IsRewardMsg(m: Msg) {
    m.UnbondAllMsg? || m.StopUnbondAllMsg? || m.CreateFlowMsg? || m.FundMsg? || m.FundTokenMsg? || m.DistributeMsg?
    || m.WithdrawMsg? || m.DelegateMsg? || m.UpdateAdminMsg? || m.TransferIn?
  }

  /** They leave stakes, totals and tokens alone. */
  lemma RewardMsgFrame(s: State, e: Env, m: Msg)
    requires IsRewardMsg(m)
    ensures var r := Execute(s, e, m);
            r.Ok? ==> r.value == s.(flows := r.value.flows, unbondAll := r.value.unbondAll,
                                    delegated := r.value.delegated, admin := r.value.admin)
  {
  }

  /** `flows` can replace those of `s`. */
  ghost predicate FlowsKept(s: State, flows: map<Asset, Flow>, seconds: nat) {
    AllBooks(s.cfg, s.stakes, flows, seconds) && (Backed(s) ==> AllSolvent(s.cfg, s.stakes, flows))
  }

  lemma CreateFlowKeeps(s: State, a: Addr, asset: Asset, rewards: seq<Multiplier>, held: nat, seconds: nat)
    requires Ledgers(s, seconds) && CreateFlow(s, a, asset, rewards, held).Ok?
    ensures FlowsKept(s, CreateFlow(s, a, asset, rewards, held).value.flows, seconds)
  {
    NewFlowKeeps(s.cfg, s.stakes, rewards, held, seconds);
    PutFlowKeeps(s.cfg, s.stakes, s.flows, asset, Flow(0, 0, 0, 0, rewards, [], map[], held), seconds);
  }

  lemma FundKeeps(s: State, now: nat, coins: seq<Coin>, info: Funding, seconds: nat)
    requires Ledgers(s, seconds) && Fund(s, now, coins, info).Ok?
    ensures FlowsKept(s, Fund(s, now, coins, info).value.flows, seconds)
  {
    FundEachKeeps(s.cfg, s.stakes, s.flows, coins, info, seconds);
  }

  lemma FundTokenKeeps(s: State, now: nat, token: Addr, sent: nat, info: Funding, seconds: nat)
    requires Ledgers(s, seconds) && FundToken(s, now, token, sent, info).Ok?
    ensures FlowsKept(s, FundToken(s, now, token, sent, info).value.flows, seconds)
  {
    FundAssetKeeps(s.cfg, s.stakes, s.flows, Token(token), sent, info, seconds);
  }

  /** The weights do not depend on what has just arrived. */
  lemma ReceivedWeighs(s: State, coins: seq<Coin>)
    requires Weighed(s)
    ensures AllOutweigh(s.cfg, s.stakes, s.totals, ReceiveEach(s.flows, coins))
  {
    forall x | x in s.flows ensures Outweighs(s.cfg, s.stakes, s.totals, ReceiveEach(s.flows, coins)[x]) {
      assert Outweighs(s.cfg, s.stakes, s.totals, s.flows[x]);
    }
  }

  lemma ReceivedKeeps(s: State, coins: seq<Coin>, seconds: nat)
    requires Ledgers(s, seconds)
    ensures FlowsMatch(s.cfg, ReceiveEach(s.flows, coins))
    ensures AllBooks(s.cfg, s.stakes, ReceiveEach(s.flows, coins), seconds)
    ensures Backed(s) ==> AllSolvent(s.cfg, s.stakes, ReceiveEach(s.flows, coins))
  {
    ReceiveEachKeeps(s.cfg, s.stakes, s.flows, coins, seconds);
    forall x | x in s.flows ensures PeriodsMatch(s.cfg, ReceiveEach(s.flows, coins)[x].multipliers) {
      assert PeriodsMatch(s.cfg, s.flows[x].multipliers);
    }
  }

  /** The two checks of a distribute message. */
  predicate MayDistribute(s: State, coins: seq<Coin>) {
    !s.unbondAll && forall i | 0 <= i < |coins| :: Native(coins[i].denom) in s.flows
  }

  lemma DistributeNeeds(s: State, now: nat, coins: seq<Coin>)
    ensures !MayDistribute(s, coins) ==> Distribute(s, now, coins).Err?
  {
  }

  /** A distribute message past its two checks. */
  lemma DistributeIs(s: State, now: nat, coins: seq<Coin>, received: map<Asset, Flow>,
                     all: Result<map<Asset, Flow>>)
    requires MayDistribute(s, coins) && received == ReceiveEach(s.flows, coins) && FlowsMatch(s.cfg, received)
    requires all == Collect(DistributeAll(s.cfg, s.totals, received, now / NANOS))
    ensures Distribute(s, now, coins).Ok? <==> all.Ok?
    ensures all.Ok? ==> Distribute(s, now, coins).value == s.(flows := all.value)
  {
  }

  lemma DistributeKeeps(s: State, now: nat, coins: seq<Coin>)
    requires Ledgers(s, now / NANOS) && Distribute(s, now, coins).Ok?
    ensures AllBooks(s.cfg, s.stakes, Distribute(s, now, coins).value.flows, now / NANOS)
    ensures Weighed(s) ==> FlowsKept(s, Distribute(s, now, coins).value.flows, now / NANOS)
  {
    var flows := ReceiveEach(s.flows, coins);
    ReceivedKeeps(s, coins, now / NANOS);
    DistributeAllKeeps(s.cfg, s.stakes, s.totals, flows, now / NANOS);
    DistributeNeeds(s, now, coins);
    DistributeIs(s, now, coins, flows, Collect(DistributeAll(s.cfg, s.totals, flows, now / NANOS)));
    if Weighed(s) {
      ReceivedWeighs(s, coins);
    }
  }

  lemma WithdrawKeeps(s: State, a: Addr, owner: Addr, seconds: nat)
    requires Ledgers(s, seconds) && Withdraw(s, a, owner).Ok?
    ensures FlowsKept(s, Withdraw(s, a, owner).value.flows, seconds)
  {
    WithdrawAllKeeps(s.cfg, s.stakes, s.flows, owner, seconds);
  }

  lemma TransferKeeps(s: State, asset: Asset, amount: nat, seconds: nat)
    requires Ledgers(s, seconds) && asset in s.flows
    ensures FlowsKept(s, s.flows[asset := Receive(s.flows[asset], amount)], seconds)
  {
    ReceiveKeeps(s.cfg, s.stakes, s.flows[asset], amount, seconds);
    PutFlowKeeps(s.cfg, s.stakes, s.flows, asset, Receive(s.flows[asset], amount), seconds);
  }

  /** A distribution divides by totals that outweigh the powers; all other messages are free. */
  ghost predicate WeighedStep(s: State, m: Msg) {
    m.DistributeMsg? ==> Weighed(s)
  }

  lemma RewardMsgKeeps(s: State, e: Env, m: Msg, seconds: nat)
    requires IsRewardMsg(m) && Ledgers(s, seconds) && seconds == e.now / NANOS
    ensures var r := Execute(s, e, m);
            && (r.Ok? ==> AllBooks(s.cfg, s.stakes, r.value.flows, seconds))
            && (r.Ok? && WeighedStep(s, m) ==> FlowsKept(s, r.value.flows, seconds))
  {
    if Execute(s, e, m).Ok? {
      if m.DistributeMsg? {
        DistributeKeeps(s, e.now, m.coins);
      } else {
        FlowMsgKeeps(s, e, m, seconds);
      }
    }
  }

  lemma FlowMsgKeeps(s: State, e: Env, m: Msg, seconds: nat)
    requires IsRewardMsg(m) && !m.DistributeMsg? && Ledgers(s, seconds) && Execute(s, e, m).Ok?
    ensures FlowsKept(s, Execute(s, e, m).value.flows, seconds)
  {
    match m {
      case CreateFlowMsg(_, _, _) => FundingMsgKeeps(s, e, m, seconds);
      case FundMsg(_, _) => FundingMsgKeeps(s, e, m, seconds);
      case FundTokenMsg(_, _, _) => FundingMsgKeeps(s, e, m, seconds);
      case WithdrawMsg(owner) => WithdrawKeeps(s, e.sender, owner, seconds);
      case TransferIn(asset, amount) => TransferMsgKeeps(s, e, asset, amount, seconds);
      case _ => FlagMsgKeeps(s, e, m, seconds);
    }
  }

  lemma FundingMsgKeeps(s: State, e: Env, m: Msg, seconds: nat)
    requires Ledgers(s, seconds) && Execute(s, e, m).Ok? && (m.CreateFlowMsg? || m.FundMsg? || m.FundTokenMsg?)
    ensures FlowsKept(s, Execute(s, e, m).value.flows, seconds)
  {
    match m {
      case CreateFlowMsg(asset, rewards, held) => CreateFlowKeeps(s, e.sender, asset, rewards, held, seconds);
      case FundMsg(coins, info) => FundKeeps(s, e.now, coins, info, seconds);
      case FundTokenMsg(token, sent, info) => FundTokenKeeps(s, e.now, token, sent, info, seconds);
    }
  }

  lemma TransferMsgKeeps(s: State, e: Env, asset: Asset, amount: nat, seconds: nat)
    requires Ledgers(s, seconds)
    ensures FlowsKept(s, Execute(s, e, TransferIn(asset, amount)).value.flows, seconds)
  {
    if asset in s.flows {
      TransferKeeps(s, asset, amount, seconds);
    }
  }

  lemma FlagMsgKeeps(s: State, e: Env, m: Msg, seconds: nat)
    requires Ledgers(s, seconds) && Execute(s, e, m).Ok?
    requires m.UnbondAllMsg? || m.StopUnbondAllMsg? || m.DelegateMsg? || m.UpdateAdminMsg?
    ensures FlowsKept(s, Execute(s, e, m).value.flows, seconds)
  {
  }

  // ---- every message ----

  /** Quick-unbonds by the unbonder are clean; all other messages are free. */
  ghost predicate CleanStep(s: State, e: Env, m: Msg) {
    m.QuickUnbondMsg? && s.cfg.unbonder == Some(e.sender) ==> Clean(s, m.stakers)
  }

  /** What is kept whatever the message was. */
  ghost predicate KeepsBooks(s: State, t: State, seconds: nat) {
    Ledgers(t, seconds) && TokensConserved(t) && (Backed(s) ==> Backed(t))
  }

  lemma BondMsgKeeps(s: State, e: Env, m: Msg, seconds: nat)
    requires Ledgers(s, seconds) && TokensConserved(s) && (m.BondMsg? || m.MassBondMsg? || m.RebondMsg?)
    ensures var r := Execute(s, e, m); r.Ok? ==> Keeps(s, r.value, seconds)
  {
    match m {
      case BondMsg(cw20, amount, period, staker) =>
        MassBondKeeps(s, seconds, cw20, amount, period, [Delegation(staker, amount)]);
      case MassBondMsg(cw20, sent, period, ds) => MassBondKeeps(s, seconds, cw20, sent, period, ds);
      case RebondMsg(amount, bondFrom, bondTo) => RebondKeeps(s, seconds, e.now, e.sender, amount, bondFrom, bondTo);
    }
  }

  lemma LeaveMsgKeeps(s: State, e: Env, m: Msg, seconds: nat)
    requires Ledgers(s, seconds) && TokensConserved(s) && (m.UnbondMsg? || m.MigrateMsg? || m.ClaimMsg?)
    ensures var r := Execute(s, e, m); r.Ok? ==> Keeps(s, r.value, seconds)
  {
    if m.ClaimMsg? {
      ClaimMsgKeeps(s, e, seconds);
    } else if m.UnbondMsg? {
      UnbondMsgKeeps(s, e, m.amount, m.period, seconds);
    } else {
      MigrateMsgKeeps(s, e, m.amount, m.period, seconds);
    }
  }

  lemma ClaimMsgKeeps(s: State, e: Env, seconds: nat)
    requires Ledgers(s, seconds) && TokensConserved(s)
    ensures var r := Execute(s, e, ClaimMsg); r.Ok? ==> Keeps(s, r.value, seconds)
  {
    ClaimKeeps(s, seconds, e.now, e.sender);
  }

  lemma UnbondMsgKeeps(s: State, e: Env, amount: nat, period: nat, seconds: nat)
    requires Ledgers(s, seconds) && TokensConserved(s)
    ensures var r := Execute(s, e, UnbondMsg(amount, period)); r.Ok? ==> Keeps(s, r.value, seconds)
  {
    UnbondKeeps(s, seconds, e.now, e.sender, amount, period);
  }

  lemma MigrateMsgKeeps(s: State, e: Env, amount: nat, period: nat, seconds: nat)
    requires Ledgers(s, seconds) && TokensConserved(s)
    ensures var r := Execute(s, e, MigrateMsg(amount, period)); r.Ok? ==> Keeps(s, r.value, seconds)
  {
    MigrateKeeps(s, seconds, e.now, e.sender, amount, period);
  }

  lemma StakeMsgKeeps(s: State, e: Env, m: Msg, seconds: nat)
    requires Ledgers(s, seconds) && TokensConserved(s) && !IsRewardMsg(m)
    ensures var r := Execute(s, e, m);
            && (r.Ok? ==> KeepsBooks(s, r.value, seconds))
            && (r.Ok? && Exact(s) && CleanStep(s, e, m) ==> Exact(r.value))
  {
    if m.QuickUnbondMsg? {
      QuickUnbondExact(s, seconds, e.sender, m.stakers);
    } else if m.BondMsg? || m.MassBondMsg? || m.RebondMsg? {
      BondMsgKeeps(s, e, m, seconds);
    } else {
      LeaveMsgKeeps(s, e, m, seconds);
    }
  }

  lemma ExecuteKeeps(s: State, e: Env, m: Msg, seconds: nat)
    requires Ledgers(s, seconds) && TokensConserved(s) && seconds == e.now / NANOS
    ensures var r := Execute(s, e, m); r.Ok? ==> Ledgers(r.value, seconds) && TokensConserved(r.value)
    ensures var r := Execute(s, e, m); r.Ok? && Backed(s) && WeighedStep(s, m) ==> Backed(r.value)
    ensures var r := Execute(s, e, m); r.Ok? && Exact(s) && CleanStep(s, e, m) ==> Exact(r.value)
  {
    if IsRewardMsg(m) {
      RewardMsgKeeps(s, e, m, seconds);
      RewardMsgFrame(s, e, m);
    } else {
      StakeMsgKeeps(s, e, m, seconds);
    }
  }

  /** One message, successful or not, keeps the books; it keeps solvency unless it is a distribution
      by totals that the powers outweigh, and exact totals unless it is an unclean quick-unbond. */
  lemma StepKeeps(s: State, e: Env, m: Msg)
    requires Books(s) && s.clock <= e.now
    ensures Books(Step(s, e, m))
    ensures Backed(s) && WeighedStep(s, m) ==> Backed(Step(s, e, m))
    ensures Exact(s) && CleanStep(s, e, m) ==> Exact(Step(s, e, m))
  {
    assert s.clock / NANOS <= e.now / NANOS;
    LedgersLater(s, s.clock / NANOS, e.now / NANOS);
    ExecuteKeeps(s, e, m, e.now / NANOS);
    SettleKeeps(s, Execute(s, e, m), e.now);
  }

  lemma SettleKeeps(s: State, r: Result<State>, now: nat)
    requires Ledgers(s, now / NANOS) && TokensConserved(s)
    requires r.Ok? ==> Ledgers(r.value, now / NANOS) && TokensConserved(r.value)
    ensures Books(Settle(s, r, now))
    ensures Backed(s) && (r.Ok? ==> Backed(r.value)) ==> Backed(Settle(s, r, now))
    ensures Exact(s) && (r.Ok? ==> Exact(r.value)) ==> Exact(Settle(s, r, now))
  {
  }

  // ---- runs ----

  /** Every quick-unbond of the run is clean at the moment it happens. */
  ghost predicate CleanRun(s: State, events: seq<Event>) {
    events == [] || (
      var n := |events| - 1;
      CleanRun(s, events[..n]) && CleanStep(Run(s, events[..n]), events[n].env, events[n].msg))
  }

  /** Every distribution of the run divides by totals that outweigh the powers at that moment. */
  ghost predicate WeighedRun(s: State, events: seq<Event>) {
    events == [] || (
      var n := |events| - 1;
      WeighedRun(s, events[..n]) && WeighedStep(Run(s, events[..n]), events[n].msg))
  }

  lemma {:induction false} RunClock(s: State, events: seq<Event>)
    ensures Run(s, events).clock == if events == [] then s.clock else events[|events| - 1].env.now
  {
  }

  /** After any run in time order tokens are conserved and every flow's books are in order; every flow
      is solvent if every distribution was weighed, and the powered totals are exact if every
      quick-unbond was clean. */
  lemma {:induction false} RunKeeps(s: State, events: seq<Event>)
    requires Books(s) && InOrder(s.clock, events)
    ensures Books(Run(s, events))
    ensures Backed(s) && WeighedRun(s, events) ==> Backed(Run(s, events))
    ensures Exact(s) && CleanRun(s, events) ==> Exact(Run(s, events))
  {
    if events != [] {
      var n := |events| - 1;
      RunKeeps(s, events[..n]);
      RunClock(s, events[..n]);
      StepKeeps(Run(s, events[..n]), events[n].env, events[n].msg);
    }
  }

  /** As long as quick-unbonds are clean, every distribution is weighed. */
  lemma {:induction false} CleanRunIsWeighed(s: State, events: seq<Event>)
    requires Books(s) && Exact(s) && InOrder(s.clock, events) && CleanRun(s, events)
    ensures WeighedRun(s, events)
  {
    if events != [] {
      var n := |events| - 1;
      CleanRunIsWeighed(s, events[..n]);
      RunKeeps(s, events[..n]);
      ExactIsWeighed(Run(s, events[..n]));
    }
  }

  lemma InitIsGood(cfg: Config, now: nat)
    ensures Good(Init(cfg, now))
  {
    var s := Init(cfg, now);
    assert Holders(s.stakes) == {};
    ZeroTotals(s.totals);
  }

  lemma {:induction false} ZeroTotals(totals: seq<TotalStake>)
    requires forall i | 0 <= i < |totals| :: totals[i] == TotalStake(0, 0)
    ensures StakedSum(totals) == 0
  {
    if totals != [] {
      ZeroTotals(totals[..|totals| - 1]);
    }
  }

  /** With books in order and every flow solvent, all rewards that everybody could withdraw are covered
      by `withdrawable_total`, and that by the balance, together with the still-locked part of the
      reward curve; and no withdrawal fails. */
  lemma BackedIsPayable(s: State, x: Asset)
    requires Books(s) && Backed(s) && x in s.flows
    ensures var f := s.flows[x];
            && Sum(Holders(s.stakes), WithdrawableAt(s.cfg, s.stakes, f)) <= f.withdrawable
            && f.withdrawable + CurveValue(f.curve, s.clock / NANOS) <= f.balance
    ensures forall a :: Withdraw(s, a, a).Ok?
  {
    assert FlowBooks(s.cfg, s.stakes, s.flows[x], s.clock / NANOS) && Solvent(s.cfg, s.stakes, s.flows[x]);
    RewardsAreBacked(s.cfg, s.stakes, s.flows[x], s.clock / NANOS);
    forall a ensures Withdraw(s, a, a).Ok? {
      WithdrawAllKeeps(s.cfg, s.stakes, s.flows, a, s.clock / NANOS);
    }
  }

  /** Solvency over every run of the contract, from its instantiation, in which every distribution is
      weighed: whatever order the stakers withdraw in, everyone is paid. */
  lemma EveryRunIsSolvent(cfg: Config, now: nat, events: seq<Event>, x: Asset)
    requires InOrder(now, events) && WeighedRun(Init(cfg, now), events)
    requires x in Run(Init(cfg, now), events).flows
    ensures var s := Run(Init(cfg, now), events); var f := s.flows[x];
            && Sum(Holders(s.stakes), WithdrawableAt(s.cfg, s.stakes, f)) <= f.withdrawable
            && f.withdrawable + CurveValue(f.curve, s.clock / NANOS) <= f.balance
            && forall a :: Withdraw(s, a, a).Ok?
  {
    InitIsGood(cfg, now);
    RunKeeps(Init(cfg, now), events);
    BackedIsPayable(Run(Init(cfg, now), events), x);
  }

  /** In particular over every run of clean quick-unbonds. */
  lemma CleanRunsAreWeighed(cfg: Config, now: nat, events: seq<Event>)
    requires InOrder(now, events) && CleanRun(Init(cfg, now), events)
    ensures WeighedRun(Init(cfg, now), events)
  {
    InitIsGood(cfg, now);
    CleanRunIsWeighed(Init(cfg, now), events);
  }

  /** Over every run of clean quick-unbonds no unlocked stake is ever stuck: it can be unbonded at any
      later time. */
  lemma CleanRunsRelease(cfg: Config, now: nat, events: seq<Event>, later: nat, a: Addr, amount: nat, period: nat)
    requires InOrder(now, events) && CleanRun(Init(cfg, now), events)
    ensures var s := Run(Init(cfg, now), events);
            Unbond(s, later, a, amount, period).Ok? <==> MayRelease(s, later, a, period, amount)
  {
    InitIsGood(cfg, now);
    RunKeeps(Init(cfg, now), events);
    var s := Run(Init(cfg, now), events);
    UnbondKeeps(s, s.clock / NANOS, later, a, amount, period);
  }

  /** Conservation of staked tokens over every run, clean or not. */
  lemma EveryRunConservesTokens(cfg: Config, now: nat, events: seq<Event>)
    requires InOrder(now, events)
    ensures TokensConserved(Run(Init(cfg, now), events))
  {
    InitIsGood(cfg, now);
    RunKeeps(Init(cfg, now), events);
  }

  /** In every state reached by a run a distribution succeeds whenever it is not switched off and
      its coins are supported: the amount it computes never underflows. */
  lemma DistributeNeverUnderflows(s: State, now: nat, coins: seq<Coin>)
    requires Books(s) && s.clock <= now
    ensures Distribute(s, now, coins).Ok?
            <==> !s.unbondAll && forall i | 0 <= i < |coins| :: Native(coins[i].denom) in s.flows
  {
    assert s.clock / NANOS <= now / NANOS;
    LedgersLater(s, s.clock / NANOS, now / NANOS);
    ReceivedKeeps(s, coins, now / NANOS);
    var flows := ReceiveEach(s.flows, coins);
    DistributeAllKeeps(s.cfg, s.stakes, s.totals, flows, now / NANOS);
    DistributeNeeds(s, now, coins);
    if MayDistribute(s, coins) {
      DistributeIs(s, now, coins, flows, Collect(DistributeAll(s.cfg, s.totals, flows, now / NANOS)));
    }
  }
}
