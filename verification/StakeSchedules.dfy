/** When rewards are withdrawn does not matter: two runs that differ only in their withdrawals give
    every staker the same rewards, and leave everything else the same. */
module StakeSchedules {
  import opened Results
  import opened FixedPoint
  import opened Bonding
  import opened StakeState
  import opened StakeRewards
  import opened StakeBooks
  import opened StakeRuns
  import opened StakeLazy

  function CorrectionIn(adjustments: map<Addr, Adjustment>, a: Addr): int {
    if a in adjustments then adjustments[a].correction else 0
  }

  ghost predicate SameCorrections(f: map<Addr, Adjustment>, g: map<Addr, Adjustment>) {
    forall a :: CorrectionIn(f, a) == CorrectionIn(g, a)
  }

  /** Two states of a flow that differ only in how much has been withdrawn from it. */
  ghost predicate AlikeFlow(f: Flow, g: Flow) {
    && g == f.(withdrawable := g.withdrawable, balance := g.balance, adjustments := g.adjustments)
    && f.balance - f.withdrawable == g.balance - g.withdrawable
    && SameCorrections(f.adjustments, g.adjustments)
  }

  ghost predicate AlikeFlows(f: map<Asset, Flow>, g: map<Asset, Flow>) {
    f.Keys == g.Keys && forall x | x in f :: AlikeFlow(f[x], g[x])
  }

  /** Two states of the contract that differ only in withdrawals, and in the time last seen. */
  ghost predicate Alike(s: State, t: State) {
    t == s.(flows := t.flows, clock := t.clock) && AlikeFlows(s.flows, t.flows)
  }

  ghost predicate AlikeResults(r: Result<State>, q: Result<State>) {
    (r.Ok? <==> q.Ok?) && (r.Ok? ==> Alike(r.value, q.value))
  }

  // ---- flows ----

  lemma AlikeCorrect(f: Flow, g: Flow, a: Addr, p: nat, q: nat)
    requires AlikeFlow(f, g)
    ensures AlikeFlow(Correct(f, a, p, q), Correct(g, a, p, q))
  {
    if p != q {
      var c := f.sharesPerPoint * (q - p);
      forall y
        ensures CorrectionIn(Correct(f, a, p, q).adjustments, y)
                == CorrectionIn(f.adjustments, y) - (if y == a then c else 0)
        ensures CorrectionIn(Correct(g, a, p, q).adjustments, y)
                == CorrectionIn(g.adjustments, y) - (if y == a then c else 0)
        ensures CorrectionIn(f.adjustments, y) == CorrectionIn(g.adjustments, y)
      {
      }
    }
  }

  lemma AlikeCorrectFlows(cfg: Config, before: Stakes, after: Stakes, f: map<Asset, Flow>, g: map<Asset, Flow>, a: Addr)
    requires AlikeFlows(f, g)
    ensures AlikeFlows(CorrectFlows(cfg, before, after, f, a), CorrectFlows(cfg, before, after, g, a))
  {
    forall x | x in f
      ensures AlikeFlow(CorrectFlows(cfg, before, after, f, a)[x], CorrectFlows(cfg, before, after, g, a)[x])
    {
      AlikeCorrect(f[x], g[x], a, RewardsPower(cfg, before, f[x].multipliers, a),
          RewardsPower(cfg, after, f[x].multipliers, a));
    }
  }

  lemma AlikeDistribute(f: Flow, g: Flow, total: nat, seconds: nat)
    requires AlikeFlow(f, g)
    ensures var r, q := DistributeFlow(f, total, seconds), DistributeFlow(g, total, seconds);
            (r.Ok? <==> q.Ok?) && (r.Ok? ==> AlikeFlow(r.value, q.value))
  {
    DistributeAdjusts(f, total, seconds);
    DistributeAdjusts(g, total, seconds);
  }

  /** A distribution as a function of the amount it hands out. */
  lemma DistributeAdjusts(f: Flow, total: nat, seconds: nat)
    ensures var r := DistributeFlow(f, total, seconds); var d := Distributable(f, seconds);
            && (r.Ok? <==> total == 0 || d >= 0)
            && (r.Ok? ==> r.value.adjustments == f.adjustments && r.value.balance == f.balance)
            && (r.Ok? && (total == 0 || d == 0) ==> r.value == f)
            && (r.Ok? && total > 0 && d > 0 ==>
                  r.value == f.(leftover := (d * SHARES + f.leftover) % total % TWO_64,
                                sharesPerPoint := f.sharesPerPoint + PointsPerShare(f, total, d),
                                distributed := f.distributed + d, withdrawable := f.withdrawable + d))
  {
  }

  lemma AlikePut(f: map<Asset, Flow>, g: map<Asset, Flow>, x: Asset, a: Flow, b: Flow)
    requires AlikeFlows(f, g) && AlikeFlow(a, b)
    ensures AlikeFlows(f[x := a], g[x := b])
  {
  }

  lemma {:induction false} AlikeReceive(f: map<Asset, Flow>, g: map<Asset, Flow>, coins: seq<Coin>)
    requires AlikeFlows(f, g)
    ensures AlikeFlows(ReceiveEach(f, coins), ReceiveEach(g, coins))
  {
    if coins != [] {
      var n := |coins| - 1;
      AlikeReceive(f, g, coins[..n]);
      var p, q, asset := ReceiveEach(f, coins[..n]), ReceiveEach(g, coins[..n]), Native(coins[n].denom);
      if asset in p {
        AlikePut(p, q, asset, Receive(p[asset], coins[n].amount), Receive(q[asset], coins[n].amount));
      }
    }
  }

  lemma AlikeFundAsset(f: map<Asset, Flow>, g: map<Asset, Flow>, asset: Asset, sent: nat, info: Funding)
    requires AlikeFlows(f, g)
    ensures var r, q := FundAsset(f, asset, sent, info), FundAsset(g, asset, sent, info);
            (r.Ok? <==> q.Ok?) && (r.Ok? ==> AlikeFlows(r.value, q.value))
  {
    var r, q := FundAsset(f, asset, sent, info), FundAsset(g, asset, sent, info);
    if r.Ok? {
      AlikePut(f, g, asset, r.value[asset], q.value[asset]);
    }
  }

  lemma {:induction false} AlikeFund(f: map<Asset, Flow>, g: map<Asset, Flow>, coins: seq<Coin>, info: Funding)
    requires AlikeFlows(f, g)
    ensures var r, q := FundEach(f, coins, info), FundEach(g, coins, info);
            (r.Ok? <==> q.Ok?) && (r.Ok? ==> AlikeFlows(r.value, q.value))
  {
    if coins != [] {
      var n := |coins| - 1;
      AlikeFund(f, g, coins[..n], info);
      var r, q := FundEach(f, coins[..n], info), FundEach(g, coins[..n], info);
      if r.Ok? {
        AlikeFundAsset(r.value, q.value, Native(coins[n].denom), coins[n].amount, info);
      }
    }
  }

  // ---- changes of stake ----

  lemma AlikeRestake(s: State, t: State, stakes: Stakes, totals: seq<TotalStake>, a: Addr)
    requires Alike(s, t) && StakesMatch(s.cfg, stakes) && |totals| == |s.totals|
    ensures Alike(Restake(s, stakes, totals, a), Restake(t, stakes, totals, a))
  {
    AlikeCorrectFlows(s.cfg, s.stakes, stakes, s.flows, t.flows, a);
  }

  lemma AlikeMoveBond(s: State, t: State, i: nat, a: Addr, b: Bond)
    requires Alike(s, t) && i < |s.cfg.periods|
    ensures AlikeResults(MoveBond(s, i, a, b), MoveBond(t, i, a, b))
  {
    var r := UpdateTotals(s.cfg, s.totals, i, StakeIn(s.stakes, a, s.cfg.periods[i]), Total(b));
    if r.Ok? {
      AlikeRestake(s, t, PutBond(s.cfg, s.stakes, a, s.cfg.periods[i], b), r.value, a);
    }
  }

  lemma AlikeMoveBonds(s: State, t: State, a: Addr, i: nat, b: Bond, j: nat, c: Bond)
    requires Alike(s, t) && i < |s.cfg.periods| && j < |s.cfg.periods|
    ensures AlikeResults(MoveBonds(s, a, i, b, j, c), MoveBonds(t, a, i, b, j, c))
  {
    var r := MoveBonds(s, a, i, b, j, c);
    if r.Ok? {
      AlikeRestake(s, t, r.value.stakes, r.value.totals, a);
    }
  }

  lemma {:induction false} AlikeBondEach(s: State, t: State, i: nat, ds: seq<Delegation>)
    requires Alike(s, t) && i < |s.cfg.periods|
    ensures AlikeResults(BondEach(s, i, ds), BondEach(t, i, ds))
  {
    if ds != [] {
      var n := |ds| - 1;
      AlikeBondEach(s, t, i, ds[..n]);
      var m, k := BondEach(s, i, ds[..n]), BondEach(t, i, ds[..n]);
      if m.Ok? {
        AlikeMoveBond(m.value, k.value, i, ds[n].to,
            AddUnlocked(BondOf(m.value.stakes, ds[n].to, s.cfg.periods[i]), ds[n].amount));
      }
    }
  }

  lemma AlikeMassBond(s: State, t: State, cw20: Addr, sent: nat, period: nat, ds: seq<Delegation>)
    requires Alike(s, t)
    ensures AlikeResults(MassBond(s, cw20, sent, period, ds), MassBond(t, cw20, sent, period, ds))
  {
    match FindPeriod(s.cfg.periods, period)
    case None =>
    case Some(i) => AlikeBondEach(s, t, i, ds);
  }

  lemma AlikeRebond(s: State, t: State, now: nat, a: Addr, amount: nat, bondFrom: nat, bondTo: nat)
    requires Alike(s, t)
    ensures AlikeResults(Rebond(s, now, a, amount, bondFrom, bondTo), Rebond(t, now, a, amount, bondFrom, bondTo))
  {
    match (FindPeriod(s.cfg.periods, bondFrom), FindPeriod(s.cfg.periods, bondTo)) {
      case (Some(i), Some(j)) =>
        var rel := Release(BondOf(s.stakes, a, bondFrom), now, amount);
        if rel.Ok? {
          AlikeMoveBonds(s, t, a, i, rel.value, j, Raised(BondOf(s.stakes, a, bondTo), now, amount, bondFrom, bondTo));
        }
      case _ =>
    }
  }

  lemma AlikeRemoveStake(s: State, t: State, now: nat, a: Addr, period: nat, amount: nat)
    requires Alike(s, t)
    ensures AlikeResults(RemoveStake(s, now, a, period, amount), RemoveStake(t, now, a, period, amount))
  {
    match FindPeriod(s.cfg.periods, period) {
      case None =>
      case Some(i) =>
        var rel := Release(BondOf(s.stakes, a, period), now, amount);
        if rel.Ok? {
          AlikeMoveBond(s, t, i, a, rel.value);
        }
    }
  }

  lemma AlikeUnbond(s: State, t: State, now: nat, a: Addr, amount: nat, period: nat)
    requires Alike(s, t)
    ensures AlikeResults(Unbond(s, now, a, amount, period), Unbond(t, now, a, amount, period))
  {
    AlikeRemoveStake(s, t, now, a, period, amount);
    var r, q := RemoveStake(s, now, a, period, amount), RemoveStake(t, now, a, period, amount);
    if r.Ok? {
      AlikeUnbonded(r.value, q.value, now, a, amount, period);
    }
  }

  lemma AlikeUnbonded(s: State, t: State, now: nat, a: Addr, amount: nat, period: nat)
    requires Alike(s, t)
    ensures AlikeResults(Unbonded(s, now, a, amount, period), Unbonded(t, now, a, amount, period))
  {
  }

  lemma AlikeMigrate(s: State, t: State, now: nat, a: Addr, amount: nat, period: nat)
    requires Alike(s, t)
    ensures AlikeResults(MigrateStake(s, now, a, amount, period), MigrateStake(t, now, a, amount, period))
  {
    AlikeRemoveStake(s, t, now, a, period, amount);
  }

  ghost predicate AlikeSweeps(w: Sweep, v: Sweep) {
    v == w.(flows := v.flows) && AlikeFlows(w.flows, v.flows)
  }

  lemma AlikeSweepOne(cfg: Config, w: Sweep, v: Sweep, a: Addr)
    requires |w.unbonded| == |cfg.periods| && AlikeSweeps(w, v)
    ensures AlikeSweeps(SweepOne(cfg, w, a), SweepOne(cfg, v, a))
  {
    AlikeClear(cfg, w.stakes, w.flows, v.flows, a);
  }

  lemma AlikeClear(cfg: Config, stakes: Stakes, f: map<Asset, Flow>, g: map<Asset, Flow>, a: Addr)
    requires AlikeFlows(f, g)
    ensures AlikeFlows(ClearFlows(cfg, stakes, f, a), ClearFlows(cfg, stakes, g, a))
  {
    forall x | x in f
      ensures AlikeFlow(ClearFlows(cfg, stakes, f, a)[x], ClearFlows(cfg, stakes, g, a)[x])
    {
      AlikeCorrect(f[x], g[x], a, RewardsPower(cfg, stakes, f[x].multipliers, a), 0);
    }
  }

  lemma {:induction false} AlikeSweepAll(cfg: Config, w: Sweep, v: Sweep, stakers: seq<Addr>)
    requires |w.unbonded| == |cfg.periods| && AlikeSweeps(w, v)
    ensures AlikeSweeps(SweepAll(cfg, w, stakers), SweepAll(cfg, v, stakers))
  {
    if stakers != [] {
      var n := |stakers| - 1;
      AlikeSweepAll(cfg, w, v, stakers[..n]);
      AlikeSweepOne(cfg, SweepAll(cfg, w, stakers[..n]), SweepAll(cfg, v, stakers[..n]), stakers[n]);
    }
  }

  lemma AlikeFinish(s: State, t: State, w: Sweep, v: Sweep)
    requires Alike(s, t) && AlikeSweeps(w, v)
    requires |w.unbonded| == |s.cfg.periods| && StakesMatch(s.cfg, w.stakes) && FlowsMatch(s.cfg, w.flows)
             && FlowsMatch(s.cfg, v.flows)
    ensures AlikeResults(FinishSweep(s, w), FinishSweep(t, v))
  {
    var r := ReduceTotals(s.cfg, s.totals, w.unbonded);
    if r.Err? || SeqSum(w.unbonded) > s.token.staked {
      AlikeFinishFails(s, w);
      AlikeFinishFails(t, v);
    } else if w.claimed > s.token.unbonding || w.paid > s.lpHeld {
      AlikeFinishFails(s, w);
      AlikeFinishFails(t, v);
    } else {
      FinishIs(s, w, r.value);
      FinishIs(t, v, r.value);
    }
  }

  lemma AlikeFinishFails(s: State, w: Sweep)
    requires |w.unbonded| == |s.cfg.periods| && StakesMatch(s.cfg, w.stakes) && FlowsMatch(s.cfg, w.flows)
    requires || ReduceTotals(s.cfg, s.totals, w.unbonded).Err? || SeqSum(w.unbonded) > s.token.staked
             || w.claimed > s.token.unbonding || w.paid > s.lpHeld
    ensures FinishSweep(s, w).Err?
  {
  }

  lemma FinishIs(s: State, w: Sweep, totals: seq<TotalStake>)
    requires |w.unbonded| == |s.cfg.periods| && StakesMatch(s.cfg, w.stakes) && FlowsMatch(s.cfg, w.flows)
    requires ReduceTotals(s.cfg, s.totals, w.unbonded) == Ok(totals) && SeqSum(w.unbonded) <= s.token.staked
    requires w.claimed <= s.token.unbonding && w.paid <= s.lpHeld
    ensures FinishSweep(s, w)
            == Ok(s.(stakes := w.stakes, totals := totals,
                     token := TokenInfo(s.token.staked - SeqSum(w.unbonded), s.token.unbonding - w.claimed),
                     claims := w.claims, flows := w.flows, sent := w.sent, lpHeld := s.lpHeld - w.paid))
  {
  }

  lemma AlikeQuickUnbond(s: State, t: State, a: Addr, stakers: seq<Addr>)
    requires Alike(s, t)
    ensures AlikeResults(QuickUnbond(s, a, stakers), QuickUnbond(t, a, stakers))
  {
    AlikeSweepAll(s.cfg, StartSweep(s), StartSweep(t), stakers);
    AlikeFinish(s, t, Swept(s, stakers), Swept(t, stakers));
  }

  // ---- reward messages ----

  lemma AlikeDistributeMsg(s: State, t: State, now: nat, coins: seq<Coin>)
    requires Alike(s, t)
    ensures AlikeResults(Distribute(s, now, coins), Distribute(t, now, coins))
  {
    DistributeNeeds(s, now, coins);
    DistributeNeeds(t, now, coins);
    assert MayDistribute(s, coins) <==> MayDistribute(t, coins);
    if MayDistribute(s, coins) {
      AlikeDistributed(s, t, now, coins);
    }
  }

  lemma AlikeDistributed(s: State, t: State, now: nat, coins: seq<Coin>)
    requires Alike(s, t) && MayDistribute(s, coins) && MayDistribute(t, coins)
    ensures AlikeResults(Distribute(s, now, coins), Distribute(t, now, coins))
  {
    var f, g := ReceiveEach(s.flows, coins), ReceiveEach(t.flows, coins);
    AlikeReceive(s.flows, t.flows, coins);
    ReceivedMatches(s, coins);
    ReceivedMatches(t, coins);
    assert t.cfg == s.cfg && t.totals == s.totals;
    var p, q := AlikeCollected(s.cfg, s.totals, f, g, now / NANOS);
    AlikeAfter(s, t, Distributes(s, now, coins, f, p), Distributes(t, now, coins, g, q), p, q);
  }

  /** The outcome of a distribute message, given what becomes of the flows. */
  function Distributes(s: State, now: nat, coins: seq<Coin>, received: map<Asset, Flow>,
                       all: Result<map<Asset, Flow>>): (r: Result<State>)
    requires MayDistribute(s, coins) && received == ReceiveEach(s.flows, coins) && FlowsMatch(s.cfg, received)
    requires all == Collect(DistributeAll(s.cfg, s.totals, received, now / NANOS))
    ensures r == Distribute(s, now, coins) && (r.Ok? <==> all.Ok?) && (r.Ok? ==> r.value == s.(flows := all.value))
  {
    DistributeIs(s, now, coins, received, all);
    Distribute(s, now, coins)
  }

  lemma AlikeAfter(s: State, t: State, r: Result<State>, q: Result<State>, f: Result<map<Asset, Flow>>,
                   g: Result<map<Asset, Flow>>)
    requires Alike(s, t) && (f.Ok? <==> g.Ok?) && (f.Ok? ==> AlikeFlows(f.value, g.value))
    requires (r.Ok? <==> f.Ok?) && (r.Ok? ==> r.value == s.(flows := f.value))
    requires (q.Ok? <==> g.Ok?) && (q.Ok? ==> q.value == t.(flows := g.value))
    ensures AlikeResults(r, q)
  {
  }

  lemma AlikeCollected(cfg: Config, totals: seq<TotalStake>, f: map<Asset, Flow>, g: map<Asset, Flow>, seconds: nat)
    returns (p: Result<map<Asset, Flow>>, q: Result<map<Asset, Flow>>)
    requires |totals| == |cfg.periods| && FlowsMatch(cfg, f) && FlowsMatch(cfg, g) && AlikeFlows(f, g)
    ensures p == Collect(DistributeAll(cfg, totals, f, seconds)) && q == Collect(DistributeAll(cfg, totals, g, seconds))
    ensures (p.Ok? <==> q.Ok?) && (p.Ok? ==> AlikeFlows(p.value, q.value))
  {
    AlikeDistributeAll(cfg, totals, f, g, seconds);
    AlikeCollect(DistributeAll(cfg, totals, f, seconds), DistributeAll(cfg, totals, g, seconds));
    p, q := Collect(DistributeAll(cfg, totals, f, seconds)), Collect(DistributeAll(cfg, totals, g, seconds));
  }

  lemma ReceivedMatches(s: State, coins: seq<Coin>)
    ensures FlowsMatch(s.cfg, ReceiveEach(s.flows, coins))
  {
    forall x | x in s.flows ensures PeriodsMatch(s.cfg, ReceiveEach(s.flows, coins)[x].multipliers) {
      assert PeriodsMatch(s.cfg, s.flows[x].multipliers);
    }
  }

  lemma AlikeCollect(p: map<Asset, Result<Flow>>, q: map<Asset, Result<Flow>>)
    requires p.Keys == q.Keys
    requires forall x | x in p :: (p[x].Ok? <==> q[x].Ok?) && (p[x].Ok? ==> AlikeFlow(p[x].value, q[x].value))
    ensures Collect(p).Ok? <==> Collect(q).Ok?
    ensures Collect(p).Ok? ==> AlikeFlows(Collect(p).value, Collect(q).value)
  {
    assert forall x | x in p :: p[x].Ok? <==> q[x].Ok?;
  }

  lemma AlikeDistributeAll(cfg: Config, totals: seq<TotalStake>, f: map<Asset, Flow>, g: map<Asset, Flow>, seconds: nat)
    requires |totals| == |cfg.periods| && FlowsMatch(cfg, f) && FlowsMatch(cfg, g) && AlikeFlows(f, g)
    ensures var p, q := DistributeAll(cfg, totals, f, seconds), DistributeAll(cfg, totals, g, seconds);
            p.Keys == q.Keys
            && forall x | x in p :: (p[x].Ok? <==> q[x].Ok?) && (p[x].Ok? ==> AlikeFlow(p[x].value, q[x].value))
  {
    forall x | x in f
      ensures var r, q := DistributeOne(cfg, totals, f[x], seconds), DistributeOne(cfg, totals, g[x], seconds);
              (r.Ok? <==> q.Ok?) && (r.Ok? ==> AlikeFlow(r.value, q.value))
    {
      assert PeriodsMatch(cfg, f[x].multipliers);
      AlikeDistribute(f[x], g[x], TotalPower(cfg, totals, f[x].multipliers), seconds);
    }
  }

  lemma AlikeCreateFlow(s: State, t: State, a: Addr, asset: Asset, rewards: seq<Multiplier>, held: nat)
    requires Alike(s, t)
    ensures AlikeResults(CreateFlow(s, a, asset, rewards, held), CreateFlow(t, a, asset, rewards, held))
  {
    assert |s.flows| == |s.flows.Keys| == |t.flows.Keys| == |t.flows|;
  }

  lemma AlikeFundMsg(s: State, t: State, now: nat, coins: seq<Coin>, info: Funding)
    requires Alike(s, t)
    ensures AlikeResults(Fund(s, now, coins, info), Fund(t, now, coins, info))
  {
    AlikeFund(s.flows, t.flows, coins, info);
  }

  lemma AlikeFundToken(s: State, t: State, now: nat, token: Addr, sent: nat, info: Funding)
    requires Alike(s, t)
    ensures AlikeResults(FundToken(s, now, token, sent, info), FundToken(t, now, token, sent, info))
  {
    AlikeFundAsset(s.flows, t.flows, Token(token), sent, info);
  }

  lemma AlikeTransfer(s: State, t: State, e: Env, asset: Asset, amount: nat)
    requires Alike(s, t)
    ensures AlikeResults(Execute(s, e, TransferIn(asset, amount)), Execute(t, e, TransferIn(asset, amount)))
  {
    if asset in s.flows {
      AlikePut(s.flows, t.flows, asset, Receive(s.flows[asset], amount), Receive(t.flows[asset], amount));
    }
  }

  lemma AlikeFunding(s: State, t: State, e: Env, m: Msg)
    requires Alike(s, t) && (m.CreateFlowMsg? || m.FundMsg? || m.FundTokenMsg?)
    ensures AlikeResults(Execute(s, e, m), Execute(t, e, m))
  {
    match m {
      case CreateFlowMsg(asset, rewards, held) => AlikeCreateFlow(s, t, e.sender, asset, rewards, held);
      case FundMsg(coins, info) => AlikeFundMsg(s, t, e.now, coins, info);
      case FundTokenMsg(token, sent, info) => AlikeFundToken(s, t, e.now, token, sent, info);
    }
  }

  lemma AlikeFlagMsg(s: State, t: State, e: Env, m: Msg)
    requires Alike(s, t) && (m.UnbondAllMsg? || m.StopUnbondAllMsg? || m.DelegateMsg? || m.UpdateAdminMsg?)
    ensures AlikeResults(Execute(s, e, m), Execute(t, e, m))
  {
    match m {
      case UnbondAllMsg => AlikeSetFlag(s, t, e.sender);
      case StopUnbondAllMsg => AlikeClearFlag(s, t, e.sender);
      case UpdateAdminMsg(admin) => AlikeUpdateAdmin(s, t, e.sender, admin);
      case DelegateMsg(delegate) =>
    }
  }

  lemma AlikeSetFlag(s: State, t: State, a: Addr)
    requires Alike(s, t)
    ensures AlikeResults(SetUnbondAll(s, a), SetUnbondAll(t, a))
  {
  }

  lemma AlikeClearFlag(s: State, t: State, a: Addr)
    requires Alike(s, t)
    ensures AlikeResults(StopUnbondAll(s, a), StopUnbondAll(t, a))
  {
  }

  lemma AlikeUpdateAdmin(s: State, t: State, a: Addr, admin: Option<Addr>)
    requires Alike(s, t)
    ensures AlikeResults(UpdateAdmin(s, a, admin), UpdateAdmin(t, a, admin))
  {
  }

  lemma AlikeRewardMsg(s: State, t: State, e: Env, m: Msg)
    requires Alike(s, t) && IsRewardMsg(m) && !m.WithdrawMsg?
    ensures AlikeResults(Execute(s, e, m), Execute(t, e, m))
  {
    if m.DistributeMsg? {
      AlikeDistributeMsg(s, t, e.now, m.coins);
    } else if m.TransferIn? {
      AlikeTransfer(s, t, e, m.asset, m.amount);
    } else if m.CreateFlowMsg? || m.FundMsg? || m.FundTokenMsg? {
      AlikeFunding(s, t, e, m);
    } else {
      AlikeFlagMsg(s, t, e, m);
    }
  }

  lemma AlikeClaim(s: State, t: State, now: nat, a: Addr)
    requires Alike(s, t)
    ensures AlikeResults(ClaimMatured(s, now, a), ClaimMatured(t, now, a))
  {
  }

  lemma AlikeStakeMsg(s: State, t: State, e: Env, m: Msg)
    requires Alike(s, t) && !IsRewardMsg(m)
    ensures AlikeResults(Execute(s, e, m), Execute(t, e, m))
  {
    match m {
      case BondMsg(cw20, amount, period, staker) =>
        AlikeMassBond(s, t, cw20, amount, period, [Delegation(staker, amount)]);
      case MassBondMsg(cw20, sent, period, ds) => AlikeMassBond(s, t, cw20, sent, period, ds);
      case RebondMsg(amount, bondFrom, bondTo) => AlikeRebond(s, t, e.now, e.sender, amount, bondFrom, bondTo);
      case UnbondMsg(amount, period) => AlikeUnbond(s, t, e.now, e.sender, amount, period);
      case MigrateMsg(amount, period) => AlikeMigrate(s, t, e.now, e.sender, amount, period);
      case QuickUnbondMsg(stakers) => AlikeQuickUnbond(s, t, e.sender, stakers);
      case ClaimMsg => AlikeClaim(s, t, e.now, e.sender);
    }
  }

  /** Any message but a withdrawal has the same outcome in both. */
  lemma AlikeExecute(s: State, t: State, e: Env, m: Msg)
    requires Alike(s, t) && !m.WithdrawMsg?
    ensures AlikeResults(Execute(s, e, m), Execute(t, e, m))
  {
    if IsRewardMsg(m) {
      AlikeRewardMsg(s, t, e, m);
    } else {
      AlikeStakeMsg(s, t, e, m);
    }
  }

  lemma WithdrawAlike(s: State, a: Addr, owner: Addr)
    ensures var r := Withdraw(s, a, owner); r.Ok? ==> Alike(r.value, s)
  {
    var r := Withdraw(s, a, owner);
    if r.Ok? {
      forall x | x in s.flows ensures AlikeFlow(r.value.flows[x], s.flows[x]) {
        assert WithdrawAll(s.cfg, s.stakes, s.flows, owner)[x] == WithdrawFlow(s.cfg, s.stakes, s.flows[x], owner);
        PaidIsAlike(s.cfg, s.stakes, s.flows[x], owner);
      }
    }
  }

  lemma PaidIsAlike(cfg: Config, stakes: Stakes, f: Flow, owner: Addr)
    requires WithdrawFlow(cfg, stakes, f, owner).Ok?
    ensures AlikeFlow(WithdrawFlow(cfg, stakes, f, owner).value, f)
  {
  }

  /** A withdrawal, successful or not, changes nothing else. */
  lemma WithdrawIsAlike(s: State, e: Env, owner: Addr)
    ensures Alike(Step(s, e, WithdrawMsg(owner)), s)
  {
    WithdrawAlike(s, e.sender, owner);
  }

  // ---- runs ----

  /** The run without its withdrawals. */
  function Strip(events: seq<Event>): seq<Event> {
    if events == [] then []
    else
      var n := |events| - 1;
      if events[n].msg.WithdrawMsg? then Strip(events[..n]) else Strip(events[..n]) + [events[n]]
  }

  lemma AlikeChain(s: State, t: State, u: State)
    requires Alike(s, t) && Alike(t, u)
    ensures Alike(s, u)
  {
  }

  lemma StepAlike(s: State, t: State, e: Env, m: Msg)
    requires Alike(s, t) && !m.WithdrawMsg?
    ensures Alike(Step(s, e, m), Step(t, e, m))
  {
    AlikeExecute(s, t, e, m);
    AlikeSettle(s, t, Execute(s, e, m), Execute(t, e, m), e.now);
  }

  lemma AlikeSettle(s: State, t: State, r: Result<State>, q: Result<State>, now: nat)
    requires Alike(s, t) && AlikeResults(r, q)
    ensures Alike(Settle(s, r, now), Settle(t, q, now))
  {
  }

  lemma RunSnoc(s: State, events: seq<Event>, last: Event)
    ensures Run(s, events + [last]) == Step(Run(s, events), last.env, last.msg)
  {
    assert (events + [last])[..|events + [last]| - 1] == events;
  }

  /** Withdrawals can be removed from a run: what is left ends in a state that differs only in what
      has been withdrawn. */
  lemma {:induction false} WithdrawalsDoNotMatter(s: State, events: seq<Event>)
    ensures Alike(Run(s, events), Run(s, Strip(events)))
  {
    if events != [] {
      var n := |events| - 1;
      var before, bare := Run(s, events[..n]), Run(s, Strip(events[..n]));
      WithdrawalsDoNotMatter(s, events[..n]);
      if events[n].msg.WithdrawMsg? {
        WithdrawIsAlike(before, events[n].env, events[n].msg.owner);
        AlikeChain(Run(s, events), before, bare);
      } else {
        StepAlike(before, bare, events[n].env, events[n].msg);
        RunSnoc(s, Strip(events[..n]), events[n]);
      }
    }
  }

  lemma AlikeEntitlement(s: State, t: State, x: Asset, a: Addr)
    requires Alike(s, t)
    ensures x in s.flows <==> x in t.flows
    ensures EntitlementIn(s, x, a) == EntitlementIn(t, x, a)
  {
    if x in s.flows {
      assert AlikeFlow(s.flows[x], t.flows[x]);
      assert CorrectionIn(s.flows[x].adjustments, a) == CorrectionIn(t.flows[x].adjustments, a);
    }
  }

  /** What a staker has been paid and could still withdraw. */
  function Earned(s: State, x: Asset, a: Addr): int
    requires x in s.flows
  {
    Withdrawable(s.cfg, s.stakes, s.flows[x], a) + AdjustmentOf(s.flows[x], a).withdrawn
  }

  lemma EarnedIs(s: State, x: Asset, a: Addr)
    requires Books(s) && x in s.flows
    ensures Earned(s, x, a) == EntitlementIn(s, x, a) / SHARES
  {
    assert FlowBooks(s.cfg, s.stakes, s.flows[x], s.clock / NANOS);
    WithdrawableIs(s.cfg, s.stakes, s.flows[x], a);
  }

  /** Two runs from instantiation that differ only in their withdrawals, in any schedule: withdrawn
      plus withdrawable is the same for every staker and asset. */
  lemma AnyWithdrawalSchedule(cfg: Config, now: nat, events: seq<Event>, others: seq<Event>, x: Asset, a: Addr)
    requires InOrder(now, events) && InOrder(now, others) && Strip(events) == Strip(others)
    ensures var s, t := Run(Init(cfg, now), events), Run(Init(cfg, now), others);
            && (x in s.flows <==> x in t.flows)
            && (x in s.flows ==> Earned(s, x, a) == Earned(t, x, a))
  {
    var s0 := Init(cfg, now);
    InitIsGood(cfg, now);
    RunKeeps(s0, events);
    RunKeeps(s0, others);
    WithdrawalsDoNotMatter(s0, events);
    WithdrawalsDoNotMatter(s0, others);
    var s, t, bare := Run(s0, events), Run(s0, others), Run(s0, Strip(events));
    AlikeEntitlement(s, bare, x, a);
    AlikeEntitlement(t, bare, x, a);
    if x in s.flows {
      EarnedIs(s, x, a);
      EarnedIs(t, x, a);
    }
  }
}
