/** Where the rewards come from and who may take them: setting up a flow, the schedules that lock its
    funds, tokens that arrive, and the right to withdraw. */
module StakeFunding {
  import opened FixedPoint
  import opened Results
  import opened StakeState
  import opened StakeBooks
  import opened StakeRuns

  // ---- schedules ----

  /** `v` is what is still locked at time `t` of an amount released linearly from `start` for `duration`
      seconds: all of it up to the start, nothing after the end, and in between never less than the part
      of the duration that is left, nor more than that but for one token and 10^-18 of the amount. */
  predicate Locks(v: nat, start: nat, duration: nat, amount: nat, t: nat) {
    && (t <= start ==> v == amount)
    && (start < t && start + duration <= t ==> v == 0)
    && (start < t < start + duration ==>
          var left := start + duration - t;
          && amount * left <= v * duration
          && v * duration * ONE < amount * left * ONE + amount * duration + ONE * duration)
  }

  lemma ScheduleLocks(start: nat, duration: nat, amount: nat, t: nat)
    ensures Locks(ScheduleValue(Schedule(start, start + duration, amount), t), start, duration, amount, t)
  {
    if start < t < start + duration {
      var ratio := Ratio(t - start, duration);
      UnlockedBounds(amount, t - start, duration, ratio, Scale(amount, ratio));
    }
  }

  lemma UnlockedBounds(amount: nat, passed: nat, duration: nat, ratio: nat, unlocked: nat)
    requires passed < duration && unlocked <= amount
    requires ratio * duration <= passed * ONE < ratio * duration + duration
    requires unlocked * ONE <= amount * ratio < unlocked * ONE + ONE
    ensures var v, left := amount - unlocked, duration - passed;
            && amount * left <= v * duration
            && v * duration * ONE < amount * left * ONE + amount * duration + ONE * duration
  {
    UnlockedAtMost(amount, passed, duration, ratio, unlocked);
    UnlockedAtLeast(amount, passed, duration, ratio, unlocked);
    assert amount * (duration - passed) == amount * duration - amount * passed;
    assert (amount - unlocked) * duration == amount * duration - unlocked * duration;
    Minuend(amount * duration, unlocked * duration, amount * passed);
  }

  lemma Minuend(a: nat, b: int, c: int)
    ensures (a - b) * ONE == a * ONE - b * ONE && (a - c) * ONE == a * ONE - c * ONE
  {
  }

  lemma UnlockedAtMost(amount: nat, passed: nat, duration: nat, ratio: nat, unlocked: nat)
    requires ratio * duration <= passed * ONE && unlocked * ONE <= amount * ratio
    ensures unlocked * duration <= amount * passed
  {
    MulMono(unlocked * ONE, amount * ratio, duration);
    MulMono(ratio * duration, passed * ONE, amount);
    assert unlocked * ONE * duration == unlocked * duration * ONE;
    assert amount * ratio * duration == amount * (ratio * duration);
    assert amount * (passed * ONE) == amount * passed * ONE;
  }

  lemma UnlockedAtLeast(amount: nat, passed: nat, duration: nat, ratio: nat, unlocked: nat)
    requires duration > 0 && passed * ONE < ratio * duration + duration && amount * ratio < unlocked * ONE + ONE
    ensures amount * passed * ONE < unlocked * duration * ONE + amount * duration + ONE * duration
  {
    MulMono(passed * ONE, ratio * duration + duration, amount);
    assert amount * (passed * ONE) == amount * passed * ONE;
    assert amount * (ratio * duration + duration) == amount * ratio * duration + amount * duration;
    MulMono(amount * ratio + 1, unlocked * ONE + ONE, duration);
    assert (unlocked * ONE + ONE) * duration == unlocked * duration * ONE + ONE * duration;
    assert (amount * ratio + 1) * duration == amount * ratio * duration + duration;
  }

  // ---- funding ----

  /** What the coins add up to in an asset, and how many there are of it. */
  function CoinSum(coins: seq<Coin>, asset: Asset): nat {
    if coins == [] then 0
    else
      var n := |coins| - 1;
      CoinSum(coins[..n], asset) + if Native(coins[n].denom) == asset then coins[n].amount else 0
  }

  function CoinCount(coins: seq<Coin>, asset: Asset): nat {
    if coins == [] then 0
    else
      var n := |coins| - 1;
      CoinCount(coins[..n], asset) + if Native(coins[n].denom) == asset then 1 else 0
  }

  /** Tokens that arrive with a message are added to the balances of their flows, and change nothing else. */
  lemma {:induction false} ReceiveEachAdds(flows: map<Asset, Flow>, coins: seq<Coin>, x: Asset)
    requires x in flows
    ensures ReceiveEach(flows, coins)[x] == flows[x].(balance := flows[x].balance + CoinSum(coins, x))
  {
    if coins != [] {
      ReceiveEachAdds(flows, coins[..|coins| - 1], x);
    }
  }

  /** A flow after funding with `sent` tokens in `n` schedules of the same shape. */
  ghost predicate Funded(f: Flow, g: Flow, sent: nat, n: nat, info: Funding) {
    && g == f.(curve := g.curve, balance := f.balance + sent)
    && forall t: nat :: LocksMore(f, g, n, info, t)
  }

  ghost predicate LocksMore(f: Flow, g: Flow, n: nat, info: Funding, t: nat) {
    exists v: nat ::
      Locks(v, info.start, info.duration, info.amount, t) && CurveValue(g.curve, t) == CurveValue(f.curve, t) + n * v
  }

  function Declared(info: Funding): Schedule {
    Schedule(info.start, info.start + info.duration, info.amount)
  }

  lemma ValueIsLocked(f: Flow, g: Flow, n: nat, info: Funding, t: nat, v: nat)
    requires v == ScheduleValue(Declared(info), t)
    requires CurveValue(g.curve, t) == CurveValue(f.curve, t) + n * v
    ensures LocksMore(f, g, n, info, t)
  {
    ScheduleLocks(info.start, info.duration, info.amount, t);
    assert Locks(v, info.start, info.duration, info.amount, t);
  }

  function CoinLocks(coins: seq<Coin>, asset: Asset, v: nat): nat {
    if coins == [] then 0
    else
      var n := |coins| - 1;
      CoinLocks(coins[..n], asset, v) + if Native(coins[n].denom) == asset then v else 0
  }

  lemma {:induction false} EachLocksOnce(coins: seq<Coin>, asset: Asset, v: nat)
    ensures CoinLocks(coins, asset, v) == CoinCount(coins, asset) * v
  {
    if coins != [] {
      var n := |coins| - 1;
      EachLocksOnce(coins[..n], asset, v);
      assert (CoinCount(coins[..n], asset) + 1) * v == CoinCount(coins[..n], asset) * v + v;
    }
  }

  lemma {:induction false} FundEachAdds(flows: map<Asset, Flow>, coins: seq<Coin>, info: Funding, x: Asset, t: nat)
    requires FundEach(flows, coins, info).Ok? && x in flows
    ensures var g := FundEach(flows, coins, info).value;
            && g.Keys == flows.Keys
            && g[x] == flows[x].(curve := g[x].curve, balance := flows[x].balance + CoinSum(coins, x))
            && CurveValue(g[x].curve, t)
               == CurveValue(flows[x].curve, t) + CoinLocks(coins, x, ScheduleValue(Declared(info), t))
  {
    if coins != [] {
      var n := |coins| - 1;
      FundEachAdds(flows, coins[..n], info, x, t);
      var front := FundEach(flows, coins[..n], info).value;
      FundAssetAdds(front, Native(coins[n].denom), coins[n].amount, info, x, t);
    }
  }

  lemma FundAssetAdds(flows: map<Asset, Flow>, asset: Asset, sent: nat, info: Funding, x: Asset, t: nat)
    requires FundAsset(flows, asset, sent, info).Ok? && x in flows
    ensures var g := FundAsset(flows, asset, sent, info).value;
            && g.Keys == flows.Keys
            && (x != asset ==> g[x] == flows[x])
            && (x == asset ==>
                  && g[x] == flows[x].(curve := g[x].curve, balance := flows[x].balance + sent)
                  && CurveValue(g[x].curve, t) == CurveValue(flows[x].curve, t)
                       + ScheduleValue(Declared(info), t))
  {
    if x == asset {
      var c := Declared(info);
      assert (flows[x].curve + [c])[..|flows[x].curve|] == flows[x].curve;
    }
  }

  /** Funding with native coins: each coin adds its amount to the balance of its flow, and a schedule of the
      declared amount that unlocks linearly over the declared time; nothing else changes. */
  lemma FundAdds(s: State, now: nat, coins: seq<Coin>, info: Funding, x: Asset)
    requires Fund(s, now, coins, info).Ok? && x in s.flows
    ensures var t := Fund(s, now, coins, info).value;
            && t == s.(flows := t.flows) && t.flows.Keys == s.flows.Keys
            && Funded(s.flows[x], t.flows[x], CoinSum(coins, x), CoinCount(coins, x), info)
  {
    var g := Fund(s, now, coins, info).value.flows;
    FundEachAdds(s.flows, coins, info, x, 0);
    forall t: nat ensures LocksMore(s.flows[x], g[x], CoinCount(coins, x), info, t) {
      FundEachAdds(s.flows, coins, info, x, t);
      EachLocksOnce(coins, x, ScheduleValue(Declared(info), t));
      ValueIsLocked(s.flows[x], g[x], CoinCount(coins, x), info, t,
                    ScheduleValue(Declared(info), t));
    }
  }

  /** The same for a received token. */
  lemma FundTokenAdds(s: State, now: nat, token: Addr, sent: nat, info: Funding)
    requires FundToken(s, now, token, sent, info).Ok?
    ensures Token(token) in s.flows
    ensures var x, t := Token(token), FundToken(s, now, token, sent, info).value;
            && t == s.(flows := s.flows[x := t.flows[x]])
            && Funded(s.flows[x], t.flows[x], sent, 1, info)
  {
    var x, g := Token(token), FundToken(s, now, token, sent, info).value.flows;
    forall t: nat ensures LocksMore(s.flows[x], g[x], 1, info, t) {
      FundAssetAdds(s.flows, x, sent, info, x, t);
      ValueIsLocked(s.flows[x], g[x], 1, info, t,
                    ScheduleValue(Declared(info), t));
    }
  }

  /** Funding is refused exactly while the unbonder has lifted the periods, for a start in the past, for an
      asset without a flow, or for a schedule of more than was sent. */
  lemma {:induction false} FundEachSucceedsIff(flows: map<Asset, Flow>, coins: seq<Coin>, info: Funding)
    ensures FundEach(flows, coins, info).Ok?
            <==> forall i | 0 <= i < |coins| :: Native(coins[i].denom) in flows && info.amount <= coins[i].amount
    ensures FundEach(flows, coins, info).Ok? ==> FundEach(flows, coins, info).value.Keys == flows.Keys
  {
    if coins != [] {
      var n := |coins| - 1;
      FundEachSucceedsIff(flows, coins[..n], info);
      assert forall i | 0 <= i < n :: coins[..n][i] == coins[i];
    }
  }

  lemma FundSucceedsIff(s: State, now: nat, coins: seq<Coin>, info: Funding)
    ensures Fund(s, now, coins, info).Ok?
            <==> && !s.unbondAll && now / NANOS <= info.start
                 && forall i | 0 <= i < |coins| :: Native(coins[i].denom) in s.flows && info.amount <= coins[i].amount
  {
    FundEachSucceedsIff(s.flows, coins, info);
  }

  // ---- setting up a flow ----

  lemma {:induction false} NeighboursSorted(rewards: seq<Multiplier>, i: nat, j: nat)
    requires forall k | 0 <= k < |rewards| - 1 :: rewards[k].rate <= rewards[k + 1].rate
    requires i <= j < |rewards|
    ensures rewards[i].rate <= rewards[j].rate
    decreases j - i
  {
    if i < j {
      NeighboursSorted(rewards, i, j - 1);
      assert rewards[j - 1].rate <= rewards[j - 1 + 1].rate;
    }
  }

  ghost predicate NeverFalls(rewards: seq<Multiplier>) {
    forall i, j | 0 <= i <= j < |rewards| :: rewards[i].rate <= rewards[j].rate
  }

  lemma NeighboursNeverFall(rewards: seq<Multiplier>)
    ensures NeverFalls(rewards) <==> forall i | 0 <= i < |rewards| - 1 :: rewards[i].rate <= rewards[i + 1].rate
  {
    if forall k | 0 <= k < |rewards| - 1 :: rewards[k].rate <= rewards[k + 1].rate {
      forall i, j | 0 <= i <= j < |rewards| ensures rewards[i].rate <= rewards[j].rate {
        NeighboursSorted(rewards, i, j);
      }
    }
  }

  /** A flow can be set up exactly by the admin, for an asset other than the staked token that has none yet
      and while there is room, with one multiplier for each period, longer periods never earning less. It
      starts with nobody entitled to anything and all the contract holds of the asset to be distributed. */
  lemma CreateFlowIff(s: State, a: Addr, x: Asset, rewards: seq<Multiplier>, held: nat)
    ensures CreateFlow(s, a, x, rewards, held).Ok?
            <==> && s.admin == Some(a) && x != Token(s.cfg.cw20) && x !in s.flows
                 && |s.flows| < s.cfg.maxDistributions && PeriodsMatch(s.cfg, rewards) && NeverFalls(rewards)
    ensures var r := CreateFlow(s, a, x, rewards, held);
            r.Ok? ==>
              && r.value == s.(flows := s.flows[x := r.value.flows[x]])
              && r.value.flows[x].multipliers == rewards
              && (forall seconds :: Distributable(r.value.flows[x], seconds) == held)
              && (forall y :: Entitlement(s.cfg, s.stakes, r.value.flows[x], y) == 0)
              && r.value.flows[x].withdrawable == r.value.flows[x].leftover == r.value.flows[x].distributed == 0
  {
    NeighboursNeverFall(rewards);
  }

  // ---- the right to withdraw ----

  /** Withdrawing is open to the owner and to the one delegate the owner has named, and from solvent flows
      it then always succeeds. */
  lemma WithdrawIff(s: State, a: Addr, owner: Addr)
    requires Books(s) && Backed(s)
    ensures Withdraw(s, a, owner).Ok? <==> a == owner || (owner in s.delegated && s.delegated[owner] == a)
    ensures Withdraw(s, a, owner).Err? ==> Withdraw(s, a, owner).error == Unauthorized
  {
    WithdrawAllKeeps(s.cfg, s.stakes, s.flows, owner, s.clock / NANOS);
  }

  /** Naming a delegate replaces the one before, for the sender alone. */
  lemma DelegateNames(s: State, e: Env, delegate: Addr, owner: Addr)
    ensures var t := Execute(s, e, DelegateMsg(delegate)).value;
            && Execute(s, e, DelegateMsg(delegate)).Ok? && t == s.(delegated := t.delegated)
            && (owner == e.sender ==> owner in t.delegated && t.delegated[owner] == delegate)
            && (owner != e.sender ==> (owner in t.delegated <==> owner in s.delegated)
                                      && (owner in s.delegated ==> t.delegated[owner] == s.delegated[owner]))
  {
  }
}
