/** The pair contract with its balances and LP supply updated in place, message by message, each
    method proved equal to the function of `PairPool` with the same meaning. */
module PairContract {
  import opened FixedPoint
  import opened Results
  import opened PairMath
  import opened PairPool

  class Contract {
    const curve: Curve
    var rate: Rate
    var feeRate: Rate
    var tradingStarts: nat
    var frozen: bool
    var balances: Pools
    var supply: nat
    var held: nat

    function View(): Pair
      reads this
    {
      Pair(curve, rate, feeRate, tradingStarts, frozen, balances, supply, held)
    }

    /** A new pair holds nothing and has no LP tokens. */
    constructor (rate: Rate, feeRate: Rate, tradingStarts: nat)
      ensures View() == Pair(ComputeSwap, rate, feeRate, tradingStarts, false, [0, 0], 0, 0)
      ensures Sound(View())
    {
      ComputeSwapNeverLoses();
      curve := ComputeSwap;
      this.rate, this.feeRate, this.tradingStarts := rate, feeRate, tradingStarts;
      frozen, balances, supply, held := false, [0, 0], 0, 0;
    }

    /** `do_swap`: computes the swap without moving any tokens. What it answers is in the pool to be
        paid out and, but for a lost remainder, paying it out does not lower the product. */
    method QuoteSwap(env: Env, i: nat, offer: nat, belief: Option<nat>, maxSpread: Option<nat>)
      returns (r: Result<SwapResult>)
      requires i < 2
      ensures r == DoSwap(View(), env, balances, i, offer, belief, maxSpread)
      ensures r.Ok? ==> env.now >= tradingStarts && r.value.paid + r.value.fee <= balances[1 - i]
      ensures r.Ok? && NeverLoses(curve)
              && Lossless(balances[i], balances[1 - i], offer, r.value.fee, r.value.commission) ==>
                KeepsProduct(balances[i], balances[1 - i], offer, r.value.paid + r.value.fee)
    {
      var config := View();
      if env.now < config.tradingStarts {
        return Err(TradingNotStarted);
      }
      var computed := curve(balances[i], balances[1 - i], offer, config.rate);
      match computed {
        case Err(e) => return Err(e);
        case Ok(o) => r := FinishSwap(env, balances, i, offer, belief, maxSpread, o);
      }
      if r.Ok? && NeverLoses(curve)
         && Lossless(balances[i], balances[1 - i], offer, r.value.fee, r.value.commission) {
        DoSwapKeepsProduct(View(), env, i, offer, belief, maxSpread, r.value);
      }
    }

    /** The spread check, the protocol fee and the oracle's new price of a computed swap. */
    method FinishSwap(env: Env, pools: Pools, i: nat, offer: nat, belief: Option<nat>, maxSpread: Option<nat>,
                      o: SwapOutcome) returns (r: Result<SwapResult>)
      requires i < 2
      ensures r == CheckedSwap(View().feeRate, env, pools, i, offer, belief, maxSpread, o)
    {
      var checked := CheckSpread(belief, maxSpread, offer, o.paid + o.commission, o.spread);
      if checked.Err? {
        return Err(checked.error);
      }
      var fee := 0;
      if env.feeOn {
        fee := ProtocolFee(o.commission, feeRate);
      }
      var left := Minus(pools[1 - i], fee + o.paid);
      if left.Err? {
        return Err(left.error);
      }
      var second := if i == 1 then pools[1] + offer else left.value;
      if second == 0 {
        return Err(Overflow);
      }
      return Ok(SwapResult(o.paid, fee, o.spread, o.commission));
    }

    method ExecuteSwap(env: Env, i: nat, offer: nat, belief: Option<nat>,
                       maxSpread: Option<nat>) returns (r: Result<nat>)
      requires i < 2
      modifies this`balances
      ensures r.Ok? <==> Swap(old(View()), env, i, offer, belief, maxSpread).Ok?
      ensures View() == if r.Ok? then Swap(old(View()), env, i, offer, belief, maxSpread).value else old(View())
      ensures r.Ok? ==> old(View()).pools[1 - i] >= View().pools[1 - i] + r.value
    {
      if frozen {
        return Err(ContractFrozen);
      }
      var quote := QuoteSwap(env, i, offer, belief, maxSpread);
      match quote {
        case Err(e) => return Err(e);
        case Ok(q) =>
          balances := balances[i := balances[i] + offer];
          balances := balances[1 - i := balances[1 - i] - (q.paid + q.fee)];
          return Ok(q.paid);
      }
    }

    /** The LP tokens minted to the depositor, and in all: for the first deposit the root of its product,
        of which the contract keeps 1000, and later as many as both amounts are enough for. */
    method MintShare(pools: Pools, d: Pools, tolerance: Option<nat>) returns (r: Result<(nat, nat)>)
      ensures r == Minted(View(), pools, d, tolerance)
      ensures r.Ok? && supply == 0 ==>
                && r.value.1 == r.value.0 + MINIMUM_LIQUIDITY
                && r.value.1 * r.value.1 <= d[0] * d[1] < (r.value.1 + 1) * (r.value.1 + 1)
      ensures r.Ok? && supply > 0 ==>
                && r.value.0 == r.value.1
                && forall k: nat :: k <= r.value.0 <==> Affords(pools, d, supply, k)
    {
      if d[0] == 0 || d[1] == 0 {
        return Err(InvalidZeroAmount);
      }
      if supply == 0 {
        var root := ISqrt(d[0] * d[1]);
        if root <= MINIMUM_LIQUIDITY {
          return Err(MinimumLiquidity);
        }
        return Ok((root - MINIMUM_LIQUIDITY, root));
      }
      var checked := CheckSlippage(tolerance, d, pools);
      if checked.Err? {
        return Err(checked.error);
      }
      var share := Floor(d[0] * supply, pools[0]);
      var other := Floor(d[1] * supply, pools[1]);
      if other < share {
        share := other;
      }
      forall k: nat ensures k <= share <==> Affords(pools, d, supply, k) {
        MintedIsLargest(View(), pools, d, tolerance, k);
      }
      return Ok((share, share));
    }

    /** The checks on the list of assets, before anything is computed. */
    method CheckAssets(assets: seq<Offer>) returns (r: Result<()>)
      ensures r.Ok? <==>
                && !frozen && 1 <= |assets| <= 2
                && (forall j, k | 0 <= j < k < |assets| :: assets[j].info != assets[k].info)
                && (exists o | o in assets :: o.amount != 0)
                && (forall o | o in assets :: o.info < 2)
    {
      if exists j, k | 0 <= j < k < |assets| :: assets[j].info == assets[k].info {
        return Err(DoublingAssets);
      }
      if frozen {
        return Err(ContractFrozen);
      }
      if |assets| > 2 {
        return Err(TooManyAssets);
      }
      if forall o | o in assets :: o.amount == 0 {
        return Err(InvalidZeroAmount);
      }
      if exists o | o in assets :: o.info >= 2 {
        return Err(InvalidAsset);
      }
      return Ok(());
    }

    /** One asset turned into a deposit of both by swapping half of it inside the pool: the pools and
        the deposit together are the balances and the amount, less the protocol fee. */
    method SplitDeposit(env: Env, i: nat, amount: nat) returns (r: Result<Halved>)
      requires i < 2
      ensures r == SwapHalf(View(), env, i, amount)
      ensures var q := DoSwap(View(), env, balances, i, amount / 2, None, None);
              r.Ok? ==>
                && q.Ok?
                && r.value.pools[i] + r.value.deposit[i] == balances[i] + amount
                && r.value.pools[1 - i] + r.value.deposit[1 - i] + q.value.fee == balances[1 - i]
                && (NeverLoses(curve) && LosslessSwap(View(), env, i, amount / 2, None, None) ==>
                      Product(balances) <= Product(r.value.pools))
    {
      var half := amount / 2;
      var quote := QuoteSwap(env, i, half, None, None);
      match quote {
        case Err(e) => return Err(e);
        case Ok(q) =>
          if NeverLoses(curve) && LosslessSwap(View(), env, i, half, None, None) {
            ProductAfter(balances, i, half, q.paid + q.fee);
          }
          return Halves(balances, i, half, amount - half, q.paid, q.fee);
      }
    }

    /** Adds a deposit on top of `pools` and mints its LP tokens. */
    method AddDeposit(pools: Pools, d: Pools, tolerance: Option<nat>) returns (r: Result<nat>)
      modifies this`balances, this`supply, this`held
      ensures r.Ok? <==> Deposit(old(View()), pools, d, tolerance).Ok?
      ensures View() == if r.Ok? then Deposit(old(View()), pools, d, tolerance).value else old(View())
      ensures r.Ok? ==> View().held == old(View()).held + r.value
    {
      var minted := MintShare(pools, d, tolerance);
      if minted.Err? {
        return Err(minted.error);
      }
      balances := [pools[0] + d[0], pools[1] + d[1]];
      supply := supply + minted.value.1;
      held := held + minted.value.0;
      return Ok(minted.value.0);
    }

    /** `provide_liquidity`, returning the LP tokens minted to the receiver. */
    method ProvideLiquidity(env: Env, assets: seq<Offer>, tolerance: Option<nat>) returns (r: Result<nat>)
      modifies this`balances, this`supply, this`held
      ensures r.Ok? <==> Provide(old(View()), env, assets, tolerance).Ok?
      ensures View() == if r.Ok? then Provide(old(View()), env, assets, tolerance).value else old(View())
      ensures r.Ok? ==> View().held == old(View()).held + r.value
    {
      var checked := CheckAssets(assets);
      if checked.Err? {
        return Err(checked.error);
      }
      var i := assets[0].info;
      if |assets| == 2 {
        r := AddDeposit(balances, balances[i := assets[0].amount][1 - i := assets[1].amount], tolerance);
        return;
      }
      if balances[1 - i] == 0 {
        return Err(SingleTokenNeedsPool);
      }
      var split := SplitDeposit(env, i, assets[0].amount);
      if split.Err? {
        return Err(split.error);
      }
      r := AddDeposit(split.value.pools, split.value.deposit, tolerance);
    }

    /** `withdraw_liquidity`: both refunds go out and the LP tokens are burned. */
    method WithdrawLiquidity(amount: nat) returns (r: Result<Pools>)
      modifies this`balances, this`supply, this`held
      ensures r.Ok? <==> Withdraw(old(View()), amount).Ok?
      ensures View() == if r.Ok? then Withdraw(old(View()), amount).value else old(View())
      ensures r.Ok? ==> forall i | 0 <= i < 2 :: View().pools[i] + r.value[i] == old(View()).pools[i]
    {
      if amount > held || amount > supply {
        return Err(Overflow);
      }
      var refund0, refund1 := Refund(balances[0], amount, supply), Refund(balances[1], amount, supply);
      if refund0 > balances[0] || refund1 > balances[1] || refund1 == balances[1] {
        return Err(Overflow);
      }
      balances := [balances[0] - refund0, balances[1] - refund1];
      supply := supply - amount;
      held := held - amount;
      return Ok([refund0, refund1]);
    }
  }
}
