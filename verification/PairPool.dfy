/** The constant-product pool as a value: swaps, deposits and withdrawals, and what every run of
    them keeps. */
module PairPool {
  import opened FixedPoint
  import opened Results
  import opened PairMath

  const MINIMUM_LIQUIDITY: nat := 1000
  const DEFAULT_SLIPPAGE: nat := 5_000_000_000_000_000
  const MAX_SLIPPAGE: nat := 500_000_000_000_000_000

  /** Two amounts, one for each asset of the pair. */
  type Pools = p: seq<nat> | |p| == 2 witness [0, 0]

  /** A fee rate of at most 100%. */
  type Rate = r: nat | r <= ONE

  /** `curve` computes its swaps, `pools` are the contract's balances, and `held` is the part of the
      LP supply outside the contract. */
  datatype Pair = Pair(curve: Curve, rate: Rate, feeRate: Rate, tradingStarts: nat, frozen: bool, pools: Pools,
                       supply: nat, held: nat)

  /** `feeOn` tells whether the factory has a fee address at the moment. */
  datatype Env = Env(now: nat, feeOn: bool)

  /** A deposit of one asset after its inner swap: the pools it is added to, and both its parts. */
  datatype Halved = Halved(pools: Pools, deposit: Pools)

  /** An amount of the asset with index `info`; only 0 and 1 belong to the pair. */
  datatype Offer = Offer(info: nat, amount: nat)

  datatype SwapResult = SwapResult(paid: nat, fee: nat, spread: nat, commission: nat)

  /** `assert_max_spread`. */
  function CheckSpread(belief: Option<nat>, maxSpread: Option<nat>, offer: nat, gross: nat, spread: nat): Result<()> {
    var limit := if maxSpread.Some? then maxSpread.value else DEFAULT_SLIPPAGE;
    if limit > MAX_SLIPPAGE then Err(AllowedSpread)
    else if belief.Some? then
      if belief.value == 0 then Err(Overflow)
      else
        var expected := Scale(offer, Floor(ONE * ONE, belief.value));
        if gross < expected && Ratio(expected - gross, expected) > limit then Err(MaxSpread) else Ok(())
    else if gross + spread == 0 then Err(Overflow)
    else if Ratio(spread, gross + spread) > limit then Err(MaxSpread)
    else Ok(())
  }

  /** `assert_slippage_tolerance` on non-zero deposits. */
  function CheckSlippage(tolerance: Option<nat>, d: Pools, pools: Pools): Result<()>
    requires d[0] > 0 && d[1] > 0
  {
    var limit := if tolerance.Some? then tolerance.value else DEFAULT_SLIPPAGE;
    if limit > MAX_SLIPPAGE then Err(AllowedSpread)
    else if pools[1] == 0 then Err(Overflow)
    else if Scale(Ratio(d[0], d[1]), ONE - limit) > Ratio(pools[0], pools[1]) then Err(MaxSlippage)
    else if pools[0] == 0 then Err(Overflow)
    else if Scale(Ratio(d[1], d[0]), ONE - limit) > Ratio(pools[1], pools[0]) then Err(MaxSlippage)
    else Ok(())
  }

  /** `do_swap`: offer asset `i`, on pools that do not include the offer yet. */
  function DoSwap(s: Pair, env: Env, pools: Pools, i: nat, offer: nat, belief: Option<nat>, maxSpread: Option<nat>)
    : Result<SwapResult>
    requires i < 2
  {
    if env.now < s.tradingStarts then Err(TradingNotStarted)
    else
      var o :- s.curve(pools[i], pools[1 - i], offer, s.rate);
      CheckedSwap(s.feeRate, env, pools, i, offer, belief, maxSpread, o)
  }

  /** The spread check and the protocol fee of a computed swap. */
  function CheckedSwap(feeRate: Rate, env: Env, pools: Pools, i: nat, offer: nat, belief: Option<nat>,
                       maxSpread: Option<nat>, o: SwapOutcome): Result<SwapResult>
    requires i < 2
  {
    var _ :- CheckSpread(belief, maxSpread, offer, o.paid + o.commission, o.spread);
    var fee := if env.feeOn then ProtocolFee(o.commission, feeRate) else 0;
    var left :- Minus(pools[1 - i], fee + o.paid);
    // the oracle's new price is a ratio over the second pool
    if (if i == 1 then pools[1] + offer else left) == 0 then Err(Overflow)
    else Ok(SwapResult(o.paid, fee, o.spread, o.commission))
  }

  function Swap(s: Pair, env: Env, i: nat, offer: nat, belief: Option<nat>, maxSpread: Option<nat>): Result<Pair>
    requires i < 2
  {
    if s.frozen then Err(ContractFrozen)
    else
      var r :- DoSwap(s, env, s.pools, i, offer, belief, maxSpread);
      Settle(s, i, offer, r)
  }

  /** The offer comes in, the payout and the protocol fee go out. */
  function Settle(s: Pair, i: nat, offer: nat, r: SwapResult): Result<Pair>
    requires i < 2
  {
    if r.paid + r.fee > s.pools[1 - i] then Err(Overflow)
    else Ok(s.(pools := AfterSwap(s.pools, i, offer, r.paid + r.fee)))
  }

  /** The largest integer whose square is at most `n`. */
  function ISqrt(n: nat): (r: nat)
    ensures r * r <= n < (r + 1) * (r + 1)
  {
    if n == 0 then 0
    else
      var r := ISqrt(n - 1);
      if (r + 1) * (r + 1) <= n then r + 1 else r
  }

  /** The LP tokens minted for a deposit on top of `pools`: to the depositor, and in all. */
  function Minted(s: Pair, pools: Pools, d: Pools, tolerance: Option<nat>): Result<(nat, nat)> {
    if d[0] == 0 || d[1] == 0 then Err(InvalidZeroAmount)
    else if s.supply == 0 then
      var root := ISqrt(d[0] * d[1]);
      if root <= MINIMUM_LIQUIDITY then Err(MinimumLiquidity) else Ok((root - MINIMUM_LIQUIDITY, root))
    else
      var _ :- CheckSlippage(tolerance, d, pools);
      var a, b := Floor(d[0] * s.supply, pools[0]), Floor(d[1] * s.supply, pools[1]);
      var share := if a <= b then a else b;
      Ok((share, share))
  }

  function Deposit(s: Pair, pools: Pools, d: Pools, tolerance: Option<nat>): Result<Pair> {
    var m :- Minted(s, pools, d, tolerance);
    Ok(s.(pools := [pools[0] + d[0], pools[1] + d[1]], supply := s.supply + m.1, held := s.held + m.0))
  }

  /** The first half of a deposit of asset `i` alone: half of it is swapped inside the pool, and the
      rest and the proceeds become the deposit. */
  function SwapHalf(s: Pair, env: Env, i: nat, amount: nat): Result<Halved>
    requires i < 2
  {
    var half := amount / 2;
    var r :- DoSwap(s, env, s.pools, i, half, None, None);
    Halves(s.pools, i, half, amount - half, r.paid, r.fee)
  }

  /** The pools after an offer came in and an amount went out. */
  function AfterSwap(pools: Pools, i: nat, offer: nat, out: nat): Pools
    requires i < 2 && out <= pools[1 - i]
  {
    pools[i := pools[i] + offer][1 - i := pools[1 - i] - out]
  }

  /** The pools and the deposit after the half-swap paid out `paid` and a protocol fee; both
      subtractions have to succeed. */
  function Halves(pools: Pools, i: nat, half: nat, rest: nat, paid: nat, fee: nat): Result<Halved>
    requires i < 2
  {
    if paid + fee > pools[1 - i] then Err(Overflow)
    else Ok(Halved(AfterSwap(pools, i, half, paid + fee), pools[i := rest][1 - i := paid]))
  }

  /** A deposit of asset `i` alone. */
  function ProvideOne(s: Pair, env: Env, i: nat, amount: nat, tolerance: Option<nat>): Result<Pair>
    requires i < 2
  {
    if s.pools[1 - i] == 0 then Err(SingleTokenNeedsPool)
    else
      var halves :- SwapHalf(s, env, i, amount);
      Deposit(s, halves.pools, halves.deposit, tolerance)
  }

  /** `provide_liquidity` with a list of assets, named by their index in the pair. */
  function Provide(s: Pair, env: Env, assets: seq<Offer>, tolerance: Option<nat>): Result<Pair> {
    if exists j, k | 0 <= j < k < |assets| :: assets[j].info == assets[k].info then Err(DoublingAssets)
    else if s.frozen then Err(ContractFrozen)
    else if |assets| > 2 then Err(TooManyAssets)
    else if forall o | o in assets :: o.amount == 0 then Err(InvalidZeroAmount)
    else if exists o | o in assets :: o.info >= 2 then Err(InvalidAsset)
    else if |assets| == 1 then ProvideOne(s, env, assets[0].info, assets[0].amount, tolerance)
    else
      var i := assets[0].info;
      Deposit(s, s.pools, s.pools[i := assets[0].amount][1 - i := assets[1].amount], tolerance)
  }

  /** `get_share_in_assets` for one pool. */
  function Refund(pool: nat, amount: nat, supply: nat): nat {
    if supply == 0 then 0 else Scale(pool, Ratio(amount, supply))
  }

  /** `withdraw_liquidity`, reached by sending LP tokens one holds to the contract, which burns them. */
  function Withdraw(s: Pair, amount: nat): Result<Pair> {
    var held :- Minus(s.held, amount);
    var supply :- Minus(s.supply, amount);
    var left0 :- Minus(s.pools[0], Refund(s.pools[0], amount, s.supply));
    var left1 :- Minus(s.pools[1], Refund(s.pools[1], amount, s.supply));
    if left1 == 0 then Err(Overflow)
    else Ok(s.(pools := [left0, left1], supply := supply, held := held))
  }

  /** Everything that can happen to a pair, including a plain transfer of tokens to it. */
  datatype Event =
    | SwapEvent(env: Env, i: nat, offer: nat, belief: Option<nat>, maxSpread: Option<nat>)
    | ProvideEvent(env: Env, assets: seq<Offer>, tolerance: Option<nat>)
    | WithdrawEvent(amount: nat)
    | Transfer(d: Pools)
    | Freeze(frozen: bool)
    | UpdateFees(rate: Rate, feeRate: Rate)

  function Execute(s: Pair, e: Event): Result<Pair> {
    match e
    case SwapEvent(env, i, offer, belief, maxSpread) => Swap(s, env, if i == 0 then 0 else 1, offer, belief, maxSpread)
    case ProvideEvent(env, assets, tolerance) => Provide(s, env, assets, tolerance)
    case WithdrawEvent(amount) => Withdraw(s, amount)
    case Transfer(d) => Ok(s.(pools := [s.pools[0] + d[0], s.pools[1] + d[1]]))
    case Freeze(frozen) => Ok(s.(frozen := frozen))
    case UpdateFees(rate, feeRate) => if s.frozen then Err(ContractFrozen) else Ok(s.(rate := rate, feeRate := feeRate))
  }

  function Step(s: Pair, e: Event): Pair {
    var r := Execute(s, e);
    if r.Ok? then r.value else s
  }

  function Run(s: Pair, events: seq<Event>): Pair {
    if events == [] then s else Step(Run(s, events[..|events| - 1]), events[|events| - 1])
  }

  // ---- the invariant ----

  /** Once the pool has LP tokens there are at least 1000 that nobody can withdraw, and the product
      of the pools is at least the square of the supply. */
  ghost predicate Sound(s: Pair) {
    && NeverLoses(s.curve)
    && (s.supply == 0 ==> s.held == 0)
    && (s.supply > 0 ==> s.supply == s.held + MINIMUM_LIQUIDITY && Covers(Product(s.pools), s.supply))
  }

  function Product(pools: Pools): nat {
    pools[0] * pools[1]
  }

  predicate Covers(product: nat, supply: nat) {
    supply * supply <= product
  }

  /** product / supply^2 did not fall, cross-multiplied. */
  predicate Grows(p: nat, s: nat, q: nat, t: nat) {
    p * (t * t) <= q * (s * s)
  }

  /** The value behind each LP token: the product of the pools over the square of the supply, from
      `s` to `t`, did not fall. */
  ghost predicate Backed(s: Pair, t: Pair) {
    Grows(Product(s.pools), s.supply, Product(t.pools), t.supply)
  }

  /** The answer of `DoSwap` leaves some of the commission in the pool or loses no remainder. */
  predicate LosslessSwap(s: Pair, env: Env, i: nat, offer: nat, belief: Option<nat>, maxSpread: Option<nat>)
    requires i < 2
  {
    var r := DoSwap(s, env, s.pools, i, offer, belief, maxSpread);
    r.Ok? ==> Lossless(s.pools[i], s.pools[1 - i], offer, r.value.fee, r.value.commission)
  }

  /** So does the swap of the event, be it whole or inside a deposit, if it has one. */
  predicate LosslessEvent(s: Pair, e: Event) {
    match e
    case SwapEvent(env, i, offer, belief, maxSpread) =>
      LosslessSwap(s, env, if i == 0 then 0 else 1, offer, belief, maxSpread)
    case ProvideEvent(env, assets, _) =>
      |assets| == 1 && assets[0].info < 2 ==> LosslessSwap(s, env, assets[0].info, assets[0].amount / 2, None, None)
    case _ => true
  }

  /** Every swap of the event leaves its offer pool at most 10^18. */
  predicate SmallEvent(s: Pair, e: Event) {
    match e
    case SwapEvent(_, i, offer, _, _) => s.pools[if i == 0 then 0 else 1] + offer <= ONE
    case ProvideEvent(_, assets, _) =>
      |assets| == 1 && assets[0].info < 2 ==> s.pools[assets[0].info] + assets[0].amount / 2 <= ONE
    case _ => true
  }

  // ---- one event at a time ----

  /** A swap pays out what was computed, and a fee of at most the commission. */
  lemma CheckedSwapPays(feeRate: Rate, env: Env, pools: Pools, i: nat, offer: nat, belief: Option<nat>,
                        maxSpread: Option<nat>, o: SwapOutcome)
    requires i < 2 && CheckedSwap(feeRate, env, pools, i, offer, belief, maxSpread, o).Ok?
    ensures var r := CheckedSwap(feeRate, env, pools, i, offer, belief, maxSpread, o).value;
            r.paid == o.paid && r.fee <= o.commission
  {
    ScaleShrinks(o.commission, feeRate);
  }

  /** A swap answers only what the pool can pay and, but for a lost remainder, never lowers the product
      of the pools. */
  lemma DoSwapKeepsProduct(s: Pair, env: Env, i: nat, offer: nat, belief: Option<nat>, maxSpread: Option<nat>,
                           r: SwapResult)
    requires NeverLoses(s.curve) && i < 2 && DoSwap(s, env, s.pools, i, offer, belief, maxSpread) == Ok(r)
    requires LosslessSwap(s, env, i, offer, belief, maxSpread)
    ensures KeepsProduct(s.pools[i], s.pools[1 - i], offer, r.paid + r.fee)
  {
    var o := s.curve(s.pools[i], s.pools[1 - i], offer, s.rate).value;
    CheckedSwapPays(s.feeRate, env, s.pools, i, offer, belief, maxSpread, o);
    assert Allows(s.curve, s.pools[i], s.pools[1 - i], offer, s.rate, r.fee);
  }

  /** No swap on an offer side of at most 10^18 loses a remainder. */
  lemma SmallIsLossless(s: Pair, e: Event)
    requires SmallEvent(s, e)
    ensures LosslessEvent(s, e)
  {
    match e
    case SwapEvent(env, i, offer, belief, maxSpread) =>
      SmallSwap(s, env, if i == 0 then 0 else 1, offer, belief, maxSpread);
    case ProvideEvent(env, assets, _) =>
      if |assets| == 1 && assets[0].info < 2 {
        SmallSwap(s, env, assets[0].info, assets[0].amount / 2, None, None);
      }
    case _ =>
  }

  lemma SmallSwap(s: Pair, env: Env, i: nat, offer: nat, belief: Option<nat>, maxSpread: Option<nat>)
    requires i < 2 && s.pools[i] + offer <= ONE
    ensures LosslessSwap(s, env, i, offer, belief, maxSpread)
  {
    if DoSwap(s, env, s.pools, i, offer, belief, maxSpread).Ok? {
      var o := s.curve(s.pools[i], s.pools[1 - i], offer, s.rate).value;
      CheckedSwapPays(s.feeRate, env, s.pools, i, offer, belief, maxSpread, o);
      SmallIsExact(s.pools[i], s.pools[1 - i], offer);
    }
  }

  lemma ProductAfter(pools: Pools, i: nat, offer: nat, out: nat)
    requires i < 2 && KeepsProduct(pools[i], pools[1 - i], offer, out)
    ensures Product(pools) <= Product(AfterSwap(pools, i, offer, out))
  {
  }

  /** Minting by the smaller proportion never dilutes: each pool grows at least as fast as the supply. */
  lemma MintProportion(pool: nat, d: nat, supply: nat, share: nat)
    requires pool > 0 && share <= Floor(d * supply, pool)
    ensures pool * (supply + share) <= (pool + d) * supply
  {
    MulMono(share, Floor(d * supply, pool), pool);
    assert pool * (supply + share) == pool * supply + pool * share;
    assert (pool + d) * supply == pool * supply + d * supply;
  }

  lemma RefundProportion(pool: nat, amount: nat, supply: nat)
    requires amount <= supply && supply > 0
    ensures Refund(pool, amount, supply) <= pool
    ensures Refund(pool, amount, supply) * supply <= pool * amount
    ensures pool * (supply - amount) <= (pool - Refund(pool, amount, supply)) * supply
  {
    var refund := Refund(pool, amount, supply);
    TwoFloors(pool, amount, supply, Ratio(amount, supply), refund);
    MulMono(amount, supply, pool);
    CancelFactor(refund, pool, supply);
    assert pool * (supply - amount) == pool * supply - pool * amount;
    assert (pool - refund) * supply == pool * supply - refund * supply;
  }

  /** And it is no less than the share, but for one unit and 10^-18 of the pool. */
  lemma RefundIsFair(pool: nat, amount: nat, supply: nat)
    requires supply > 0
    ensures pool * amount * ONE < Refund(pool, amount, supply) * ONE * supply + pool * supply + ONE * supply
  {
    var ratio, refund := Ratio(amount, supply), Refund(pool, amount, supply);
    MulMono(amount * ONE, ratio * supply + supply, pool);
    assert pool * (amount * ONE) == pool * amount * ONE;
    assert pool * (ratio * supply + supply) == pool * ratio * supply + pool * supply;
    MulMono(pool * ratio + 1, refund * ONE + ONE, supply);
    assert (pool * ratio + 1) * supply == pool * ratio * supply + supply;
    assert (refund * ONE + ONE) * supply == refund * ONE * supply + ONE * supply;
  }

  lemma TwoFloors(pool: nat, amount: nat, supply: nat, ratio: nat, refund: nat)
    requires ratio * supply <= amount * ONE && refund * ONE <= pool * ratio
    ensures refund * supply <= pool * amount
  {
    MulMono(ratio * supply, amount * ONE, pool);
    assert pool * (ratio * supply) == pool * ratio * supply && pool * (amount * ONE) == pool * amount * ONE;
    MulMono(refund * ONE, pool * ratio, supply);
    assert refund * ONE * supply == refund * supply * ONE;
  }

  /** Two pools that each keep pace with the supply keep pace together. */
  lemma TwoProportions(p: nat, q: nat, p1: nat, q1: nat, s: nat, t: nat)
    requires p * t <= p1 * s && q * t <= q1 * s
    ensures Grows(p * q, s, p1 * q1, t)
  {
    MulMono(p * t, p1 * s, q * t);
    MulMono(q * t, q1 * s, p1 * s);
    assert p * t * (q * t) == p * q * (t * t);
    assert p1 * s * (q1 * s) == p1 * q1 * (s * s);
  }

  lemma BackedSquares(p: nat, p1: nat, s: nat, t: nat)
    requires s > 0 && Covers(p, s) && Grows(p, s, p1, t)
    ensures Covers(p1, t)
  {
    var square := s * s;
    assert square > 0;
    MulMono(square, p, t * t);
    assert (p1 + 1) * square == p1 * square + square;
    if t * t > p1 {
      MulMono(p1 + 1, t * t, square);
      assert false;
    }
  }

  /** The first deposit: the supply is the square root of the product of the two amounts. */
  lemma FirstDeposit(d: Pools, pools: Pools)
    ensures Covers(Product([pools[0] + d[0], pools[1] + d[1]]), ISqrt(d[0] * d[1]))
  {
    MulMono(d[0], pools[0] + d[0], d[1]);
    MulMono(d[1], pools[1] + d[1], pools[0] + d[0]);
  }

  /** A later one, on pools whose product is at least the `q` it was. */
  lemma LaterDeposit(q: nat, pools: Pools, d: Pools, supply: nat, share: nat)
    requires supply > 0 && pools[0] > 0 && pools[1] > 0 && Covers(q, supply) && q <= Product(pools)
    requires share <= Floor(d[0] * supply, pools[0]) && share <= Floor(d[1] * supply, pools[1])
    ensures var p := Product([pools[0] + d[0], pools[1] + d[1]]);
            Covers(p, supply + share) && Grows(q, supply, p, supply + share)
  {
    var t := supply + share;
    var p := (pools[0] + d[0]) * (pools[1] + d[1]);
    MintProportion(pools[0], d[0], supply, share);
    MintProportion(pools[1], d[1], supply, share);
    TwoProportions(pools[0], pools[1], pools[0] + d[0], pools[1] + d[1], supply, t);
    MulMono(q, Product(pools), t * t);
    BackedSquares(q, p, supply, t);
  }

  lemma MintedIs(s: Pair, pools: Pools, d: Pools, tolerance: Option<nat>)
    requires Minted(s, pools, d, tolerance).Ok?
    ensures var m := Minted(s, pools, d, tolerance).value;
            if s.supply == 0 then m.1 == ISqrt(d[0] * d[1]) == m.0 + MINIMUM_LIQUIDITY && m.0 > 0
            else m.0 == m.1 && pools[0] > 0 && pools[1] > 0
                 && m.1 <= Floor(d[0] * s.supply, pools[0]) && m.1 <= Floor(d[1] * s.supply, pools[1])
  {
  }

  /** A later deposit mints exactly the largest number of LP tokens that neither of its two amounts
      is too small for. */
  lemma MintedIsLargest(s: Pair, pools: Pools, d: Pools, tolerance: Option<nat>, k: nat)
    requires s.supply > 0 && Minted(s, pools, d, tolerance).Ok?
    ensures k <= Minted(s, pools, d, tolerance).value.0
            <==> Affords(pools, d, s.supply, k)
  {
    LargestQuotient(d[0] * s.supply, pools[0], k);
    LargestQuotient(d[1] * s.supply, pools[1], k);
  }

  /** Neither amount of the deposit is too small for `k` LP tokens. */
  predicate Affords(pools: Pools, d: Pools, supply: nat, k: nat) {
    k * pools[0] <= d[0] * supply && k * pools[1] <= d[1] * supply
  }

  lemma LargestQuotient(n: nat, d: nat, k: nat)
    requires d > 0
    ensures k <= Floor(n, d) <==> k * d <= n
  {
    if k * d <= n {
      FloorAtLeast(n, d, k);
    } else if k <= Floor(n, d) {
      MulMono(k, Floor(n, d), d);
      assert false;
    }
  }

  lemma DepositKeeps(s: Pair, pools: Pools, d: Pools, tolerance: Option<nat>)
    requires Sound(s) && Deposit(s, pools, d, tolerance).Ok? && Product(s.pools) <= Product(pools)
    ensures var t := Deposit(s, pools, d, tolerance).value;
            t.supply >= MINIMUM_LIQUIDITY && Sound(t) && (s.supply > 0 ==> Backed(s, t))
  {
    MintedIs(s, pools, d, tolerance);
    if s.supply == 0 {
      FirstDeposit(d, pools);
    } else {
      LaterDeposit(Product(s.pools), pools, d, s.supply, Minted(s, pools, d, tolerance).value.1);
    }
  }

  lemma SwapKeeps(s: Pair, env: Env, i: nat, offer: nat, belief: Option<nat>, maxSpread: Option<nat>)
    requires NeverLoses(s.curve) && i < 2 && Swap(s, env, i, offer, belief, maxSpread).Ok?
    requires LosslessSwap(s, env, i, offer, belief, maxSpread)
    ensures Product(s.pools) <= Product(Swap(s, env, i, offer, belief, maxSpread).value.pools)
  {
    var r := DoSwap(s, env, s.pools, i, offer, belief, maxSpread).value;
    DoSwapKeepsProduct(s, env, i, offer, belief, maxSpread, r);
    ProductAfter(s.pools, i, offer, r.paid + r.fee);
    assert Swap(s, env, i, offer, belief, maxSpread) == Settle(s, i, offer, r);
  }

  /** The condition is exact: on a constant-product pair, an answered swap keeps the product of the
      pools if and only if it leaves some of its commission in the pool or loses no remainder. */
  lemma SwapKeepsIff(s: Pair, env: Env, i: nat, offer: nat, belief: Option<nat>, maxSpread: Option<nat>)
    requires s.curve == ComputeSwap && i < 2 && Swap(s, env, i, offer, belief, maxSpread).Ok?
    ensures Product(s.pools) <= Product(Swap(s, env, i, offer, belief, maxSpread).value.pools)
            <==> LosslessSwap(s, env, i, offer, belief, maxSpread)
  {
    if LosslessSwap(s, env, i, offer, belief, maxSpread) {
      ComputeSwapNeverLoses();
      SwapKeeps(s, env, i, offer, belief, maxSpread);
    } else {
      ComputeSwapLosesOtherwise();
      SwapFalls(s, env, i, offer, belief, maxSpread);
    }
  }

  lemma SwapFalls(s: Pair, env: Env, i: nat, offer: nat, belief: Option<nat>, maxSpread: Option<nat>)
    requires LosesOtherwise(s.curve) && i < 2 && Swap(s, env, i, offer, belief, maxSpread).Ok?
    requires !LosslessSwap(s, env, i, offer, belief, maxSpread)
    ensures Product(Swap(s, env, i, offer, belief, maxSpread).value.pools) < Product(s.pools)
  {
    var r := DoSwap(s, env, s.pools, i, offer, belief, maxSpread).value;
    DoSwapFalls(s, env, i, offer, belief, maxSpread, r);
    assert Swap(s, env, i, offer, belief, maxSpread) == Settle(s, i, offer, r);
    ProductFalls(s.pools, i, offer, r.paid + r.fee);
  }

  lemma DoSwapFalls(s: Pair, env: Env, i: nat, offer: nat, belief: Option<nat>, maxSpread: Option<nat>, r: SwapResult)
    requires LosesOtherwise(s.curve) && i < 2 && DoSwap(s, env, s.pools, i, offer, belief, maxSpread) == Ok(r)
    requires !LosslessSwap(s, env, i, offer, belief, maxSpread)
    ensures !KeepsProduct(s.pools[i], s.pools[1 - i], offer, r.paid + r.fee)
  {
    var o := s.curve(s.pools[i], s.pools[1 - i], offer, s.rate).value;
    CheckedSwapPays(s.feeRate, env, s.pools, i, offer, belief, maxSpread, o);
    assert Takes(s.curve, s.pools[i], s.pools[1 - i], offer, s.rate, r.fee);
  }

  lemma ProductFalls(pools: Pools, i: nat, offer: nat, out: nat)
    requires i < 2 && out <= pools[1 - i] && !KeepsProduct(pools[i], pools[1 - i], offer, out)
    ensures Product(AfterSwap(pools, i, offer, out)) < Product(pools)
  {
  }

  /** A deposit of one asset neither creates nor destroys tokens, and is a deposit of two assets on
      top of a swap: the pools end up with what they held plus the amount sent, minus the protocol
      fee on the swapped half. */
  lemma ProvideOneConserves(s: Pair, env: Env, i: nat, amount: nat, tolerance: Option<nat>, r: SwapResult)
    requires i < 2 && DoSwap(s, env, s.pools, i, amount / 2, None, None) == Ok(r) && r.paid + r.fee <= s.pools[1 - i]
    requires ProvideOne(s, env, i, amount, tolerance).Ok?
    ensures var t := ProvideOne(s, env, i, amount, tolerance).value;
            && t.pools[i] == s.pools[i] + amount
            && t.pools[1 - i] == s.pools[1 - i] - r.fee
  {
  }

  lemma ProvideOneKeeps(s: Pair, env: Env, i: nat, amount: nat, tolerance: Option<nat>)
    requires Sound(s) && i < 2 && ProvideOne(s, env, i, amount, tolerance).Ok?
    requires LosslessSwap(s, env, i, amount / 2, None, None)
    ensures var t := ProvideOne(s, env, i, amount, tolerance).value;
            t.supply >= MINIMUM_LIQUIDITY && Sound(t) && (s.supply > 0 ==> Backed(s, t))
  {
    var r := DoSwap(s, env, s.pools, i, amount / 2, None, None).value;
    DoSwapKeepsProduct(s, env, i, amount / 2, None, None, r);
    ProductAfter(s.pools, i, amount / 2, r.paid + r.fee);
    var halves := SwapHalf(s, env, i, amount).value;
    DepositKeeps(s, halves.pools, halves.deposit, tolerance);
  }

  lemma ProvideKeeps(s: Pair, env: Env, assets: seq<Offer>, tolerance: Option<nat>)
    requires Sound(s) && Provide(s, env, assets, tolerance).Ok?
    requires LosslessEvent(s, ProvideEvent(env, assets, tolerance))
    ensures var t := Provide(s, env, assets, tolerance).value;
            t.supply >= MINIMUM_LIQUIDITY && Sound(t) && (s.supply > 0 ==> Backed(s, t))
  {
    if |assets| == 1 {
      ProvideOneKeeps(s, env, assets[0].info, assets[0].amount, tolerance);
    } else {
      var i := assets[0].info;
      DepositKeeps(s, s.pools, s.pools[i := assets[0].amount][1 - i := assets[1].amount], tolerance);
    }
  }

  lemma WithdrawKeeps(s: Pair, amount: nat)
    requires Sound(s) && Withdraw(s, amount).Ok?
    ensures Sound(Withdraw(s, amount).value)
    ensures s.supply > 0 ==>
              Backed(s, Withdraw(s, amount).value) && Withdraw(s, amount).value.supply >= MINIMUM_LIQUIDITY
  {
    if s.supply > 0 {
      var t := Withdraw(s, amount).value;
      RefundProportion(s.pools[0], amount, s.supply);
      RefundProportion(s.pools[1], amount, s.supply);
      TwoProportions(s.pools[0], s.pools[1], t.pools[0], t.pools[1], s.supply, t.supply);
      BackedSquares(Product(s.pools), Product(t.pools), s.supply, t.supply);
    }
  }

  lemma SameSupplyKeeps(p: nat, q: nat, supply: nat)
    requires p <= q
    ensures Grows(p, supply, q, supply)
    ensures Covers(p, supply) ==> Covers(q, supply)
  {
    MulMono(p, q, supply * supply);
  }

  lemma TransferKeeps(p: Pools, d: Pools)
    ensures Product(p) <= Product([p[0] + d[0], p[1] + d[1]])
  {
    MulMono(p[0], p[0] + d[0], p[1]);
    MulMono(p[1], p[1] + d[1], p[0] + d[0]);
  }

  /** Every event keeps the invariant, and no event lowers the product behind an LP token. */
  lemma StepKeeps(s: Pair, e: Event)
    requires Sound(s) && LosslessEvent(s, e)
    ensures Sound(Step(s, e))
    ensures s.supply > 0 ==> Step(s, e).supply > 0 && Backed(s, Step(s, e))
  {
    var t := Step(s, e);
    if Execute(s, e).Err? {
      SameSupplyKeeps(Product(s.pools), Product(t.pools), s.supply);
    } else {
      match e
      case SwapEvent(env, i, offer, belief, maxSpread) =>
        SwapKeeps(s, env, if i == 0 then 0 else 1, offer, belief, maxSpread);
        SameSupplyKeeps(Product(s.pools), Product(t.pools), s.supply);
      case ProvideEvent(env, assets, tolerance) =>
        ProvideKeeps(s, env, assets, tolerance);
      case WithdrawEvent(amount) =>
        WithdrawKeeps(s, amount);
      case Transfer(d) =>
        TransferKeeps(s.pools, d);
        SameSupplyKeeps(Product(s.pools), Product(t.pools), s.supply);
      case _ =>
        SameSupplyKeeps(Product(s.pools), Product(t.pools), s.supply);
    }
  }

  // ---- runs ----

  /** No swap along the run loses a remainder. */
  predicate LosslessRun(s: Pair, events: seq<Event>) {
    events == []
    || (LosslessRun(s, events[..|events| - 1])
        && LosslessEvent(Run(s, events[..|events| - 1]), events[|events| - 1]))
  }

  lemma GrowsTransitive(p: nat, s: nat, q: nat, t: nat, r: nat, u: nat)
    requires t > 0 && Grows(p, s, q, t) && Grows(q, t, r, u)
    ensures Grows(p, s, r, u)
  {
    var s2, t2, u2 := s * s, t * t, u * u;
    assert t2 > 0;
    MulMono(p * t2, q * s2, u2);
    MulMono(q * u2, r * t2, s2);
    assert p * t2 * u2 == p * u2 * t2 && q * s2 * u2 == q * u2 * s2 && r * t2 * s2 == r * s2 * t2;
    CancelFactor(p * u2, r * s2, t2);
  }

  lemma CancelFactor(a: nat, b: nat, c: nat)
    requires c > 0 && a * c <= b * c
    ensures a <= b
  {
    if a > b {
      MulMono(b + 1, a, c);
      assert false;
    }
  }

  /** Over every run without a lost remainder: from a sound state with LP tokens, the supply never falls below 1000, the
      product of the pools stays at least the square of the supply, and what stands behind one LP
      token never falls. */
  lemma {:induction false} EveryRunIsBacked(s: Pair, events: seq<Event>)
    requires Sound(s) && LosslessRun(s, events)
    ensures Sound(Run(s, events))
    ensures s.supply > 0 ==> Run(s, events).supply >= MINIMUM_LIQUIDITY && Backed(s, Run(s, events))
  {
    if events == [] {
      SameSupplyKeeps(Product(s.pools), Product(s.pools), s.supply);
    } else {
      var before := events[..|events| - 1];
      EveryRunIsBacked(s, before);
      var t := Run(s, before);
      StepKeeps(t, events[|events| - 1]);
      if s.supply > 0 {
        GrowsTransitive(Product(s.pools), s.supply, Product(t.pools), t.supply,
                        Product(Run(s, events).pools), Run(s, events).supply);
      }
    }
  }

  // ---- round trips ----

  /** Depositing and withdrawing the same LP tokens at once never returns more than was put in, of
      either asset. */
  lemma DepositThenWithdraw(s: Pair, d: Pools, tolerance: Option<nat>, i: nat)
    requires s.supply > 0 && i < 2 && Deposit(s, s.pools, d, tolerance).Ok?
    ensures var t := Deposit(s, s.pools, d, tolerance).value;
            Refund(t.pools[i], t.held - s.held, t.supply) <= d[i]
  {
    MintedIs(s, s.pools, d, tolerance);
    var t := Deposit(s, s.pools, d, tolerance).value;
    var share := t.held - s.held;
    RefundProportion(t.pools[i], share, t.supply);
    ShareIsWorth(s.pools[i], d[i], s.supply, share);
    CancelFactor(Refund(t.pools[i], share, t.supply), d[i], t.supply);
  }

  lemma ShareIsWorth(pool: nat, d: nat, supply: nat, share: nat)
    requires pool > 0 && share <= Floor(d * supply, pool)
    ensures (pool + d) * share <= d * (supply + share)
  {
    MulMono(share, Floor(d * supply, pool), pool);
    assert (pool + d) * share == share * pool + d * share;
    assert d * (supply + share) == d * supply + d * share;
  }
}
