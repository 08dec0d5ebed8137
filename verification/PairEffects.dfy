/** What each message moves: deposits of two assets, swaps and withdrawals token by token, the fee and
    spread of a swap, and which swaps and deposits the tolerances refuse. */
module PairEffects {
  import opened FixedPoint
  import opened Results
  import opened PairMath
  import opened PairPool

  // ---- deposits ----

  /** The amount offered of the asset with index `i`. */
  function Offered(assets: seq<Offer>, i: nat): nat {
    if assets == [] then 0
    else
      var n := |assets| - 1;
      Offered(assets[..n], i) + if assets[n].info == i then assets[n].amount else 0
  }

  lemma OfferedOfTwo(assets: seq<Offer>, i: nat)
    requires |assets| == 2
    ensures Offered(assets, i) == (if assets[0].info == i then assets[0].amount else 0)
                                  + (if assets[1].info == i then assets[1].amount else 0)
  {
    assert assets[..1][..0] == [];
    assert Offered(assets[..1], i) == if assets[0].info == i then assets[0].amount else 0;
  }

  /** The LP tokens for a deposit of `d` on top of `pools`: the first deposit mints the root of the product,
      of which 1000 stay in the contract; a later one the most that both amounts are enough for. */
  ghost predicate FairShare(s: Pair, t: Pair, pools: Pools, d: Pools) {
    if s.supply == 0 then
      && t.supply * t.supply <= d[0] * d[1] < (t.supply + 1) * (t.supply + 1)
      && t.held == s.held + t.supply - MINIMUM_LIQUIDITY
    else
      && t.supply - s.supply == t.held - s.held >= 0
      && forall k: nat :: k <= t.held - s.held <==> Affords(pools, d, s.supply, k)
  }

  lemma DepositMints(s: Pair, pools: Pools, d: Pools, tolerance: Option<nat>)
    requires Deposit(s, pools, d, tolerance).Ok?
    ensures var t := Deposit(s, pools, d, tolerance).value;
            && t == s.(pools := t.pools, supply := t.supply, held := t.held)
            && t.pools[0] == pools[0] + d[0] && t.pools[1] == pools[1] + d[1]
            && FairShare(s, t, pools, d)
  {
    MintedIs(s, pools, d, tolerance);
    if s.supply > 0 {
      var m := Minted(s, pools, d, tolerance).value;
      forall k: nat ensures k <= m.0 <==> Affords(pools, d, s.supply, k) {
        MintedIsLargest(s, pools, d, tolerance, k);
      }
    }
  }

  /** Both amounts of the list, each under the index of its own asset. */
  function BothOffered(assets: seq<Offer>): Pools {
    [Offered(assets, 0), Offered(assets, 1)]
  }

  lemma ProvideIsDeposit(s: Pair, env: Env, assets: seq<Offer>, tolerance: Option<nat>)
    requires |assets| == 2 && Provide(s, env, assets, tolerance).Ok?
    ensures Provide(s, env, assets, tolerance) == Deposit(s, s.pools, BothOffered(assets), tolerance)
  {
    ProvideTwoNeeds(s, env, assets, tolerance);
    OfferedOfTwo(assets, 0);
    OfferedOfTwo(assets, 1);
    var i := assets[0].info;
    assert s.pools[i := assets[0].amount][1 - i := assets[1].amount] == BothOffered(assets);
  }

  /** A deposit of two assets, listed in either order: the pool of each grows by exactly the amount offered
      of it, and the LP tokens are the fair share of those amounts. */
  lemma ProvideTwo(s: Pair, env: Env, assets: seq<Offer>, tolerance: Option<nat>)
    requires |assets| == 2 && Provide(s, env, assets, tolerance).Ok?
    ensures var t := Provide(s, env, assets, tolerance).value;
            && (forall i | 0 <= i < 2 :: t.pools[i] == s.pools[i] + Offered(assets, i))
            && (forall j | 0 <= j < 2 :: assets[j].info < 2 && assets[j].amount == Offered(assets, assets[j].info) > 0)
            && FairShare(s, t, s.pools, BothOffered(assets))
  {
    ProvideTwoNeeds(s, env, assets, tolerance);
    OfferedOfTwo(assets, 0);
    OfferedOfTwo(assets, 1);
    ProvideIsDeposit(s, env, assets, tolerance);
    DepositMints(s, s.pools, BothOffered(assets), tolerance);
  }

  /** Which lists of two assets are refused before anything is computed. */
  lemma ProvideTwoNeeds(s: Pair, env: Env, assets: seq<Offer>, tolerance: Option<nat>)
    requires |assets| == 2 && Provide(s, env, assets, tolerance).Ok?
    ensures !s.frozen && assets[0].info < 2 && assets[1].info == 1 - assets[0].info
    ensures assets[0].amount > 0 && assets[1].amount > 0
  {
    assert assets[0] in assets && assets[1] in assets;
    assert assets[0].info != assets[1].info;
  }

  // ---- swaps ----

  /** A swap moves exactly the offer in, and the payout and the fee out. */
  lemma SwapMoves(s: Pair, env: Env, i: nat, offer: nat, belief: Option<nat>, maxSpread: Option<nat>)
    requires i < 2 && Swap(s, env, i, offer, belief, maxSpread).Ok?
    ensures !s.frozen && s.tradingStarts <= env.now
    ensures DoSwap(s, env, s.pools, i, offer, belief, maxSpread).Ok?
    ensures var t := Swap(s, env, i, offer, belief, maxSpread).value;
            var r := DoSwap(s, env, s.pools, i, offer, belief, maxSpread).value;
            && t == s.(pools := t.pools)
            && t.pools[i] == s.pools[i] + offer
            && t.pools[1 - i] + r.paid + r.fee == s.pools[1 - i]
  {
  }

  /** `part` is the given rate of `whole`, rounded down. */
  predicate IsPart(part: nat, whole: nat, rate: nat) {
    part * ONE <= whole * rate < (part + 1) * ONE
  }

  /** The commission and the fee: the rate times the gross return, and the protocol's rate times that, each
      rounded down; without a fee address there is no fee. */
  lemma SwapFees(s: Pair, env: Env, pools: Pools, i: nat, offer: nat, belief: Option<nat>, maxSpread: Option<nat>)
    requires s.curve == ComputeSwap && i < 2 && DoSwap(s, env, pools, i, offer, belief, maxSpread).Ok?
    ensures var r := DoSwap(s, env, pools, i, offer, belief, maxSpread).value;
            && IsPart(r.commission, r.paid + r.commission, s.rate)
            && (if env.feeOn then IsPart(r.fee, r.commission, s.feeRate) else r.fee == 0)
  {
    var computed := s.curve(pools[i], pools[1 - i], offer, s.rate);
    CommissionIs(pools[i], pools[1 - i], offer, s.rate);
    assert computed.Ok? && DoSwap(s, env, pools, i, offer, belief, maxSpread)
                           == CheckedSwap(s.feeRate, env, pools, i, offer, belief, maxSpread, computed.value);
    FeeIs(s.feeRate, env, pools, i, offer, belief, maxSpread, computed.value);
  }

  lemma CommissionIs(x: nat, y: nat, a: nat, rate: nat)
    ensures var r := ComputeSwap(x, y, a, rate);
            r.Ok? ==> IsPart(r.value.commission, r.value.paid + r.value.commission, rate)
  {
  }

  lemma FeeIs(feeRate: Rate, env: Env, pools: Pools, i: nat, offer: nat, belief: Option<nat>,
              maxSpread: Option<nat>, o: SwapOutcome)
    requires i < 2 && CheckedSwap(feeRate, env, pools, i, offer, belief, maxSpread, o).Ok?
    ensures var r := CheckedSwap(feeRate, env, pools, i, offer, belief, maxSpread, o).value;
            && r.paid == o.paid && r.commission == o.commission && r.spread == o.spread
            && (if env.feeOn then IsPart(r.fee, r.commission, feeRate) else r.fee == 0)
  {
    PartOfCommission(o.commission, feeRate);
  }

  lemma PartOfCommission(commission: nat, rate: nat)
    ensures IsPart(ProtocolFee(commission, rate), commission, rate)
  {
  }

  /** `worth` is an amount `a` at the price of `y` over `x`, which is rounded down to 18 decimals first. */
  predicate IsWorth(worth: nat, x: nat, y: nat, a: nat) {
    worth * x <= a * y && a * y * ONE < worth * x * ONE + ONE * x + a * x
  }

  /** What an offer is worth at the price of the pools. */
  function Worth(x: nat, y: nat, a: nat): nat
    requires x > 0
  {
    Scale(a, Ratio(y, x))
  }

  /** The spread: how far the gross return is below what the offer is worth at the price of the pools. */
  lemma SpreadIs(x: nat, y: nat, a: nat, rate: nat, o: SwapOutcome)
    requires ComputeSwap(x, y, a, rate) == Ok(o)
    ensures x > 0 && o.paid + o.commission + o.spread == Worth(x, y, a)
    ensures IsWorth(Worth(x, y, a), x, y, a)
  {
    WorthIs(x, y, a);
  }

  lemma WorthIs(x: nat, y: nat, a: nat)
    requires x > 0
    ensures IsWorth(Worth(x, y, a), x, y, a)
  {
    AtPrice(x, y, a, Ratio(y, x), Worth(x, y, a));
  }

  lemma AtPrice(x: nat, y: nat, a: nat, price: nat, worth: nat)
    requires x > 0 && price * x <= y * ONE < price * x + x && worth * ONE <= a * price < worth * ONE + ONE
    ensures worth * x <= a * y && a * y * ONE < worth * x * ONE + ONE * x + a * x
  {
    AtPriceBelow(x, y, a, price, worth);
    AtPriceAbove(x, y, a, price, worth);
  }

  lemma AtPriceBelow(x: nat, y: nat, a: nat, price: nat, worth: nat)
    requires price * x <= y * ONE && worth * ONE <= a * price
    ensures worth * x <= a * y
  {
    MulMono(worth * ONE, a * price, x);
    MulMono(price * x, y * ONE, a);
    assert worth * ONE * x == worth * x * ONE;
    assert a * price * x == a * (price * x);
    assert a * (y * ONE) == a * y * ONE;
  }

  lemma AtPriceAbove(x: nat, y: nat, a: nat, price: nat, worth: nat)
    requires x > 0 && y * ONE < price * x + x && a * price < worth * ONE + ONE
    ensures a * y * ONE < worth * x * ONE + ONE * x + a * x
  {
    MulMono(y * ONE, price * x + x, a);
    assert a * (y * ONE) == a * y * ONE;
    assert a * (price * x + x) == a * price * x + a * x;
    MulMono(a * price + 1, worth * ONE + ONE, x);
    assert (worth * ONE + ONE) * x == worth * x * ONE + ONE * x;
    assert (a * price + 1) * x == a * price * x + x;
  }

  /** A reverse quote: the ask with its commission added back is what the commission is taken of, and
      taking it off again leaves the ask but for the roundings; the spread is how far it is below the
      worth of the quoted offer. */
  lemma QuoteIs(x: nat, y: nat, b: nat, rate: nat, o: SwapOutcome)
    requires ComputeOffer(x, y, b, rate) == Ok(o)
    ensures x > 0 && rate < ONE && b > 0
    ensures IsPart(o.commission, BeforeCommission(b, rate), rate)
    ensures o.spread == if Worth(x, y, o.paid) < BeforeCommission(b, rate) then 0
                        else Worth(x, y, o.paid) - BeforeCommission(b, rate)
    ensures var kept := BeforeCommission(b, rate) * (ONE - rate); (b - 1) * ONE - b < kept <= b * ONE
  {
    var keep, inverse := ONE - rate, Floor(ONE * ONE, ONE - rate);
    PartOfCommission(BeforeCommission(b, rate), rate);
    BackAndForth(BeforeCommission(b, rate), b, inverse, keep);
    LossOfBoth(BeforeCommission(b, rate), b, inverse, keep);
  }

  /** The limit on the spread in force. */
  function Limit(maxSpread: Option<nat>): nat {
    if maxSpread.Some? then maxSpread.value else DEFAULT_SLIPPAGE
  }

  lemma AboveLimit(part: nat, whole: nat, limit: nat)
    requires whole > 0
    ensures Ratio(part, whole) > limit <==> part * ONE >= (limit + 1) * whole
  {
    if part * ONE >= (limit + 1) * whole {
      FloorAtLeast(part * ONE, whole, limit + 1);
    } else {
      FloorAtMost(part * ONE, whole, limit);
    }
  }

  /** Without a belief price a swap passes exactly if the limit is allowed, the swap is worth something, and
      the spread is no larger a part of what it is worth than the limit, in steps of 10^-18. */
  lemma SpreadRefusedIff(maxSpread: Option<nat>, offer: nat, gross: nat, spread: nat)
    ensures CheckSpread(None, maxSpread, offer, gross, spread).Ok?
            <==> Limit(maxSpread) <= MAX_SLIPPAGE && gross + spread > 0
                 && spread * ONE < (Limit(maxSpread) + 1) * (gross + spread)
  {
    if gross + spread > 0 {
      AboveLimit(spread, gross + spread, Limit(maxSpread));
    }
  }

  /** What an offer is worth at a belief price: offer over price, rounded down. */
  function Expected(offer: nat, belief: nat): nat
    requires belief > 0
  {
    Scale(offer, Floor(ONE * ONE, belief))
  }

  lemma ExpectedIs(offer: nat, belief: nat)
    requires belief > 0
    ensures var e := Expected(offer, belief);
            e * belief <= offer * ONE && offer * ONE * ONE < (e + 1) * ONE * belief + offer * belief
  {
    var inverse := Floor(ONE * ONE, belief);
    assert ONE * ONE < inverse * belief + belief;
    ExpectedBounds(offer, belief, inverse, Expected(offer, belief));
  }

  lemma ExpectedBounds(offer: nat, belief: nat, inverse: nat, e: nat)
    requires belief > 0 && inverse * belief <= ONE * ONE < inverse * belief + belief
    requires e * ONE <= offer * inverse < e * ONE + ONE
    ensures e * belief <= offer * ONE && offer * ONE * ONE < (e + 1) * ONE * belief + offer * belief
  {
    MulMono(e * ONE, offer * inverse, belief);
    MulMono(inverse * belief, ONE * ONE, offer);
    assert e * ONE * belief == e * belief * ONE;
    assert offer * inverse * belief == offer * (inverse * belief);
    assert offer * (ONE * ONE) == offer * ONE * ONE;
    MulMono(ONE * ONE, inverse * belief + belief, offer);
    assert offer * (inverse * belief + belief) == offer * inverse * belief + offer * belief;
    MulMono(offer * inverse + 1, (e + 1) * ONE, belief);
    assert (offer * inverse + 1) * belief == offer * inverse * belief + belief;
  }

  /** With one, exactly if the limit is allowed, the price is not zero, and the gross return is no further
      below what the offer is worth at that price. */
  lemma BeliefRefusedIff(belief: nat, maxSpread: Option<nat>, offer: nat, gross: nat, spread: nat)
    ensures CheckSpread(Some(belief), maxSpread, offer, gross, spread).Ok?
            <==> Limit(maxSpread) <= MAX_SLIPPAGE && belief > 0
                 && (gross < Expected(offer, belief) ==>
                       (Expected(offer, belief) - gross) * ONE < (Limit(maxSpread) + 1) * Expected(offer, belief))
  {
    if belief > 0 && gross < Expected(offer, belief) {
      AboveLimit(Expected(offer, belief) - gross, Expected(offer, belief), Limit(maxSpread));
    }
  }

  /** So every swap that goes through has passed that check on what it pays before commission. */
  lemma SwapPassesCheck(s: Pair, env: Env, pools: Pools, i: nat, offer: nat, belief: Option<nat>,
                        maxSpread: Option<nat>)
    requires i < 2 && DoSwap(s, env, pools, i, offer, belief, maxSpread).Ok?
    ensures var r := DoSwap(s, env, pools, i, offer, belief, maxSpread).value;
            CheckSpread(belief, maxSpread, offer, r.paid + r.commission, r.spread).Ok?
  {
  }

  // ---- slippage of a deposit ----

  lemma ScaledRatio(p: nat, q: nat, keep: nat)
    requires q > 0
    ensures Scale(Ratio(p, q), keep) * q <= p * keep
  {
    var ratio := Ratio(p, q);
    var scaled := Scale(ratio, keep);
    MulMono(scaled * ONE, ratio * keep, q);
    MulMono(ratio * q, p * ONE, keep);
    assert scaled * ONE * q == scaled * q * ONE;
    assert ratio * keep * q == ratio * q * keep;
    assert p * ONE * keep == p * keep * ONE;
  }

  /** A deposit in the proportion of the pools is never refused for its slippage, nor is one that is off by
      no more than the tolerance on either side. */
  lemma WithinTolerance(tolerance: Option<nat>, d: Pools, pools: Pools)
    requires d[0] > 0 && d[1] > 0 && pools[0] > 0 && pools[1] > 0 && Limit(tolerance) <= MAX_SLIPPAGE
    requires var keep: nat := ONE - Limit(tolerance);
             d[0] * keep * pools[1] <= pools[0] * ONE * d[1] && d[1] * keep * pools[0] <= pools[1] * ONE * d[0]
    ensures CheckSlippage(tolerance, d, pools).Ok?
  {
    var keep: nat := ONE - Limit(tolerance);
    OneSide(d[0], d[1], pools[0], pools[1], keep);
    OneSide(d[1], d[0], pools[1], pools[0], keep);
  }

  lemma OneSide(p: nat, q: nat, x: nat, y: nat, keep: nat)
    requires q > 0 && y > 0 && p * keep * y <= x * ONE * q
    ensures Scale(Ratio(p, q), keep) <= Ratio(x, y)
  {
    var scaled := Scale(Ratio(p, q), keep);
    ScaledRatio(p, q, keep);
    MulMono(scaled * q, p * keep, y);
    assert scaled * q * y == scaled * y * q;
    CancelFactor(scaled * y, x * ONE, q);
    FloorAtLeast(x * ONE, y, scaled);
  }

  /** One that goes through is within the tolerance on both sides, up to two units of 10^-18 of the prices. */
  lemma OutsideTolerance(tolerance: Option<nat>, d: Pools, pools: Pools)
    requires d[0] > 0 && d[1] > 0 && CheckSlippage(tolerance, d, pools).Ok?
    ensures Limit(tolerance) <= MAX_SLIPPAGE && pools[0] > 0 && pools[1] > 0
    ensures var keep: nat := ONE - Limit(tolerance);
            && d[0] * keep * pools[1] < pools[0] * ONE * d[1] + 2 * (pools[1] * d[1])
            && d[1] * keep * pools[0] < pools[1] * ONE * d[0] + 2 * (pools[0] * d[0])
  {
    var keep: nat := ONE - Limit(tolerance);
    OtherSide(d[0], d[1], pools[0], pools[1], keep);
    OtherSide(d[1], d[0], pools[1], pools[0], keep);
  }

  lemma OtherSide(p: nat, q: nat, x: nat, y: nat, keep: nat)
    requires q > 0 && y > 0 && keep <= ONE && Scale(Ratio(p, q), keep) <= Ratio(x, y)
    ensures p * keep * y < x * ONE * q + 2 * (y * q)
  {
    var ratio, price := Ratio(p, q), Ratio(x, y);
    var scaled := Scale(ratio, keep);
    BelowScaled(p, q, keep, ratio, scaled);
    PriceTimes(scaled, price, x, y, q);
    TimesLess(p * keep, scaled, q, y);
  }

  lemma PriceTimes(scaled: nat, price: nat, x: nat, y: nat, q: nat)
    requires scaled <= price && price * y <= x * ONE
    ensures scaled * y * q <= x * ONE * q
  {
    MulMono(scaled, price, y);
    MulMono(scaled * y, x * ONE, q);
  }

  lemma TimesLess(part: nat, scaled: nat, q: nat, y: nat)
    requires y > 0 && part < scaled * q + 2 * q
    ensures part * y < scaled * y * q + 2 * (y * q)
  {
    MulMono(part + 1, scaled * q + 2 * q, y);
    assert (part + 1) * y == part * y + y;
    assert (scaled * q + 2 * q) * y == scaled * y * q + 2 * (y * q);
  }

  lemma BelowScaled(p: nat, q: nat, keep: nat, ratio: nat, scaled: nat)
    requires q > 0 && keep <= ONE && p * ONE < ratio * q + q && ratio * keep < scaled * ONE + ONE
    ensures p * keep < scaled * q + 2 * q
  {
    MulMono(p * ONE, ratio * q + q, keep);
    assert (ratio * q + q) * keep == ratio * keep * q + q * keep;
    MulMono(ratio * keep, scaled * ONE + ONE, q);
    assert (scaled * ONE + ONE) * q == scaled * q * ONE + q * ONE;
    MulMono(keep, ONE, q);
    assert p * ONE * keep == p * keep * ONE;
    MulMono(ratio * keep + 1, scaled * ONE + ONE, q);
    assert (ratio * keep + 1) * q == ratio * keep * q + q;
  }

  // ---- withdrawals and the switches ----

  /** A withdrawal burns exactly the LP tokens sent, and pays out exactly the refund of each pool. */
  lemma WithdrawMoves(s: Pair, amount: nat)
    requires Withdraw(s, amount).Ok?
    ensures var t := Withdraw(s, amount).value;
            && t == s.(pools := t.pools, supply := t.supply, held := t.held)
            && t.supply == s.supply - amount && t.held == s.held - amount
            && forall i | 0 <= i < 2 :: t.pools[i] + Refund(s.pools[i], amount, s.supply) == s.pools[i]
  {
  }

  /** While the pair is frozen nothing can be swapped or deposited and no fee changes; LP tokens can still be
      withdrawn as before. */
  lemma FrozenStops(s: Pair, e: Event)
    requires s.frozen
    ensures e.SwapEvent? || e.ProvideEvent? || e.UpdateFees? ==> Execute(s, e).Err?
    ensures e.WithdrawEvent? ==> (Execute(s, e).Ok? <==> Execute(s.(frozen := false), e).Ok?)
  {
  }

  /** A deposit on top of pools that are not empty is taken exactly if it has something of both assets and, as
      the first one, a product of at least 1001 * 1001 or, later, passes the slippage check. */
  lemma DepositSucceedsIff(s: Pair, pools: Pools, d: Pools, tolerance: Option<nat>)
    ensures Deposit(s, pools, d, tolerance).Ok?
            <==> d[0] > 0 && d[1] > 0
                 && (if s.supply == 0 then (MINIMUM_LIQUIDITY + 1) * (MINIMUM_LIQUIDITY + 1) <= d[0] * d[1]
                     else CheckSlippage(tolerance, d, pools).Ok?)
  {
    if s.supply == 0 {
      RootAbove(d[0] * d[1], MINIMUM_LIQUIDITY + 1);
    }
  }

  lemma RootAbove(n: nat, k: nat)
    ensures k <= ISqrt(n) <==> k * k <= n
  {
    var r := ISqrt(n);
    if k <= r {
      MulMono(k, r, k);
      MulMono(k, r, r);
    } else {
      MulMono(r + 1, k, r + 1);
      MulMono(r + 1, k, k);
    }
  }

  /** From a sound pool every withdrawal of LP tokens that somebody holds goes through. */
  lemma WithdrawSucceedsIff(s: Pair, amount: nat)
    requires Sound(s) && s.supply > 0
    ensures Withdraw(s, amount).Ok? <==> amount <= s.held
  {
    if amount <= s.held {
      BothHeld(s.pools[0], s.pools[1], s.supply);
      RefundBelow(s.pools[0], amount, s.supply);
      RefundBelow(s.pools[1], amount, s.supply);
    }
  }

  lemma BothHeld(x: nat, y: nat, supply: nat)
    requires supply > 0 && Covers(x * y, supply)
    ensures x > 0 && y > 0
  {
    MulMono(1, supply, supply);
  }

  lemma RefundBelow(pool: nat, amount: nat, supply: nat)
    requires amount < supply && pool > 0
    ensures Refund(pool, amount, supply) < pool
  {
    var ratio := Ratio(amount, supply);
    FloorAtMost(amount * ONE, supply, ONE - 1) by { MulMono(amount, supply - 1, ONE); }
    MulMono(ratio, ONE - 1, pool);
    assert pool * (ONE - 1) == pool * ONE - pool;
    FloorAtMost(pool * ratio, ONE, pool - 1);
  }

  /** The other events: tokens sent add to the pools, the switch is set as said, and the two rates are
      replaced, each by its own. */
  lemma EventsSet(s: Pair, d: Pools, frozen: bool, rate: Rate, feeRate: Rate)
    ensures Execute(s, Transfer(d)) == Ok(s.(pools := [s.pools[0] + d[0], s.pools[1] + d[1]]))
    ensures Execute(s, Freeze(frozen)) == Ok(s.(frozen := frozen))
    ensures !s.frozen ==> Execute(s, UpdateFees(rate, feeRate)).Ok?
    ensures var r := Execute(s, UpdateFees(rate, feeRate));
            r.Ok? ==> r.value.rate == rate && r.value.feeRate == feeRate
                      && r.value == s.(rate := r.value.rate, feeRate := r.value.feeRate)
  {
  }
}
