/** The arithmetic of the constant-product pair: a swap, the reverse quote and the protocol fee. */
module PairMath {
  import opened FixedPoint
  import opened Results

  /** What a swap pays out, how far that is from the pool's price, and the commission kept. */
  datatype SwapOutcome = SwapOutcome(paid: nat, spread: nat, commission: nat)

  /** What the ask pool keeps of a swap, before commission: the constant product over the grown
      offer pool, floored to 18 decimals and then rounded up to a whole amount. */
  function AskKept(x: nat, y: nat, a: nat): nat
    requires x + a > 0
  {
    Ceil(Ratio(x * y, x + a), ONE)
  }

  /** The return before commission. */
  function Gross(x: nat, y: nat, a: nat): nat
    requires x + a > 0
  {
    var price := Ratio(x * y, x + a);
    if price <= y * ONE then Floor(y * ONE - price, ONE) else 0
  }

  /** `compute_swap` on an offer pool `x`, an ask pool `y` and an offer `a`. */
  function ComputeSwap(x: nat, y: nat, a: nat, rate: nat): Result<SwapOutcome> {
    if x == 0 || y == 0 then Err(EmptyPool)
    else if a == 0 then Err(InvalidZeroAmount)
    else
      var gross := Gross(x, y, a);
      var spread :- Minus(Scale(a, Ratio(y, x)), gross);
      var commission := Scale(gross, rate);
      var paid :- Minus(gross, commission);
      Ok(SwapOutcome(paid, spread, commission))
  }

  /** `compute_offer_amount`: the offer, spread and commission quoted for an ask of `b`. */
  function ComputeOffer(x: nat, y: nat, b: nat, rate: nat): Result<SwapOutcome> {
    if x == 0 || y == 0 then Err(EmptyPool)
    else if b == 0 then Err(InvalidZeroAmount)
    else if rate >= ONE then Err(Overflow)
    else
      var before := BeforeCommission(b, rate);
      var left :- Minus(y, before);
      if left == 0 then Err(Overflow)
      else
        var offer :- Minus(Floor(x * y, left), x);
        var worth := Scale(offer, Ratio(y, x));
        Ok(SwapOutcome(offer, if worth < before then 0 else worth - before, Scale(before, rate)))
  }

  /** The ask amount with the commission added back, through the floored inverse of 1 - rate. */
  function BeforeCommission(b: nat, rate: nat): nat
    requires rate < ONE
  {
    Scale(b, Floor(ONE * ONE, ONE - rate))
  }

  /** `calculate_protocol_fee`, where a fee of zero is no fee. */
  function ProtocolFee(commission: nat, rate: nat): nat {
    Scale(commission, rate)
  }

  // ---- what the roundings come to ----

  /** `Gross` is what is left of the ask pool after `AskKept`; the subtraction of the floored
      decimal never underflows. */
  lemma GrossIsRest(x: nat, y: nat, a: nat)
    requires x + a > 0
    ensures Gross(x, y, a) + AskKept(x, y, a) == y
  {
    var n := x + a;
    var price := Ratio(x * y, n);
    assert price <= y * ONE by {
      assert x * y * ONE <= y * ONE * n by { assert y * ONE * n == x * y * ONE + y * ONE * a; Products(y * ONE, a); }
      FloorAtMost(x * y * ONE, n, y * ONE) by { assert (y * ONE + 1) * n == y * ONE * n + n; }
    }
    var kept := AskKept(x, y, a);
    CeilAtMost(price, ONE, y);
    FloorIs(y * ONE - price, ONE, y - kept);
  }

  lemma Products(a: nat, b: nat)
    ensures a * b >= 0
  {
  }

  /** The floored price of `k` whole units and a remainder. */
  lemma PriceParts(k: nat, r: nat, n: nat)
    requires r < n
    ensures Ratio(k * n + r, n) == k * ONE + Floor(r * ONE, n)
  {
    var part := Floor(r * ONE, n);
    assert (k * n + r) * ONE == k * ONE * n + r * ONE;
    assert (k * ONE + part) * n == k * ONE * n + part * n;
    assert (k * ONE + part + 1) * n == k * ONE * n + part * n + n;
    FloorIs((k * n + r) * ONE, n, k * ONE + part);
  }

  lemma CeilParts(k: nat, part: nat)
    requires part < ONE
    ensures Ceil(k * ONE + part, ONE) == if part == 0 then k else k + 1
  {
    if part == 0 {
      CeilAtMost(k * ONE, ONE, k);
    } else {
      CeilAtLeast(k * ONE + part, ONE, k + 1);
    }
  }

  lemma PartOfOne(r: nat, n: nat)
    requires r < n
    ensures Floor(r * ONE, n) < ONE
    ensures Floor(r * ONE, n) == 0 <==> r * ONE < n
  {
    FloorAtMost(r * ONE, n, ONE - 1) by { MulMono(r, n - 1, ONE); }
    if r * ONE < n {
      FloorIs(r * ONE, n, 0);
    } else {
      FloorAtLeast(r * ONE, n, 1);
    }
  }

  /** The exact quotient and remainder of the constant product over the grown pool. */
  lemma KeptByRemainder(x: nat, y: nat, a: nat)
    requires x + a > 0
    ensures var n := x + a; var k, r := x * y / n, x * y % n;
            AskKept(x, y, a) == if r * ONE < n then k else k + 1
  {
    var n, cp := x + a, x * y;
    var k, r := cp / n, cp % n;
    assert cp == k * n + r;
    PriceParts(k, r, n);
    PartOfOne(r, n);
    CeilParts(k, Floor(r * ONE, n));
  }

  /** There is a remainder, and it is lost to the 18 decimals of the price. */
  predicate RemainderLost(x: nat, y: nat, a: nat) {
    x + a > 0 && 0 < x * y % (x + a) * ONE < x + a
  }

  /** Flooring the price to 18 decimals before the subtraction gives exactly the pool-favouring
      round-up, unless the remainder is lost entirely: then, and only then, the trader gets one
      unit too much. */
  lemma KeptIsCeilIff(x: nat, y: nat, a: nat)
    requires x + a > 0
    ensures AskKept(x, y, a) == Ceil(x * y, x + a) <==> !RemainderLost(x, y, a)
    ensures AskKept(x, y, a) <= Ceil(x * y, x + a) <= AskKept(x, y, a) + 1
  {
    KeptByRemainder(x, y, a);
  }

  /** Up to 10^18 the remainder is never lost. */
  lemma SmallIsExact(x: nat, y: nat, a: nat)
    requires x + a <= ONE
    ensures !RemainderLost(x, y, a)
    ensures x + a > 0 ==> AskKept(x, y, a) == Ceil(x * y, x + a)
  {
    if x + a > 0 {
      KeptIsCeilIff(x, y, a);
    }
  }

  // ---- when a swap shrinks the product ----

  /** The pools after a swap: the offer goes in, the payout and the protocol fee come out. */
  lemma SwapProduct(x: nat, y: nat, a: nat, rate: nat, feeRate: nat)
    requires ComputeSwap(x, y, a, rate).Ok? && rate <= ONE && feeRate <= ONE
    ensures var o := ComputeSwap(x, y, a, rate).value;
            var out := o.paid + ProtocolFee(o.commission, feeRate);
            && out <= Gross(x, y, a) <= y
            && o.paid + o.commission == Gross(x, y, a)
            && (x * y - (x + a) * (y - out)) * ONE < x + a
            && (x + a <= ONE ==> x * y <= (x + a) * (y - out))
  {
    var o := ComputeSwap(x, y, a, rate).value;
    var n, kept := x + a, AskKept(x, y, a);
    GrossIsRest(x, y, a);
    ScaleShrinks(o.commission, feeRate);
    var out := o.paid + ProtocolFee(o.commission, feeRate);
    MulMono(kept, y - out, n);
    KeptByRemainder(x, y, a);
    KeptProduct(x * y, n, kept);
  }

  /** Paying out at most the gross return lowers the product exactly when it is the whole gross return
      and a remainder is lost to the 18 decimals. */
  lemma ProductFallsIff(x: nat, y: nat, a: nat, out: nat)
    requires x + a > 0 && out <= Gross(x, y, a)
    ensures Gross(x, y, a) <= y
    ensures (x + a) * (y - out) < x * y <==> out == Gross(x, y, a) && RemainderLost(x, y, a)
  {
    var kept := AskKept(x, y, a);
    GrossIsRest(x, y, a);
    KeptByRemainder(x, y, a);
    LeftAgainstQuotient(x * y, x + a, kept, y - out);
  }

  lemma LeftAgainstQuotient(cp: nat, n: nat, kept: nat, left: nat)
    requires n > 0 && kept <= left
    requires kept == if cp % n * ONE < n then cp / n else cp / n + 1
    ensures n * left < cp <==> left == kept && 0 < cp % n * ONE < n
  {
    var k, r := cp / n, cp % n;
    assert cp == n * k + r;
    assert n * (k + 1) == n * k + n;
    if left > k {
      MulMono(k + 1, left, n);
    }
  }

  /** A swap that lowers it: 10^18 + 1 and 2 in the pools, 10^18 offered, no commission. */
  lemma SwapThatLoses()
    ensures ComputeSwap(ONE + 1, 2, ONE, 0) == Ok(SwapOutcome(1, 0, 0))
    ensures (ONE + 1 + ONE) * (2 - 1) < (ONE + 1) * 2
  {
    assert (ONE + 1) * 2 == 1 * (ONE + 1 + ONE) + 1;
    SwapOfOne(ONE + 1, 1);
  }

  /** Against an ask pool of 2, offers that leave `r` units of the product over. */
  lemma SwapOfOne(x: nat, r: nat)
    requires ONE < x <= ONE + 2 && r * ONE < x + ONE && 2 * x == x + ONE + r
    ensures ComputeSwap(x, 2, ONE, 0) == Ok(SwapOutcome(1, 0, 0))
    ensures RemainderLost(x, 2, ONE) <==> r > 0
  {
    var n := x + ONE;
    assert x * 2 % n == r && x * 2 / n == 1 by { QuotientIs(x * 2, n, 1, r); }
    KeptByRemainder(x, 2, ONE);
    GrossIsRest(x, 2, ONE);
    FloorIs(2 * ONE, x, 1);
    FloorIs(ONE * 1, ONE, 1);
    FloorIs(1 * 0, ONE, 0);
  }

  lemma QuotientIs(n: nat, d: nat, q: nat, r: nat)
    requires r < d && n == q * d + r
    ensures n / d == q && n % d == r
  {
    FloorIs(n, d, q) by { assert (q + 1) * d == q * d + d; }
  }

  lemma ScaleShrinks(amount: nat, rate: nat)
    requires rate <= ONE
    ensures Scale(amount, rate) <= amount
  {
    MulMono(rate, ONE, amount);
    FloorAtMost(amount * rate, ONE, amount);
  }

  /** Taking in `a` and paying out `out` leaves the pools with at least the product they had. */
  predicate KeepsProduct(x: nat, y: nat, a: nat, out: nat) {
    out <= y && x * y <= (x + a) * (y - out)
  }

  /** The result of a swap on given pools, offer and commission rate. */
  type Curve = (nat, nat, nat, nat) -> Result<SwapOutcome>

  /** Whatever part of the commission leaves the pool, a swap leaves a product no smaller than it
      found, unless all of it leaves and a remainder is lost. */
  ghost predicate NeverLoses(curve: Curve) {
    forall x: nat, y: nat, a: nat, rate: nat, fee: nat {:trigger Allows(curve, x, y, a, rate, fee)}
      | Allows(curve, x, y, a, rate, fee) :: KeepsProduct(x, y, a, curve(x, y, a, rate).value.paid + fee)
  }

  /** The swap is answered, and taking `fee` of its commission does not cost the pool a lost remainder. */
  predicate Allows(curve: Curve, x: nat, y: nat, a: nat, rate: nat, fee: nat) {
    rate <= ONE && curve(x, y, a, rate).Ok? && Lossless(x, y, a, fee, curve(x, y, a, rate).value.commission)
  }

  predicate Lossless(x: nat, y: nat, a: nat, fee: nat, commission: nat) {
    fee < commission || (fee == commission && !RemainderLost(x, y, a))
  }

  lemma LessOut(x: nat, y: nat, a: nat, out: nat, less: nat)
    requires KeepsProduct(x, y, a, out) && less <= out
    ensures KeepsProduct(x, y, a, less)
  {
    MulMono(y - out, y - less, x + a);
  }

  /** The constant-product curve never loses. */
  lemma ComputeSwapNeverLoses()
    ensures NeverLoses(ComputeSwap)
  {
    forall x: nat, y: nat, a: nat, rate: nat, fee: nat | Allows(ComputeSwap, x, y, a, rate, fee)
      ensures KeepsProduct(x, y, a, ComputeSwap(x, y, a, rate).value.paid + fee)
    {
      SwapKeepsProductIff(x, y, a, rate, fee, ComputeSwap(x, y, a, rate).value);
    }
  }

  /** The condition is exact: an answered swap lowers the product if and only if all of its commission
      leaves the pool (there may be none) and a remainder is lost. */
  lemma SwapKeepsProductIff(x: nat, y: nat, a: nat, rate: nat, fee: nat, o: SwapOutcome)
    requires ComputeSwap(x, y, a, rate) == Ok(o) && rate <= ONE && fee <= o.commission
    ensures KeepsProduct(x, y, a, o.paid + fee) <==> Lossless(x, y, a, fee, o.commission)
  {
    ProductFallsIff(x, y, a, o.paid + fee);
  }

  /** Otherwise the curve does lose. */
  ghost predicate LosesOtherwise(curve: Curve) {
    forall x: nat, y: nat, a: nat, rate: nat, fee: nat {:trigger Takes(curve, x, y, a, rate, fee)}
      | Takes(curve, x, y, a, rate, fee) && KeepsProduct(x, y, a, curve(x, y, a, rate).value.paid + fee) ::
      Lossless(x, y, a, fee, curve(x, y, a, rate).value.commission)
  }

  predicate Takes(curve: Curve, x: nat, y: nat, a: nat, rate: nat, fee: nat) {
    rate <= ONE && curve(x, y, a, rate).Ok? && fee <= curve(x, y, a, rate).value.commission
  }

  lemma ComputeSwapLosesOtherwise()
    ensures LosesOtherwise(ComputeSwap)
  {
    forall x: nat, y: nat, a: nat, rate: nat, fee: nat
      | Takes(ComputeSwap, x, y, a, rate, fee) && KeepsProduct(x, y, a, ComputeSwap(x, y, a, rate).value.paid + fee)
      ensures Lossless(x, y, a, fee, ComputeSwap(x, y, a, rate).value.commission)
    {
      SwapKeepsProductIff(x, y, a, rate, fee, ComputeSwap(x, y, a, rate).value);
    }
  }

  lemma KeptProduct(cp: nat, n: nat, kept: nat)
    requires n > 0
    requires kept == if cp % n * ONE < n then cp / n else cp / n + 1
    ensures (cp - n * kept) * ONE < n
    ensures n <= ONE ==> cp <= n * kept
  {
    var k, r := cp / n, cp % n;
    assert cp == n * k + r;
    assert n * (k + 1) == n * k + n;
  }

  // ---- when a swap is answered at all ----

  /** With an offer pool of at most 10^18 the spread never underflows, whatever is offered. */
  lemma SwapAnswers(x: nat, y: nat, a: nat, rate: nat)
    requires 0 < x <= ONE && y > 0 && a > 0 && rate <= ONE
    ensures ComputeSwap(x, y, a, rate).Ok?
  {
    SpreadCovers(x, y, a);
    ScaleShrinks(Gross(x, y, a), rate);
  }

  lemma SpreadCovers(x: nat, y: nat, a: nat)
    requires 0 < x <= ONE && y > 0 && a > 0
    ensures Gross(x, y, a) <= Scale(a, Ratio(y, x))
  {
    var gross, price := Gross(x, y, a), Ratio(y, x);
    GrossTimes(x, y, a);
    if a * price < gross * ONE {
      SpreadStep(x, y * ONE, a, gross * ONE, price);
      if gross == 1 {
        LastUnit(y, a, price);
        assert false;
      } else {
        assert false;
      }
    }
    FloorAtLeast(a * price, ONE, gross);
  }

  /** The gross return exceeds the exact share of the ask pool by less than 10^-18. */
  lemma GrossTimes(x: nat, y: nat, a: nat)
    requires x > 0 && a > 0
    ensures Gross(x, y, a) * ONE * (x + a) < a * (y * ONE) + (x + a)
  {
    var n, kept := x + a, AskKept(x, y, a);
    GrossIsRest(x, y, a);
    KeptByRemainder(x, y, a);
    KeptProduct(x * y, n, kept);
    GrossFromKept(x, y, a, Gross(x, y, a), kept);
  }

  lemma GrossFromKept(x: nat, y: nat, a: nat, gross: nat, kept: nat)
    requires gross + kept == y && (x * y - (x + a) * kept) * ONE < x + a
    ensures gross * ONE * (x + a) < a * (y * ONE) + (x + a)
  {
    var n := x + a;
    assert gross * ONE * n == gross * n * ONE && a * (y * ONE) == a * y * ONE;
    assert gross * n == y * n - kept * n;
    assert y * n == y * x + a * y;
    assert gross * n - a * y == x * y - n * kept;
  }

  /** If the spread were short, the whole gross return (both in atomics) would be at most `x`. */
  lemma SpreadStep(x: nat, y: nat, a: nat, gross: nat, price: nat)
    requires x > 0 && a > 0
    requires gross * (x + a) < a * y + (x + a)
    requires y < price * x + x && a * price < gross
    ensures gross <= x
  {
    PriceTimes(x, a, price, gross);
    OfferTimes(x, y, a, price);
    assert gross * (x + a) == gross * x + gross * a;
    BelowByLess(gross, x, a);
  }

  lemma PriceTimes(x: nat, a: nat, price: nat, gross: nat)
    requires a * price < gross
    ensures a * price * x + x <= gross * x
  {
    MulMono(a * price + 1, gross, x);
    assert (a * price + 1) * x == a * price * x + x;
  }

  lemma OfferTimes(x: nat, y: nat, a: nat, price: nat)
    requires y < price * x + x
    ensures a * y + a <= a * price * x + a * x
  {
    var bound := price * x + x;
    MulMono(y + 1, bound, a);
    assert a * (y + 1) == a * y + a;
    assert a * bound == a * price * x + a * x;
  }

  lemma BelowByLess(gross: nat, x: nat, a: nat)
    requires a > 0 && gross * a < a * x + a
    ensures gross <= x
  {
    if gross > x {
      MulMono(x + 1, gross, a);
      assert false;
    }
  }

  lemma LastUnit(y: nat, a: nat, price: nat)
    requires y > 0 && a > 0 && y * ONE < price * ONE + ONE
    requires ONE * (ONE + a) < a * (y * ONE) + (ONE + a)
    ensures a * price >= ONE
  {
    assert y <= price;
    MulMono(y, price, a);
    assert a * (y * ONE) == a * y * ONE;
    assert a * y >= ONE;
  }

  /** The bound is the exact one: whatever is offered and asked, a swap is answered if and only if
      the offer pool is at most 10^18. */
  lemma SwapAnswersIff(x: nat, rate: nat)
    requires x > 0 && rate <= ONE
    ensures (forall y, a | y > 0 && a > 0 :: ComputeSwap(x, y, a, rate).Ok?) <==> x <= ONE
  {
    if x <= ONE {
      forall y, a | y > 0 && a > 0 ensures ComputeSwap(x, y, a, rate).Ok? {
        SwapAnswers(x, y, a, rate);
      }
    } else {
      SwapPanics(x, rate);
      assert x * ONE > 0;
    }
  }

  /** Past it the price of a single unit of the ask pool floors to zero, while a large enough offer
      still buys that unit. */
  lemma SwapPanics(x: nat, rate: nat)
    requires x > ONE
    ensures ComputeSwap(x, 1, x * ONE, rate) == Err(Overflow)
  {
    FloorIs(ONE, x, 0);
    FloorIs(x * ONE * 0, ONE, 0);
    FloorIs(x * ONE, x + x * ONE, 0);
    assert Ratio(x * 1, x + x * ONE) == 0;
    assert Gross(x, 1, x * ONE) == 1;
  }

  // ---- quoting, then swapping ----

  /** A quote is given exactly when the commission is below 100% and the ask, with the commission
      added back, leaves something in the ask pool. */
  lemma OfferAnswersIff(x: nat, y: nat, b: nat, rate: nat)
    requires x > 0 && y > 0 && b > 0
    ensures ComputeOffer(x, y, b, rate).Ok? <==> rate < ONE && BeforeCommission(b, rate) < y
    ensures ComputeOffer(x, y, b, rate).Ok? ==>
              x + ComputeOffer(x, y, b, rate).value.paid == Floor(x * y, y - BeforeCommission(b, rate))
  {
    if rate < ONE && BeforeCommission(b, rate) < y {
      var left := y - BeforeCommission(b, rate);
      MulMono(left, y, x);
      FloorAtLeast(x * y, left, x);
    }
  }

  /** Swapping the quoted offer returns at most what was asked for, whenever the swap is answered; it
      is on every offer pool of at most 10^18. */
  lemma QuoteIsEnough(x: nat, y: nat, b: nat, rate: nat)
    requires ComputeOffer(x, y, b, rate).Ok?
    ensures var a := ComputeOffer(x, y, b, rate).value.paid;
            && (ComputeSwap(x, y, a, rate).Ok? ==> ComputeSwap(x, y, a, rate).value.paid <= b)
            && (a > 0 && x <= ONE ==> ComputeSwap(x, y, a, rate).Ok?)
  {
    var a := ComputeOffer(x, y, b, rate).value.paid;
    var before := BeforeCommission(b, rate);
    OfferAnswersIff(x, y, b, rate);
    if a > 0 && x <= ONE {
      SwapAnswers(x, y, a, rate);
    }
    QuotedKeepsEnough(x, y, a, y - before);
    NetAtMost(Gross(x, y, a), before, b, rate);
  }

  /** What the pool keeps is at least the floored quotient, whether or not a remainder is lost. */
  lemma QuotedKeepsEnough(x: nat, y: nat, a: nat, left: nat)
    requires 0 < left <= y && x + a > 0 && x + a == Floor(x * y, left)
    ensures Gross(x, y, a) <= y - left
  {
    GrossIsRest(x, y, a);
    KeptByRemainder(x, y, a);
    FloorAtLeast(x * y, x + a, left);
  }

  lemma NetAtMost(gross: nat, before: nat, b: nat, rate: nat)
    requires rate < ONE && before == BeforeCommission(b, rate) && gross <= before
    ensures gross - Scale(gross, rate) <= b
  {
    var keep := ONE - rate;
    var inv := Floor(ONE * ONE, keep);
    BackAndForth(before, b, inv, keep);
    MulMono(gross, before, keep);
    assert gross * rate == gross * ONE - gross * keep;
  }

  lemma BackAndForth(before: nat, b: nat, inv: nat, keep: nat)
    requires before * ONE <= b * inv && inv * keep <= ONE * ONE
    ensures before * keep <= b * ONE
  {
    MulMono(before * ONE, b * inv, keep);
    MulMono(inv * keep, ONE * ONE, b);
    assert before * ONE * keep == before * keep * ONE;
    assert b * inv * keep == b * (inv * keep);
    assert b * (ONE * ONE) == b * ONE * ONE;
  }

  /** Swapping one unit more than the quote returns at least the amount asked for, but for one unit
      and one more for each 10^18 asked for, on any pools. */
  lemma QuoteIsTight(x: nat, y: nat, b: nat, rate: nat)
    requires ComputeOffer(x, y, b, rate).Ok?
    requires ComputeSwap(x, y, ComputeOffer(x, y, b, rate).value.paid + 1, rate).Ok?
    ensures ComputeSwap(x, y, ComputeOffer(x, y, b, rate).value.paid + 1, rate).value.paid
            >= b - 1 - Floor(b - 1, ONE)
  {
    var a := ComputeOffer(x, y, b, rate).value.paid + 1;
    var before := BeforeCommission(b, rate);
    OfferAnswersIff(x, y, b, rate);
    OneMoreKeepsLess(x, y, a, y - before);
    NetAtLeast(Gross(x, y, a), before, b, rate);
  }

  lemma OneMoreKeepsLess(x: nat, y: nat, a: nat, left: nat)
    requires 0 < left <= y && a > 0 && x + a == Floor(x * y, left) + 1
    ensures Gross(x, y, a) >= y - left
  {
    var n := x + a;
    assert x * y <= left * n by { assert left * n == (n - 1) * left + left; }
    GrossIsRest(x, y, a);
    KeptIsCeilIff(x, y, a);
    CeilAtMost(x * y, n, left);
  }

  lemma NetAtLeast(gross: nat, before: nat, b: nat, rate: nat)
    requires rate < ONE && before == BeforeCommission(b, rate) && gross >= before && b > 0
    ensures gross - Scale(gross, rate) >= b - 1 - Floor(b - 1, ONE)
  {
    var keep := ONE - rate;
    var inv := Floor(ONE * ONE, keep);
    LossOfBoth(before, b, inv, keep);
    MulMono(before, gross, keep);
    assert gross * rate == gross * ONE - gross * keep;
  }

  lemma LossOfBoth(before: nat, b: nat, inv: nat, keep: nat)
    requires 0 < keep <= ONE && b > 0
    requires b * inv < before * ONE + ONE && ONE * ONE < inv * keep + keep
    ensures before * keep > (b - 1) * ONE - b
  {
    MulMono(b * inv, before * ONE + ONE, keep);
    assert (before * ONE + ONE) * keep == before * keep * ONE + ONE * keep;
    MulMono(ONE * ONE + 1, inv * keep + keep, b);
    assert b * (inv * keep + keep) == b * inv * keep + b * keep;
    MulMono(keep, ONE, b);
    MulMono(keep, ONE, ONE);
    assert b * (ONE * ONE + 1) == b * ONE * ONE + b;
    assert before * keep * ONE + ONE * keep + b * keep >= b * ONE * ONE + b;
    assert ((b - 1) * ONE - b) * ONE == b * ONE * ONE - ONE * ONE - b * ONE;
  }

  /** Swapping there and straight back never returns more than was offered, at any fee rates, if neither
      swap loses a remainder; on pools of at most 10^18 none does. */
  lemma ThereAndBack(x: nat, y: nat, a: nat, rate: nat, fee: nat, left: nat, o: SwapOutcome, back: SwapOutcome)
    requires rate <= ONE && ComputeSwap(x, y, a, rate) == Ok(o) && Lossless(x, y, a, fee, o.commission)
    requires y == left + o.paid + fee && ComputeSwap(left, x + a, o.paid, rate) == Ok(back)
    requires Lossless(left, x + a, o.paid, 0, back.commission)
    ensures back.paid <= a
  {
    SwapKeepsProductIff(x, y, a, rate, fee, o);
    SwapKeepsProductIff(left, x + a, o.paid, rate, 0, back);
    NoGain(x, y, a, left, o.paid, back.paid);
  }

  /** The condition is needed: on pools of 10^18 + 2 and 2, offering 10^18 and swapping the proceeds
      back returns 10^18 + 1. */
  lemma ThereAndBackGains()
    ensures ComputeSwap(ONE + 2, 2, ONE, 0) == Ok(SwapOutcome(1, 0, 0))
    ensures ComputeSwap(1, ONE + 2 + ONE, 1, 0).Ok?
    ensures ComputeSwap(1, ONE + 2 + ONE, 1, 0).value.paid == ONE + 1
  {
    SwapOfOne(ONE + 2, 2);
    var y := ONE + 2 + ONE;
    SwapAnswers(1, y, 1, 0);
    QuotientIs(1 * y, 1 + 1, ONE + 1, 0);
    KeptByRemainder(1, y, 1);
    GrossIsRest(1, y, 1);
    FloorIs((ONE + 1) * 0, ONE, 0);
  }

  lemma NoGain(x: nat, y: nat, a: nat, left: nat, paid: nat, back: nat)
    requires y > 0 && left + paid <= y
    requires KeepsProduct(x, y, a, y - left) && KeepsProduct(left, x + a, paid, back)
    ensures back <= a
  {
    assert y - (y - left) == left;
    assert left * (x + a) == (x + a) * left;
    assert (left + paid) * (x + a - back) == (x + a - back) * (left + paid);
    Shrunk(x, y, x + a - back, left + paid);
  }

  lemma Shrunk(x: nat, y: nat, x2: nat, y2: nat)
    requires y > 0 && y2 <= y && x * y <= x2 * y2
    ensures x <= x2
  {
    MulMono(y2, y, x2);
    if x > x2 {
      MulMono(x2 + 1, x, y);
      assert false;
    }
  }
}
