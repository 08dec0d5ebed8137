/** The bisection for a spot price: the largest trade after which the price is still at or above a
    target. The price after a trade is an arbitrary function here. */
module StableBisect {
  import opened FixedPoint
  import opened Results

  /** The price after swapping a given amount into the pool; the calculation may fail. */
  type Price = nat -> Result<nat>

  /** `recurse_bisect_spot_price`. */
  function Bisect(price: Price, low: nat, high: nat, target: nat, rounds: nat): Result<nat>
    decreases rounds
  {
    var half := Floor((low + high) * ONE, 2 * ONE);
    if rounds == 0 then Ok(half)
    else
      var mid :- price(half);
      if mid == target then Ok(half)
      else if mid > target then Bisect(price, half, high, target, rounds - 1)
      else Bisect(price, low, half, target, rounds - 1)
  }

  /** An amount of a token with `decimals` decimals, as an 18-decimal number. */
  function ToDecimal(amount: nat, decimals: nat): nat {
    if decimals <= 18 then amount * Pow10(18 - decimals) else Floor(amount, Pow10(decimals - 18))
  }

  function FromDecimal(decimal: nat, decimals: nat): nat {
    Scale(Pow10(decimals), decimal)
  }

  /** `find_spot_price`: no trade at all, everything, or the result of the bisection. */
  function FindSpot(price: Price, maxTrade: nat, decimals: nat, target: nat, rounds: nat): Result<Option<nat>> {
    var trade := ToDecimal(maxTrade, decimals);
    var current :- price(0);
    if current <= target then Ok(None)
    else
      var allIn :- price(trade);
      if allIn < target then
        var found :- Bisect(price, 0, trade, target, rounds);
        Ok(Some(FromDecimal(found, decimals)))
      else Ok(Some(FromDecimal(trade, decimals)))
  }

  // ---- the bracket ----

  /** The price is above the target at the lower end and below it at the upper. */
  predicate Brackets(price: Price, low: nat, high: nat, target: nat) {
    && low <= high
    && price(low).Ok? && price(low).value > target
    && price(high).Ok? && price(high).value < target
  }

  lemma HalfIsMiddle(low: nat, high: nat)
    ensures Floor((low + high) * ONE, 2 * ONE) == (low + high) / 2
  {
    var h := (low + high) / 2;
    FloorIs((low + high) * ONE, 2 * ONE, h);
  }

  /** Rounding up after each of two divisions is rounding up once. */
  lemma CeilTwice(w: nat, v: nat, n: nat, m: nat)
    requires n > 0 && m == 2 * n && v <= Ceil(w, 2)
    ensures Ceil(v, n) <= Ceil(w, m)
  {
    var k := Ceil(w, m);
    assert k * m == 2 * (k * n);
    CeilAtMost(w, 2, k * n);
    CeilAtMost(v, n, k);
  }

  /** Either half of a bracket is at most half its width, rounded up. */
  lemma HalvesAreSmall(low: nat, high: nat, half: nat)
    requires low <= high && half == (low + high) / 2
    ensures low <= half <= high && half - low <= Ceil(high - low, 2) && high - half <= Ceil(high - low, 2)
  {
  }

  /** For any price function at all, the bisection answers inside a bracket with the price above the
      target at its lower end and below it at its upper; the bracket lies within the first one and
      after all rounds is at most the first width over 2^rounds, rounded up; or the answer hits the
      target exactly. It fails only if the price function does. */
  lemma {:induction false} BisectBrackets(price: Price, low: nat, high: nat, target: nat, rounds: nat)
    returns (l: nat, h: nat)
    requires Brackets(price, low, high, target)
    requires Bisect(price, low, high, target, rounds).Ok?
    ensures low <= l <= h <= high && Brackets(price, l, h, target)
    ensures l <= Bisect(price, low, high, target, rounds).value <= h
    ensures price(Bisect(price, low, high, target, rounds).value) == Ok(target)
            || h - l <= Ceil(high - low, Pow2(rounds))
    decreases rounds
  {
    HalfIsMiddle(low, high);
    var half := (low + high) / 2;
    HalvesAreSmall(low, high, half);
    if rounds == 0 {
      l, h := low, high;
    } else if price(half).value == target {
      l, h := low, high;
    } else if price(half).value > target {
      l, h := BisectBrackets(price, half, high, target, rounds - 1);
      CeilTwice(high - low, high - half, Pow2(rounds - 1), Pow2(rounds));
    } else {
      l, h := BisectBrackets(price, low, half, target, rounds - 1);
      CeilTwice(high - low, half - low, Pow2(rounds - 1), Pow2(rounds));
    }
  }

  /** It fails only if the price of some trade within the bracket cannot be computed. */
  lemma {:induction false} BisectAnswers(price: Price, low: nat, high: nat, target: nat, rounds: nat)
    requires low <= high && forall t | low <= t <= high :: price(t).Ok?
    ensures Bisect(price, low, high, target, rounds).Ok?
    decreases rounds
  {
    HalfIsMiddle(low, high);
    var half := (low + high) / 2;
    if rounds > 0 {
      BisectAnswers(price, half, high, target, rounds - 1);
      BisectAnswers(price, low, half, target, rounds - 1);
    }
  }

  /** The price never rises with the size of the trade. */
  ghost predicate Falling(price: Price) {
    forall s, t {:trigger price(s), price(t)} | 0 <= s <= t && price(s).Ok? && price(t).Ok? ::
      price(t).value <= price(s).value
  }

  /** With a falling price, the answer is within the last bracket of every trade that hits the
      target, and of the point where the price crosses it. */
  lemma BisectIsClose(price: Price, low: nat, high: nat, target: nat, rounds: nat, t: nat)
    requires Falling(price) && Brackets(price, low, high, target)
    requires Bisect(price, low, high, target, rounds).Ok?
    requires price(t) == Ok(target)
    ensures var r := Bisect(price, low, high, target, rounds).value;
            var width := Ceil(high - low, Pow2(rounds));
            price(r) == Ok(target) || (r - t <= width && t - r <= width)
  {
    var l, h := BisectBrackets(price, low, high, target, rounds);
    if t < l || h < t {
      assert false;
    }
  }

  // ---- the query ----

  lemma {:induction false} Pow10Add(m: nat, n: nat)
    ensures Pow10(m) * Pow10(n) == Pow10(m + n)
  {
    if m > 0 {
      Pow10Add(m - 1, n);
      assert 10 * Pow10(m - 1) * Pow10(n) == 10 * (Pow10(m - 1) * Pow10(n));
    }
  }

  lemma Pow18()
    ensures Pow10(18) == ONE
  {
    assert Pow10(6) == 1_000_000;
    Pow10Add(6, 6);
    Pow10Add(12, 6);
  }

  /** Up to 18 decimals, converting an amount to a decimal and back loses nothing; above, it may
      only lose. And a smaller decimal never comes back as more. */
  lemma RoundTrip(amount: nat, decimals: nat)
    ensures decimals <= 18 ==> FromDecimal(ToDecimal(amount, decimals), decimals) == amount
    ensures FromDecimal(ToDecimal(amount, decimals), decimals) <= amount
  {
    Pow18();
    if decimals <= 18 {
      Pow10Add(decimals, 18 - decimals);
      BackUp(amount, Pow10(decimals), Pow10(18 - decimals));
    } else {
      Pow10Add(18, decimals - 18);
      BackDown(amount, Pow10(decimals), Pow10(decimals - 18));
    }
  }

  lemma BackUp(amount: nat, p: nat, q: nat)
    requires p * q == ONE
    ensures Scale(p, amount * q) == amount
  {
    assert p * (amount * q) == amount * (p * q);
    FloorIs(amount * ONE, ONE, amount);
  }

  lemma BackDown(amount: nat, p: nat, q: nat)
    requires q > 0 && ONE * q == p
    ensures Scale(p, Floor(amount, q)) <= amount
  {
    var d := Floor(amount, q);
    assert p * d == d * q * ONE;
    FloorIs(d * q * ONE, ONE, d * q);
  }

  lemma FromDecimalMono(a: nat, b: nat, decimals: nat)
    requires a <= b
    ensures FromDecimal(a, decimals) <= FromDecimal(b, decimals)
  {
    MulMono(a, b, Pow10(decimals));
    FloorMono(Pow10(decimals) * a, Pow10(decimals) * b, ONE);
  }

  /** A whole amount of a token with up to 18 decimals is that many 10^-decimals; a decimal is turned back into
      the whole units it contains. */
  lemma DecimalsAre(amount: nat, decimals: nat, decimal: nat)
    ensures decimals <= 18 ==> ToDecimal(amount, decimals) * Pow10(decimals) == amount * Pow10(18)
    ensures FromDecimal(decimal, decimals) * ONE <= decimal * Pow10(decimals)
    ensures decimal * Pow10(decimals) < (FromDecimal(decimal, decimals) + 1) * ONE
  {
    if decimals <= 18 {
      ScaledUp(amount, 18 - decimals, decimals, 18);
    }
    ScaledDown(decimal, Pow10(decimals));
  }

  lemma ScaledUp(amount: nat, m: nat, n: nat, all: nat)
    requires m + n == all
    ensures amount * Pow10(m) * Pow10(n) == amount * Pow10(all)
  {
    PowersMultiply(m, n);
    Associate(amount, Pow10(m), Pow10(n));
  }

  lemma Associate(a: nat, b: nat, c: nat)
    ensures a * b * c == a * (b * c)
  {
  }

  lemma ScaledDown(decimal: nat, power: nat)
    ensures Scale(power, decimal) * ONE <= decimal * power < (Scale(power, decimal) + 1) * ONE
  {
    assert decimal * power == power * decimal;
  }

  lemma {:induction false} PowersMultiply(m: nat, n: nat)
    ensures Pow10(m) * Pow10(n) == Pow10(m + n)
  {
    if m > 0 {
      PowersMultiply(m - 1, n);
      assert 10 * Pow10(m - 1) * Pow10(n) == 10 * (Pow10(m - 1) * Pow10(n));
    }
  }

  /** Which of its three answers the query gives, and that it never suggests trading more than the
      maximum. */
  lemma FindSpotAnswers(price: Price, maxTrade: nat, decimals: nat, target: nat, rounds: nat)
    requires forall t | 0 <= t <= ToDecimal(maxTrade, decimals) :: price(t).Ok?
    ensures var r := FindSpot(price, maxTrade, decimals, target, rounds);
            && r.Ok?
            && (r.value.None? <==> price(0).value <= target)
            && (r.value.Some? ==> r.value.value <= maxTrade)
            && (price(0).value > target && price(ToDecimal(maxTrade, decimals)).value >= target && decimals <= 18 ==>
                  r.value == Some(maxTrade))
            && (price(0).value > target > price(ToDecimal(maxTrade, decimals)).value ==>
                  exists found :: Bisect(price, 0, ToDecimal(maxTrade, decimals), target, rounds) == Ok(found)
                                  && r.value == Some(FromDecimal(found, decimals)))
  {
    var trade := ToDecimal(maxTrade, decimals);
    RoundTrip(maxTrade, decimals);
    if price(0).value > target && price(trade).value < target {
      BisectAnswers(price, 0, trade, target, rounds);
      var l, h := BisectBrackets(price, 0, trade, target, rounds);
      FromDecimalMono(Bisect(price, 0, trade, target, rounds).value, trade, decimals);
    }
  }
}
