/** What the oracle's answers are in terms of the stored prices themselves: the price of the one asset is
    as stored, and that of the other is its inverse. */
module OraclePrices {
  import opened FixedPoint
  import opened Results
  import opened OracleReference
  import opened OracleState
  import opened OracleRange

  /** The inverse of a positive price, in atomics, rounded down. */
  lemma InverseIs(price: nat)
    requires price > 0
    ensures Inverse(price) * price <= ONE * ONE < (Inverse(price) + 1) * price
  {
    assert (Inverse(price) + 1) * price == Inverse(price) * price + price;
  }

  /** The stored price in force at time `t`, zero before there is one. */
  function PriceAt(h: History, t: nat): nat {
    if h == [] then 0
    else
      var n := |h| - 1;
      if h[n].time <= t then h[n].price else PriceAt(h[..n], t)
  }

  /** Every price in force from `from` until just before `to` lies between `low` and `high`. */
  predicate PricesWithin(h: History, from: nat, to: nat, low: nat, high: nat) {
    forall t {:trigger PriceAt(h, t)} | from <= t < to :: low <= PriceAt(h, t) <= high
  }

  lemma {:induction false} RateOfPrice(h: History, t: nat)
    ensures RateAt(APerB, h, t) == PriceAt(h, t)
    ensures RateAt(BPerA, h, t) == Inverse(PriceAt(h, t))
  {
    if h != [] && t < h[|h| - 1].time {
      RateOfPrice(h[..|h| - 1], t);
    }
  }

  /** A higher price has no higher inverse. */
  lemma InverseFalls(p: nat, q: nat)
    requires 0 < p <= q
    ensures Inverse(q) <= Inverse(p)
  {
    FloorAntitone(ONE * ONE, ONE * ONE, p, q);
  }

  lemma RatesOfPrices(h: History, from: nat, to: nat, low: nat, high: nat)
    requires 0 < low && PricesWithin(h, from, to, low, high)
    ensures RatesWithin(APerB, h, from, to, low, high)
    ensures from < to ==> low <= high && RatesWithin(BPerA, h, from, to, Inverse(high), Inverse(low))
  {
    forall t: nat | from <= t < to
      ensures low <= RateAt(APerB, h, t) <= high && Inverse(high) <= RateAt(BPerA, h, t) <= Inverse(low)
    {
      RateOfPrice(h, t);
      InverseFalls(low, PriceAt(h, t));
      InverseFalls(PriceAt(h, t), high);
    }
    if from < to {
      RateOfPrice(h, from);
      assert low <= PriceAt(h, from) <= high;
    }
  }

  /** The answer for prices from `low` to `high`: the one price is between them, and the other between
      their inverses, each up to the roundings. */
  predicate Answers(r: Answer, low: nat, high: nat) {
    && low < r.aPerB + 2 * NANOS && r.aPerB <= high
    && r.bPerA * low <= ONE * ONE < (r.bPerA + 2 * NANOS) * high
  }

  lemma BetweenInverses(a: nat, b: nat, low: nat, high: nat)
    requires 0 < low <= high && low - 2 * NANOS < a <= high
    requires Inverse(high) - 2 * NANOS < b <= Inverse(low)
    ensures Answers(Answer(a, b), low, high)
  {
    InverseIs(low);
    InverseIs(high);
    MulMono(b, Inverse(low), low);
    MulMono(Inverse(high) + 1, b + 2 * NANOS, high);
  }

  /** An answered range between two entries, when all stored prices in force during its window lie between
      `low` and `high`. */
  lemma ClosedRangeAnswers(stored: Buffer, start: nat, acc: Running, step: nat, h: History, now: nat, from: nat,
                           e: nat, low: nat, high: nat)
    requires Ready(stored, start, acc, step, h, now) && low > 0
    requires QueryBuffer(stored, acc, step, now, from, Some(e)).Ok?
    requires var c := Newest(stored.last, now, step);
             var t0, t1 := EntryTime(c, from, step), EntryTime(c, e, step);
             0 <= t0 <= t1 ==> PricesWithin(h, t0, t1, low, high)
    ensures Answers(QueryBuffer(stored, acc, step, now, from, Some(e)).value, low, high)
  {
    var c := Newest(stored.last, now, step);
    ClosedRangeIsMean(stored, start, acc, step, h, now, from, e);
    RatesOfPrices(h, EntryTime(c, from, step), EntryTime(c, e, step), low, high);
    ClosedRangeBounds(stored, start, acc, step, h, now, from, e, APerB, low, high);
    ClosedRangeBounds(stored, start, acc, step, h, now, from, e, BPerA, Inverse(high), Inverse(low));
    var r := QueryBuffer(stored, acc, step, now, from, Some(e)).value;
    BetweenInverses(r.Of(APerB), r.Of(BPerA), low, high);
    assert r == Answer(r.Of(APerB), r.Of(BPerA));
  }

  /** The same of an open-ended range over a second or more, when no whole step has passed. */
  lemma OpenRangeAnswers(stored: Buffer, start: nat, acc: Running, step: nat, h: History, now: nat, from: nat,
                         low: nat, high: nat)
    requires acc.lastPrice > 0 && Ready(stored, start, acc, step, h, now) && Seconds(now) < stored.last + step
             && low > 0
    requires QueryBuffer(stored, acc, step, now, from, None).Ok? && OpenWindow(stored.last, step, now, from) >= NANOS
    requires var t0 := EntryTime(stored.last, from, step); 0 <= t0 <= now ==> PricesWithin(h, t0, now, low, high)
    ensures Answers(QueryBuffer(stored, acc, step, now, from, None).value, low, high)
  {
    OpenRangeIsMean(stored, start, acc, step, h, now, from);
    OpenElapsedIsRight(stored.last, step, now, from);
    RatesOfPrices(h, EntryTime(stored.last, from, step), now, low, high);
    OpenRangeBounds(stored, start, acc, step, h, now, from, APerB, low, high);
    OpenRangeBounds(stored, start, acc, step, h, now, from, BPerA, Inverse(high), Inverse(low));
    var r := QueryBuffer(stored, acc, step, now, from, None).value;
    BetweenInverses(r.Of(APerB), r.Of(BPerA), low, high);
    assert r == Answer(r.Of(APerB), r.Of(BPerA));
  }

  /** Over every run of price stores: if all accepted prices in force during the window of an answered range
      lie between `low` and `high`, the stored price's mean does, and the other price's mean lies between
      the inverses. */
  lemma EveryRunAnswersByPrices(first: Event, calls: seq<Event>, now: nat, p: Period, from: nat, e: nat, low: nat,
                                high: nat)
    requires low > 0
    requires var s := Replay(first, calls);
             && s.acc.snapshot <= now && s.Of(p).last <= Seconds(now)
             && (s.acc.lastPrice > 0 || Seconds(now) < s.Of(p).last + Step(p))
             && Query(s, now, p, from, Some(e)).Ok?
             && var c := Newest(s.Of(p).last, now, Step(p));
                var t0, t1 := EntryTime(c, from, Step(p)), EntryTime(c, e, Step(p));
                0 <= t0 <= t1 ==> PricesWithin(Accepted(first, calls), t0, t1, low, high)
    ensures Answers(Query(Replay(first, calls), now, p, from, Some(e)).value, low, high)
  {
    EveryRunFollows(first, calls);
    var s, h := Replay(first, calls), Accepted(first, calls);
    ReadyInStore(s, Seconds(first.time), h, p, now);
    ClosedRangeAnswers(s.Of(p), Seconds(first.time), s.acc, Step(p), h, now, from, e, low, high);
  }

  /** What a store adds to the two running integrals: the stored price and its inverse, each for the time it
      was in force, rounded down to whole units. */
  lemma UpdateAdds(acc: Running, now: nat, price: nat)
    requires Update(acc, now, price).Ok? && acc.snapshot < now
    ensures var n := Update(acc, now, price).value; var passed := now - acc.snapshot;
            && n.snapshot == now && n.lastPrice == price && acc.lastPrice > 0
            && (n.aPerB - acc.aPerB) * NANOS <= acc.lastPrice * passed < (n.aPerB - acc.aPerB + 1) * NANOS
            && (n.bPerA - acc.bPerA) * NANOS * acc.lastPrice <= ONE * ONE * passed
            && ONE * ONE * passed < (n.bPerA - acc.bPerA + 1) * NANOS * acc.lastPrice + passed * acc.lastPrice
  {
    var p, passed := acc.lastPrice, now - acc.snapshot;
    InverseIs(p);
    InverseArea(p, Inverse(p), passed, Area(Inverse(p), passed));
  }

  lemma InverseArea(p: nat, inverse: nat, passed: nat, area: nat)
    requires p > 0 && inverse * p <= ONE * ONE < (inverse + 1) * p
    requires area * NANOS <= inverse * passed < area * NANOS + NANOS
    ensures area * NANOS * p <= ONE * ONE * passed < (area + 1) * NANOS * p + passed * p
  {
    MulMono(area * NANOS, inverse * passed, p);
    MulMono(inverse * p, ONE * ONE, passed);
    assert inverse * passed * p == inverse * p * passed;
    MulMono(ONE * ONE, (inverse + 1) * p, passed);
    assert (inverse + 1) * p * passed == inverse * passed * p + passed * p;
    MulMono(inverse * passed + 1, (area + 1) * NANOS, p);
    assert (inverse * passed + 1) * p == inverse * passed * p + p;
  }

  /** The mean a range answers with: the difference of the two integrals over the time, kept to nine decimals
      and rounded down. */
  lemma AverageIs(later: nat, earlier: nat, elapsed: nat)
    requires earlier <= later && elapsed > 0
    ensures var mean := Average(later, earlier, elapsed);
            && mean % NANOS == 0
            && mean * elapsed <= (later - earlier) * NANOS < (mean + NANOS) * elapsed
  {
    var q := Floor(later - earlier, elapsed);
    assert q * NANOS * elapsed == q * elapsed * NANOS;
    assert (q * NANOS + NANOS) * elapsed == (q * elapsed + elapsed) * NANOS;
    MultipleOf(q);
  }

  lemma MultipleOf(q: nat)
    ensures q * NANOS % NANOS == 0
  {
  }
}
