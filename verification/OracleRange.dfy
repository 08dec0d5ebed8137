/** Time-weighted prices over a range of the oracle's buffers, against the price history. */
module OracleRange {
  import opened FixedPoint
  import opened Results
  import opened OracleReference
  import opened OracleState

  datatype Answer = Answer(aPerB: nat, bPerA: nat) {
    function Of(side: Side): nat {
      if side == APerB then aPerB else bPerA
    }
  }

  /** `average_price`, which fails on a negative difference and on an empty window. */
  function CheckedAverage(later: nat, earlier: nat, elapsed: nat): Result<nat> {
    if later < earlier || elapsed == 0 then Err(Overflow) else Ok(Average(later, earlier, elapsed))
  }

  function BothAverages(laterA: nat, laterB: nat, earlier: Prices, i: nat, elapsed: nat): Result<Answer>
    requires i < |earlier.aPerB|
  {
    var a :- CheckedAverage(laterA, earlier.aPerB[i], elapsed);
    var b :- CheckedAverage(laterB, earlier.bPerA[i], elapsed);
    Ok(Answer(a, b))
  }

  /** The window between two entries of a buffer already brought forward to the present. */
  function ClosedRange(b: Buffer, step: nat, from: nat, e: nat): Result<Answer> {
    if from >= |b.prices.aPerB| then Err(NoPriceData)
    else if from < e then Err(Overflow)
    else BothAverages(b.prices.aPerB[e], b.prices.bPerA[e], b.prices, from, Span(from - e, step))
  }

  /** The window from an entry to the present; `last` is the checkpoint as stored, before the
      buffer was brought forward to `b`. */
  function OpenRange(b: Buffer, last: nat, acc: Running, step: nat, now: nat, from: nat): Result<Answer> {
    if from >= |b.prices.aPerB| then Err(NoPriceData)
    else
      var elapsed :- Minus(Span(from, step) + now, last * NANOS);
      if now < acc.snapshot || acc.lastPrice == 0 then Err(Overflow)
      else BothAverages(Carried(acc, APerB, now), Carried(acc, BPerA, now), b.prices, from, elapsed)
  }

  function Span(steps: nat, step: nat): nat {
    steps * step * NANOS
  }

  /** The range query on one buffer: from entry `from` to entry `end.value`, or to the present. */
  function QueryBuffer(stored: Buffer, acc: Running, step: nat, now: nat, from: nat, end: Option<nat>): Result<Answer>
    requires step > 0
  {
    var b :- Advance(stored, acc, now, step);
    if end.Some? then ClosedRange(b, step, from, end.value)
    else OpenRange(b, stored.last, acc, step, now, from)
  }

  function Query(s: Store, now: nat, p: Period, from: nat, end: Option<nat>): Result<Answer> {
    QueryBuffer(s.Of(p), s.acc, Step(p), now, from, end)
  }

  // ---- the windows a query is about ----

  /** The newest checkpoint of a buffer at time `now`. */
  function Newest(last: nat, now: nat, step: nat): nat
    requires step > 0 && last <= Seconds(now)
  {
    last + Steps(last, Seconds(now), step) * step
  }

  /** The number of entries the buffer holds at time `now`. */
  function Depth(start: nat, last: nat, now: nat, step: nat): nat
    requires step > 0 && start <= last <= Seconds(now)
  {
    Min(BUFFER_DEPTH, Steps(start, Newest(last, now, step), step))
  }

  /** A buffer as stored, in an oracle whose accumulator is `acc`, at a time it can be queried: it need
      not be brought forward with a price of zero. */
  predicate Ready(stored: Buffer, start: nat, acc: Running, step: nat, h: History, now: nat) {
    && step > 0
    && AccFollows(acc, h)
    && BufferFollows(stored, start, acc, step, h)
    && acc.snapshot <= now
    && stored.last <= Seconds(now)
    && (acc.lastPrice > 0 || Seconds(now) < stored.last + step)
  }

  lemma ReadyInStore(s: Store, start: nat, h: History, p: Period, now: nat)
    requires Follows(s, start, h) && s.acc.snapshot <= now
    requires s.acc.lastPrice > 0 || Seconds(now) < s.Of(p).last + Step(p)
    ensures Ready(s.Of(p), start, s.acc, Step(p), h, now)
  {
    BufferOf(s, start, h, p);
    SecondsMono(s.acc.snapshot, now);
  }

  /** What the buffer holds at query time, with or without a step having passed. */
  lemma BufferNow(stored: Buffer, start: nat, acc: Running, step: nat, h: History, now: nat) returns (b: Buffer)
    requires Ready(stored, start, acc, step, h, now)
    ensures Advance(stored, acc, now, step) == Ok(b)
    ensures b.last == Newest(stored.last, now, step) && b.last * NANOS <= now
    ensures |b.prices.aPerB| == Depth(start, stored.last, now, step)
    ensures forall i | 0 <= i < |b.prices.aPerB| :: EntryFollows(b, step, h, i) && EntryTime(b.last, i, step) <= now
  {
    AdvanceFollows(stored, start, acc, now, step, h);
    CheckpointOnGrid(stored.last, now, step);
    b := Advance(stored, acc, now, step).value;
    EntriesNow(b, step, h, now);
  }

  lemma EntriesNow(b: Buffer, step: nat, h: History, now: nat)
    requires b.last * NANOS <= now
    requires EntriesFollow(APerB, b.prices.aPerB, b.last, step, h)
    requires EntriesFollow(BPerA, b.prices.bPerA, b.last, step, h)
    ensures forall i | 0 <= i < |b.prices.aPerB| :: EntryFollows(b, step, h, i) && EntryTime(b.last, i, step) <= now
  {
    forall i | 0 <= i < |b.prices.aPerB| ensures EntryFollows(b, step, h, i) && EntryTime(b.last, i, step) <= now {
      assert i * step >= 0;
    }
  }

  lemma WindowLength(c: nat, from: nat, e: nat, step: nat)
    requires e <= from && step > 0
    ensures EntryTime(c, e, step) - EntryTime(c, from, step) == Span(from - e, step)
    ensures e < from ==> Span(from - e, step) >= NANOS
    ensures e == from ==> Span(from - e, step) == 0
  {
    assert from * step == e * step + (from - e) * step;
    if e < from { MulMono(1, from - e, step); }
  }

  /** The answer is the mean of the reference integral, on both sides, over the window `t0..t1`,
      as though the window were `elapsed` long. */
  predicate IsMean(r: Answer, h: History, t0: nat, t1: nat, elapsed: nat) {
    && elapsed > 0
    && forall side :: Integral(side, h, t0) <= Integral(side, h, t1)
                      && r.Of(side) == Average(Integral(side, h, t1), Integral(side, h, t0), elapsed)
  }

  /** Entry `i` of the buffer is the integral at its own checkpoint, on both sides. */
  predicate EntryFollows(b: Buffer, step: nat, h: History, i: nat)
    requires i < |b.prices.aPerB|
  {
    && EntryTime(b.last, i, step) >= 0
    && b.prices.aPerB[i] == Integral(APerB, h, EntryTime(b.last, i, step))
    && b.prices.bPerA[i] == Integral(BPerA, h, EntryTime(b.last, i, step))
  }

  lemma BothAreMeans(b: Buffer, step: nat, i: nat, laterA: nat, laterB: nat, h: History, t1: nat, elapsed: nat)
    requires i < |b.prices.aPerB| && EntryFollows(b, step, h, i) && EntryTime(b.last, i, step) <= t1
    requires laterA == Integral(APerB, h, t1) && laterB == Integral(BPerA, h, t1)
    ensures var r := BothAverages(laterA, laterB, b.prices, i, elapsed);
            && (r.Ok? <==> elapsed > 0)
            && (r.Ok? ==> IsMean(r.value, h, EntryTime(b.last, i, step), t1, elapsed))
            && r != Err(NoPriceData)
  {
    IntegralGrows(APerB, h, EntryTime(b.last, i, step), t1);
    IntegralGrows(BPerA, h, EntryTime(b.last, i, step), t1);
  }

  /** A range between two entries is answered exactly when the start is within the buffer and
      strictly before the end, and the answer is the mean of the reference integral over precisely
      the window the two indices name. */
  lemma ClosedRangeIsMean(stored: Buffer, start: nat, acc: Running, step: nat, h: History, now: nat, from: nat, e: nat)
    requires Ready(stored, start, acc, step, h, now)
    ensures var r := QueryBuffer(stored, acc, step, now, from, Some(e));
            var c := Newest(stored.last, now, step);
            && (r.Ok? <==> e < from < Depth(start, stored.last, now, step))
            && (r == Err(NoPriceData) <==> Depth(start, stored.last, now, step) <= from)
            && (r.Ok? ==>
                  var t0, t1 := EntryTime(c, from, step), EntryTime(c, e, step);
                  0 <= t0 <= t1 - NANOS && IsMean(r.value, h, t0, t1, t1 - t0))
  {
    var b := BufferNow(stored, start, acc, step, h, now);
    assert QueryBuffer(stored, acc, step, now, from, Some(e)) == ClosedRange(b, step, from, e);
    ClosedRangeOf(b, step, h, from, e);
  }

  /** The same of a buffer that follows the history up to its newest checkpoint. */
  lemma ClosedRangeOf(b: Buffer, step: nat, h: History, from: nat, e: nat)
    requires step > 0 && forall i | 0 <= i < |b.prices.aPerB| :: EntryFollows(b, step, h, i)
    ensures var r := ClosedRange(b, step, from, e);
            && (r.Ok? <==> e < from < |b.prices.aPerB|)
            && (r == Err(NoPriceData) <==> |b.prices.aPerB| <= from)
            && (r.Ok? ==>
                  var t0, t1 := EntryTime(b.last, from, step), EntryTime(b.last, e, step);
                  0 <= t0 <= t1 - NANOS && IsMean(r.value, h, t0, t1, t1 - t0))
  {
    if e <= from < |b.prices.aPerB| {
      WindowLength(b.last, from, e, step);
      assert EntryFollows(b, step, h, from) && EntryFollows(b, step, h, e);
      BothAreMeans(b, step, from, b.prices.aPerB[e], b.prices.bPerA[e], h, EntryTime(b.last, e, step),
                   Span(from - e, step));
    }
  }

  /** Such an answer never exceeds the highest rate in force during its window and is above the
      lowest minus 2 * 10^9 atomics, on both sides of the pair. */
  lemma ClosedRangeBounds(stored: Buffer, start: nat, acc: Running, step: nat, h: History, now: nat, from: nat, e: nat,
                          side: Side, low: nat, high: nat)
    requires Ready(stored, start, acc, step, h, now)
    requires QueryBuffer(stored, acc, step, now, from, Some(e)).Ok?
    requires var c := Newest(stored.last, now, step);
             var t0, t1 := EntryTime(c, from, step), EntryTime(c, e, step);
             0 <= t0 <= t1 ==> RatesWithin(side, h, t0, t1, low, high)
    ensures low - 2 * NANOS < QueryBuffer(stored, acc, step, now, from, Some(e)).value.Of(side) <= high
  {
    ClosedRangeIsMean(stored, start, acc, step, h, now, from, e);
    var c := Newest(stored.last, now, step);
    AverageBounds(side, h, EntryTime(c, from, step), EntryTime(c, e, step), low, high);
  }

  /** The same over every run: whatever prices were stored and when, an answered range is within the
      accepted prices in force during its window. */
  lemma EveryRunAnswersWithinPrices(first: Event, calls: seq<Event>, now: nat, p: Period, from: nat, e: nat,
                                    side: Side, low: nat, high: nat)
    requires var s := Replay(first, calls);
             && s.acc.snapshot <= now && s.Of(p).last <= Seconds(now)
             && (s.acc.lastPrice > 0 || Seconds(now) < s.Of(p).last + Step(p))
             && Query(s, now, p, from, Some(e)).Ok?
             && var c := Newest(s.Of(p).last, now, Step(p));
                var t0, t1 := EntryTime(c, from, Step(p)), EntryTime(c, e, Step(p));
                0 <= t0 <= t1 ==> RatesWithin(side, Accepted(first, calls), t0, t1, low, high)
    ensures low - 2 * NANOS < Query(Replay(first, calls), now, p, from, Some(e)).value.Of(side) <= high
  {
    EveryRunFollows(first, calls);
    var s, h := Replay(first, calls), Accepted(first, calls);
    ReadyInStore(s, Seconds(first.time), h, p, now);
    ClosedRangeBounds(s.Of(p), Seconds(first.time), s.acc, Step(p), h, now, from, e, side, low, high);
  }

  // ---- ranges up to the present ----

  /** The time an open-ended query divides by. */
  function OpenElapsed(last: nat, step: nat, now: nat, from: nat): int {
    Span(from, step) + now - last * NANOS
  }

  /** The length of the window whose integral an open-ended query takes. */
  function OpenWindow(last: nat, step: nat, now: nat, from: nat): int
    requires step > 0 && last <= Seconds(now)
  {
    now - EntryTime(Newest(last, now, step), from, step)
  }

  /** An open-ended query counts every whole step since the last stored checkpoint twice, so it
      divides by the length of its own window if and only if no whole step has passed. */
  lemma OpenElapsedIsRight(last: nat, step: nat, now: nat, from: nat)
    requires step > 0 && last <= Seconds(now)
    ensures OpenElapsed(last, step, now, from) - OpenWindow(last, step, now, from)
            == Span(Steps(last, Seconds(now), step), step)
    ensures OpenElapsed(last, step, now, from) == OpenWindow(last, step, now, from)
            <==> Seconds(now) < last + step
  {
    var k := Steps(last, Seconds(now), step);
    if k > 0 { MulMono(1, k, step); }
  }

  /** What an open-ended query answers, in every case: the integral over its window, divided by
      `OpenElapsed`. */
  lemma OpenRangeIsMean(stored: Buffer, start: nat, acc: Running, step: nat, h: History, now: nat, from: nat)
    requires acc.lastPrice > 0 && Ready(stored, start, acc, step, h, now)
    ensures var r := QueryBuffer(stored, acc, step, now, from, None);
            var c := Newest(stored.last, now, step);
            && (r.Ok? <==> from < Depth(start, stored.last, now, step) && OpenElapsed(stored.last, step, now, from) > 0)
            && (r.Ok? ==>
                  var t0 := EntryTime(c, from, step);
                  0 <= t0 <= now && IsMean(r.value, h, t0, now, OpenElapsed(stored.last, step, now, from)))
  {
    var b := BufferNow(stored, start, acc, step, h, now);
    CarriedIsIntegral(acc, h, APerB, now);
    CarriedIsIntegral(acc, h, BPerA, now);
    if from < |b.prices.aPerB| {
      assert EntryFollows(b, step, h, from);
      BothAreMeans(b, step, from, Carried(acc, APerB, now), Carried(acc, BPerA, now), h, now,
                   OpenElapsed(stored.last, step, now, from));
    }
  }

  /** When no whole step has passed since the last stored checkpoint, an open-ended answer over a
      window of a second or more obeys the same bounds as a closed one. */
  lemma OpenRangeBounds(stored: Buffer, start: nat, acc: Running, step: nat, h: History, now: nat, from: nat,
                        side: Side, low: nat, high: nat)
    requires acc.lastPrice > 0 && Ready(stored, start, acc, step, h, now) && Seconds(now) < stored.last + step
    requires QueryBuffer(stored, acc, step, now, from, None).Ok? && OpenWindow(stored.last, step, now, from) >= NANOS
    requires var t0 := EntryTime(stored.last, from, step); 0 <= t0 <= now ==> RatesWithin(side, h, t0, now, low, high)
    ensures low - 2 * NANOS < QueryBuffer(stored, acc, step, now, from, None).value.Of(side) <= high
  {
    OpenRangeIsMean(stored, start, acc, step, h, now, from);
    OpenElapsedIsRight(stored.last, step, now, from);
    AverageBounds(side, h, EntryTime(stored.last, from, step), now, low, high);
  }

  /** When whole steps have passed, the answer is never above the mean over its window. */
  lemma OpenRangeUnderstates(stored: Buffer, start: nat, acc: Running, step: nat, h: History, now: nat, from: nat,
                             side: Side)
    requires acc.lastPrice > 0 && Ready(stored, start, acc, step, h, now)
    requires QueryBuffer(stored, acc, step, now, from, None).Ok? && OpenWindow(stored.last, step, now, from) > 0
    ensures var t0 := EntryTime(Newest(stored.last, now, step), from, step);
            && 0 <= t0 && Integral(side, h, t0) <= Integral(side, h, now)
            && QueryBuffer(stored, acc, step, now, from, None).value.Of(side)
               <= Average(Integral(side, h, now), Integral(side, h, t0), OpenWindow(stored.last, step, now, from))
  {
    OpenRangeIsMean(stored, start, acc, step, h, now, from);
    OpenElapsedIsRight(stored.last, step, now, from);
    var t0 := EntryTime(Newest(stored.last, now, step), from, step);
    var diff := Integral(side, h, now) - Integral(side, h, t0);
    FloorAntitone(diff, diff, OpenWindow(stored.last, step, now, from), OpenElapsed(stored.last, step, now, from));
  }

  /** A concrete run: the price is 1.0 throughout, stored at 0 s and again at 120 s. An open-ended
      query one minute back, asked at 180 s, divides the integral of one minute by two minutes and
      answers 0.5. */
  lemma OpenRangeHalved()
    ensures var s := Replay(Event(0, ONE), [Event(120 * NANOS, ONE)]);
            Query(s, 180 * NANOS, Minute, 1, None) == Ok(Answer(ONE / 2, ONE / 2))
  {
    OneStore(Event(0, ONE), Event(120 * NANOS, ONE));
    AskedAt180(Replay(Event(0, ONE), [Event(120 * NANOS, ONE)]), [Event(0, ONE), Event(120 * NANOS, ONE)]);
  }

  lemma AskedAt180(s: Store, h: History)
    requires Follows(s, 0, h) && s.acc.snapshot == 120 * NANOS && s.acc.lastPrice == ONE && s.minutes.last == 120
    requires h == [Event(0, ONE), Event(120 * NANOS, ONE)]
    ensures Query(s, 180 * NANOS, Minute, 1, None) == Ok(Answer(ONE / 2, ONE / 2))
  {
    var now := 180 * NANOS;
    ReadyInStore(s, 0, h, Minute, now);
    OpenRangeIsMean(s.minutes, 0, s.acc, MINUTE, h, now, 1);
    WindowAt180();
    HalfAnswer(QueryBuffer(s.minutes, s.acc, MINUTE, now, 1, None).value, h);
  }

  lemma WindowAt180()
    ensures Newest(120, 180 * NANOS, MINUTE) == 180 && Depth(0, 120, 180 * NANOS, MINUTE) == 3
    ensures EntryTime(180, 1, MINUTE) == 120 * NANOS
    ensures OpenElapsed(120, MINUTE, 180 * NANOS, 1) == 120 * NANOS
  {
  }

  lemma HalfAnswer(r: Answer, h: History)
    requires h == [Event(0, ONE), Event(120 * NANOS, ONE)]
    requires IsMean(r, h, 120 * NANOS, 180 * NANOS, 120 * NANOS)
    ensures r == Answer(ONE / 2, ONE / 2)
  {
    UnitIntegral(APerB, h);
    UnitIntegral(BPerA, h);
    assert r.Of(APerB) == ONE / 2 && r.Of(BPerA) == ONE / 2;
  }

  lemma OneStore(first: Event, later: Event)
    requires first == Event(0, ONE) && later == Event(120 * NANOS, ONE)
    ensures var s := Replay(first, [later]);
            && Follows(s, 0, [first, later]) && s.acc.snapshot == 120 * NANOS && s.acc.lastPrice == ONE
            && s.minutes.last == 120
  {
    var calls := [later];
    assert calls[..0] == [];
    assert Replay(first, calls[..0]) == Initialize(0, ONE);
    InitFollows(first);
    StoreFollows(Initialize(0, ONE), 0, [first], later);
    assert [first] + [later] == [first, later];
  }

  lemma UnitIntegral(side: Side, h: History)
    requires h == [Event(0, ONE), Event(120 * NANOS, ONE)]
    ensures Integral(side, h, 120 * NANOS) == 120 * ONE && Integral(side, h, 180 * NANOS) == 180 * ONE
  {
    assert Rate(side, ONE) == ONE;
    var h1 := h[..1];
    assert h1 == [Event(0, ONE)];
    var h0 := h1[..0];
    assert h0 == [];
    assert Integral(side, h0, 0) == 0;
    assert Area(ONE, 120 * NANOS) == 120 * ONE && Area(ONE, 60 * NANOS) == 60 * ONE;
    assert Integral(side, h1, 120 * NANOS) == 120 * ONE;
  }
}
