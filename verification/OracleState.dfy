/** The stored state of the price oracle as a value, its updates as functions, and the proof that
    after any sequence of price stores every buffer entry is the integral of the price history at
    its checkpoint. */
module OracleState {
  import opened FixedPoint
  import opened Results
  import opened OracleReference

  const MINUTE: nat := 60
  const HALF_HOUR: nat := 1800
  const SIX_HOURS: nat := 21600
  const BUFFER_DEPTH: nat := 32

  /** The accumulator: both integrals as of `snapshot`, and the price in force since then. */
  datatype Running = Running(snapshot: nat, lastPrice: nat, aPerB: nat, bPerA: nat) {
    function Of(side: Side): nat {
      if side == APerB then aPerB else bPerA
    }
  }

  datatype PricesData = PricesData(aPerB: seq<nat>, bPerA: seq<nat>) {
    function Of(side: Side): seq<nat> {
      if side == APerB then aPerB else bPerA
    }
  }

  /** A price buffer, newest entry first. Both vectors always have the same length. */
  type Prices = p: PricesData | |p.aPerB| == |p.bPerA| <= BUFFER_DEPTH witness PricesData([], [])

  /** A buffer together with the checkpoint, in seconds, of its entry 0. */
  datatype Buffer = Buffer(last: nat, prices: Prices)

  datatype Store = Store(acc: Running, minutes: Buffer, halfHours: Buffer, sixHours: Buffer) {
    function Of(p: Period): Buffer {
      match p
      case Minute => minutes
      case HalfHour => halfHours
      case SixHour => sixHours
    }
  }

  datatype Period = Minute | HalfHour | SixHour

  function Step(p: Period): (step: nat)
    ensures step >= 60
  {
    match p
    case Minute => MINUTE
    case HalfHour => HALF_HOUR
    case SixHour => SIX_HOURS
  }

  function Min(a: nat, b: nat): nat {
    if a <= b then a else b
  }

  function Seconds(t: nat): nat {
    t / NANOS
  }

  // ---- the operations ----

  function Initialize(now: nat, price: nat): Store {
    var empty := Buffer(Seconds(now), PricesData([], []));
    Store(Running(now, price, 0, 0), empty, empty, empty)
  }

  /** The accumulator's integral carried forward to the later time `t` at the last price. */
  function Carried(acc: Running, side: Side, t: nat): nat
    requires acc.snapshot <= t
  {
    acc.Of(side) + Area(Rate(side, acc.lastPrice), t - acc.snapshot)
  }

  function Update(acc: Running, now: nat, price: nat): Result<Running> {
    if now < acc.snapshot then Err(Overflow)
    else if now == acc.snapshot then Ok(acc.(lastPrice := price))
    else if acc.lastPrice == 0 then Err(Overflow)
    else Ok(Running(now, price, Carried(acc, APerB, now), Carried(acc, BPerA, now)))
  }

  /** The most recent checkpoint that is a whole number of steps after the last one, if any. */
  function CalcCheckpoint(last: nat, now: nat, step: nat): Result<Option<nat>>
    requires step > 0
  {
    if Seconds(now) < last then Err(Overflow)
    else
      var steps := (Seconds(now) - last) / step;
      Ok(if steps == 0 then None else Some(last + steps * step))
  }

  /** How many checkpoints, a step apart, lie between two of them. */
  function Steps(last: nat, checkpoint: nat, step: nat): nat
    requires step > 0 && last <= checkpoint
  {
    (checkpoint - last) / step
  }

  /** The time of entry `i` of a buffer whose entry 0 stands for `checkpoint`. */
  function EntryTime(checkpoint: nat, i: nat, step: nat): int {
    (checkpoint - i * step) * NANOS
  }

  /** One vector after `k` new checkpoints: the new entries interpolated from the accumulator, then
      as many of the old ones as still fit. */
  function Shifted(prev: seq<nat>, acc: Running, side: Side, checkpoint: nat, k: nat, step: nat): seq<nat>
    requires step > 0
  {
    seq(Min(BUFFER_DEPTH, |prev| + k), i requires 0 <= i < Min(BUFFER_DEPTH, |prev| + k) =>
      if i < k then
        acc.Of(side) + Area(Rate(side, acc.lastPrice), Positive(EntryTime(checkpoint, i, step) - acc.snapshot))
      else prev[i - k])
  }

  function Positive(x: int): nat {
    if x < 0 then 0 else x
  }

  /** The buffer brought forward to `checkpoint`. It fails when a price of zero would have to be
      inverted, or when the oldest new entry lies before the accumulator's snapshot. */
  function Accumulated(prev: Prices, last: nat, checkpoint: nat, acc: Running, step: nat): Result<Prices>
    requires step > 0 && last <= checkpoint
  {
    var k := Steps(last, checkpoint, step);
    if k > 0 && (acc.lastPrice == 0 || EntryTime(checkpoint, Min(k, BUFFER_DEPTH) - 1, step) < acc.snapshot) then
      Err(Overflow)
    else
      Ok(PricesData(Shifted(prev.aPerB, acc, APerB, checkpoint, k, step),
                    Shifted(prev.bPerA, acc, BPerA, checkpoint, k, step)))
  }

  /** One buffer at a price store (and, without saving, at a query). */
  function Advance(b: Buffer, acc: Running, now: nat, step: nat): Result<Buffer>
    requires step > 0
  {
    match CalcCheckpoint(b.last, now, step)
    case Err(e) => Err(e)
    case Ok(None) => Ok(b)
    case Ok(Some(checkpoint)) =>
      match Accumulated(b.prices, b.last, checkpoint, acc, step)
      case Err(e) => Err(e)
      case Ok(prices) => Ok(Buffer(checkpoint, prices))
  }

  function StorePrice(s: Store, now: nat, price: nat): Result<Store> {
    if now == s.acc.snapshot then Ok(s.(acc := s.acc.(lastPrice := price)))
    else
      var minutes :- Advance(s.minutes, s.acc, now, MINUTE);
      var halfHours :- Advance(s.halfHours, s.acc, now, HALF_HOUR);
      var sixHours :- Advance(s.sixHours, s.acc, now, SIX_HOURS);
      var acc :- Update(s.acc, now, price);
      Ok(Store(acc, minutes, halfHours, sixHours))
  }

  // ---- what the stored state stands for ----

  /** The accumulator holds the integrals of the history up to its last event. */
  predicate AccFollows(acc: Running, h: History) {
    && h != []
    && acc.snapshot == h[|h| - 1].time
    && acc.lastPrice == h[|h| - 1].price
    && acc.aPerB == Integral(APerB, h, acc.snapshot)
    && acc.bPerA == Integral(BPerA, h, acc.snapshot)
  }

  /** Every entry is the integral of the history at its own checkpoint. */
  predicate EntriesFollow(side: Side, entries: seq<nat>, last: nat, step: nat, h: History) {
    forall i | 0 <= i < |entries| ::
      EntryTime(last, i, step) >= 0 && entries[i] == Integral(side, h, EntryTime(last, i, step))
  }

  /** The buffer's newest checkpoint lies a whole number of steps after `start`, and the clock has
      not yet reached the next one. */
  predicate OnGrid(last: nat, start: nat, now: nat, step: nat)
    requires step > 0
  {
    start <= last && (last - start) % step == 0 && last <= Seconds(now) < last + step
  }

  predicate BufferFollows(b: Buffer, start: nat, acc: Running, step: nat, h: History)
    requires step > 0
  {
    && OnGrid(b.last, start, acc.snapshot, step)
    && |b.prices.aPerB| == Min(BUFFER_DEPTH, Steps(start, b.last, step))
    && EntriesFollow(APerB, b.prices.aPerB, b.last, step, h)
    && EntriesFollow(BPerA, b.prices.bPerA, b.last, step, h)
  }

  /** The oracle, set up in second `start`, is what the price history `h` says. */
  predicate Follows(s: Store, start: nat, h: History) {
    && AccFollows(s.acc, h)
    && BufferFollows(s.minutes, start, s.acc, MINUTE, h)
    && BufferFollows(s.halfHours, start, s.acc, HALF_HOUR, h)
    && BufferFollows(s.sixHours, start, s.acc, SIX_HOURS, h)
  }

  // ---- the proof ----

  /** Whole steps: the checkpoint found is on the grid of the last one, at or before the clock and
      less than a step behind it. */
  lemma CheckpointOnGrid(last: nat, now: nat, step: nat)
    requires step > 0 && last <= Seconds(now)
    ensures var r := CalcCheckpoint(last, now, step);
            && r.Ok?
            && var c := (if r.value.Some? then r.value.value else last);
            && OnGrid(c, last, now, step)
            && (r.value.Some? <==> Seconds(now) >= last + step)
            && c == last + Steps(last, c, step) * step
  {
    var steps := (Seconds(now) - last) / step;
    var c := last + steps * step;
    WholeSteps(steps, step);
    assert c - last == steps * step;
    assert Seconds(now) - last == steps * step + (Seconds(now) - last) % step;
    if Seconds(now) >= last + step && steps == 0 {
      assert false;
    }
    if steps > 0 { MulMono(1, steps, step); }
  }

  lemma WholeSteps(n: nat, step: nat)
    requires step > 0
    ensures n * step / step == n && n * step % step == 0
  {
    FloorIs(n * step, step, n) by { assert n * step < (n + 1) * step; }
    assert n * step == (n * step / step) * step + n * step % step;
  }

  lemma StepsAdd(start: nat, last: nat, c: nat, step: nat)
    requires step > 0 && start <= last <= c
    requires (last - start) % step == 0 && (c - last) % step == 0
    ensures (c - start) % step == 0
    ensures Steps(start, c, step) == Steps(start, last, step) + Steps(last, c, step)
  {
    var n := Steps(start, last, step) + Steps(last, c, step);
    assert c - start == n * step by {
      assert last - start == Steps(start, last, step) * step;
      assert c - last == Steps(last, c, step) * step;
    }
    WholeSteps(n, step);
  }

  /** Every time the interpolation needs is at or after the accumulator's snapshot, so none of the
      subtractions underflow, and carrying the accumulator there gives the reference integral. */
  lemma CarriedIsIntegral(acc: Running, h: History, side: Side, t: nat)
    requires AccFollows(acc, h) && acc.snapshot <= t
    ensures Carried(acc, side, t) == Integral(side, h, t)
  {
    var last := h[|h| - 1];
    assert Area(Rate(side, last.price), 0) == 0;
  }

  lemma NewTimes(last: nat, c: nat, i: nat, step: nat, snapshot: nat)
    requires step > 0 && last <= c && c == last + Steps(last, c, step) * step
    requires Seconds(snapshot) < last + step && i < Steps(last, c, step)
    ensures EntryTime(c, i, step) >= snapshot
  {
    MulMono(i + 1, Steps(last, c, step), step);
    assert (i + 1) * step == i * step + step;
    assert c - i * step >= last + step;
  }

  lemma OldTimes(last: nat, c: nat, k: nat, i: nat, step: nat)
    requires step > 0 && last <= c && c == last + k * step && k <= i
    ensures EntryTime(c, i, step) == EntryTime(last, i - k, step)
  {
    assert i * step == (i - k) * step + k * step;
  }

  /** Bringing one vector forward keeps every entry equal to the reference, and gives it the length
      the elapsed steps call for. */
  lemma ShiftFollows(prev: seq<nat>, acc: Running, h: History, side: Side, last: nat, c: nat, step: nat)
    requires step > 0 && last <= c && AccFollows(acc, h)
    requires c == last + Steps(last, c, step) * step && Seconds(acc.snapshot) < last + step
    requires EntriesFollow(side, prev, last, step, h)
    ensures EntriesFollow(side, Shifted(prev, acc, side, c, Steps(last, c, step), step), c, step, h)
  {
    var k := Steps(last, c, step);
    var next := Shifted(prev, acc, side, c, k, step);
    forall i | 0 <= i < |next|
      ensures EntryTime(c, i, step) >= 0 && next[i] == Integral(side, h, EntryTime(c, i, step))
    {
      if i < k {
        NewTimes(last, c, i, step, acc.snapshot);
        CarriedIsIntegral(acc, h, side, EntryTime(c, i, step));
      } else {
        OldTimes(last, c, k, i, step);
        assert next[i] == prev[i - k];
      }
    }
  }

  /** One buffer at any later time: it can be brought forward exactly when no price of zero has to
      be inverted, and then it still follows the history. */
  lemma AdvanceFollows(b: Buffer, start: nat, acc: Running, now: nat, step: nat, h: History)
    requires step > 0 && AccFollows(acc, h) && BufferFollows(b, start, acc, step, h)
    requires acc.snapshot <= now
    ensures var r := Advance(b, acc, now, step);
            && (r.Ok? <==> (acc.lastPrice > 0 || Seconds(now) < b.last + step))
            && (r.Ok? ==> OnGrid(r.value.last, start, now, step)
                          && |r.value.prices.aPerB| == Min(BUFFER_DEPTH, Steps(start, r.value.last, step))
                          && EntriesFollow(APerB, r.value.prices.aPerB, r.value.last, step, h)
                          && EntriesFollow(BPerA, r.value.prices.bPerA, r.value.last, step, h))
  {
    SecondsMono(acc.snapshot, now);
    CheckpointOnGrid(b.last, now, step);
    var cp := CalcCheckpoint(b.last, now, step).value;
    if cp.Some? {
      var c := cp.value;
      var k := Steps(b.last, c, step);
      assert k > 0;
      NewTimes(b.last, c, Min(k, BUFFER_DEPTH) - 1, step, acc.snapshot);
      if acc.lastPrice > 0 {
        ShiftFollows(b.prices.aPerB, acc, h, APerB, b.last, c, step);
        ShiftFollows(b.prices.bPerA, acc, h, BPerA, b.last, c, step);
        StepsAdd(start, b.last, c, step);
      }
    }
  }

  lemma SecondsMono(s: nat, t: nat)
    requires s <= t
    ensures Seconds(s) <= Seconds(t)
  {
  }

  // ---- runs ----

  lemma EntriesKeep(side: Side, entries: seq<nat>, last: nat, step: nat, h: History, e: Event)
    requires EntriesFollow(side, entries, last, step, h) && last <= Seconds(e.time)
    ensures EntriesFollow(side, entries, last, step, h + [e])
  {
    forall i | 0 <= i < |entries|
      ensures entries[i] == Integral(side, h + [e], EntryTime(last, i, step))
    {
      assert i * step >= 0;
      AppendKeepsPast(side, h, e, EntryTime(last, i, step));
    }
  }

  lemma AccKeeps(acc: Running, h: History, e: Event)
    requires AccFollows(acc, h) && acc.snapshot <= e.time
    ensures var r := Update(acc, e.time, e.price);
            && (r.Ok? <==> (acc.snapshot == e.time || acc.lastPrice > 0))
            && (r.Ok? ==> AccFollows(r.value, h + [e]) && r.value.snapshot == e.time)
  {
    assert (h + [e])[..|h|] == h;
    CarriedIsIntegral(acc, h, APerB, e.time);
    CarriedIsIntegral(acc, h, BPerA, e.time);
  }

  lemma BufferKeeps(b: Buffer, start: nat, acc: Running, step: nat, h: History, e: Event)
    requires step > 0 && AccFollows(acc, h) && BufferFollows(b, start, acc, step, h)
    requires acc.snapshot < e.time
    ensures var r := Advance(b, acc, e.time, step);
            && (acc.lastPrice > 0 ==> r.Ok?)
            && forall next: Running | r.Ok? && next.snapshot == e.time ::
                 BufferFollows(r.value, start, next, step, h + [e])
  {
    AdvanceFollows(b, start, acc, e.time, step, h);
    var r := Advance(b, acc, e.time, step);
    if r.Ok? {
      EntriesKeep(APerB, r.value.prices.aPerB, r.value.last, step, h, e);
      EntriesKeep(BPerA, r.value.prices.bPerA, r.value.last, step, h, e);
    }
  }

  lemma SameTimeKeeps(b: Buffer, start: nat, acc: Running, step: nat, h: History, e: Event)
    requires step > 0 && BufferFollows(b, start, acc, step, h) && acc.snapshot == e.time
    ensures BufferFollows(b, start, acc.(lastPrice := e.price), step, h + [e])
  {
    EntriesKeep(APerB, b.prices.aPerB, b.last, step, h, e);
    EntriesKeep(BPerA, b.prices.bPerA, b.last, step, h, e);
  }

  /** A store succeeds exactly when time does not run backwards and no price of zero has been in
      force for any time; it then extends the history the oracle follows by one event. */
  lemma StoreFollows(s: Store, start: nat, h: History, e: Event)
    requires Follows(s, start, h)
    ensures var r := StorePrice(s, e.time, e.price);
            && (r.Ok? <==> (s.acc.snapshot == e.time || (s.acc.snapshot < e.time && s.acc.lastPrice > 0)))
            && (r.Ok? ==> Follows(r.value, start, h + [e]))
  {
    if s.acc.snapshot <= e.time {
      AccKeeps(s.acc, h, e);
      if s.acc.snapshot == e.time {
        SameTimeKeeps(s.minutes, start, s.acc, MINUTE, h, e);
        SameTimeKeeps(s.halfHours, start, s.acc, HALF_HOUR, h, e);
        SameTimeKeeps(s.sixHours, start, s.acc, SIX_HOURS, h, e);
      } else {
        BufferKeeps(s.minutes, start, s.acc, MINUTE, h, e);
        BufferKeeps(s.halfHours, start, s.acc, HALF_HOUR, h, e);
        BufferKeeps(s.sixHours, start, s.acc, SIX_HOURS, h, e);
      }
    }
  }

  /** One call of `store_oracle_price`, reverted when it fails. */
  function Next(s: Store, e: Event): Store {
    var r := StorePrice(s, e.time, e.price);
    if r.Ok? then r.value else s
  }

  function Replay(first: Event, calls: seq<Event>): Store {
    if calls == [] then Initialize(first.time, first.price)
    else Next(Replay(first, calls[..|calls| - 1]), calls[|calls| - 1])
  }

  /** The price changes that took effect. */
  function Accepted(first: Event, calls: seq<Event>): History {
    if calls == [] then [first]
    else
      var h := Accepted(first, calls[..|calls| - 1]);
      var e := calls[|calls| - 1];
      if StorePrice(Replay(first, calls[..|calls| - 1]), e.time, e.price).Ok? then h + [e] else h
  }

  lemma InitFollows(first: Event)
    ensures Follows(Initialize(first.time, first.price), Seconds(first.time), [first])
  {
    var h := [first];
    assert h[..0] == [];
  }

  /** After any sequence of price stores, in any timing, all three buffers and the accumulator are
      exactly what the reference integral of the accepted prices says. */
  lemma {:induction false} EveryRunFollows(first: Event, calls: seq<Event>)
    ensures Follows(Replay(first, calls), Seconds(first.time), Accepted(first, calls))
  {
    if calls == [] {
      InitFollows(first);
    } else {
      var before := calls[..|calls| - 1];
      EveryRunFollows(first, before);
      StoreFollows(Replay(first, before), Seconds(first.time), Accepted(first, before), calls[|calls| - 1]);
    }
  }

  lemma EntryIs(b: Buffer, start: nat, acc: Running, step: nat, h: History, side: Side, i: nat)
    requires step > 0 && BufferFollows(b, start, acc, step, h) && i < |b.prices.aPerB|
    ensures EntryTime(b.last, i, step) >= 0
    ensures b.prices.Of(side)[i] == Integral(side, h, EntryTime(b.last, i, step))
  {
    assert EntriesFollow(side, b.prices.Of(side), b.last, step, h);
  }

  lemma BufferOf(s: Store, start: nat, h: History, p: Period)
    requires Follows(s, start, h)
    ensures BufferFollows(s.Of(p), start, s.acc, Step(p), h)
  {
  }

  /** Buffers of different resolution agree wherever they share a checkpoint. */
  lemma SharedCheckpointsAgree(s: Store, start: nat, h: History, side: Side, p: Period, i: nat, q: Period, j: nat)
    requires Follows(s, start, h)
    requires i < |s.Of(p).prices.aPerB| && j < |s.Of(q).prices.aPerB|
    requires EntryTime(s.Of(p).last, i, Step(p)) == EntryTime(s.Of(q).last, j, Step(q))
    ensures s.Of(p).prices.Of(side)[i] == s.Of(q).prices.Of(side)[j]
  {
    BufferOf(s, start, h, p);
    BufferOf(s, start, h, q);
    EntryIs(s.Of(p), start, s.acc, Step(p), h, side, i);
    EntryIs(s.Of(q), start, s.acc, Step(q), h, side, j);
  }
}
