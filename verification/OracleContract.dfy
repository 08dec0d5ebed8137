/** The oracle as stored: an accumulator and three price buffers updated in place. Each method is
    proved equal to the function of `OracleState` or `OracleRange` with the same meaning. */
module OracleContract {
  import opened FixedPoint
  import opened Results
  import opened OracleReference
  import opened OracleState
  import opened OracleRange

  class Accumulator {
    var snapshot: nat
    var lastPrice: nat
    var twapAPerB: nat
    var twapBPerA: nat

    function View(): Running
      reads this
    {
      Running(snapshot, lastPrice, twapAPerB, twapBPerA)
    }

    constructor (now: nat, price: nat)
      ensures View() == Running(now, price, 0, 0)
    {
      snapshot, lastPrice, twapAPerB, twapBPerA := now, price, 0, 0;
    }

    /** Carries the accumulator to `now`; within one block only the last price changes. */
    method Advance(now: nat, price: nat) returns (r: Result<()>)
      modifies this
      ensures r.Ok? <==> Update(old(View()), now, price).Ok?
      ensures View() == if r.Ok? then Update(old(View()), now, price).value else old(View())
    {
      if now < snapshot {
        return Err(Overflow);
      }
      if now == snapshot {
        lastPrice := price;
        return Ok(());
      }
      if lastPrice == 0 {
        return Err(Overflow);
      }
      var elapsed := now - snapshot;
      twapAPerB := twapAPerB + Area(lastPrice, elapsed);
      twapBPerA := twapBPerA + Area(Inverse(lastPrice), elapsed);
      lastPrice := price;
      snapshot := now;
      return Ok(());
    }
  }

  /** The time `n` steps after second `base`, in nanoseconds. */
  function After(base: nat, n: nat, step: nat): nat {
    (base + n * step) * NANOS
  }

  /** What `Fill` writes into one vector. */
  ghost predicate Filled(v: seq<nat>, done: nat, copied: nat, base: nat, acc: Running, side: Side, step: nat) {
    && done <= copied && done <= |v|
    && forall i | 0 <= i < done ::
         acc.snapshot <= After(base, copied - i, step) && v[i] == Carried(acc, side, After(base, copied - i, step))
  }

  /** Fills the front of both vectors: entry `i` gets the accumulator carried to `copied - i` steps
      after `base`. */
  method Fill(a: array<nat>, b: array<nat>, copied: nat, base: nat, acc: Accumulator, step: nat) returns (r: Result<()>)
    requires a != b && copied <= a.Length && copied <= b.Length && step > 0
    modifies a, b
    ensures r.Ok? <==> copied == 0 || (acc.lastPrice > 0 && acc.snapshot <= After(base, 1, step))
    ensures r.Ok? ==> Filled(a[..], copied, copied, base, acc.View(), APerB, step)
                      && Filled(b[..], copied, copied, base, acc.View(), BPerA, step)
    ensures a[copied..] == old(a[copied..]) && b[copied..] == old(b[copied..])
  {
    ghost var seen := acc.View();
    var i := 0;
    while i < copied
      invariant 0 <= i <= copied
      invariant i > 0 ==> seen.lastPrice > 0 && seen.snapshot <= After(base, copied - i + 1, step)
      invariant Filled(a[..], i, copied, base, seen, APerB, step)
      invariant Filled(b[..], i, copied, base, seen, BPerA, step)
      invariant a[copied..] == old(a[copied..]) && b[copied..] == old(b[copied..])
    {
      var time := After(base, copied - i, step);
      LastIsEarliest(base, copied - i, step);
      if time < acc.snapshot || acc.lastPrice == 0 {
        return Err(Overflow);
      }
      var elapsed := time - acc.snapshot;
      ghost var a0, b0 := a[..], b[..];
      a[i] := acc.twapAPerB + Area(acc.lastPrice, elapsed);
      b[i] := acc.twapBPerA + Area(Inverse(acc.lastPrice), elapsed);
      FilledMore(a0, a[..], i, copied, base, seen, APerB, step);
      FilledMore(b0, b[..], i, copied, base, seen, BPerA, step);
      i := i + 1;
    }
    return Ok(());
  }

  lemma FilledMore(v: seq<nat>, w: seq<nat>, i: nat, copied: nat, base: nat, acc: Running, side: Side, step: nat)
    requires Filled(v, i, copied, base, acc, side, step) && i < copied && i < |v|
    requires acc.snapshot <= After(base, copied - i, step)
    requires w == v[i := Carried(acc, side, After(base, copied - i, step))]
    ensures Filled(w, i + 1, copied, base, acc, side, step)
  {
  }

  lemma LastIsEarliest(base: nat, n: nat, step: nat)
    requires n >= 1
    ensures After(base, 1, step) <= After(base, n, step)
  {
    MulMono(1, n, step);
  }

  /** Where the interpolated front of the buffer starts: at the last update, or 32 steps before the
      newest checkpoint when nothing old survives. */
  lemma FrontTimes(last: nat, checkpoint: nat, step: nat, copied: nat, base: nat, i: nat)
    requires step > 0 && last <= checkpoint && (checkpoint - last) % step == 0
    requires var k := Steps(last, checkpoint, step);
             if k < BUFFER_DEPTH then copied == k && base == last
             else copied == BUFFER_DEPTH && base == checkpoint - step * BUFFER_DEPTH
    requires i < copied
    ensures After(base, copied - i, step) == EntryTime(checkpoint, i, step)
  {
    assert checkpoint == last + Steps(last, checkpoint, step) * step;
    assert (copied - i) * step == copied * step - i * step;
    assert step * BUFFER_DEPTH == BUFFER_DEPTH * step;
  }

  lemma FrontExists(last: nat, checkpoint: nat, step: nat)
    requires step > 0 && last <= checkpoint && Steps(last, checkpoint, step) >= BUFFER_DEPTH
    ensures step * BUFFER_DEPTH <= checkpoint
  {
    var k := Steps(last, checkpoint, step);
    MulMono(BUFFER_DEPTH, k, step);
    assert k * step <= checkpoint - last;
  }

  /** A zeroed vector of length `len` with the old entries that still fit moved up by `k`. */
  method Resized(prev: seq<nat>, k: nat, len: nat) returns (v: array<nat>)
    requires len <= |prev| + k
    ensures fresh(v) && v.Length == len
    ensures forall i | k <= i < len :: v[i] == prev[i - k]
  {
    v := new nat[len](_ => 0);
    forall i | k <= i < len { v[i] := prev[i - k]; }
  }

  /** `Prices::accumulate`: a new pair of vectors is sized, the entries still valid are copied to
      their new place, and the rest is interpolated. */
  method Accumulate(prices: Prices, last: nat, checkpoint: nat, acc: Accumulator, step: nat) returns (r: Result<Prices>)
    requires step > 0 && last <= checkpoint && (checkpoint - last) % step == 0
    ensures r == Accumulated(prices, last, checkpoint, acc.View(), step)
  {
    var k := (checkpoint - last) / step;
    var len := Min(BUFFER_DEPTH, |prices.aPerB| + k);
    var a := Resized(prices.aPerB, k, len);
    var b := Resized(prices.bPerA, k, len);
    var copied, base := k, last;
    if k >= BUFFER_DEPTH {
      FrontExists(last, checkpoint, step);
      copied, base := BUFFER_DEPTH, checkpoint - step * BUFFER_DEPTH;
    }
    var filled := Fill(a, b, copied, base, acc, step);
    if copied > 0 {
      FrontTimes(last, checkpoint, step, copied, base, copied - 1);
    }
    if filled.Err? {
      return Err(Overflow);
    }
    FrontIsShifted(a[..], prices.aPerB, acc.View(), APerB, last, checkpoint, step, copied, base);
    FrontIsShifted(b[..], prices.bPerA, acc.View(), BPerA, last, checkpoint, step, copied, base);
    return Ok(PricesData(a[..], b[..]));
  }

  lemma FrontIsShifted(v: seq<nat>, prev: seq<nat>, acc: Running, side: Side, last: nat, checkpoint: nat, step: nat,
                       copied: nat, base: nat)
    requires step > 0 && last <= checkpoint && (checkpoint - last) % step == 0
    requires var k := Steps(last, checkpoint, step);
             && (if k < BUFFER_DEPTH then copied == k && base == last
                 else copied == BUFFER_DEPTH && base == checkpoint - step * BUFFER_DEPTH)
             && |v| == Min(BUFFER_DEPTH, |prev| + k)
             && forall i | copied <= i < |v| :: v[i] == prev[i - k]
    requires Filled(v, copied, copied, base, acc, side, step)
    ensures v == Shifted(prev, acc, side, checkpoint, Steps(last, checkpoint, step), step)
  {
    forall i | 0 <= i < copied
      ensures v[i] == acc.Of(side)
                      + Area(Rate(side, acc.lastPrice), Positive(EntryTime(checkpoint, i, step) - acc.snapshot))
    {
      FrontTimes(last, checkpoint, step, copied, base, i);
    }
  }

  /** One period at a price store or a query: nothing when no whole step has passed. */
  method AdvanceBuffer(b: Buffer, acc: Accumulator, now: nat, step: nat) returns (r: Result<Buffer>)
    requires step > 0
    ensures r == Advance(b, acc.View(), now, step)
  {
    if Seconds(now) < b.last {
      return Err(Overflow);
    }
    var steps := (Seconds(now) - b.last) / step;
    if steps == 0 {
      return Ok(b);
    }
    var checkpoint := b.last + steps * step;
    WholeSteps(steps, step);
    var prices := Accumulate(b.prices, b.last, checkpoint, acc, step);
    match prices {
      case Err(e) => return Err(e);
      case Ok(p) => return Ok(Buffer(checkpoint, p));
    }
  }

  class Oracle {
    var acc: Accumulator
    var minutes: Buffer
    var halfHours: Buffer
    var sixHours: Buffer

    function View(): Store
      reads this, acc
    {
      Store(acc.View(), minutes, halfHours, sixHours)
    }

    /** `initialize_oracle`: three empty buffers on the grid of the current second. */
    constructor (now: nat, price: nat)
      ensures View() == Initialize(now, price)
      ensures Follows(View(), Seconds(now), [Event(now, price)])
      ensures fresh(acc)
    {
      acc := new Accumulator(now, price);
      var empty := Buffer(Seconds(now), PricesData([], []));
      minutes, halfHours, sixHours := empty, empty, empty;
      new;
      InitFollows(Event(now, price));
    }

    /** `store_oracle_price`. A failing call leaves the storage as it was. */
    method StoreOraclePrice(now: nat, price: nat) returns (r: Result<()>)
      modifies this, acc
      ensures acc == old(acc)
      ensures View() == Next(old(View()), Event(now, price))
      ensures r.Ok? <==> StorePrice(old(View()), now, price).Ok?
    {
      if now == acc.snapshot {
        acc.lastPrice := price;
        return Ok(());
      }
      var m := AdvanceBuffer(minutes, acc, now, MINUTE);
      if m.Err? {
        return Err(m.error);
      }
      var hh := AdvanceBuffer(halfHours, acc, now, HALF_HOUR);
      if hh.Err? {
        return Err(hh.error);
      }
      var six := AdvanceBuffer(sixHours, acc, now, SIX_HOURS);
      if six.Err? {
        return Err(six.error);
      }
      r := acc.Advance(now, price);
      if r.Err? {
        return;
      }
      minutes, halfHours, sixHours := m.value, hh.value, six.value;
    }

    /** `query_oracle_range`: the buffer is brought forward without being saved. */
    method QueryOracleRange(now: nat, p: Period, from: nat, end: Option<nat>) returns (r: Result<Answer>)
      ensures r == Query(View(), now, p, from, end)
    {
      var stored := match p case Minute => minutes case HalfHour => halfHours case SixHour => sixHours;
      var advanced := AdvanceBuffer(stored, acc, now, Step(p));
      match advanced {
        case Err(e) => return Err(e);
        case Ok(b) =>
          if end.Some? {
            return ClosedRange(b, Step(p), from, end.value);
          }
          return OpenRange(b, stored.last, acc.View(), Step(p), now, from);
      }
    }
  }
}
