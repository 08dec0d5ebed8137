/** What the oracle's buffers stand for: the running integral of the whole price history, read as
    a step function of time. Times are in nanoseconds, prices and integrals in atomics. */
module OracleReference {
  import opened FixedPoint

  /** Price `price` is in force from `time` on. */
  datatype Event = Event(time: nat, price: nat)

  type History = seq<Event>

  /** The two prices of a pair: as stored, and its inverse. */
  datatype Side = APerB | BPerA

  /** `Decimal::inv`, where a price of zero has no inverse (0 stands for it here). */
  function Inverse(price: nat): nat {
    if price == 0 then 0 else Floor(ONE * ONE, price)
  }

  function Rate(side: Side, price: nat): nat {
    match side
    case APerB => price
    case BPerA => Inverse(price)
  }

  /** What `price` adds to the integral over `elapsed` nanoseconds, rounded down. */
  function Area(price: nat, elapsed: nat): nat {
    Floor(price * elapsed, NANOS)
  }

  /** The reference: the integral of the whole history up to time `t`, rounded down once for
      every stretch of constant price. */
  function Integral(side: Side, h: History, t: nat): nat {
    if h == [] then 0
    else
      var last := h[|h| - 1];
      if t <= last.time then Integral(side, h[..|h| - 1], t)
      else Integral(side, h[..|h| - 1], last.time) + Area(Rate(side, last.price), t - last.time)
  }

  /** The rate in force at time `t` (0 before the history starts). */
  function RateAt(side: Side, h: History, t: nat): nat {
    if h == [] then 0
    else
      var last := h[|h| - 1];
      if last.time <= t then Rate(side, last.price) else RateAt(side, h[..|h| - 1], t)
  }

  /** Every rate in force from `from` until just before `to` lies between `low` and `high`. */
  predicate RatesWithin(side: Side, h: History, from: nat, to: nat, low: nat, high: nat) {
    forall t {:trigger RateAt(side, h, t)} | from <= t < to :: low <= RateAt(side, h, t) <= high
  }

  lemma {:induction false} IntegralGrows(side: Side, h: History, s: nat, t: nat)
    requires s <= t
    ensures Integral(side, h, s) <= Integral(side, h, t)
  {
    if h != [] {
      var last := h[|h| - 1];
      var rest := h[..|h| - 1];
      if t <= last.time {
        IntegralGrows(side, rest, s, t);
      } else if s <= last.time {
        IntegralGrows(side, rest, s, last.time);
      } else {
        var rate := Rate(side, last.price);
        MulMono(s - last.time, t - last.time, rate);
        FloorMono(rate * (s - last.time), rate * (t - last.time), NANOS);
      }
    }
  }

  /** `diff` is a rounded integral over `elapsed` nanoseconds at rates from `low` to `high`: too high
      by less than one unit, too low by less than one unit a nanosecond. */
  predicate Near(diff: int, elapsed: int, low: int, high: int) {
    (low - NANOS) * elapsed < NANOS * diff < high * elapsed + NANOS
  }

  /** The same for a stretch whose beginning is not cut off: never too high. */
  predicate NearBelow(diff: int, elapsed: int, low: int, high: int) {
    (low - NANOS) * elapsed < NANOS * diff <= high * elapsed
  }

  lemma Products(low: int, high: int, rate: int, e: nat)
    requires low <= rate <= high
    ensures low * e <= rate * e <= high * e
  {
    assert rate * e == low * e + (rate - low) * e && high * e == rate * e + (high - rate) * e;
  }

  lemma CutStretch(rate: nat, a: nat, b: nat, low: nat, high: nat)
    requires a < b && low <= rate <= high
    ensures Near(Area(rate, b) - Area(rate, a), b - a, low, high)
  {
    var e := b - a;
    assert rate * b == rate * a + rate * e;
    Products(low, high, rate, e);
    assert (low - NANOS) * e == low * e - NANOS * e;
  }

  lemma WholeStretch(rate: nat, e: nat, low: nat, high: nat)
    requires 0 < e && low <= rate <= high
    ensures NearBelow(Area(rate, e), e, low, high)
  {
    Products(low, high, rate, e);
    assert (low - NANOS) * e == low * e - NANOS * e;
  }

  lemma JoinStretches(d1: int, e1: int, d2: int, e2: int, low: int, high: int)
    requires Near(d1, e1, low, high) && NearBelow(d2, e2, low, high)
    ensures Near(d1 + d2, e1 + e2, low, high)
  {
    assert (low - NANOS) * (e1 + e2) == (low - NANOS) * e1 + (low - NANOS) * e2;
    assert high * (e1 + e2) == high * e1 + high * e2;
  }

  lemma WithinEarlier(side: Side, h: History, from: nat, to: nat, end: nat, low: nat, high: nat)
    requires h != [] && to <= end && to <= h[|h| - 1].time
    requires RatesWithin(side, h, from, end, low, high)
    ensures RatesWithin(side, h[..|h| - 1], from, to, low, high)
  {
    var rest := h[..|h| - 1];
    forall t: nat | from <= t < to ensures low <= RateAt(side, rest, t) <= high {
      assert RateAt(side, h, t) == RateAt(side, rest, t);
    }
  }

  /** How far the integral over any window can be from the window's rates times its length: only
      its first stretch can be cut, so it is too high by less than one unit; every stretch is
      rounded down, so it is too low by less than one unit a nanosecond, however many updates
      fall into the window. */
  lemma {:induction false} WindowBounds(side: Side, h: History, from: nat, to: nat, low: nat, high: nat)
    requires from < to
    requires RatesWithin(side, h, from, to, low, high)
    ensures Near(Integral(side, h, to) - Integral(side, h, from), to - from, low, high)
  {
    if h == [] {
      assert RateAt(side, h, from) == 0;
      assert Area(0, to) == 0 && Area(0, from) == 0;
      CutStretch(0, from, to, low, high);
    } else {
      var last := h[|h| - 1];
      var rate := Rate(side, last.price);
      if to <= last.time {
        WithinEarlier(side, h, from, to, to, low, high);
        WindowBounds(side, h[..|h| - 1], from, to, low, high);
      } else {
        assert low <= rate <= high by { assert RateAt(side, h, to - 1) == rate; }
        if last.time < from {
          CutStretch(rate, from - last.time, to - last.time, low, high);
        } else {
          WholeStretch(rate, to - last.time, low, high);
          if from < last.time {
            WithinEarlier(side, h, from, last.time, to, low, high);
            WindowBounds(side, h[..|h| - 1], from, last.time, low, high);
            JoinStretches(Integral(side, h[..|h| - 1], last.time) - Integral(side, h, from), last.time - from,
                          Area(rate, to - last.time), to - last.time, low, high);
          }
        }
      }
    }
  }

  /** `Twap::average_price`: the mean rate over `elapsed` nanoseconds, kept to nine decimals. */
  function Average(later: nat, earlier: nat, elapsed: nat): nat
    requires earlier <= later && elapsed > 0
  {
    Floor(later - earlier, elapsed) * NANOS
  }

  /** The reported mean over a window of a second or more never exceeds the highest rate in force
      during the window, and is above the lowest minus 2 * 10^9 atomics, whatever the number of
      updates in it. */
  lemma AverageBounds(side: Side, h: History, from: nat, to: nat, low: nat, high: nat)
    requires from + NANOS <= to
    requires RatesWithin(side, h, from, to, low, high)
    ensures Integral(side, h, from) <= Integral(side, h, to)
    ensures low - 2 * NANOS < Average(Integral(side, h, to), Integral(side, h, from), to - from) <= high
  {
    IntegralGrows(side, h, from, to);
    WindowBounds(side, h, from, to, low, high);
    MeanBounds(Integral(side, h, to) - Integral(side, h, from), to - from, low, high);
  }

  lemma MeanBounds(diff: nat, e: nat, low: nat, high: nat)
    requires e >= NANOS
    requires Near(diff, e, low, high)
    ensures low - 2 * NANOS < Floor(diff, e) * NANOS <= high
  {
    var q := Floor(diff, e);
    assert q * NANOS * e == NANOS * (q * e) && (q + 1) * NANOS * e == NANOS * (q * e + e);
    if q * NANOS > high {
      MulMono(high + 1, q * NANOS, e);
      assert false;
    }
    if low - 2 * NANOS >= q * NANOS {
      IntMono((q + 1) * NANOS, low - NANOS, e);
      assert false;
    }
  }

  lemma IntMono(a: int, b: int, c: nat)
    requires a <= b
    ensures a * c <= b * c
  {
    assert b * c == a * c + (b - a) * c;
  }

  /** An event at or after the end of a history leaves every earlier integral as it was. */
  lemma AppendKeepsPast(side: Side, h: History, e: Event, t: nat)
    requires t <= e.time
    ensures Integral(side, h + [e], t) == Integral(side, h, t)
  {
    assert (h + [e])[..|h|] == h;
  }
}
