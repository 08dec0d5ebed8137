/** The amplification schedule of the stableswap pair: a piecewise linear ramp that can be started
    and stopped, and what every run of those two operations keeps. */
module StableAmp {
  import opened FixedPoint
  import opened Results

  const MAX_AMP: nat := 1_000_000
  const MAX_AMP_CHANGE: nat := 10
  const MIN_AMP_CHANGING_TIME: nat := 86400
  const AMP_PRECISION: nat := 100

  /** The stored ramp: from `initAmp` at `initTime` to `nextAmp` at `nextTime`. */
  datatype Ramp = Ramp(initAmp: nat, initTime: nat, nextAmp: nat, nextTime: nat)

  function Saturating(a: nat, b: nat): nat {
    if a < b then 0 else a - b
  }

  /** `compute_current_amp`. */
  function Current(r: Ramp, now: nat): Result<nat> {
    if now >= r.nextTime then Ok(r.nextAmp)
    else
      var elapsed, range := Saturating(now, r.initTime), Saturating(r.nextTime, r.initTime);
      if range == 0 then Err(Overflow)
      else if r.nextAmp > r.initAmp then Ok(r.initAmp + Floor((r.nextAmp - r.initAmp) * elapsed, range))
      else Minus(r.initAmp, Floor((r.initAmp - r.nextAmp) * elapsed, range))
  }

  /** The schedule of a new pair. */
  function Initial(amp: nat, now: nat): Result<Ramp> {
    if amp == 0 || amp > MAX_AMP then Err(IncorrectAmp)
    else Ok(Ramp(amp * AMP_PRECISION, now, amp * AMP_PRECISION, now))
  }

  /** `start_changing_amp`. */
  function Start(r: Ramp, now: nat, nextAmp: nat, nextTime: nat): Result<Ramp> {
    if nextAmp == 0 || nextAmp > MAX_AMP then Err(IncorrectAmp)
    else
      var current :- Current(r, now);
      var next := nextAmp * AMP_PRECISION;
      if next * MAX_AMP_CHANGE < current || next > current * MAX_AMP_CHANGE then Err(MaxAmpChange)
      else if now < r.initTime + MIN_AMP_CHANGING_TIME || nextTime < now + MIN_AMP_CHANGING_TIME then
        Err(MinAmpChangingTime)
      else Ok(Ramp(current, now, next, nextTime))
  }

  /** `stop_changing_amp`. */
  function Stop(r: Ramp, now: nat): Result<Ramp> {
    var current :- Current(r, now);
    Ok(Ramp(current, now, current, now))
  }

  class Schedule {
    var initAmp: nat
    var initTime: nat
    var nextAmp: nat
    var nextTime: nat

    function View(): Ramp
      reads this
    {
      Ramp(initAmp, initTime, nextAmp, nextTime)
    }

    constructor (amp: nat, now: nat)
      requires 1 <= amp <= MAX_AMP
      ensures Initial(amp, now) == Ok(View())
    {
      initAmp, nextAmp := amp * AMP_PRECISION, amp * AMP_PRECISION;
      initTime, nextTime := now, now;
    }

    method StartChangingAmp(now: nat, next: nat, until: nat) returns (r: Result<()>)
      modifies this
      ensures r.Ok? <==> Start(old(View()), now, next, until).Ok?
      ensures View() == if r.Ok? then Start(old(View()), now, next, until).value else old(View())
    {
      if next == 0 || next > MAX_AMP {
        return Err(IncorrectAmp);
      }
      var current := Current(View(), now);
      if current.Err? {
        return Err(current.error);
      }
      var withPrecision := next * AMP_PRECISION;
      if withPrecision * MAX_AMP_CHANGE < current.value || withPrecision > current.value * MAX_AMP_CHANGE {
        return Err(MaxAmpChange);
      }
      if now < initTime + MIN_AMP_CHANGING_TIME || until < now + MIN_AMP_CHANGING_TIME {
        return Err(MinAmpChangingTime);
      }
      initAmp := current.value;
      nextAmp := withPrecision;
      initTime := now;
      nextTime := until;
      return Ok(());
    }

    method StopChangingAmp(now: nat) returns (r: Result<()>)
      modifies this
      ensures r.Ok? <==> Stop(old(View()), now).Ok?
      ensures View() == if r.Ok? then Stop(old(View()), now).value else old(View())
    {
      var current := Current(View(), now);
      if current.Err? {
        return Err(current.error);
      }
      initAmp := current.value;
      nextAmp := current.value;
      initTime := now;
      nextTime := now;
      return Ok(());
    }
  }

  // ---- one ramp ----

  predicate InRange(amp: nat) {
    AMP_PRECISION <= amp <= MAX_AMP * AMP_PRECISION
  }

  predicate Between(a: nat, x: nat, b: nat) {
    a <= x <= b || b <= x <= a
  }

  /** The invariant of the schedule: both ends in range, and a ramp that is not over in its first
      second takes at least a day and spans at most a factor of ten. */
  predicate Valid(r: Ramp) {
    && InRange(r.initAmp) && InRange(r.nextAmp)
    && (r.initTime == r.nextTime ==> r.initAmp == r.nextAmp)
    && (r.initTime != r.nextTime ==> r.initTime + MIN_AMP_CHANGING_TIME <= r.nextTime)
    && r.nextAmp <= r.initAmp * MAX_AMP_CHANGE && r.initAmp <= r.nextAmp * MAX_AMP_CHANGE
  }

  lemma PartOfSpan(span: nat, elapsed: nat, range: nat)
    requires elapsed <= range && range > 0
    ensures Floor(span * elapsed, range) <= span
    ensures elapsed == range ==> Floor(span * elapsed, range) == span
  {
    MulMono(elapsed, range, span);
    FloorAtMost(span * elapsed, range, span) by { assert (span + 1) * range == span * range + range; }
    if elapsed == range {
      FloorIs(span * elapsed, range, span) by { assert (span + 1) * range == span * range + range; }
    }
  }

  /** Once the schedule has begun the amplifier can always be computed, lies between the two ends,
      is the first end at the beginning and the second from the end on. */
  lemma CurrentIsBetween(r: Ramp, now: nat)
    requires Valid(r) && r.initTime <= now
    ensures Current(r, now).Ok? && Between(r.initAmp, Current(r, now).value, r.nextAmp)
    ensures now == r.initTime ==> Current(r, now).value == r.initAmp
    ensures now >= r.nextTime ==> Current(r, now).value == r.nextAmp
  {
    if now < r.nextTime {
      var elapsed, range := now - r.initTime, r.nextTime - r.initTime;
      if r.nextAmp > r.initAmp {
        PartOfSpan(r.nextAmp - r.initAmp, elapsed, range);
      } else {
        PartOfSpan(r.initAmp - r.nextAmp, elapsed, range);
      }
      if now == r.initTime {
        FloorIs(0, range, 0);
      }
    }
  }

  /** Along one ramp the amplifier moves in one direction only. */
  lemma RampIsMonotone(r: Ramp, s: nat, t: nat)
    requires Valid(r) && r.initTime <= s <= t
    ensures Current(r, s).Ok? && Current(r, t).Ok?
    ensures r.initAmp <= r.nextAmp ==> Current(r, s).value <= Current(r, t).value
    ensures r.nextAmp <= r.initAmp ==> Current(r, t).value <= Current(r, s).value
  {
    CurrentIsBetween(r, s);
    CurrentIsBetween(r, t);
    if t < r.nextTime {
      var range := r.nextTime - r.initTime;
      if r.nextAmp > r.initAmp {
        SpanMono(r.nextAmp - r.initAmp, s - r.initTime, t - r.initTime, range);
      } else {
        SpanMono(r.initAmp - r.nextAmp, s - r.initTime, t - r.initTime, range);
      }
    }
  }

  lemma SpanMono(span: nat, a: nat, b: nat, range: nat)
    requires a <= b && range > 0
    ensures Floor(span * a, range) <= Floor(span * b, range)
  {
    MulMono(a, b, span);
    FloorMono(span * a, span * b, range);
  }

  /** On the way the amplifier is within one unit of the straight line between the two ends, on the side
      of the first one, whether it rises or falls. */
  lemma CurrentIsOnLine(r: Ramp, now: nat)
    requires Valid(r) && r.initTime <= now < r.nextTime
    ensures Current(r, now).Ok?
    ensures var v, range := Current(r, now).value, r.nextTime - r.initTime;
            if r.initAmp <= r.nextAmp then
              (v - r.initAmp) * range <= (r.nextAmp - r.initAmp) * (now - r.initTime) < (v - r.initAmp + 1) * range
            else
              (r.initAmp - v) * range <= (r.initAmp - r.nextAmp) * (now - r.initTime) < (r.initAmp - v + 1) * range
  {
    CurrentIsBetween(r, now);
    var elapsed, range := now - r.initTime, r.nextTime - r.initTime;
    if r.nextAmp > r.initAmp {
      OnLine((r.nextAmp - r.initAmp) * elapsed, range);
    } else {
      OnLine((r.initAmp - r.nextAmp) * elapsed, range);
    }
  }

  lemma OnLine(span: nat, range: nat)
    requires range > 0
    ensures Floor(span, range) * range <= span < (Floor(span, range) + 1) * range
  {
    assert (Floor(span, range) + 1) * range == Floor(span, range) * range + range;
  }

  // ---- starting and stopping ----

  /** A ramp can be started exactly towards an amplifier in range and within a factor of ten of where the
      amplifier is now, a day or more after the last start or stop, and for a day or more; it then leads
      from there to the chosen amplifier at the chosen time. */
  lemma StartSucceedsIff(r: Ramp, now: nat, next: nat, until: nat)
    requires Valid(r) && r.initTime <= now
    ensures Current(r, now).Ok?
    ensures var current := Current(r, now).value;
            Start(r, now, next, until).Ok?
            <==> && 1 <= next <= MAX_AMP
                 && current <= 10 * (next * AMP_PRECISION) && next * AMP_PRECISION <= 10 * current
                 && r.initTime + MIN_AMP_CHANGING_TIME <= now && now + MIN_AMP_CHANGING_TIME <= until
    ensures var started := Start(r, now, next, until);
            started.Ok? ==>
              && Current(started.value, now) == Current(r, now)
              && forall t | until <= t :: Current(started.value, t) == Ok(next * AMP_PRECISION)
  {
    CurrentIsBetween(r, now);
    if Start(r, now, next, until).Ok? {
      StartKeeps(r, now, next, until);
    }
  }


  /** Starting a ramp keeps the schedule valid and leaves the amplifier as it is at that instant. */
  lemma StartKeeps(r: Ramp, now: nat, next: nat, until: nat)
    requires Valid(r) && r.initTime <= now && Start(r, now, next, until).Ok?
    ensures Valid(Start(r, now, next, until).value)
    ensures Current(Start(r, now, next, until).value, now) == Current(r, now)
  {
    CurrentIsBetween(r, now);
    var started := Start(r, now, next, until).value;
    CurrentIsBetween(started, now);
  }

  /** So does stopping one, which never fails; from then on the amplifier does not move at all. */
  lemma StopKeeps(r: Ramp, now: nat, later: nat)
    requires Valid(r) && r.initTime <= now <= later
    ensures Stop(r, now).Ok? && Valid(Stop(r, now).value)
    ensures Current(Stop(r, now).value, later) == Current(r, now)
  {
    CurrentIsBetween(r, now);
  }

  // ---- runs ----

  datatype Op = StartOp(next: nat, until: nat) | StopOp

  datatype Event = Event(now: nat, op: Op)

  /** One operation by the owner; a failing one changes nothing. */
  function Step(r: Ramp, e: Event): Ramp {
    var next := match e.op case StartOp(next, until) => Start(r, e.now, next, until) case StopOp => Stop(r, e.now);
    if next.Ok? then next.value else r
  }

  function Run(r: Ramp, events: seq<Event>): Ramp {
    if events == [] then r else Step(Run(r, events[..|events| - 1]), events[|events| - 1])
  }

  /** Time does not run backwards, from `start` on and up to `end`. */
  predicate Ordered(events: seq<Event>, start: nat, end: nat) {
    && start <= end
    && (forall i | 0 <= i < |events| :: start <= events[i].now <= end)
    && (forall i, j | 0 <= i < j < |events| :: events[i].now <= events[j].now)
  }

  /** Neither amplifier is more than 10^days times the other. */
  predicate Within(a: nat, b: nat, days: nat) {
    a <= b * Pow10(days) && b <= a * Pow10(days)
  }

  function Days(from: nat, to: nat): nat
    requires from <= to
  {
    (to - from) / MIN_AMP_CHANGING_TIME
  }

  lemma {:induction false} Pow10Mono(m: nat, n: nat)
    requires m <= n
    ensures Pow10(m) <= Pow10(n)
  {
    if m < n {
      Pow10Mono(m, n - 1);
    }
  }

  lemma WithinMore(a: nat, b: nat, m: nat, n: nat)
    requires Within(a, b, m) && m <= n
    ensures Within(a, b, n)
  {
    Pow10Mono(m, n);
    MulMono(Pow10(m), Pow10(n), a);
    MulMono(Pow10(m), Pow10(n), b);
  }

  lemma WithinBetween(a: nat, x: nat, y: nat, z: nat, n: nat)
    requires Within(a, x, n) && Within(a, z, n) && Between(x, y, z)
    ensures Within(a, y, n)
  {
    if x <= y {
      MulMono(x, y, Pow10(n));
    } else {
      MulMono(z, y, Pow10(n));
    }
  }

  lemma WithinTimesTen(a: nat, x: nat, y: nat, n: nat)
    requires Within(a, x, n) && y <= x * MAX_AMP_CHANGE && x <= y * MAX_AMP_CHANGE
    ensures Within(a, y, n + 1)
  {
    var p := Pow10(n);
    MulMono(x, y * MAX_AMP_CHANGE, p);
    assert y * MAX_AMP_CHANGE * p == y * (10 * p);
    assert a * p * MAX_AMP_CHANGE == a * (10 * p);
  }

  /** What holds of the schedule after any run from time `start`: it is valid, has begun, and both
      its ends are within a factor of ten for each whole day before its beginning. */
  predicate Reached(r: Ramp, amp: nat, start: nat, now: nat) {
    && Valid(r) && start <= r.initTime <= now
    && Within(amp, r.initAmp, Days(start, r.initTime))
    && Within(amp, r.nextAmp, Days(start, r.initTime))
  }

  lemma StepReaches(r: Ramp, amp: nat, start: nat, e: Event)
    requires Reached(r, amp, start, e.now)
    ensures Reached(Step(r, e), amp, start, e.now)
  {
    var k := Days(start, r.initTime);
    CurrentIsBetween(r, e.now);
    var current := Current(r, e.now).value;
    WithinBetween(amp, r.initAmp, current, r.nextAmp, k);
    if e.op.StopOp? {
      StopKeeps(r, e.now, e.now);
      WithinMore(amp, current, k, Days(start, e.now));
    } else if Start(r, e.now, e.op.next, e.op.until).Ok? {
      StartKeeps(r, e.now, e.op.next, e.op.until);
      assert Days(start, e.now) >= k + 1;
      WithinMore(amp, current, k, Days(start, e.now));
      WithinTimesTen(amp, current, e.op.next * AMP_PRECISION, k);
      WithinMore(amp, e.op.next * AMP_PRECISION, k + 1, Days(start, e.now));
    }
  }

  lemma {:induction false} RunReaches(amp: nat, start: nat, events: seq<Event>, end: nat)
    requires 1 <= amp <= MAX_AMP && Ordered(events, start, end)
    ensures Reached(Run(Initial(amp, start).value, events), amp * AMP_PRECISION, start, end)
  {
    if events != [] {
      var last := events[|events| - 1];
      RunReaches(amp, start, events[..|events| - 1], last.now);
      StepReaches(Run(Initial(amp, start).value, events[..|events| - 1]), amp * AMP_PRECISION, start, last);
    }
  }

  /** After any run of starts and stops, at any later time, the amplifier can be computed, is in
      range, and is within a factor of ten of where it started for each whole day that has passed. */
  lemma EveryRunIsBounded(amp: nat, start: nat, events: seq<Event>, end: nat)
    requires 1 <= amp <= MAX_AMP && Ordered(events, start, end)
    ensures var current := Current(Run(Initial(amp, start).value, events), end);
            && current.Ok? && InRange(current.value)
            && Within(amp * AMP_PRECISION, current.value, Days(start, end))
  {
    RunReaches(amp, start, events, end);
    var r := Run(Initial(amp, start).value, events);
    CurrentIsBetween(r, end);
    var k := Days(start, r.initTime);
    WithinBetween(amp * AMP_PRECISION, r.initAmp, Current(r, end).value, r.nextAmp, k);
    WithinMore(amp * AMP_PRECISION, Current(r, end).value, k, Days(start, end));
  }
}
