/**
 `energy.py`: energy in kWh from power samples in W, plainly and per day or month.

 Both accumulators carry the history of samples and resets they have seen, and their invariants
 say what the running total is worth as a sum over that history.
 */
module Energy {
  import opened Numbers

  /** A point in time: seconds on one clock, and the calendar day it falls on. */
  datatype Moment = Moment(seconds: real, year: int, month: int, day: int)

  datatype Cycle = Daily | Monthly

  /** The period a moment belongs to; `None` is the empty key of a fresh accumulator. */
  datatype Period = NoPeriod | OfDay(year: int, month: int, day: int) | OfMonth(year: int, month: int)

  function PeriodOf(cycle: Cycle, now: Moment): Period {
    match cycle
    case Daily => OfDay(now.year, now.month, now.day)
    case Monthly => OfMonth(now.year, now.month)
  }

  /** One event in the life of an accumulator. */
  datatype Event = Sample(power: real, now: Moment) | Reset

  // ---- trapezoids --------------------------------------------------------------

  /** Power as the accumulators see it: never negative. */
  function Clamped(power: real): (w: real) ensures 0.0 <= w { Max(0.0, power) }

  /** A gap that counts: strictly forward and at most an hour. */
  predicate Counts(earlier: Moment, later: Moment) {
    0.0 < later.seconds - earlier.seconds <= 3600.0
  }

  /** Energy under the line between two samples, in kWh. */
  function Trapezoid(a: Event, b: Event): real
    requires a.Sample? && b.Sample?
  {
    (Clamped(a.power) + Clamped(b.power)) / 2.0 * ((b.now.seconds - a.now.seconds) / 3600.0) / 1000.0
  }

  /** The sample an accumulator still remembers: the latest event, unless it is a reset. */
  function Remembered(events: seq<Event>): Option<Event> {
    if events != [] && events[|events| - 1].Sample? then Some(events[|events| - 1]) else None
  }

  /** What one event adds after a remembered sample. */
  function Added(previous: Option<Event>, e: Event): real
    requires previous.Some? ==> previous.value.Sample?
  {
    if previous.Some? && e.Sample? && Counts(previous.value.now, e.now)
    then Trapezoid(previous.value, e) else 0.0
  }

  /** Energy of event `i` together with the event right before it. */
  function Step(events: seq<Event>, i: nat): real
    requires i < |events|
  {
    Added(Remembered(events[..i]), events[i])
  }

  /** Every counted trapezoid between adjacent samples with no reset between them. */
  function EnergyOf(events: seq<Event>): real {
    if events == [] then 0.0 else EnergyOf(events[..|events| - 1]) + Step(events, |events| - 1)
  }

  // ---- the plain accumulator ---------------------------------------------------------

  class EnergyAccumulator {
    var totalKwh: real
    var prevPower: Option<real>
    var prevTime: Option<Moment>
    ghost var start: real
    ghost var events: seq<Event>

    ghost predicate Valid()
      reads this
    {
      && totalKwh == start + EnergyOf(events)
      && match Remembered(events)
         case Some(e) => prevTime == Some(e.now) && prevPower == Some(Clamped(e.power))
         case None => prevTime == None && prevPower == None
    }

    constructor (initialKwh: real)
      ensures Valid() && start == initialKwh && events == []
    {
      totalKwh, prevPower, prevTime := initialKwh, None, None;
      start, events := initialKwh, [];
    }

    /** The rounded total the sensor shows. */
    function Total(): real
      reads this
    {
      Round4(totalKwh)
    }

    /** Replaces the total by a restored one; the sample stream goes on. */
    method SetTotal(value: real)
      requires Valid()
      modifies this
      ensures Valid() && totalKwh == value && events == old(events)
      ensures start == value - EnergyOf(events)
    {
      totalKwh := value;
      start := value - EnergyOf(events);
    }

    method Accumulate(power: real, now: Moment) returns (total: real)
      requires Valid()
      modifies this
      ensures Valid() && start == old(start) && events == old(events) + [Sample(power, now)]
      ensures total == Total()
    {
      var watts := Max(0.0, power);
      if prevPower.Some? && prevTime.Some? {
        var dt := now.seconds - prevTime.value.seconds;
        if 0.0 < dt <= 3600.0 {
          var hours := dt / 3600.0;
          var average := (prevPower.value + watts) / 2.0;
          totalKwh := totalKwh + average * hours / 1000.0;
        }
      }
      prevPower, prevTime := Some(watts), Some(now);
      events := events + [Sample(power, now)];
      assert events[..|events| - 1] == old(events);
      total := Round4(totalKwh);
    }

    method ResetSample()
      requires Valid()
      modifies this
      ensures Valid() && start == old(start) && events == old(events) + [Reset]
      ensures totalKwh == old(totalKwh)
    {
      prevPower, prevTime := None, None;
      events := events + [Reset];
      assert events[..|events| - 1] == old(events);
    }
  }

  // ---- the plain total over whole runs ---------------------------------------------------

  /** Samples come in clock order. */
  ghost predicate Chronological(events: seq<Event>) {
    forall i, j :: 0 <= i < j < |events| && events[i].Sample? && events[j].Sample? ==>
      events[i].now.seconds <= events[j].now.seconds
  }

  lemma StepIsNonNegative(events: seq<Event>, i: nat)
    requires i < |events|
    ensures 0.0 <= Step(events, i)
  {
    if Step(events, i) != 0.0 {
      var a, b := events[..i][i - 1], events[i];
      var average := (Clamped(a.power) + Clamped(b.power)) / 2.0;
      var hours := (b.now.seconds - a.now.seconds) / 3600.0;
      assert 0.0 <= average * hours;
    }
  }

  /** Totals never go down, whatever the clock does. */
  lemma {:induction false} EnergyIsMonotone(events: seq<Event>, n: nat)
    requires n <= |events|
    ensures 0.0 <= EnergyOf(events[..n]) <= EnergyOf(events)
    decreases |events|
  {
    if n < |events| {
      var front := events[..|events| - 1];
      EnergyIsMonotone(front, n);
      assert front[..n] == events[..n];
      StepIsNonNegative(events, |events| - 1);
    } else {
      assert events[..n] == events;
      if n > 0 {
        EnergyIsMonotone(events[..n - 1], n - 1);
        assert events[..n - 1][..n - 1] == events[..n - 1];
        StepIsNonNegative(events, n - 1);
      }
    }
  }

  /** No sample exceeds the peak. */
  ghost predicate PeakedAt(events: seq<Event>, peak: real) {
    0.0 <= peak && forall e :: e in events && e.Sample? ==> e.power <= peak
  }

  /** Constant power over a span of seconds, in kWh. */
  function ConstantEnergy(power: real, span: real): real { power * span / 3600.0 / 1000.0 }

  /** On a chronological run, energy is at most peak power times elapsed time. */
  lemma {:induction false} EnergyIsAtMostPeakTimesElapsed(events: seq<Event>, peak: real, begin: real, end: real)
    requires Chronological(events) && PeakedAt(events, peak) && begin <= end
    requires forall e :: e in events && e.Sample? ==> begin <= e.now.seconds <= end
    ensures EnergyOf(events) <= ConstantEnergy(peak, end - begin)
  {
    hide Trapezoid, ConstantEnergy;
    if events == [] {
      ConstantEnergySplits(peak, begin, begin, begin, end);
    } else {
      var n := |events| - 1;
      var front := events[..n];
      assert PeakedAt(front, peak) by {
        assert forall e :: e in front ==> e in events;
      }
      if Step(events, n) == 0.0 {
        EnergyIsAtMostPeakTimesElapsed(front, peak, begin, end);
      } else {
        var before, last := events[n - 1], events[n];
        assert before in events && last in events;
        assert Step(events, n) == Trapezoid(before, last);
        EarlierSamples(events, begin);
        EnergyIsAtMostPeakTimesElapsed(front, peak, begin, before.now.seconds);
        TrapezoidIsAtMostPeak(before, last, peak);
        ConstantEnergySplits(peak, begin, before.now.seconds, last.now.seconds, end);
      }
    }
  }

  lemma EarlierSamples(events: seq<Event>, begin: real)
    requires Chronological(events) && |events| > 1 && events[|events| - 2].Sample?
    requires forall e :: e in events && e.Sample? ==> begin <= e.now.seconds
    ensures forall e :: e in events[..|events| - 1] && e.Sample? ==>
      begin <= e.now.seconds <= events[|events| - 2].now.seconds
  {
    forall e | e in events[..|events| - 1] && e.Sample?
      ensures begin <= e.now.seconds <= events[|events| - 2].now.seconds
    {
      var i :| 0 <= i < |events| - 1 && events[i] == e;
      assert i < |events| - 2 || e == events[|events| - 2];
    }
  }

  lemma TrapezoidIsAtMostPeak(a: Event, b: Event, peak: real)
    requires a.Sample? && b.Sample? && Counts(a.now, b.now)
    requires 0.0 <= peak && a.power <= peak && b.power <= peak
    ensures Trapezoid(a, b) <= ConstantEnergy(peak, b.now.seconds - a.now.seconds)
  {
    var average := (Clamped(a.power) + Clamped(b.power)) / 2.0;
    var dt := b.now.seconds - a.now.seconds;
    assert average <= peak;
    assert average * dt <= peak * dt;
    assert average * (dt / 3600.0) == average * dt / 3600.0;
  }

  lemma ConstantEnergySplits(power: real, a: real, b: real, c: real, d: real)
    requires 0.0 <= power && a <= b <= c <= d
    ensures 0.0 <= ConstantEnergy(power, b - a) + ConstantEnergy(power, c - b) <= ConstantEnergy(power, d - a)
    ensures ConstantEnergy(power, 0.0) == 0.0
  {
    assert 0.0 <= power * (b - a) && 0.0 <= power * (c - b);
    assert power * (b - a) + power * (c - b) == power * (c - a);
    assert power * (c - a) <= power * (d - a);
  }

  // ---- the cycling accumulator -----------------------------------------------------------------

  /** The total of the open cycle, its period, and the totals closed so far, added up. */
  datatype CycleState = CycleState(open: real, period: Period, closed: real)

  /** The state of a cycling accumulator after a run that starts from `start` with no sample. */
  function CycleRun(cycle: Cycle, start: CycleState, events: seq<Event>): CycleState {
    if events == [] then start
    else
      var before := CycleRun(cycle, start, events[..|events| - 1]);
      match events[|events| - 1]
      case Reset => before
      case Sample(_, now) =>
        if PeriodOf(cycle, now) != before.period
        then CycleState(0.0, PeriodOf(cycle, now), before.closed + before.open)
        else before.(open := before.open + Step(events, |events| - 1))
  }

  /** The trapezoid into event `i`, if it counts and straddles a period boundary. */
  function StraddlingStep(cycle: Cycle, events: seq<Event>, i: nat): real
    requires i < |events|
  {
    var previous := Remembered(events[..i]);
    if previous.Some? && events[i].Sample?
       && PeriodOf(cycle, previous.value.now) != PeriodOf(cycle, events[i].now)
    then Step(events, i) else 0.0
  }

  function Straddling(cycle: Cycle, events: seq<Event>): real {
    if events == [] then 0.0
    else Straddling(cycle, events[..|events| - 1]) + StraddlingStep(cycle, events, |events| - 1)
  }

  /** The period of the latest sample, or the starting one before any sample. */
  function LatestPeriod(cycle: Cycle, start: Period, events: seq<Event>): Period {
    if events == [] then start
    else match events[|events| - 1]
      case Sample(_, now) => PeriodOf(cycle, now)
      case Reset => LatestPeriod(cycle, start, events[..|events| - 1])
  }

  lemma {:induction false} PeriodFollowsLatestSample(cycle: Cycle, start: CycleState, events: seq<Event>)
    ensures CycleRun(cycle, start, events).period == LatestPeriod(cycle, start.period, events)
  {
    if events != [] {
      PeriodFollowsLatestSample(cycle, start, events[..|events| - 1]);
    }
  }

  /**
   Conservation across cycles: on one stream of samples and resets, the plain energy exceeds what
   the closed and open cycles gained by exactly the counted trapezoids that straddle a boundary.
   */
  lemma {:induction false} CyclesLoseOnlyStraddlingEnergy(cycle: Cycle, start: CycleState, events: seq<Event>)
    ensures var end := CycleRun(cycle, start, events);
      start.closed + start.open + EnergyOf(events) == end.closed + end.open + Straddling(cycle, events)
  {
    if events != [] {
      var front := events[..|events| - 1];
      CyclesLoseOnlyStraddlingEnergy(cycle, start, front);
      PeriodFollowsLatestSample(cycle, start, front);
    }
  }

  /** The energy sensor that starts over with every day or month. */
  class CyclingEnergyAccumulator {
    const cycle: Cycle
    const plain: EnergyAccumulator
    var period: Period
    ghost var start: CycleState
    ghost var events: seq<Event>

    /** The open total and the period are those of the run since the last restore. */
    ghost predicate Valid()
      reads this, plain
    {
      && plain.Valid()
      && period == CycleRun(cycle, start, events).period
      && plain.totalKwh == CycleRun(cycle, start, events).open
      && Remembered(plain.events) == Remembered(events)
    }

    constructor (cycle: Cycle, initialKwh: real, period: Period)
      ensures Valid() && fresh(plain) && this.cycle == cycle
      ensures start == CycleState(initialKwh, period, 0.0) && events == []
    {
      this.cycle := cycle;
      plain := new EnergyAccumulator(initialKwh);
      this.period, start, events := period, CycleState(initialKwh, period, 0.0), [];
    }

    /** Restores a stored total only into the period it was stored for. */
    method Restore(total: real, stored: Period, now: Moment)
      requires Valid()
      modifies this, plain
      ensures Valid() && events == []
      ensures start == CycleState(if stored == PeriodOf(cycle, now) then total else 0.0, PeriodOf(cycle, now), 0.0)
    {
      period := PeriodOf(cycle, now);
      plain.SetTotal(if stored == period then total else 0.0);
      plain.ResetSample();
      start, events := CycleState(plain.totalKwh, period, 0.0), [];
    }

    /** One sample; a new period starts from zero with no remembered sample. */
    method Accumulate(power: real, now: Moment) returns (total: real)
      requires Valid()
      modifies this, plain
      ensures Valid() && start == old(start) && events == old(events) + [Sample(power, now)]
      ensures total == Round4(plain.totalKwh)
    {
      hide Trapezoid;
      var current := PeriodOf(cycle, now);
      if current != period {
        period := current;
        plain.SetTotal(0.0);
        plain.ResetSample();
      }
      ghost var seen := plain.events;
      total := plain.Accumulate(power, now);
      events := events + [Sample(power, now)];
      assert events[..|events| - 1] == old(events) && plain.events[..|plain.events| - 1] == seen;
    }

    method ResetSample()
      requires Valid()
      modifies this, plain
      ensures Valid() && start == old(start) && events == old(events) + [Reset]
    {
      plain.ResetSample();
      events := events + [Reset];
      assert events[..|events| - 1] == old(events);
    }
  }
}
