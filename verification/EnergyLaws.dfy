/** What energy is worth, in watts, seconds and kilowatt hours. */
module EnergyLaws {
  import opened Numbers
  import opened Energy

  /** A gap of at most an hour, and not backwards. */
  predicate Near(a: Moment, b: Moment) { a.seconds < b.seconds && b.seconds <= a.seconds + 3600.0 }

  function Positive(power: real): real { if power > 0.0 then power else 0.0 }

  lemma Grows(events: seq<Event>, e: Event)
    ensures EnergyOf(events + [e]) == EnergyOf(events) + Added(Remembered(events), e)
  {
    hide Added;
    assert (events + [e])[..|events|] == events;
  }

  /** Between two near samples the mean of their powers flows; 3600000 watt seconds are a kilowatt hour. */
  lemma MeanPowerFlows(events: seq<Event>, p: real, a: Moment, q: real, b: Moment)
    requires Near(a, b)
    ensures (EnergyOf(events + [Sample(p, a)] + [Sample(q, b)]) - EnergyOf(events + [Sample(p, a)])) * 7200000.0
         == (Positive(p) + Positive(q)) * (b.seconds - a.seconds)
  {
    hide EnergyOf;
    var before := events + [Sample(p, a)];
    Grows(before, Sample(q, b));
    TrapezoidIsMean(p, a, q, b);
  }

  lemma TrapezoidIsMean(p: real, a: Moment, q: real, b: Moment)
    requires Near(a, b)
    ensures Added(Some(Sample(p, a)), Sample(q, b)) * 7200000.0 == (Positive(p) + Positive(q)) * (b.seconds - a.seconds)
  {
    var w, dt := Positive(p) + Positive(q), b.seconds - a.seconds;
    assert w / 2.0 * (dt / 3600.0) / 1000.0 * 7200000.0 == w * dt;
  }

  /** Constant power flows in proportion to time. */
  lemma ConstantPowerFlows(events: seq<Event>, power: real, a: Moment, b: Moment)
    requires Near(a, b) && power >= 0.0
    ensures (EnergyOf(events + [Sample(power, a)] + [Sample(power, b)]) - EnergyOf(events + [Sample(power, a)])) * 3600000.0
         == power * (b.seconds - a.seconds)
  {
    hide EnergyOf;
    MeanPowerFlows(events, power, a, power, b);
    var dt := b.seconds - a.seconds;
    assert (power + power) * dt == 2.0 * (power * dt);
  }

  /** One kilowatt for one hour is one kilowatt hour. */
  lemma KilowattHour(a: Moment, b: Moment)
    requires b.seconds == a.seconds + 3600.0
    ensures EnergyOf([Sample(1000.0, a), Sample(1000.0, b)]) == 1.0 && ConstantEnergy(1000.0, 3600.0) == 1.0
  {
    hide EnergyOf;
    KilowattHourFlows(a, b);
  }

  lemma KilowattHourFlows(a: Moment, b: Moment)
    requires b.seconds == a.seconds + 3600.0
    ensures EnergyOf([Sample(1000.0, a), Sample(1000.0, b)]) == 1.0
  {
    hide EnergyOf, ConstantEnergy;
    ConstantPowerFlows([], 1000.0, a, b);
    NothingFlows([], 0.0, a, 1000.0, a);
    assert [] + [Sample(1000.0, a)] == [Sample(1000.0, a)];
    assert [Sample(1000.0, a)] + [Sample(1000.0, b)] == [Sample(1000.0, a), Sample(1000.0, b)];
  }

  /** Which of the two powers came first does not matter. */
  lemma PowersMayBeSwapped(events: seq<Event>, p: real, a: Moment, q: real, b: Moment)
    requires Near(a, b)
    ensures EnergyOf(events + [Sample(p, a)] + [Sample(q, b)]) - EnergyOf(events + [Sample(p, a)])
         == EnergyOf(events + [Sample(q, a)] + [Sample(p, b)]) - EnergyOf(events + [Sample(q, a)])
  {
    hide EnergyOf;
    MeanPowerFlows(events, p, a, q, b);
    MeanPowerFlows(events, q, a, p, b);
  }

  /** Nothing flows over a long or backward gap, into a reset, or out of one. */
  lemma NothingFlows(events: seq<Event>, p: real, a: Moment, q: real, b: Moment)
    ensures !Near(a, b) ==> EnergyOf(events + [Sample(p, a)] + [Sample(q, b)]) == EnergyOf(events + [Sample(p, a)])
    ensures EnergyOf(events + [Reset]) == EnergyOf(events)
    ensures EnergyOf(events + [Reset] + [Sample(q, b)]) == EnergyOf(events)
    ensures EnergyOf([]) == 0.0 && EnergyOf([Sample(q, b)]) == 0.0
  {
    Grows(events + [Sample(p, a)], Sample(q, b));
    Grows(events, Reset);
    Grows(events + [Reset], Sample(q, b));
    Grows([], Sample(q, b));
    assert [] + [Sample(q, b)] == [Sample(q, b)];
  }

  /** Two moments share a day or a month exactly when the calendar says so, and no day is a month. */
  lemma PeriodsAreCalendarPeriods(a: Moment, b: Moment)
    ensures PeriodOf(Daily, a) == PeriodOf(Daily, b) <==> a.year == b.year && a.month == b.month && a.day == b.day
    ensures PeriodOf(Monthly, a) == PeriodOf(Monthly, b) <==> a.year == b.year && a.month == b.month
    ensures PeriodOf(Daily, a) != PeriodOf(Monthly, b) && PeriodOf(Daily, a) != NoPeriod && PeriodOf(Monthly, a) != NoPeriod
  {
  }
}
