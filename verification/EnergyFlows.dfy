/**
 Energy from routed power: feeding the routes of the splitter to energy accumulators keeps, over a
 whole run, the budgets the splitter keeps at every instant.
 */
module EnergyFlows {
  import opened Energy
  import F = FlowSplit

  /** One refresh: readings at a moment, or a disconnect that makes every accumulator forget its sample. */
  datatype Refresh = Seen(now: Moment, readings: F.Readings) | Lost

  type Power = F.Readings -> real

  /** The events one accumulator sees when it is fed `power` of every refresh. */
  function Fed(run: seq<Refresh>, power: Power): (events: seq<Event>)
    ensures |events| == |run|
  {
    seq(|run|, i requires 0 <= i < |run| =>
      match run[i] case Seen(now, r) => Sample(power(r), now) case Lost => Reset)
  }

  lemma FedPrefix(run: seq<Refresh>, power: Power)
    requires run != []
    ensures Fed(run, power)[..|run| - 1] == Fed(run[..|run| - 1], power)
  {
  }

  /** Trapezoids add up: three non-negative powers within a fourth stay within it as energy. */
  lemma TrapezoidsAddUp(m: Moment, n: Moment, a: (real, real), b: (real, real), c: (real, real), p: (real, real))
    requires 0.0 <= a.0 && 0.0 <= b.0 && 0.0 <= c.0 && a.0 + b.0 + c.0 <= p.0
    requires 0.0 <= a.1 && 0.0 <= b.1 && 0.0 <= c.1 && a.1 + b.1 + c.1 <= p.1
    requires Counts(m, n)
    ensures Trapezoid(Sample(a.0, m), Sample(a.1, n)) + Trapezoid(Sample(b.0, m), Sample(b.1, n))
          + Trapezoid(Sample(c.0, m), Sample(c.1, n)) <= Trapezoid(Sample(p.0, m), Sample(p.1, n))
  {
    var t := (n.seconds - m.seconds) / 3600.0;
    var x, y, z, w := (a.0 + a.1) / 2.0, (b.0 + b.1) / 2.0, (c.0 + c.1) / 2.0, (p.0 + p.1) / 2.0;
    assert x + y + z <= w && 0.0 <= t;
    ScaledSum(x, y, z, w, t);
    assert Trapezoid(Sample(a.0, m), Sample(a.1, n)) == x * t / 1000.0;
    assert Trapezoid(Sample(b.0, m), Sample(b.1, n)) == y * t / 1000.0;
    assert Trapezoid(Sample(c.0, m), Sample(c.1, n)) == z * t / 1000.0;
    assert Trapezoid(Sample(p.0, m), Sample(p.1, n)) == w * t / 1000.0;
  }

  lemma ScaledSum(x: real, y: real, z: real, w: real, t: real)
    requires x + y + z <= w && 0.0 <= t
    ensures x * t + y * t + z * t <= w * t
  {
    assert (x + y + z) * t <= w * t;
  }

  /** Three powers that are never negative and together never exceed a fourth. */
  ghost predicate AddUp(a: Power, b: Power, c: Power, p: Power) {
    forall r: F.Readings :: 0.0 <= a(r) && 0.0 <= b(r) && 0.0 <= c(r) && a(r) + b(r) + c(r) <= p(r)
  }

  lemma StepsAddUp(run: seq<Refresh>, i: nat, a: Power, b: Power, c: Power, p: Power)
    requires i < |run|
    requires AddUp(a, b, c, p)
    ensures Step(Fed(run, a), i) + Step(Fed(run, b), i) + Step(Fed(run, c), i) <= Step(Fed(run, p), i)
  {
    hide Trapezoid;
    if i > 0 && run[i].Seen? && run[i - 1].Seen? && Counts(run[i - 1].now, run[i].now) {
      var r, s := run[i - 1].readings, run[i].readings;
      TrapezoidsAddUp(run[i - 1].now, run[i].now, (a(r), a(s)), (b(r), b(s)), (c(r), c(s)), (p(r), p(s)));
    }
  }

  lemma {:induction false} EnergiesAddUp(run: seq<Refresh>, a: Power, b: Power, c: Power, p: Power)
    requires AddUp(a, b, c, p)
    ensures EnergyOf(Fed(run, a)) + EnergyOf(Fed(run, b)) + EnergyOf(Fed(run, c)) <= EnergyOf(Fed(run, p))
  {
    if run != [] {
      EnergiesAddUp(run[..|run| - 1], a, b, c, p);
      StepsAddUp(run, |run| - 1, a, b, c, p);
      FedPrefix(run, a);
      FedPrefix(run, b);
      FedPrefix(run, c);
      FedPrefix(run, p);
    }
  }

  /** The power of one rounded route. */
  function Routed(route: F.Route): Power { (r: F.Readings) => F.Split(r).Rounded().At(route) }

  /** A constant power of zero, for sums of fewer than three routes. */
  function Nothing(): Power { (r: F.Readings) => 0.0 }

  // Sources and sinks, metered with the rounding slack of the routes they feed.
  function PvMetered(): Power { (r: F.Readings) => r.pv + 0.00015 }
  function LoadMetered(): Power { (r: F.Readings) => r.load + 0.00015 }
  function ImportMetered(): Power { (r: F.Readings) => F.ImportWatts(r) + 0.0001 }
  function ChargeMetered(): Power { (r: F.Readings) => F.Charge(r) + 0.0001 }
  function DischargeMetered(): Power { (r: F.Readings) => F.Discharge(r) + 0.00005 }
  function ExportMetered(): Power { (r: F.Readings) => F.ExportWanted(r) + 0.00005 }

  /** No power, no energy. */
  lemma {:induction false} NothingAddsNothing(run: seq<Refresh>)
    ensures EnergyOf(Fed(run, Nothing())) == 0.0
  {
    if run != [] {
      NothingAddsNothing(run[..|run| - 1]);
      NothingStepsByNothing(run);
    }
  }

  lemma NothingStepsByNothing(run: seq<Refresh>)
    requires run != []
    ensures EnergyOf(Fed(run, Nothing())) == EnergyOf(Fed(run[..|run| - 1], Nothing()))
  {
    FedPrefix(run, Nothing());
    var events := Fed(run, Nothing());
    assert forall e :: e in events && e.Sample? ==> e.power == 0.0;
    assert Step(events, |events| - 1) == 0.0;
  }

  /**
   Over every run, the energies of the routes out of a source, or into a sink, never add up to more
   than the energy of that source or sink metered with 0.00005 W more per route.
   */
  lemma RoutedEnergyStaysWithinBudgets(run: seq<Refresh>)
    ensures EnergyOf(Fed(run, Routed(F.PvToHome))) + EnergyOf(Fed(run, Routed(F.PvToBattery)))
          + EnergyOf(Fed(run, Routed(F.PvToGrid)))
         <= EnergyOf(Fed(run, PvMetered()))
    ensures EnergyOf(Fed(run, Routed(F.PvToHome))) + EnergyOf(Fed(run, Routed(F.BatteryToHome)))
          + EnergyOf(Fed(run, Routed(F.GridToHome)))
         <= EnergyOf(Fed(run, LoadMetered()))
    ensures EnergyOf(Fed(run, Routed(F.GridToHome))) + EnergyOf(Fed(run, Routed(F.GridToBattery)))
         <= EnergyOf(Fed(run, ImportMetered()))
    ensures EnergyOf(Fed(run, Routed(F.PvToBattery))) + EnergyOf(Fed(run, Routed(F.GridToBattery)))
         <= EnergyOf(Fed(run, ChargeMetered()))
    ensures EnergyOf(Fed(run, Routed(F.BatteryToHome))) <= EnergyOf(Fed(run, DischargeMetered()))
    ensures EnergyOf(Fed(run, Routed(F.PvToGrid))) <= EnergyOf(Fed(run, ExportMetered()))
  {
    hide Routed, Nothing, PvMetered, LoadMetered, ImportMetered, ChargeMetered, DischargeMetered, ExportMetered, AddUp;
    NothingAddsNothing(run);
    RoutesAddUp();
    EnergiesAddUp(run, Routed(F.PvToHome), Routed(F.PvToBattery), Routed(F.PvToGrid), PvMetered());
    EnergiesAddUp(run, Routed(F.PvToHome), Routed(F.BatteryToHome), Routed(F.GridToHome), LoadMetered());
    EnergiesAddUp(run, Routed(F.GridToHome), Routed(F.GridToBattery), Nothing(), ImportMetered());
    EnergiesAddUp(run, Routed(F.PvToBattery), Routed(F.GridToBattery), Nothing(), ChargeMetered());
    EnergiesAddUp(run, Routed(F.BatteryToHome), Nothing(), Nothing(), DischargeMetered());
    EnergiesAddUp(run, Routed(F.PvToGrid), Nothing(), Nothing(), ExportMetered());
  }

  lemma RoutesAddUp()
    ensures AddUp(Routed(F.PvToHome), Routed(F.PvToBattery), Routed(F.PvToGrid), PvMetered())
    ensures AddUp(Routed(F.PvToHome), Routed(F.BatteryToHome), Routed(F.GridToHome), LoadMetered())
    ensures AddUp(Routed(F.GridToHome), Routed(F.GridToBattery), Nothing(), ImportMetered())
    ensures AddUp(Routed(F.PvToBattery), Routed(F.GridToBattery), Nothing(), ChargeMetered())
    ensures AddUp(Routed(F.BatteryToHome), Nothing(), Nothing(), DischargeMetered())
    ensures AddUp(Routed(F.PvToGrid), Nothing(), Nothing(), ExportMetered())
  {
    hide Routed, Nothing, PvMetered, LoadMetered, ImportMetered, ChargeMetered, DischargeMetered, ExportMetered;
    assert forall r: F.Readings :: RoutedWithinMetered(r) by {
      forall r: F.Readings ensures RoutedWithinMetered(r) { RoutedPowerStaysWithinBudgets(r); }
    }
    forall r: F.Readings
      ensures 0.0 <= Routed(F.PvToHome)(r) && 0.0 <= Routed(F.PvToBattery)(r) && 0.0 <= Routed(F.PvToGrid)(r)
           && Routed(F.PvToHome)(r) + Routed(F.PvToBattery)(r) + Routed(F.PvToGrid)(r) <= PvMetered()(r)
    { assert RoutedWithinMetered(r); }
    forall r: F.Readings
      ensures 0.0 <= Routed(F.PvToHome)(r) && 0.0 <= Routed(F.BatteryToHome)(r) && 0.0 <= Routed(F.GridToHome)(r)
           && Routed(F.PvToHome)(r) + Routed(F.BatteryToHome)(r) + Routed(F.GridToHome)(r) <= LoadMetered()(r)
    { assert RoutedWithinMetered(r); }
    forall r: F.Readings
      ensures 0.0 <= Routed(F.GridToHome)(r) && 0.0 <= Routed(F.GridToBattery)(r) && 0.0 <= Nothing()(r)
           && Routed(F.GridToHome)(r) + Routed(F.GridToBattery)(r) + Nothing()(r) <= ImportMetered()(r)
    { assert RoutedWithinMetered(r); }
    forall r: F.Readings
      ensures 0.0 <= Routed(F.PvToBattery)(r) && 0.0 <= Routed(F.GridToBattery)(r) && 0.0 <= Nothing()(r)
           && Routed(F.PvToBattery)(r) + Routed(F.GridToBattery)(r) + Nothing()(r) <= ChargeMetered()(r)
    { assert RoutedWithinMetered(r); }
    forall r: F.Readings
      ensures 0.0 <= Routed(F.BatteryToHome)(r) && 0.0 <= Nothing()(r) && 0.0 <= Routed(F.PvToGrid)(r)
           && Routed(F.BatteryToHome)(r) + Nothing()(r) + Nothing()(r) <= DischargeMetered()(r)
           && Routed(F.PvToGrid)(r) + Nothing()(r) + Nothing()(r) <= ExportMetered()(r)
    { assert RoutedWithinMetered(r); }
  }

  ghost predicate RoutedWithinMetered(r: F.Readings) {
    && (forall route: F.Route :: 0.0 <= Routed(route)(r))
    && Nothing()(r) == 0.0
    && Routed(F.PvToHome)(r) + Routed(F.PvToBattery)(r) + Routed(F.PvToGrid)(r) <= PvMetered()(r)
    && Routed(F.PvToHome)(r) + Routed(F.BatteryToHome)(r) + Routed(F.GridToHome)(r) <= LoadMetered()(r)
    && Routed(F.GridToHome)(r) + Routed(F.GridToBattery)(r) <= ImportMetered()(r)
    && Routed(F.PvToBattery)(r) + Routed(F.GridToBattery)(r) <= ChargeMetered()(r)
    && Routed(F.BatteryToHome)(r) <= DischargeMetered()(r)
    && Routed(F.PvToGrid)(r) <= ExportMetered()(r)
  }

  lemma RoutedPowerStaysWithinBudgets(r: F.Readings)
    ensures RoutedWithinMetered(r)
  {
    hide F.Split, F.Routes.Rounded;
    F.RoundedSplitConserves(r);
    forall route: F.Route ensures 0.0 <= Routed(route)(r) {
      assert 0.0 <= F.Split(r).Rounded().At(route);
    }
  }

  /** The sum of two powers, refresh by refresh. */
  function Both(p: Power, q: Power): Power { (r: F.Readings) => p(r) + q(r) }

  ghost predicate NeverNegative(p: Power) { forall r: F.Readings :: 0.0 <= p(r) }

  /** Energy is additive: two powers together deliver, over every run, the sum of what each delivers. */
  lemma {:induction false} EnergiesOfBothAdd(run: seq<Refresh>, p: Power, q: Power)
    requires NeverNegative(p) && NeverNegative(q)
    ensures EnergyOf(Fed(run, Both(p, q))) == EnergyOf(Fed(run, p)) + EnergyOf(Fed(run, q))
  {
    hide NeverNegative, Both, Step, Remembered;
    if run != [] {
      EnergiesOfBothAdd(run[..|run| - 1], p, q);
      FedPrefix(run, p);
      FedPrefix(run, q);
      FedPrefix(run, Both(p, q));
      StepsOfBothAdd(run, p, q);
    }
  }

  lemma StepsOfBothAdd(run: seq<Refresh>, p: Power, q: Power)
    requires run != [] && NeverNegative(p) && NeverNegative(q)
    ensures var n := |run| - 1;
      Step(Fed(run, Both(p, q)), n) == Step(Fed(run, p), n) + Step(Fed(run, q), n)
  {
    hide Trapezoid;
    var n := |run| - 1;
    if n > 0 && run[n].Seen? && run[n - 1].Seen? {
      var a, b := run[n - 1], run[n];
      TrapezoidsOfBothAdd(a.now, b.now, p(a.readings), q(a.readings), p(b.readings), q(b.readings));
    }
  }

  lemma TrapezoidsOfBothAdd(m: Moment, n: Moment, p: real, q: real, x: real, y: real)
    requires 0.0 <= p && 0.0 <= q && 0.0 <= x && 0.0 <= y
    ensures Trapezoid(Sample(p + q, m), Sample(x + y, n))
         == Trapezoid(Sample(p, m), Sample(x, n)) + Trapezoid(Sample(q, m), Sample(y, n))
  {
    var h := (n.seconds - m.seconds) / 3600.0;
    assert (p + q + (x + y)) / 2.0 * h == (p + x) / 2.0 * h + (q + y) / 2.0 * h;
  }
}
