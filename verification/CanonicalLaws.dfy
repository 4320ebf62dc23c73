/** The computes of the canonical table obey their laws, and record exactly the keys they need. */
module CanonicalLaws {
  import opened Numbers
  import opened Text
  import opened Keys
  import opened Telemetry
  import opened CanonicalTable
  import opened Canonical
  import opened CanonicalWalk
  import L = ComputeLaws
  import F = FlowSplit

  // ---- numbers ----------------------------------------------------------------------

  lemma NumericIsWhatIsShown(m: Measured, k: Key)
    ensures forall x :: L.Shows(m, k, x) <==> Numeric(Lookup(m, k)) == Some(x)
    ensures L.NoNumber(m, k) <==> Numeric(Lookup(m, k)) == None
    ensures forall v :: L.Holds(m, k, v) <==> Lookup(m, k) == v
  {
  }

  lemma RoundingGives(x: real)
    ensures L.Gives(Some(Number(Round4(x))), x)
  {
    hide Round4;
  }

  // ---- sums and products -------------------------------------------------------------

  lemma {:induction false} SumsAgree(m: Measured, keys: seq<Key>, xs: seq<real>)
    requires L.AllShow(m, keys, xs)
    ensures SumOf(m, keys) == L.Total(xs)
  {
    hide Lookup, Numeric;
    if keys != [] {
      var n := |keys| - 1;
      SumsAgree(m, keys[..n], xs[..n]);
      NumericIsWhatIsShown(m, keys[n]);
      TotalFromTheEnd(xs[..n], xs[n]);
      assert xs == xs[..n] + [xs[n]];
    }
  }

  lemma {:induction false} TotalFromTheEnd(xs: seq<real>, x: real)
    ensures L.Total(xs + [x]) == L.Total(xs) + x
  {
    if xs == [] {
      assert [] + [x] == [x] && [x][1..] == [];
    } else {
      TotalFromTheEnd(xs[1..], x);
      assert (xs + [x])[1..] == xs[1..] + [x];
    }
  }

  lemma {:induction false} ProductsAgree(m: Measured, keys: seq<Key>, xs: seq<real>)
    requires L.AllShow(m, keys, xs)
    ensures ProductOf(m, keys) == L.Product(xs)
  {
    hide Lookup, Numeric;
    if keys != [] {
      var n := |keys| - 1;
      ProductsAgree(m, keys[..n], xs[..n]);
      NumericIsWhatIsShown(m, keys[n]);
      ProductFromTheEnd(xs[..n], xs[n]);
      assert xs == xs[..n] + [xs[n]];
    }
  }

  lemma {:induction false} ProductFromTheEnd(xs: seq<real>, x: real)
    ensures L.Product(xs + [x]) == L.Product(xs) * x
  {
    if xs == [] {
      assert [] + [x] == [x] && [x][1..] == [];
    } else {
      ProductFromTheEnd(xs[1..], x);
      assert (xs + [x])[1..] == xs[1..] + [x];
      MultiplyInAnyGrouping(xs[0], L.Product(xs[1..]), x);
    }
  }

  lemma MultiplyInAnyGrouping(a: real, b: real, c: real)
    ensures a * (b * c) == a * b * c
  {
  }

  lemma AllShowMeansAllNumeric(m: Measured, keys: seq<Key>)
    ensures (exists k :: k in keys && L.NoNumber(m, k)) <==> !AllNumeric(m, keys)
    ensures forall xs :: L.AllShow(m, keys, xs) ==> AllNumeric(m, keys)
  {
    hide Lookup, Numeric, L.NoNumber, L.Shows;
    forall k | k in keys ensures L.NoNumber(m, k) <==> Numeric(Lookup(m, k)) == None {
      NumericIsWhatIsShown(m, k);
    }
    forall xs | L.AllShow(m, keys, xs) ensures AllNumeric(m, keys) {
      forall k | k in keys ensures Numeric(Lookup(m, k)).Some? {
        var i :| 0 <= i < |keys| && keys[i] == k;
        assert L.Shows(m, keys[i], xs[i]);
        NumericIsWhatIsShown(m, k);
      }
    }
  }

  lemma SumIsLawful(v: Variant, m: Measured)
    requires WellFormed(v) && (v.compute.Sum? || v.compute.Multiply?)
    ensures L.Lawful(v, m, Result(v, m))
  {
    hide Lookup, Numeric, Round4, SumOf, ProductOf, AllNumeric, L.Gives, L.AllShow, L.NoNumber;
    AllShowMeansAllNumeric(m, v.sources);
    forall xs | L.AllShow(m, v.sources, xs)
      ensures v.compute.Sum? ==> L.Gives(Result(v, m), L.Total(xs))
      ensures v.compute.Multiply? ==> L.Gives(Result(v, m), L.Product(xs))
    {
      SumsAgree(m, v.sources, xs);
      ProductsAgree(m, v.sources, xs);
      RoundingGives(L.Total(xs));
      RoundingGives(L.Product(xs));
    }
  }

  // ---- one or two numbers ---------------------------------------------------------------

  lemma PassthroughIsLawful(v: Variant, m: Measured)
    requires WellFormed(v) && v.compute.Passthrough?
    ensures L.Lawful(v, m, Result(v, m))
  {
  }

  lemma NegationIsLawful(v: Variant, m: Measured)
    requires WellFormed(v) && v.compute.Negate?
    ensures L.Lawful(v, m, Result(v, m))
  {
    hide Lookup, Numeric, Round4, L.Gives, L.NoNumber, L.Shows;
    NumericIsWhatIsShown(m, v.sources[0]);
    forall x | L.Shows(m, v.sources[0], x) ensures L.Gives(Result(v, m), 0.0 - x) {
      RoundingGives(-x);
    }
  }

  lemma SignedDeltaIsLawful(v: Variant, m: Measured)
    requires WellFormed(v) && v.compute.SignedDeltaMultiply?
    ensures L.Lawful(v, m, Result(v, m))
  {
    hide Lookup, Numeric, Round4, DeltaPower, L.Gives, L.NoNumber, L.Shows;
    NumericIsWhatIsShown(m, v.sources[0]);
    NumericIsWhatIsShown(m, v.sources[1]);
    NumericIsWhatIsShown(m, v.sources[2]);
    forall u, c, d | L.Shows(m, v.sources[0], u) && L.Flows(m, v.sources[1], c) && L.Flows(m, v.sources[2], d)
      ensures L.Gives(Result(v, m), u * c - u * d) && (c == 0.0 && d == 0.0 ==> Result(v, m) == Some(Number(0.0)))
    {
      DeltaPowerGives(u, c, d);
    }
  }

  lemma DeltaPowerGives(u: real, c: real, d: real)
    ensures L.Gives(Some(Number(DeltaPower(u, c, d))), u * c - u * d)
    ensures c == 0.0 && d == 0.0 ==> DeltaPower(u, c, d) == 0.0
  {
    hide Round4;
    RoundingGives(u * (c - d));
    assert u * (c - d) == u * c - u * d;
    if c == 0.0 && d == 0.0 {
      assert u * c == 0.0 && u * d == 0.0;
    }
  }

  lemma DirectionIsLawful(v: Variant, m: Measured)
    requires WellFormed(v) && v.compute.MagnitudeWithDirection?
    ensures L.Lawful(v, m, Result(v, m))
  {
    hide Lookup, Numeric, Round4, SaysCharging, L.ChargingWord, L.Gives, L.NoNumber, L.Shows, L.Holds;
    NumericIsWhatIsShown(m, v.sources[0]);
    NumericIsWhatIsShown(m, v.sources[1]);
    forall x, d | L.Shows(m, v.sources[0], x) && L.Holds(m, v.sources[1], d) && d != Unknown
      ensures L.Gives(Result(v, m), if L.ChargingWord(d) == (x >= 0.0) then x else 0.0 - x)
    {
      ChargingIsAWord(d);
      RoundingGives(x);
      RoundingGives(-x);
    }
  }

  lemma ChargingIsAWord(d: Value)
    ensures SaysCharging(d) <==> L.ChargingWord(d)
  {
    hide Strip;
    if d.Words? {
      var s := Strip(d.text);
      LowerOfDigit(s);
    }
  }

  lemma LowerOfDigit(s: string)
    ensures Lower(s) == "0" <==> s == "0"
  {
    if |s| == 1 && Lower(s) == "0" {
      assert Lower(s)[0] == '0' && LowerChar(s[0]) == '0';
      assert s[0] == '0';
    }
    if s == "0" {
      assert Lower(s)[0] == '0';
    }
  }

  // ---- G-ASCII --------------------------------------------------------------------------------

  lemma ModesAreWords(w: Value)
    ensures ModeOf(w).BatteryMode? <==> L.ModeBegins(w, 'B')
    ensures ModeOf(w).LineMode? <==> L.LineWord(w)
    ensures !L.ModeBegins(w, 'B') && !L.LineWord(w) ==> (ModeOf(w).SoftStartMode? <==> L.SoftStartWord(w))
  {
    hide Strip;
    if w.Words? && Strip(w.text) != "" {
      assert Upper(Strip(w.text))[0] == UpperChar(Strip(w.text)[0]);
    }
  }

  lemma FirstPositiveIsEffective(m: Measured, amps: real)
    requires
      || L.Positive(m, PvChargingCurrent, amps)
      || (L.NonePositive(m, PvChargingCurrent) && L.Positive(m, ChargingCurrent, amps))
      || (L.NonePositive(m, PvChargingCurrent) && L.NonePositive(m, ChargingCurrent) && amps == 0.0)
    ensures FirstPositive(Lookup(m, PvChargingCurrent), Lookup(m, ChargingCurrent)) == amps
  {
    hide Lookup, Numeric, L.NoNumber, L.Shows;
    NumericIsWhatIsShown(m, PvChargingCurrent);
    NumericIsWhatIsShown(m, ChargingCurrent);
  }

  lemma EffectiveIsGAsciiCurrent(v: Variant, m: Measured, w: Value, amps: real)
    requires WellFormed(v) && v.compute.GAsciiBatteryPower?
    requires L.Holds(m, v.sources[2], w) && !L.NoNumber(m, v.sources[1]) && L.EffectiveCurrent(m, v.sources[1], w, amps)
    ensures GAsciiCurrent(m, v) == amps
  {
    hide Lookup, Numeric, ModeOf, FirstPositive, L.NoNumber, L.Shows, L.Holds, L.ModeBegins, L.Positive, L.NonePositive;
    NumericIsWhatIsShown(m, v.sources[1]);
    NumericIsWhatIsShown(m, v.sources[2]);
    ModesAreWords(w);
    if L.Shows(m, v.sources[1], 0.0) && L.ModeBegins(w, 'B') {
      FirstPositiveIsEffective(m, amps);
    }
  }

  lemma GAsciiIsLawful(v: Variant, m: Measured)
    requires WellFormed(v) && v.compute.GAsciiBatteryPower?
    ensures L.Lawful(v, m, Result(v, m))
  {
    hide Lookup, Numeric, ModeOf, GAsciiCurrent, GAsciiPower, L.Gives, L.NoNumber, L.Shows, L.Holds, L.EffectiveCurrent;
    hide L.ModeBegins, L.LineWord, L.SoftStartWord;
    NumericIsWhatIsShown(m, v.sources[0]);
    NumericIsWhatIsShown(m, v.sources[1]);
    NumericIsWhatIsShown(m, v.sources[2]);
    forall u, w, amps | L.Shows(m, v.sources[0], u) && L.Holds(m, v.sources[2], w) && !L.NoNumber(m, v.sources[1])
        && L.EffectiveCurrent(m, v.sources[1], w, amps)
      ensures
        if amps <= 0.0 || L.ModeBegins(w, 'B') || L.LineWord(w) then L.Gives(Result(v, m), u * amps)
        else if L.SoftStartWord(w) then L.Gives(Result(v, m), 0.0 - u * amps)
        else Result(v, m) == None
    {
      EffectiveIsGAsciiCurrent(v, m, w, amps);
      ModesAreWords(w);
      PowerOfMode(u, amps, ModeOf(w));
    }
  }

  lemma PowerOfMode(u: real, amps: real, mode: ModeClass)
    ensures var r := GAsciiPower(u, amps, mode);
      if amps <= 0.0 || mode.BatteryMode? || mode.LineMode? then L.Gives(r, u * amps)
      else if mode.SoftStartMode? then L.Gives(r, 0.0 - u * amps)
      else r == None
  {
    hide Round4;
    RoundingGives(u * amps);
    RoundingGives(-(u * amps));
  }

  // ---- the flow readings ---------------------------------------------------------------------------

  lemma ReadsIsSays(m: Measured, k: Key, text: string)
    ensures L.Reads(m, k, text) <==> Says(Lookup(m, k), text)
  {
  }

  lemma GridPresenceIsLawful(m: Measured)
    ensures L.GridLaw(m, GridPresence(m))
  {
    hide Lookup, Numeric, Says, L.NoNumber, L.Shows, L.Reads;
    NumericIsWhatIsShown(m, GridVoltage);
    ReadsIsSays(m, OperatingMode, "Battery");
    ReadsIsSays(m, OperatingMode, "Off-Grid");
  }

  lemma StateSourceIsNamed(m: Measured, k: Key)
    ensures StateSource(Lookup(m, k)).Some? <==> L.NamesSource(m, k)
    ensures L.NamesSource(m, k) ==> L.Names(m, k, StateSource(Lookup(m, k)))
  {
    assert |"PV"| == 2 && |"PV + Utility"| == 12 && |"Utility"| == 7;
  }

  lemma ChargeSourceIsLawful(m: Measured)
    ensures L.SourceLaw(m, ChargeSourceOf(m))
  {
    hide Lookup, Says, L.Reads, StateSource, L.NamesSource, L.Names;
    StateSourceIsNamed(m, PowerFlowChargeSourceState);
    StateSourceIsNamed(m, ChargingSourceState);
    ReadsIsSays(m, ChargeSourcePriority, "PV Only");
  }

  lemma ReadingClamps(m: Measured, k: Key)
    ensures L.Clamps(m, k, NonNegative(Lookup(m, k))) && L.Measures(m, k, Numeric(Lookup(m, k)))
    ensures L.NoNumber(m, k) <==> NonNegative(Lookup(m, k)) == None
  {
    hide Lookup, Numeric, L.NoNumber, L.Shows;
    NumericIsWhatIsShown(m, k);
  }

  /** The splitter reads what the measured values say. */
  lemma FlowReadingsAreLawful(m: Measured)
    ensures FlowReadings(m) == None <==> L.NoReadings(m)
    ensures FlowReadings(m).Some? ==> L.ReadingsLaw(m, FlowReadings(m).value)
  {
    hide Lookup, Numeric, NonNegative, GridPresence, ChargeSourceOf, Says, L.Clamps, L.Measures, L.GridLaw, L.SourceLaw;
    hide L.Reads, L.NoNumber;
    ReadingClamps(m, OutputPower);
    ReadingClamps(m, PvPower);
    ReadingClamps(m, BatteryPower);
    ReadingClamps(m, GridPower);
    ReadingClamps(m, PvChargingPower);
    ReadingClamps(m, SolarFeedToGridPower);
    PresentIffNumeric(m, BatteryPower);
    GridPresenceIsLawful(m);
    ChargeSourceIsLawful(m);
    ReadsIsSays(m, OperatingMode, "Mains");
    ReadsIsSays(m, OperatingMode, "Bypass");
  }

  lemma PresentIffNumeric(m: Measured, k: Key)
    ensures L.NoNumber(m, k) <==> Numeric(Lookup(m, k)) == None
  {
  }

  lemma FlowIsLawful(v: Variant, m: Measured)
    requires WellFormed(v) && v.compute.Flow?
    ensures L.Lawful(v, m, Result(v, m))
  {
    hide FlowReadings, L.NoReadings, L.ReadingsLaw, F.Split;
    FlowReadingsAreLawful(m);
  }

  // ---- every compute, every alias -----------------------------------------------------------------------

  /** The result of every variant obeys the law of its compute. */
  lemma ResultIsLawful(v: Variant, m: Measured)
    requires WellFormed(v)
    ensures L.Lawful(v, m, Result(v, m))
  {
    hide Result, L.Lawful;
    match v.compute {
      case Passthrough => PassthroughIsLawful(v, m);
      case Multiply => SumIsLawful(v, m);
      case Sum => SumIsLawful(v, m);
      case Negate => NegationIsLawful(v, m);
      case SignedDeltaMultiply => SignedDeltaIsLawful(v, m);
      case GAsciiBatteryPower => GAsciiIsLawful(v, m);
      case MagnitudeWithDirection => DirectionIsLawful(v, m);
      case Flow(_) => FlowIsLawful(v, m);
    }
  }

  // ---- what is recorded -----------------------------------------------------------------------------------

  lemma {:induction false} PrefixIsNeeded(m: Measured, keys: seq<Key>, k: Key)
    ensures k in NumericPrefix(m, keys) <==> L.NeededNumber(m, keys, k)
  {
    hide Lookup, Numeric, L.NoNumber, L.NeededNumber;
    if keys == [] {
      NothingIsNeeded(m, k);
    } else {
      NumericIsWhatIsShown(m, keys[0]);
      PrefixIsNeeded(m, keys[1..], k);
      NeededFromTheFront(m, keys, k);
    }
  }

  lemma NothingIsNeeded(m: Measured, k: Key)
    ensures !L.NeededNumber(m, [], k)
  {
  }

  lemma NeededFromTheFront(m: Measured, keys: seq<Key>, k: Key)
    requires keys != []
    ensures L.NeededNumber(m, keys, k) <==> keys[0] == k || (!L.NoNumber(m, keys[0]) && L.NeededNumber(m, keys[1..], k))
  {
    hide L.NoNumber, L.NeededAt;
    forall i: nat ensures L.NeededAt(m, keys, k, i + 1) <==> !L.NoNumber(m, keys[0]) && L.NeededAt(m, keys[1..], k, i) {
      NeededAtNext(m, keys, k, i);
    }
    NeededAtFirst(m, keys, k);
    if keys[0] == k {
      assert L.NeededAt(m, keys, k, 0);
    } else if L.NeededNumber(m, keys, k) {
      var i: nat :| L.NeededAt(m, keys, k, i);
      assert i > 0;
      var n: nat := i - 1;
      assert L.NeededAt(m, keys, k, n + 1);
      assert L.NeededAt(m, keys[1..], k, n);
    }
    if !L.NoNumber(m, keys[0]) && L.NeededNumber(m, keys[1..], k) {
      var i: nat :| L.NeededAt(m, keys[1..], k, i);
      assert L.NeededAt(m, keys, k, i + 1);
    }
  }

  lemma NeededAtFirst(m: Measured, keys: seq<Key>, k: Key)
    requires keys != []
    ensures L.NeededAt(m, keys, k, 0) <==> keys[0] == k
  {
  }

  lemma NeededAtNext(m: Measured, keys: seq<Key>, k: Key, i: nat)
    requires keys != []
    ensures L.NeededAt(m, keys, k, i + 1) <==> !L.NoNumber(m, keys[0]) && L.NeededAt(m, keys[1..], k, i)
  {
    hide L.NoNumber;
    if L.NeededAt(m, keys, k, i + 1) {
      NeededLater(m, keys, k, i);
    } else if !L.NoNumber(m, keys[0]) && L.NeededAt(m, keys[1..], k, i) {
      NeededEarlier(m, keys, k, i);
    }
  }

  lemma NeededLater(m: Measured, keys: seq<Key>, k: Key, i: nat)
    requires keys != [] && L.NeededAt(m, keys, k, i + 1)
    ensures !L.NoNumber(m, keys[0]) && L.NeededAt(m, keys[1..], k, i)
  {
    hide L.NoNumber;
    forall j | 0 <= j < i ensures !L.NoNumber(m, keys[1..][j]) {
      assert keys[1..][j] == keys[j + 1];
    }
  }

  lemma NeededEarlier(m: Measured, keys: seq<Key>, k: Key, i: nat)
    requires keys != [] && !L.NoNumber(m, keys[0]) && L.NeededAt(m, keys[1..], k, i)
    ensures L.NeededAt(m, keys, k, i + 1)
  {
    hide L.NoNumber;
    forall j | 0 <= j < i + 1 ensures !L.NoNumber(m, keys[j]) {
      assert j == 0 || keys[j] == keys[1..][j - 1];
    }
  }

  lemma DetailsAreNeeded(m: Measured, k: Key)
    ensures k in DetailsAsked(m) <==> L.NeededDetail(m, k)
  {
    hide L.NamesSource, SourceAsked, GridAsked;
    GridVoltageIsAsked(m, k);
    SourceStatesAreNeeded(m, k);
    MetersAreThree(k);
    InFour(k, GridAsked(m), [GridPower, PvChargingPower, SolarFeedToGridPower], SourceAsked(m), [OperatingMode]);
  }

  lemma MetersAreThree(k: Key)
    ensures k in [GridPower, PvChargingPower, SolarFeedToGridPower]
      <==> k == GridPower || k == PvChargingPower || k == SolarFeedToGridPower
  {
  }

  lemma InFour(k: Key, a: seq<Key>, b: seq<Key>, c: seq<Key>, d: seq<Key>)
    ensures k in a + b + c + d <==> k in a || k in b || k in c || k in d
  {
  }

  lemma GridVoltageIsAsked(m: Measured, k: Key)
    ensures k == GridVoltage ==> k in GridAsked(m)
    ensures k in GridAsked(m) ==> k == GridVoltage || k == OperatingMode
  {
    hide Lookup, Numeric;
  }

  lemma SourceStatesAreNeeded(m: Measured, k: Key)
    ensures k in SourceAsked(m) <==>
      || k == PowerFlowChargeSourceState
      || (k == ChargingSourceState && !L.NamesSource(m, PowerFlowChargeSourceState))
      || (k == ChargeSourcePriority && !L.NamesSource(m, PowerFlowChargeSourceState) && !L.NamesSource(m, ChargingSourceState))
  {
    hide Lookup, StateSource, L.NamesSource;
    StateSourceIsNamed(m, PowerFlowChargeSourceState);
    StateSourceIsNamed(m, ChargingSourceState);
  }

  lemma AskedIsNeeded(v: Variant, m: Measured, k: Key)
    requires WellFormed(v)
    ensures k in Asked(v, m) <==> L.Needed(v, m, k)
  {
    hide Asked, L.Needed;
    match v.compute {
      case Multiply => NumbersAskedAreNeeded(v, m, k);
      case Sum => NumbersAskedAreNeeded(v, m, k);
      case GAsciiBatteryPower => CurrentsAskedAreNeeded(v, m, k);
      case Flow(_) => ReadingsAskedAreNeeded(v, m, k);
      case _ => SourcesAskedAreNeeded(v, m, k);
    }
  }

  lemma SourcesAskedAreNeeded(v: Variant, m: Measured, k: Key)
    requires WellFormed(v)
    requires v.compute.Passthrough? || v.compute.Negate? || v.compute.SignedDeltaMultiply? || v.compute.MagnitudeWithDirection?
    ensures k in Asked(v, m) <==> L.Needed(v, m, k)
  {
  }

  lemma NumbersAskedAreNeeded(v: Variant, m: Measured, k: Key)
    requires WellFormed(v) && (v.compute.Multiply? || v.compute.Sum?)
    ensures k in Asked(v, m) <==> L.Needed(v, m, k)
  {
    hide NumericPrefix, L.NeededNumber;
    PrefixIsNeeded(m, v.sources, k);
  }

  lemma CurrentsAskedAreNeeded(v: Variant, m: Measured, k: Key)
    requires WellFormed(v) && v.compute.GAsciiBatteryPower?
    ensures k in Asked(v, m) <==> L.Needed(v, m, k)
  {
    hide Lookup, Numeric, ModeOf, L.NoNumber, L.Shows, L.ModeBegins;
    NumericIsWhatIsShown(m, v.sources[0]);
    NumericIsWhatIsShown(m, v.sources[1]);
    ModesAreWords(Lookup(m, v.sources[2]));
    BatteryModeIsPresent(m, v.sources[2]);
  }

  lemma ReadingsAskedAreNeeded(v: Variant, m: Measured, k: Key)
    requires WellFormed(v) && v.compute.Flow?
    ensures k in Asked(v, m) <==> L.Needed(v, m, k)
  {
    hide FlowReadings, DetailsAsked, L.NeededDetail, L.NoReadings, L.ReadingsLaw;
    FlowReadingsAreLawful(m);
    DetailsAreNeeded(m, k);
  }

  lemma BatteryModeIsPresent(m: Measured, k: Key)
    ensures L.ModeBegins(Lookup(m, k), 'B') <==> k in m && L.ModeBegins(m[k], 'B')
  {
  }

  /** A computation records exactly the present keys it needs. */
  lemma RecordedIsNeeded(v: Variant, m: Measured, k: Key)
    requires WellFormed(v)
    ensures k in ReadKeys(v, m) <==> k in m && L.Needed(v, m, k)
  {
    hide Asked, L.Needed;
    RecordAllRecordsPresentKeys([], m, Asked(v, m));
    AskedIsNeeded(v, m, k);
  }

  // ---- which variant, and what the alias is ------------------------------------------------------------------

  /** This is the first of the variants that serves the driver and the pack and has all its sources. */
  predicate FirstServing(variants: seq<Variant>, n: nat, driver: Driver, pack: Option<Pack>, m: Measured) {
    && n < |variants| && Serves(variants[n], driver, pack, m)
    && forall j :: 0 <= j < n ==> !Serves(variants[j], driver, pack, m)
  }

  predicate Serves(v: Variant, driver: Driver, pack: Option<Pack>, m: Measured) {
    && driver in v.drivers
    && (v.packs != [] ==> exists p :: p in v.packs && pack == Some(p))
    && forall k :: k in v.sources ==> k in m
  }

  lemma {:induction false} FirstServingMatches(
    variants: seq<Variant>, n: nat, driver: Driver, pack: Option<Pack>, m: Measured)
    requires FirstServing(variants, n, driver, pack, m)
    ensures Matching(variants, driver, pack, m) == Some(variants[n])
  {
    if n > 0 {
      assert !Serves(variants[0], driver, pack, m);
      forall j | 0 <= j < n - 1 ensures !Serves(variants[1..][j], driver, pack, m) {
        assert variants[1..][j] == variants[j + 1];
      }
      FirstServingMatches(variants[1..], n - 1, driver, pack, m);
    }
  }

  /**
   An alias that is not native obeys the law of the first variant that serves it, and records the
   present keys that law needs; when none serves, there is no alias.
   */
  lemma AliasIsLawful(i: nat, n: nat, driver: Driver, pack: Option<Pack>, m: Measured)
    requires i < ROWS && Row(i).key !in m && FirstServing(Row(i).variants, n, driver, pack, m)
    ensures WellFormed(Row(i).variants[n])
    ensures var v, r := Row(i).variants[n], RowResult(i, driver, pack, m);
      && (r.Some? ==> L.Lawful(v, m, Some(r.value.value)))
      && (r.None? ==> L.Lawful(v, m, None))
      && (r.Some? ==> forall k :: k in r.value.sources <==> k in m && L.Needed(v, m, k))
  {
    hide Row, Result, Matching, L.Lawful, L.Needed, ReadKeys, WellFormed, FirstServing;
    FirstServingIsThere(Row(i).variants, n, driver, pack, m);
    var v := Row(i).variants[n];
    VariantsAreWellFormed(i, v);
    FirstServingMatches(Row(i).variants, n, driver, pack, m);
    ResultIsLawful(v, m);
    forall k ensures k in ReadKeys(v, m) <==> k in m && L.Needed(v, m, k) {
      RecordedIsNeeded(v, m, k);
    }
  }

  lemma FirstServingIsThere(variants: seq<Variant>, n: nat, driver: Driver, pack: Option<Pack>, m: Measured)
    requires FirstServing(variants, n, driver, pack, m)
    ensures n < |variants| && variants[n] in variants
  {
  }

  // ---- one alias from end to end, and who is served ----------------------------------------------------------------------------

  /** A PI30 battery charged at so many volts and amperes has that many watts, positive into the battery. */
  lemma Pi30BatteryPower(pack: Option<Pack>, m: Measured, volts: real, charging: real, discharging: real)
    requires BatteryPower !in m
    requires L.Shows(m, BatteryVoltage, volts)
    requires L.Shows(m, BatteryChargeCurrent, charging) && L.Shows(m, BatteryDischargeCurrent, discharging)
    ensures var after := CanonicalPass(Pi30, pack, m).values;
      BatteryPower in after && L.Gives(Some(after[BatteryPower]), volts * charging - volts * discharging)
  {
    hide Walk, CanonicalPass, RowResult, Row, L.Gives, L.Shows;
    var before := Walk(9, Pi30, pack, m).values;
    ShownKeysArePresent(m, BatteryVoltage, volts);
    ShownKeysArePresent(m, BatteryChargeCurrent, charging);
    ShownKeysArePresent(m, BatteryDischargeCurrent, discharging);
    AliasIsDecidedAtItsRow(9, BatteryPower, Pi30, pack, m);
    NativesAreThere(9, Pi30, pack, m, BatteryVoltage);
    NativesAreThere(9, Pi30, pack, m, BatteryChargeCurrent);
    NativesAreThere(9, Pi30, pack, m, BatteryDischargeCurrent);
    ShownIsShownLater(m, before, BatteryVoltage, volts);
    ShownIsShownLater(m, before, BatteryChargeCurrent, charging);
    ShownIsShownLater(m, before, BatteryDischargeCurrent, discharging);
    Pi30BatteryLaw(pack, before, volts, charging, discharging);
  }

  lemma NativesAreThere(n: nat, driver: Driver, pack: Option<Pack>, m: Measured, k: Key)
    requires n <= ROWS
    ensures k in m ==> k in Walk(n, driver, pack, m).values && Walk(n, driver, pack, m).values[k] == m[k]
  {
    hide Walk, RowOf, ServesDriver;
    WalkStarts(driver, pack, m);
    WalkExtends(0, n, driver, pack, m);
  }

  lemma ShownIsShownLater(m: Measured, later: Measured, k: Key, x: real)
    requires L.Shows(m, k, x) && k in later && (k in m ==> later[k] == m[k])
    ensures L.Shows(later, k, x)
  {
  }

  lemma Pi30BatteryRow(pack: Option<Pack>, m: Measured)
    requires BatteryVoltage in m && BatteryChargeCurrent in m && BatteryDischargeCurrent in m
    ensures Row(9).key == BatteryPower && FirstServing(Row(9).variants, 1, Pi30, pack, m)
    ensures var v := Row(9).variants[1];
      v.compute == SignedDeltaMultiply && v.sources == [BatteryVoltage, BatteryChargeCurrent, BatteryDischargeCurrent]
  {
    hide Row, RowOf;
    BatteryPowerAliases();
    assert RowOf(BatteryPower) == Some(9) by { BatteryPowerIsRowNine(); }
    SmgIsNotPi30(pack, m);
    Pi30IsServed(pack, m);
  }

  lemma BatteryPowerIsRowNine()
    ensures RowOf(BatteryPower) == Some(9)
  {
  }

  lemma SmgIsNotPi30(pack: Option<Pack>, m: Measured)
    ensures !Serves(Variant([ModbusSmg], [], [BatteryAveragePower], Passthrough), Pi30, pack, m)
  {
  }

  lemma Pi30IsServed(pack: Option<Pack>, m: Measured)
    requires BatteryVoltage in m && BatteryChargeCurrent in m && BatteryDischargeCurrent in m
    ensures Serves(
      Variant([Pi18, Pi30], [], [BatteryVoltage, BatteryChargeCurrent, BatteryDischargeCurrent], SignedDeltaMultiply),
      Pi30, pack, m)
  {
    assert [Pi18, Pi30][1] == Pi30;
  }

  lemma Pi30BatteryLaw(pack: Option<Pack>, m: Measured, volts: real, charging: real, discharging: real)
    requires BatteryPower !in m
    requires L.Shows(m, BatteryVoltage, volts)
    requires L.Shows(m, BatteryChargeCurrent, charging) && L.Shows(m, BatteryDischargeCurrent, discharging)
    ensures RowResult(9, Pi30, pack, m).Some?
    ensures L.Gives(Some(RowResult(9, Pi30, pack, m).value.value), volts * charging - volts * discharging)
  {
    hide RowResult, Row, L.Gives, L.Shows, L.Lawful, FirstServing;
    ShownKeysArePresent(m, BatteryVoltage, volts);
    ShownKeysArePresent(m, BatteryChargeCurrent, charging);
    ShownKeysArePresent(m, BatteryDischargeCurrent, discharging);
    Pi30BatteryRow(pack, m);
    AliasIsLawful(9, 1, Pi30, pack, m);
    FirstServingIsThere(Row(9).variants, 1, Pi30, pack, m);
    var v, r := Row(9).variants[1], RowResult(9, Pi30, pack, m);
    SignedDeltaSays(v, m, if r.Some? then Some(r.value.value) else None, volts, charging, discharging);
  }

  lemma ShownKeysArePresent(m: Measured, k: Key, x: real)
    requires L.Shows(m, k, x)
    ensures k in m
  {
  }

  lemma SignedDeltaSays(v: Variant, m: Measured, r: Option<Value>, volts: real, charging: real, discharging: real)
    requires v.compute.SignedDeltaMultiply? && WellFormed(v) && L.Lawful(v, m, r)
    requires L.Shows(m, v.sources[0], volts) && L.Shows(m, v.sources[1], charging) && L.Shows(m, v.sources[2], discharging)
    ensures r.Some? && L.Gives(r, volts * charging - volts * discharging)
  {
    hide L.Shows;
    assert L.Flows(m, v.sources[1], charging) && L.Flows(m, v.sources[2], discharging);
  }

  /** A row for one pack serves no other pack, and no driver but the catalog's. */
  lemma PackRowsServeTheirPack(pack: Pack, sources: seq<Key>, compute: Compute, driver: Driver, other: Option<Pack>)
    ensures Applies(ForPack(pack, sources, compute), driver, other) <==> driver == ModbusCatalog && other == Some(pack)
  {
  }

  /** A row without packs serves exactly its drivers, whatever the pack. */
  lemma PlainRowsServeTheirDrivers(drivers: seq<Driver>, sources: seq<Key>, compute: Compute, driver: Driver, pack: Option<Pack>)
    ensures Applies(For(drivers, sources, compute), driver, pack) <==> driver in drivers
  {
  }

  // ---- the table, family by family -------------------------------------------------------------------------

  /** The alias has this variant, in this place among its variants. */
  predicate Entry(k: Key, n: nat, v: Variant) {
    && RowOf(k).Some? && RowOf(k).value < ROWS && Row(RowOf(k).value).key == k
    && n < |Row(RowOf(k).value).variants| && Row(RowOf(k).value).variants[n] == v
  }

  /** What the text protocols call the grid, the output and the load. */
  lemma TextProtocolAliases()
    ensures Entry(GridVoltage, 0, Variant([Pi30], [], [InputVoltage], Passthrough))
    ensures Entry(GridVoltage, 1, Variant([SmartessLocal], [], [AcInputVoltage], Passthrough))
    ensures Entry(GridFrequency, 0, Variant([Pi30], [], [InputFrequency], Passthrough))
    ensures Entry(GridFrequency, 1, Variant([SmartessLocal], [], [AcInputFrequency], Passthrough))
    ensures Entry(OutputPower, 0, Variant([Pi18, Pi30, SmartessLocal, EybondGAscii], [], [OutputActivePower], Passthrough))
    ensures Entry(LoadPercent, 0, Variant([Pi18], [], [OutputLoadPercent], Passthrough))
    ensures Entry(LoadPercent, 1, Variant([EybondGAscii], [], [OutputLoadPercentage], Passthrough))
  {
  }

  /** What they call the PV and the battery level. */
  lemma TextProtocolSolarAliases()
    ensures Entry(PvVoltage, 0, Variant([Pi18, Pi30, SmartessLocal, EybondGAscii], [], [PvInputVoltage], Passthrough))
    ensures Entry(PvCurrent, 0, Variant([Pi30], [], [PvInputCurrent], Passthrough))
    ensures Entry(PvPower, 0, Variant([Pi18, Pi30, SmartessLocal], [], [PvInputPower], Passthrough))
    ensures Entry(BatteryPercent, 0, Variant([Pi18, EybondGAscii], [], [BatteryCapacity], Passthrough))
  {
  }

  /** Where each driver's battery power comes from: charging current first, discharging current second. */
  lemma BatteryPowerAliases()
    ensures Entry(BatteryPower, 0, Variant([ModbusSmg], [], [BatteryAveragePower], Passthrough))
    ensures Entry(BatteryPower, 1, Variant([Pi18, Pi30], [], [BatteryVoltage, BatteryChargeCurrent, BatteryDischargeCurrent], SignedDeltaMultiply))
    ensures Entry(BatteryPower, 2, Variant([SmartessLocal], [], [BatteryVoltage, ChargingCurrent, BatteryDischargeCurrent], SignedDeltaMultiply))
    ensures Entry(BatteryPower, 3, Variant([EybondGAscii], [], [BatteryVoltage, BatteryCurrent, EybondGAsciiOperatingModeCode], GAsciiBatteryPower))
    ensures Entry(BatteryPower, 4, Variant([SrneModbus], [], [ChargePower], Passthrough))
  {
  }

  /** The Modbus drivers of their own. */
  lemma ModbusAliases()
    ensures Entry(OutputPower, 1, Variant([MustPvPh18], [], [AcOutputPower], Passthrough))
    ensures Entry(PvPower, 1, Variant([SrneModbus], [], [Pv1InputPower, Pv2InputPower], Sum))
    ensures Entry(PvPower, 2, Variant([SrneModbus], [], [Pv1InputPower], Passthrough))
    ensures Entry(PvPower, 3, Variant([MustPvPh18], [], [PvChargingPower], Passthrough))
  {
  }

  /** The packs of the Modbus catalog: load, battery and grid. */
  lemma CatalogPowerAliases()
    ensures Entry(OutputPower, 2, Variant([ModbusCatalog], [SolisEsinv], [HouseholdLoadPower, BackupLoadPower], Sum))
    ensures Entry(OutputPower, 3, Variant([ModbusCatalog], [Deye3PhHigh80kw], [LoadPhasePowerL1, LoadPhasePowerL2, LoadPhasePowerL3], Sum))
    ensures Entry(BatteryPower, 5, Variant([ModbusCatalog], [AohaiFsa], [BatteryVoltage, BatteryCurrent], Multiply))
    ensures Entry(BatteryPower, 6, Variant([ModbusCatalog], [SolisEsinv], [BatteryPowerMagnitude, BatteryCurrentDirection], MagnitudeWithDirection))
    ensures Entry(GridPower, 0, Variant([ModbusCatalog], [SolisEsinv], [GridPortPower], Negate))
  {
  }

  /** The packs of the Modbus catalog: PV. */
  lemma CatalogSolarAliases()
    ensures Entry(PvPower, 4, Variant([ModbusCatalog], [AohaiFsa], [PvInputVoltage, PvInputCurrent], Multiply))
    ensures Entry(PvPower, 5, Variant([ModbusCatalog], [GrowattSpf], [Pv1InputPower, Pv2InputPower], Sum))
    ensures Entry(PvPower, 6, Variant([ModbusCatalog], [DeyeLv], [Pv1InputPower, Pv2InputPower, Pv3InputPower, Pv4InputPower], Sum))
    ensures Entry(PvPower, 7, Variant([ModbusCatalog], [Deye3PhHigh80kw], [Pv1InputPower, Pv2InputPower, Pv3InputPower, Pv4InputPower], Sum))
    ensures Entry(PvChargingPower, 0, Variant([ModbusCatalog], [GrowattSpf], [Pv1InputPower, Pv2InputPower], Sum))
  {
  }
}
