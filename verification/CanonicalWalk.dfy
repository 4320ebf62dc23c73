/**
 The canonical pass as a whole: the ordered walk over the table, what it leaves unchanged, and why
 a second walk adds nothing.
 */
module CanonicalWalk {
  import opened Numbers
  import opened Keys
  import opened Telemetry
  import opened CanonicalTable
  import opened Canonical
  import F = FlowSplit

  datatype Computation = Computation(key: Key, value: Value, sources: seq<Key>)

  predicate Applies(v: Variant, driver: Driver, pack: Option<Pack>) {
    && driver in v.drivers
    && (v.packs == [] || (pack.Some? && pack.value in v.packs))
  }

  predicate SourcesPresent(v: Variant, m: Measured) { forall k :: k in v.sources ==> k in m }

  /** `_matching_variant`: the first applicable variant whose sources are all present. */
  function Matching(variants: seq<Variant>, driver: Driver, pack: Option<Pack>, m: Measured): (r: Option<Variant>)
    ensures r.Some? ==>
      r.value in variants && Applies(r.value, driver, pack) && SourcesPresent(r.value, m)
  {
    if variants == [] then None
    else if Applies(variants[0], driver, pack) && SourcesPresent(variants[0], m) then Some(variants[0])
    else Matching(variants[1..], driver, pack, m)
  }

  lemma VariantsAreWellFormed(i: nat, v: Variant)
    requires i < ROWS && v in Row(i).variants
    ensures WellFormed(v)
  {
    if i == 2 || i == 6 || i == 9 {
      LongRowsAreWellFormed(i, v);
    }
  }

  lemma LongRowsAreWellFormed(i: nat, v: Variant)
    requires (i == 2 || i == 6 || i == 9) && v in Row(i).variants
    ensures WellFormed(v)
  {
    if i == 2 {
    } else if i == 6 {
    } else {
    }
  }

  /** What one table row adds to the values, if anything. */
  function RowResult(i: nat, driver: Driver, pack: Option<Pack>, m: Measured): (r: Option<Computation>)
    requires i < ROWS
    ensures r.Some? ==> r.value.key == Row(i).key && r.value.key !in m && r.value.value != Unknown
  {
    var row := Row(i);
    var variant := Matching(row.variants, driver, pack, m);
    if row.key in m || variant.None? then None
    else
      VariantsAreWellFormed(i, variant.value);
      var value := Result(variant.value, m);
      if value.None? then None
      else Some(Computation(row.key, value.value, ReadKeys(variant.value, m)))
  }

  datatype Pass = Pass(values: Measured, computations: seq<Computation>)

  function Extend(p: Pass, c: Option<Computation>): Pass {
    if c.None? then p
    else Pass(p.values[c.value.key := c.value.value], p.computations + [c.value])
  }

  /** The walk over the first `n` rows. */
  function Walk(n: nat, driver: Driver, pack: Option<Pack>, m: Measured): Pass
    requires n <= ROWS
  {
    if n == 0 then Pass(m, [])
    else
      var before := Walk(n - 1, driver, pack, m);
      Extend(before, RowResult(n - 1, driver, pack, before.values))
  }

  function CanonicalPass(driver: Driver, pack: Option<Pack>, m: Measured): Pass {
    Walk(ROWS, driver, pack, m)
  }

  // ---- the pass on a mutable mapping --------------------------------------------

  /** The value mapping the pass extends in place. */
  class ValueMap {
    var values: Measured

    constructor (values: Measured)
      ensures this.values == values
    {
      this.values := values;
    }

    /** `_apply_canonical_pass`. */
    method ApplyCanonicalPass(driver: Driver, pack: Option<Pack>) returns (computations: seq<Computation>)
      modifies this
      ensures Pass(values, computations) == CanonicalPass(driver, pack, old(values))
    {
      hide RowResult;
      computations := [];
      ghost var start := values;
      var availableKeys := values.Keys;
      var i := 0;
      while i < ROWS
        invariant 0 <= i <= ROWS && availableKeys == values.Keys
        invariant Pass(values, computations) == Walk(i, driver, pack, start)
      {
        var added := ComputeRow(i, driver, pack, availableKeys);
        if added.Some? {
          values := values[added.value.key := added.value.value];
          availableKeys := availableKeys + {added.value.key};
          computations := computations + [added.value];
        }
        i := i + 1;
      }
    }

    /** One round of that loop: the alias of row `i`, unless it is native or cannot be computed. */
    method ComputeRow(i: nat, driver: Driver, pack: Option<Pack>, availableKeys: set<Key>)
      returns (added: Option<Computation>)
      requires i < ROWS && availableKeys == values.Keys
      ensures added == RowResult(i, driver, pack, values)
    {
      hide Row, Result, Asked, RowOf, Applies, SourcesPresent, WellFormed;
      var row := Row(i);
      if row.key in values {
        return None;
      }
      var variant := MatchVariant(row.variants, driver, pack, availableKeys, values);
      if variant.None? {
        return None;
      }
      VariantsAreWellFormed(i, variant.value);
      var tracked := new ReadTrackingValues(values);
      var value := ComputeVariant(variant.value, tracked);
      assert tracked.asked == Asked(variant.value, values);
      added := if value.Some? then Some(Computation(row.key, value.value, tracked.readKeys)) else None;
    }
  }

  /** The loop of `_matching_variant`, over the keys known to be available. */
  method MatchVariant(variants: seq<Variant>, driver: Driver, pack: Option<Pack>, available: set<Key>, ghost m: Measured)
    returns (r: Option<Variant>)
    requires available == m.Keys
    ensures r == Matching(variants, driver, pack, m)
  {
    var i := 0;
    while i < |variants|
      invariant 0 <= i <= |variants|
      invariant Matching(variants, driver, pack, m) == Matching(variants[i..], driver, pack, m)
    {
      var v := variants[i];
      if Applies(v, driver, pack) && (forall k :: k in v.sources ==> k in available) {
        return Some(v);
      }
      assert variants[i..][1..] == variants[i + 1..];
      i := i + 1;
    }
    r := None;
  }

  // ---- what the walk leaves alone ---------------------------------------------------

  /** Earlier values survive the rest of the walk; only keys of the rows walked are added. */
  lemma {:induction false} WalkExtends(lo: nat, hi: nat, driver: Driver, pack: Option<Pack>, m: Measured)
    requires lo <= hi <= ROWS
    ensures var p, q := Walk(lo, driver, pack, m), Walk(hi, driver, pack, m);
      && (forall k :: k in p.values ==> k in q.values && q.values[k] == p.values[k])
      && (forall k :: k in q.values && k !in p.values ==>
            RowOf(k).Some? && lo <= RowOf(k).value < hi && ServesDriver(RowOf(k).value, driver))
    decreases hi
  {
    hide Row, RowOf, Result, Asked;
    if lo < hi {
      WalkExtends(lo, hi - 1, driver, pack, m);
      var before := Walk(hi - 1, driver, pack, m);
      var added := RowResult(hi - 1, driver, pack, before.values);
      if added.Some? {
        RowsAreWhereRowOfSays(hi - 1, added.value.key);
        var v := Matching(Row(hi - 1).variants, driver, pack, before.values).value;
        assert v in Row(hi - 1).variants && driver in v.drivers;
      }
    }
  }

  /** Native values always win: the pass changes none of them. */
  lemma NativeValuesAreKept(driver: Driver, pack: Option<Pack>, m: Measured, k: Key)
    requires k in m
    ensures k in CanonicalPass(driver, pack, m).values
    ensures CanonicalPass(driver, pack, m).values[k] == m[k]
  {
    hide Walk, Row, RowOf, ServesDriver;
    WalkStarts(driver, pack, m);
    WalkExtends(0, ROWS, driver, pack, m);
  }

  lemma WalkStarts(driver: Driver, pack: Option<Pack>, m: Measured)
    ensures Walk(0, driver, pack, m) == Pass(m, [])
  {
  }

  // ---- a compute depends only on what it asks for ---------------------------------------

  /** Two mappings that answer every question of a compute alike make it ask and return the same. */
  lemma SameAnswersSameResult(v: Variant, m: Measured, n: Measured)
    requires WellFormed(v)
    requires forall k :: k in Asked(v, m) ==> Lookup(m, k) == Lookup(n, k)
    ensures Asked(v, n) == Asked(v, m) && Result(v, n) == Result(v, m)
  {
    match v.compute {
      case Multiply => SamePrefix(v.sources, m, n);
        if AllNumeric(m, v.sources) { SameProduct(v.sources, m, n); }
      case Sum => SamePrefix(v.sources, m, n);
        if AllNumeric(m, v.sources) { SameSum(v.sources, m, n); }
      case Flow(_) => SameFlow(v, m, n);
      case GAsciiBatteryPower => SameGAscii(v, m, n);
      case SignedDeltaMultiply =>
        assert v.sources[0] in v.sources && v.sources[1] in v.sources && v.sources[2] in v.sources;
      case MagnitudeWithDirection =>
        assert v.sources[0] in v.sources && v.sources[1] in v.sources;
      case Passthrough => assert v.sources[0] in v.sources;
      case Negate => assert v.sources[0] in v.sources;
    }
  }

  lemma {:induction false} SamePrefix(keys: seq<Key>, m: Measured, n: Measured)
    requires forall k :: k in NumericPrefix(m, keys) ==> Lookup(m, k) == Lookup(n, k)
    ensures NumericPrefix(n, keys) == NumericPrefix(m, keys)
    ensures AllNumeric(n, keys) <==> AllNumeric(m, keys)
    ensures AllNumeric(m, keys) ==> forall k :: k in keys ==> Lookup(m, k) == Lookup(n, k)
  {
    if keys != [] {
      assert keys[0] in NumericPrefix(m, keys);
      assert keys == [keys[0]] + keys[1..];
      if Numeric(Lookup(m, keys[0])).Some? {
        SamePrefix(keys[1..], m, n);
      }
    }
  }

  lemma {:induction false} SameSum(keys: seq<Key>, m: Measured, n: Measured)
    requires forall k :: k in keys ==> Lookup(m, k) == Lookup(n, k)
    ensures SumOf(m, keys) == SumOf(n, keys)
  {
    if keys != [] {
      assert keys[|keys| - 1] in keys;
      SameSum(keys[..|keys| - 1], m, n);
    }
  }

  lemma {:induction false} SameProduct(keys: seq<Key>, m: Measured, n: Measured)
    requires forall k :: k in keys ==> Lookup(m, k) == Lookup(n, k)
    ensures ProductOf(m, keys) == ProductOf(n, keys)
  {
    if keys != [] {
      assert keys[|keys| - 1] in keys;
      SameProduct(keys[..|keys| - 1], m, n);
    }
  }

  lemma SameGAscii(v: Variant, m: Measured, n: Measured)
    requires WellFormed(v) && v.compute.GAsciiBatteryPower?
    requires forall k :: k in Asked(v, m) ==> Lookup(m, k) == Lookup(n, k)
    ensures Asked(v, n) == Asked(v, m) && Result(v, n) == Result(v, m)
  {
    hide ModeOf, GAsciiPower;
    assert forall k :: k in v.sources ==> k in Asked(v, m);
    assert v.sources[0] in v.sources && v.sources[1] in v.sources && v.sources[2] in v.sources;
    if Asked(v, m) != v.sources {
      assert PvChargingCurrent in Asked(v, m) && ChargingCurrent in Asked(v, m);
    }
  }

  lemma SameFlow(v: Variant, m: Measured, n: Measured)
    requires WellFormed(v) && v.compute.Flow?
    requires forall k :: k in Asked(v, m) ==> Lookup(m, k) == Lookup(n, k)
    ensures Asked(v, n) == Asked(v, m) && FlowReadings(n) == FlowReadings(m) && Result(v, n) == Result(v, m)
  {
    hide F.Split;
    assert forall k :: k in v.sources ==> k in Asked(v, m);
    if FlowReadings(m).Some? {
      assert forall k :: k in DetailsAsked(m) ==> k in Asked(v, m);
      SameDetails(m, n);
    }
  }

  lemma SameDetails(m: Measured, n: Measured)
    requires forall k :: k in DetailsAsked(m) ==> Lookup(m, k) == Lookup(n, k)
    ensures DetailsAsked(n) == DetailsAsked(m)
    ensures GridPresence(n) == GridPresence(m) && ChargeSourceOf(n) == ChargeSourceOf(m)
    ensures GridFirst(n) == GridFirst(m)
    ensures forall k :: k in [GridPower, PvChargingPower, SolarFeedToGridPower] ==> Lookup(m, k) == Lookup(n, k)
  {
    forall k | k in GridAsked(m) ensures Lookup(m, k) == Lookup(n, k) { assert k in DetailsAsked(m); }
    forall k | k in SourceAsked(m) ensures Lookup(m, k) == Lookup(n, k) { assert k in DetailsAsked(m); }
    assert OperatingMode in DetailsAsked(m);
    assert GridVoltage in GridAsked(m) && PowerFlowChargeSourceState in SourceAsked(m);
  }

  /**
   Non-interference of one computation: changing or removing present keys it did not record
   changes neither its value nor what it records.
   */
  lemma UnrecordedKeysCannotMatter(v: Variant, m: Measured, n: Measured)
    requires WellFormed(v)
    requires forall k :: k in ReadKeys(v, m) ==> k in n && n[k] == Lookup(m, k)
    requires forall k :: k in n ==> k in m
    ensures Result(v, n) == Result(v, m) && ReadKeys(v, n) == ReadKeys(v, m)
  {
    RecordAllRecordsPresentKeys([], m, Asked(v, m));
    SameAnswersSameResult(v, m, n);
    SameRecords(m, n, Asked(v, m));
  }

  lemma {:induction false} SameRecords(m: Measured, n: Measured, asked: seq<Key>)
    requires forall k :: k in asked ==> (k in m <==> k in n)
    ensures RecordAll([], m, asked) == RecordAll([], n, asked)
  {
    if asked != [] {
      assert asked[|asked| - 1] in asked;
      SameRecords(m, n, asked[..|asked| - 1]);
    }
  }

  // ---- a second pass adds nothing -----------------------------------------------------------

  lemma AskedWithinFootprint(v: Variant, m: Measured)
    requires WellFormed(v)
    ensures forall k :: k in Asked(v, m) ==> MayAsk(v, k)
  {
    hide NumericPrefix, FlowReadings, Lookup, Numeric, ModeOf, DetailsAsked;
    match v.compute {
      case Multiply => PrefixWithin(v.sources, m);
      case Sum => PrefixWithin(v.sources, m);
      case Flow(_) => DetailsWithinFootprint(v, m);
      case _ =>
    }
  }

  lemma DetailsWithinFootprint(v: Variant, m: Measured)
    requires v.compute.Flow?
    ensures forall k :: k in DetailsAsked(m) ==> MayAsk(v, k)
  {
    hide Lookup, Numeric;
  }

  lemma {:induction false} PrefixWithin(keys: seq<Key>, m: Measured)
    ensures forall k :: k in NumericPrefix(m, keys) ==> k in keys
  {
    if keys != [] && Numeric(Lookup(m, keys[0])).Some? {
      PrefixWithin(keys[1..], m);
    }
  }

  /**
   A variant consults only natives and keys of earlier rows. The one exception, the MUST PV power
   row, reads PV charging power, which a later row fills for another driver only.
   */
  lemma FootprintIsEarlier(i: nat, v: Variant, k: Key)
    requires i < ROWS && v in Row(i).variants && MayAsk(v, k) && RowOf(k).Some?
    ensures RowOf(k).value < i || (i == 6 && k == PvChargingPower && v.drivers == [MustPvPh18])
  {
    if i == 2 || i == 6 {
      PowerRowFootprint(i, v, k);
    } else if i == 9 {
      BatteryRowFootprint(v, k);
    } else if i < FLOW_START {
      ShortRowFootprint(i, v, k);
    } else {
      FlowFootprintIsEarlier(v, k);
    }
  }

  lemma PowerRowFootprint(i: nat, v: Variant, k: Key)
    requires (i == 2 || i == 6) && v in Row(i).variants && MayAsk(v, k) && RowOf(k).Some?
    ensures i == 6 && k == PvChargingPower && v.drivers == [MustPvPh18]
  {
    var j :| 0 <= j < |Row(i).variants| && Row(i).variants[j] == v;
    if i == 2 {
      LoadVariantFootprint(j, k);
    } else if j < 4 {
      PvVariantFootprint(j, k);
    } else {
      PackPvVariantFootprint(j, k);
    }
  }

  lemma LoadVariantFootprint(j: nat, k: Key)
    requires j < |Row(2).variants| && MayAsk(Row(2).variants[j], k)
    ensures RowOf(k).None?
  {
  }

  lemma PvVariantFootprint(j: nat, k: Key)
    requires j < 4 && MayAsk(Row(6).variants[j], k) && RowOf(k).Some?
    ensures k == PvChargingPower && Row(6).variants[j].drivers == [MustPvPh18]
  {
  }

  lemma PackPvVariantFootprint(j: nat, k: Key)
    requires 4 <= j < |Row(6).variants| && MayAsk(Row(6).variants[j], k)
    ensures RowOf(k).None?
  {
  }

  lemma BatteryRowFootprint(v: Variant, k: Key)
    requires v in Row(9).variants && MayAsk(v, k)
    ensures RowOf(k).None?
  {
    var j :| 0 <= j < |Row(9).variants| && Row(9).variants[j] == v;
    if j < 3 {
      BatteryVariantFootprint(j, k);
    } else {
      LaterBatteryVariantFootprint(j, k);
    }
  }

  lemma BatteryVariantFootprint(j: nat, k: Key)
    requires j < 3 && MayAsk(Row(9).variants[j], k)
    ensures RowOf(k).None?
  {
  }

  lemma LaterBatteryVariantFootprint(j: nat, k: Key)
    requires 3 <= j < |Row(9).variants| && MayAsk(Row(9).variants[j], k)
    ensures RowOf(k).None?
  {
  }

  lemma ShortRowFootprint(i: nat, v: Variant, k: Key)
    requires i < FLOW_START && i != 2 && i != 6 && i != 9
    requires v in Row(i).variants && MayAsk(v, k)
    ensures RowOf(k).None?
  {
  }

  lemma FlowFootprintIsEarlier(v: Variant, k: Key)
    requires WellFormed(v) && v.compute.Flow? && MayAsk(v, k) && RowOf(k).Some?
    ensures RowOf(k).value < FLOW_START
  {
  }

  lemma TableHasNoForwardRead(i: nat, v: Variant)
    requires i < ROWS && v in Row(i).variants
    ensures NoForwardRead(i, v)
  {
    hide Row, MayAsk;
    forall k, d | MayAsk(v, k) && d in v.drivers && RowOf(k).Some? && ServesDriver(RowOf(k).value, d)
      ensures RowOf(k).value < i
    {
      FootprintIsEarlier(i, v, k);
      if RowOf(k).value >= i {
        OnlyGrowattFillsPvCharging(d);
      }
    }
  }

  lemma OnlyGrowattFillsPvCharging(d: Driver)
    ensures ServesDriver(7, d) ==> d == ModbusCatalog
  {
  }

  /** Mappings that agree on everything a row may consult give that row the same result. */
  lemma {:induction false} SameFootprintSameMatch(
      variants: seq<Variant>, driver: Driver, pack: Option<Pack>, m: Measured, n: Measured)
    requires forall v, k :: v in variants && driver in v.drivers && MayAsk(v, k) ==> (k in m <==> k in n)
    ensures Matching(variants, driver, pack, m) == Matching(variants, driver, pack, n)
  {
    if variants != [] {
      assert variants[0] in variants;
      if driver in variants[0].drivers {
        assert forall k :: k in variants[0].sources ==> MayAsk(variants[0], k);
      }
      SameFootprintSameMatch(variants[1..], driver, pack, m, n);
    }
  }

  /** A row that added nothing the first time adds nothing to the finished values. */
  lemma SecondVisitAddsNothing(i: nat, driver: Driver, pack: Option<Pack>, m: Measured)
    requires i < ROWS
    ensures RowResult(i, driver, pack, CanonicalPass(driver, pack, m).values) == None
  {
    hide Row, RowOf, Result, Asked, MayAsk;
    var before := Walk(i, driver, pack, m).values;
    var after := CanonicalPass(driver, pack, m).values;
    WalkExtends(i, ROWS, driver, pack, m);
    WalkExtends(i + 1, ROWS, driver, pack, m);
    if Row(i).key !in after {
      assert RowResult(i, driver, pack, before) == None;
      forall v, k | v in Row(i).variants && driver in v.drivers && MayAsk(v, k)
        ensures (k in before <==> k in after) && Lookup(before, k) == Lookup(after, k)
      {
        TableHasNoForwardRead(i, v);
      }
      SameFootprintSameMatch(Row(i).variants, driver, pack, before, after);
      var variant := Matching(Row(i).variants, driver, pack, before);
      if variant.Some? {
        VariantsAreWellFormed(i, variant.value);
        AskedWithinFootprint(variant.value, before);
        SameAnswersSameResult(variant.value, before, after);
      }
    }
  }

  /** The pass is idempotent for every driver and every pack. */
  lemma PassIsIdempotent(driver: Driver, pack: Option<Pack>, m: Measured)
    ensures var once := CanonicalPass(driver, pack, m).values;
      CanonicalPass(driver, pack, once) == Pass(once, [])
  {
    SecondWalkAddsNothing(ROWS, driver, pack, m);
  }

  lemma {:induction false} SecondWalkAddsNothing(n: nat, driver: Driver, pack: Option<Pack>, m: Measured)
    requires n <= ROWS
    ensures var once := CanonicalPass(driver, pack, m).values;
      Walk(n, driver, pack, once) == Pass(once, [])
  {
    hide Row, RowOf, RowResult, Result, Asked, CanonicalPass;
    if n > 0 {
      SecondWalkAddsNothing(n - 1, driver, pack, m);
      SecondVisitAddsNothing(n - 1, driver, pack, m);
    }
  }

  // ---- all flow aliases of one pass come from one split ------------------------------------------

  /** The drivers with flow rows. */
  predicate HasFlowRows(d: Driver) { d in FLOW_DRIVERS }

  /**
   Every flow alias that is not native is the matching route of one single split, taken over the
   finished values; and it is absent exactly when load, PV or battery power is not a number.
   */
  lemma FlowAliasesComeFromOneSplit(route: F.Route, driver: Driver, pack: Option<Pack>, m: Measured)
    requires HasFlowRows(driver) && FlowKey(route) !in m
    ensures var after := CanonicalPass(driver, pack, m).values;
      && (FlowKey(route) in after <==> FlowReadings(after).Some?)
      && (FlowReadings(after).Some? ==>
            after[FlowKey(route)] == Number(F.Split(FlowReadings(after).value).Rounded().At(route)))
  {
    hide F.Split, RowResult, Row, RowOf, FlowReadings, Walk, CanonicalPass, HasFlowRows;
    FlowRowIsFor(route);
    var i := RowOf(FlowKey(route)).value;
    AliasIsDecidedAtItsRow(i, FlowKey(route), driver, pack, m);
    FlowRowResult(route, driver, pack, Walk(i, driver, pack, m).values);
    FlowReadingsAreFinal(route, driver, pack, m);
  }

  /** An alias is in the result exactly when its own row computed it, with that row's value. */
  lemma AliasIsDecidedAtItsRow(i: nat, k: Key, driver: Driver, pack: Option<Pack>, m: Measured)
    requires i < ROWS && RowOf(k) == Some(i) && k !in m
    ensures k !in Walk(i, driver, pack, m).values
    ensures var after := CanonicalPass(driver, pack, m).values;
      var r := RowResult(i, driver, pack, Walk(i, driver, pack, m).values);
      && (k in after <==> r.Some?)
      && (r.Some? ==> after[k] == r.value.value)
  {
    hide Row, RowOf, RowResult;
    WalkExtends(0, i, driver, pack, m);
    WalkExtends(i + 1, ROWS, driver, pack, m);
    FoundRowHasKey(i, k);
  }

  /** The readings a flow row splits are those of the finished values. */
  lemma FlowReadingsAreFinal(route: F.Route, driver: Driver, pack: Option<Pack>, m: Measured)
    requires RowOf(FlowKey(route)).Some? && RowOf(FlowKey(route)).value < ROWS
    ensures FlowReadings(Walk(RowOf(FlowKey(route)).value, driver, pack, m).values)
         == FlowReadings(CanonicalPass(driver, pack, m).values)
  {
    hide F.Split, Row, RowOf, FlowReadings, Walk, CanonicalPass, MayAsk, Asked;
    FlowRowIsFor(route);
    var i := RowOf(FlowKey(route)).value;
    var v := Row(i).variants[0];
    var before := Walk(i, driver, pack, m).values;
    SameLookupsFromFlowRow(i, v, driver, pack, m);
    AskedWithinFootprint(v, before);
    SameFlow(v, before, CanonicalPass(driver, pack, m).values);
  }

  /** Nothing a flow row may consult changes once the flow rows are reached. */
  lemma SameLookupsFromFlowRow(i: nat, v: Variant, driver: Driver, pack: Option<Pack>, m: Measured)
    requires FLOW_START <= i < ROWS && WellFormed(v) && v.compute.Flow?
    ensures forall k :: MayAsk(v, k) ==>
      Lookup(Walk(i, driver, pack, m).values, k) == Lookup(CanonicalPass(driver, pack, m).values, k)
  {
    hide Row, RowOf, MayAsk, RowResult, Walk;
    WalkExtends(i, ROWS, driver, pack, m);
    forall k | MayAsk(v, k)
      ensures Lookup(Walk(i, driver, pack, m).values, k) == Lookup(CanonicalPass(driver, pack, m).values, k)
    {
      if RowOf(k).Some? {
        FlowFootprintIsEarlier(v, k);
      }
    }
  }

  lemma FlowRowIsFor(route: F.Route)
    ensures RowOf(FlowKey(route)).Some?
    ensures FLOW_START <= RowOf(FlowKey(route)).value < ROWS
    ensures Row(RowOf(FlowKey(route)).value) == FlowSpec(FlowKey(route), route)
  {
  }

  lemma ReadingsNeedSources(m: Measured)
    requires FlowReadings(m).Some?
    ensures OutputPower in m && PvPower in m && BatteryPower in m
  {
  }

  lemma FlowRowResult(route: F.Route, driver: Driver, pack: Option<Pack>, m: Measured)
    requires HasFlowRows(driver) && FlowKey(route) !in m && RowOf(FlowKey(route)).Some?
    requires RowOf(FlowKey(route)).value < ROWS
    ensures var r := RowResult(RowOf(FlowKey(route)).value, driver, pack, m);
      && (r.Some? <==> FlowReadings(m).Some?)
      && (r.Some? ==> r.value.value == Number(F.Split(FlowReadings(m).value).Rounded().At(route)))
  {
    hide F.Split, FlowReadings, Row, RowOf, Asked, Matching, Result, FlowKey, RowResult, WellFormed;
    FlowRowIsFor(route);
    var v := For(FLOW_DRIVERS, [OutputPower, PvPower, BatteryPower], Flow(route));
    OneVariantRow(RowOf(FlowKey(route)).value, v, driver, pack, m);
    FlowVariantResult(v, route, driver, pack, m);
  }

  /** A row with one variant computes what that variant computes, when it matches. */
  lemma OneVariantRow(i: nat, v: Variant, driver: Driver, pack: Option<Pack>, m: Measured)
    requires i < ROWS && Row(i).variants == [v] && Row(i).key !in m
    ensures WellFormed(v)
    ensures Matching([v], driver, pack, m) == Some(v) ==>
      && (RowResult(i, driver, pack, m).Some? <==> Result(v, m).Some?)
      && (Result(v, m).Some? ==> RowResult(i, driver, pack, m).value.value == Result(v, m).value)
    ensures Matching([v], driver, pack, m) == None ==> RowResult(i, driver, pack, m) == None
  {
    hide Row, RowOf, Asked, Matching, Result, WellFormed, ReadKeys;
    assert v in Row(i).variants;
    VariantsAreWellFormed(i, v);
  }

  lemma FlowVariantResult(v: Variant, route: F.Route, driver: Driver, pack: Option<Pack>, m: Measured)
    requires HasFlowRows(driver) && v == For(FLOW_DRIVERS, [OutputPower, PvPower, BatteryPower], Flow(route))
    ensures Matching([v], driver, pack, m).Some? ==> Matching([v], driver, pack, m).value == v
    ensures FlowReadings(m).Some? ==> Matching([v], driver, pack, m) == Some(v)
    ensures WellFormed(v) && FlowReadings(m).None? ==> Result(v, m) == None
    ensures WellFormed(v) && FlowReadings(m).Some? ==>
      Result(v, m) == Some(Number(F.Split(FlowReadings(m).value).Rounded().At(route)))
  {
    hide F.Split, FlowReadings;
    if FlowReadings(m).Some? {
      ReadingsNeedSources(m);
    }
  }
}
