/**
 The canonical pass of `canonical_telemetry.py`: one ordered walk over the alias table that adds the
 aliases a driver can fill, never touches a native key, and records which present keys each alias read.
 */
module Canonical {
  import opened Numbers
  import opened Text
  import opened Keys
  import opened Telemetry
  import opened CanonicalTable
  import F = FlowSplit

  type Measured = map<Key, Value>

  // ---- reading values --------------------------------------------------------

  /** `values.get(key)`: a missing key reads like an unknown value. */
  function Lookup(m: Measured, k: Key): Value { if k in m then m[k] else Unknown }

  /** `_numeric`; a Python boolean is an integer. */
  function Numeric(v: Value): Option<real> {
    match v
    case Boolean(flag) => Some(if flag then 1.0 else 0.0)
    case Integer(number) => Some(number as real)
    case Number(amount) => Some(amount)
    case _ => None
  }

  function NonNegative(v: Value): (x: Option<real>)
    ensures x.Some? ==> 0.0 <= x.value
  {
    match Numeric(v) case Some(x) => Some(Max(0.0, x)) case None => None
  }

  function NumericOrZero(v: Value): real {
    match Numeric(v) case Some(x) => x case None => 0.0
  }

  /** `_positive_numeric`: the first strictly positive number, or zero. */
  function FirstPositive(a: Value, b: Value): real {
    if NumericOrZero(a) > 0.0 then NumericOrZero(a)
    else if NumericOrZero(b) > 0.0 then NumericOrZero(b)
    else 0.0
  }

  /** `str(direction).strip().lower() in ("0", "charge", "charging")`. */
  predicate SaysCharging(v: Value) {
    match v
    case Integer(number) => number == 0
    case Words(text) => Lower(Strip(text)) in ["0", "charge", "charging"]
    case _ => false
  }

  datatype ModeClass = BatteryMode | LineMode | SoftStartMode | OtherMode

  /** What `str(mode).strip().upper()` says about an EyeBond G-ASCII operating mode. */
  function ModeOf(v: Value): ModeClass {
    match v
    case Integer(number) =>
      if number == 4 then LineMode else if number == 0 then SoftStartMode else OtherMode
    case Number(amount) =>
      // the decimal form starts with "0" from 0.0001 up to 1; smaller magnitudes print an exponent
      if amount == 0.0 || 0.0001 <= amount < 1.0 then SoftStartMode else OtherMode
    case Words(text) =>
      var mode := Upper(Strip(text));
      if mode == "" then OtherMode
      else if mode[0] == 'B' then BatteryMode
      else if mode in ["L", "4", "LINE", "UTILITY", "MAINS"] then LineMode
      else if mode[0] == '0' then SoftStartMode
      else OtherMode
    case _ => OtherMode
  }

  // ---- the flow readings -------------------------------------------------------

  predicate Says(v: Value, text: string) { v == Words(text) }

  /** `_grid_present`. */
  function GridPresence(m: Measured): F.GridState {
    match Numeric(Lookup(m, GridVoltage))
    case Some(volts) => if volts >= 20.0 then F.GridPresent else F.GridAbsent
    case None =>
      var mode := Lookup(m, OperatingMode);
      if Says(mode, "Battery") || Says(mode, "Off-Grid") then F.GridAbsent else F.GridUnknown
  }

  function StateSource(v: Value): Option<F.ChargeSource> {
    if Says(v, "PV") then Some(F.FromPv)
    else if Says(v, "Utility") then Some(F.FromUtility)
    else if Says(v, "PV + Utility") then Some(F.FromPvAndUtility)
    else None
  }

  /** `_flow_charge_source`: the first state that names a source, else the "PV Only" priority. */
  function ChargeSourceOf(m: Measured): Option<F.ChargeSource> {
    var inverter := StateSource(Lookup(m, PowerFlowChargeSourceState));
    var charger := StateSource(Lookup(m, ChargingSourceState));
    if inverter.Some? then inverter
    else if charger.Some? then charger
    else if Says(Lookup(m, ChargeSourcePriority), "PV Only") then Some(F.FromPv)
    else None
  }

  predicate GridFirst(m: Measured) {
    Says(Lookup(m, OperatingMode), "Mains") || Says(Lookup(m, OperatingMode), "Bypass")
  }

  /** The readings of the splitter; `None` unless load, PV and battery power are all numbers. */
  function FlowReadings(m: Measured): Option<F.Readings> {
    var load := NonNegative(Lookup(m, OutputPower));
    var pv := NonNegative(Lookup(m, PvPower));
    var battery := Numeric(Lookup(m, BatteryPower));
    if load.None? || pv.None? || battery.None? then None
    else Some(WithDetails(m, load.value, pv.value, battery.value))
  }

  function WithDetails(m: Measured, load: real, pv: real, battery: real): F.Readings
    requires 0.0 <= load && 0.0 <= pv
  {
    F.Readings(load, pv, battery, GridPresence(m), Numeric(Lookup(m, GridPower)),
               NonNegative(Lookup(m, PvChargingPower)), NonNegative(Lookup(m, SolarFeedToGridPower)),
               ChargeSourceOf(m), GridFirst(m))
  }

  // ---- what a variant computes, and the keys it asks for, in order -----------------

  predicate AllNumeric(m: Measured, keys: seq<Key>) {
    forall k :: k in keys ==> Numeric(Lookup(m, k)).Some?
  }

  function SumOf(m: Measured, keys: seq<Key>): real {
    if keys == [] then 0.0
    else SumOf(m, keys[..|keys| - 1]) + NumericOrZero(Lookup(m, keys[|keys| - 1]))
  }

  function ProductOf(m: Measured, keys: seq<Key>): real {
    if keys == [] then 1.0
    else ProductOf(m, keys[..|keys| - 1]) * NumericOrZero(Lookup(m, keys[|keys| - 1]))
  }

  function GAsciiCurrent(m: Measured, v: Variant): real
    requires |v.sources| == 3
  {
    var current := NumericOrZero(Lookup(m, v.sources[1]));
    if current == 0.0 && ModeOf(Lookup(m, v.sources[2])).BatteryMode?
    then FirstPositive(Lookup(m, PvChargingCurrent), Lookup(m, ChargingCurrent))
    else current
  }

  /** Charging minus discharging current, as watts. */
  function DeltaPower(voltage: real, charge: real, discharge: real): real {
    if charge == 0.0 && discharge == 0.0 then 0.0 else Round4(voltage * (charge - discharge))
  }

  /** A battery current is a magnitude whose sign the operating mode supplies, unless already signed. */
  function GAsciiPower(voltage: real, current: real, mode: ModeClass): (r: Option<Value>)
    ensures r != Some(Unknown)
  {
    if current == 0.0 then Some(Number(0.0))
    else if current < 0.0 || mode.BatteryMode? || mode.LineMode? then Some(Number(Round4(voltage * current)))
    else if mode.SoftStartMode? then Some(Number(Round4(-(voltage * current))))
    else None
  }

  /** `_compute_variant`; `None` is Python's `None`. */
  function Result(v: Variant, m: Measured): (r: Option<Value>)
    requires WellFormed(v)
    ensures r != Some(Unknown)
  {
    match v.compute
    case Passthrough =>
      var value := Lookup(m, v.sources[0]);
      if value.Unknown? then None else Some(value)
    case Multiply =>
      if AllNumeric(m, v.sources) then Some(Number(Round4(ProductOf(m, v.sources)))) else None
    case Sum =>
      if AllNumeric(m, v.sources) then Some(Number(Round4(SumOf(m, v.sources)))) else None
    case Negate =>
      var x := Numeric(Lookup(m, v.sources[0]));
      if x.Some? then Some(Number(Round4(-x.value))) else None
    case SignedDeltaMultiply =>
      var voltage := Numeric(Lookup(m, v.sources[0]));
      var charge := NumericOrZero(Lookup(m, v.sources[1]));
      var discharge := NumericOrZero(Lookup(m, v.sources[2]));
      if voltage.None? then None
      else Some(Number(DeltaPower(voltage.value, charge, discharge)))
    case GAsciiBatteryPower =>
      var voltage := Numeric(Lookup(m, v.sources[0]));
      if voltage.None? || Numeric(Lookup(m, v.sources[1])).None? then None
      else GAsciiPower(voltage.value, GAsciiCurrent(m, v), ModeOf(Lookup(m, v.sources[2])))
    case MagnitudeWithDirection =>
      var magnitude := Numeric(Lookup(m, v.sources[0]));
      var direction := Lookup(m, v.sources[1]);
      if magnitude.None? || direction.Unknown? then None
      else
        var size := if magnitude.value < 0.0 then -magnitude.value else magnitude.value;
        Some(Number(Round4(if SaysCharging(direction) then size else -size)))
    case Flow(route) =>
      var readings := FlowReadings(m);
      if readings.None? then None
      else Some(Number(F.Split(readings.value).Rounded().At(route)))
  }

  /** The keys up to and including the first that is not a number. */
  function NumericPrefix(m: Measured, keys: seq<Key>): seq<Key> {
    if keys == [] then []
    else if Numeric(Lookup(m, keys[0])).Some? then [keys[0]] + NumericPrefix(m, keys[1..])
    else [keys[0]]
  }

  function GridAsked(m: Measured): seq<Key> {
    if Numeric(Lookup(m, GridVoltage)).Some? then [GridVoltage] else [GridVoltage, OperatingMode]
  }

  function SourceAsked(m: Measured): seq<Key> {
    if StateSource(Lookup(m, PowerFlowChargeSourceState)).Some? then [PowerFlowChargeSourceState]
    else if StateSource(Lookup(m, ChargingSourceState)).Some? then
      [PowerFlowChargeSourceState, ChargingSourceState]
    else [PowerFlowChargeSourceState, ChargingSourceState, ChargeSourcePriority]
  }

  function DetailsAsked(m: Measured): seq<Key> {
    GridAsked(m) + [GridPower, PvChargingPower, SolarFeedToGridPower] + SourceAsked(m) + [OperatingMode]
  }

  /** Every key `_compute_variant` asks the snapshot for, present or not, in order. */
  function Asked(v: Variant, m: Measured): seq<Key>
    requires WellFormed(v)
  {
    match v.compute
    case Multiply => NumericPrefix(m, v.sources)
    case Sum => NumericPrefix(m, v.sources)
    case GAsciiBatteryPower =>
      var voltage, current := Numeric(Lookup(m, v.sources[0])), Numeric(Lookup(m, v.sources[1]));
      if voltage.Some? && current == Some(0.0) && ModeOf(Lookup(m, v.sources[2])).BatteryMode?
      then v.sources + [PvChargingCurrent, ChargingCurrent]
      else v.sources
    case Flow(_) =>
      if FlowReadings(m).None? then v.sources
      else v.sources + DetailsAsked(m)
    case _ => v.sources
  }

  // ---- the tracking snapshot ----------------------------------------------------------

  /** One `get`: a present key is recorded the first time it is asked for. */
  function Record(read: seq<Key>, m: Measured, k: Key): seq<Key> {
    if k in m && k !in read then read + [k] else read
  }

  function RecordAll(read: seq<Key>, m: Measured, asked: seq<Key>): seq<Key> {
    if asked == [] then read
    else Record(RecordAll(read, m, asked[..|asked| - 1]), m, asked[|asked| - 1])
  }

  /** The `source_keys` the pass records for a variant. */
  function ReadKeys(v: Variant, m: Measured): seq<Key>
    requires WellFormed(v)
  {
    RecordAll([], m, Asked(v, m))
  }

  lemma {:induction false} RecordAllRecordsPresentKeys(read: seq<Key>, m: Measured, asked: seq<Key>)
    requires Distinct(read)
    ensures Distinct(RecordAll(read, m, asked))
    ensures forall k :: k in RecordAll(read, m, asked) <==> k in read || (k in asked && k in m)
  {
    if asked != [] {
      var front := asked[..|asked| - 1];
      RecordAllRecordsPresentKeys(read, m, front);
      assert asked == front + [asked[|asked| - 1]];
    }
  }

  /** `_ReadTrackingValues`: a snapshot that records the present keys a compute consults. */
  class ReadTrackingValues {
    const snapshot: Measured
    var readKeys: seq<Key>
    ghost var asked: seq<Key>

    constructor (values: Measured)
      ensures Valid() && snapshot == values && asked == []
    {
      snapshot, readKeys, asked := values, [], [];
    }

    ghost predicate Valid()
      reads this
    {
      readKeys == RecordAll([], snapshot, asked)
    }

    method Get(key: Key) returns (value: Value)
      requires Valid()
      modifies this
      ensures Valid() && asked == old(asked) + [key]
      ensures value == Lookup(snapshot, key)
    {
      if key in snapshot && key !in readKeys {
        readKeys := readKeys + [key];
      }
      asked := asked + [key];
      assert asked[..|asked| - 1] == old(asked);
      value := if key in snapshot then snapshot[key] else Unknown;
    }
  }

  method GetPair(sources: seq<Key>, values: ReadTrackingValues) returns (first: Value, second: Value)
    requires |sources| == 2 && values.Valid()
    modifies values
    ensures values.Valid() && values.asked == old(values.asked) + sources
    ensures first == Lookup(values.snapshot, sources[0]) && second == Lookup(values.snapshot, sources[1])
  {
    first := values.Get(sources[0]);
    second := values.Get(sources[1]);
    assert [sources[0]] + [sources[1]] == sources;
  }

  method GetTriple(sources: seq<Key>, values: ReadTrackingValues)
    returns (first: Value, second: Value, third: Value)
    requires |sources| == 3 && values.Valid()
    modifies values
    ensures values.Valid() && values.asked == old(values.asked) + sources
    ensures first == Lookup(values.snapshot, sources[0])
    ensures second == Lookup(values.snapshot, sources[1])
    ensures third == Lookup(values.snapshot, sources[2])
  {
    first, second := GetPair(sources[..2], values);
    third := values.Get(sources[2]);
    assert sources[..2] + [sources[2]] == sources;
  }

  // ---- the computes ------------------------------------------------------------------------

  method ComputeSum(sources: seq<Key>, values: ReadTrackingValues) returns (r: Option<real>)
    requires values.Valid()
    modifies values
    ensures values.Valid() && values.asked == old(values.asked) + NumericPrefix(values.snapshot, sources)
    ensures r.Some? <==> AllNumeric(values.snapshot, sources)
    ensures r.Some? ==> r.value == SumOf(values.snapshot, sources)
  {
    hide NumericPrefix, AllNumeric, SumOf, ProductOf, Numeric;
    var total, i := 0.0, 0;
    NoKeys(values.snapshot, sources);
    while i < |sources|
      invariant 0 <= i <= |sources| && values.Valid()
      invariant AllNumeric(values.snapshot, sources[..i]) && total == SumOf(values.snapshot, sources[..i])
      invariant values.asked + NumericPrefix(values.snapshot, sources[i..])
             == old(values.asked) + NumericPrefix(values.snapshot, sources)
    {
      OneMoreKey(values.snapshot, sources, i);
      var value := values.Get(sources[i]);
      if Numeric(value).None? {
        return None;
      }
      total, i := total + Numeric(value).value, i + 1;
    }
    NoKeys(values.snapshot, sources);
    assert sources[..i] == sources;
    r := Some(total);
  }

  method ComputeProduct(sources: seq<Key>, values: ReadTrackingValues) returns (r: Option<real>)
    requires values.Valid()
    modifies values
    ensures values.Valid() && values.asked == old(values.asked) + NumericPrefix(values.snapshot, sources)
    ensures r.Some? <==> AllNumeric(values.snapshot, sources)
    ensures r.Some? ==> r.value == ProductOf(values.snapshot, sources)
  {
    hide NumericPrefix, AllNumeric, SumOf, ProductOf, Numeric;
    var product, i := 1.0, 0;
    NoKeys(values.snapshot, sources);
    while i < |sources|
      invariant 0 <= i <= |sources| && values.Valid()
      invariant AllNumeric(values.snapshot, sources[..i]) && product == ProductOf(values.snapshot, sources[..i])
      invariant values.asked + NumericPrefix(values.snapshot, sources[i..])
             == old(values.asked) + NumericPrefix(values.snapshot, sources)
    {
      OneMoreKey(values.snapshot, sources, i);
      var value := values.Get(sources[i]);
      if Numeric(value).None? {
        return None;
      }
      product, i := product * Numeric(value).value, i + 1;
    }
    NoKeys(values.snapshot, sources);
    assert sources[..i] == sources;
    r := Some(product);
  }

  lemma NoKeys(m: Measured, keys: seq<Key>)
    ensures AllNumeric(m, keys[..0]) && SumOf(m, keys[..0]) == 0.0 && ProductOf(m, keys[..0]) == 1.0
    ensures NumericPrefix(m, keys[|keys|..]) == [] && keys[0..] == keys
  {
    assert keys[..0] == [];
  }

  /** How one more key adds to the sum and the product, and to what is asked. */
  lemma {:induction false} OneMoreKey(m: Measured, keys: seq<Key>, i: nat)
    requires i < |keys|
    ensures Numeric(Lookup(m, keys[i])).None? ==>
      !AllNumeric(m, keys) && NumericPrefix(m, keys[i..]) == [keys[i]]
    ensures Numeric(Lookup(m, keys[i])).Some? ==>
      var x := Numeric(Lookup(m, keys[i])).value;
      && NumericPrefix(m, keys[i..]) == [keys[i]] + NumericPrefix(m, keys[i + 1..])
      && (AllNumeric(m, keys[..i]) ==> AllNumeric(m, keys[..i + 1]))
      && SumOf(m, keys[..i + 1]) == SumOf(m, keys[..i]) + x
      && ProductOf(m, keys[..i + 1]) == ProductOf(m, keys[..i]) * x
  {
    hide Numeric, Lookup;
    assert keys[i..][1..] == keys[i + 1..] && keys[..i + 1][..i] == keys[..i];
    assert keys[..i + 1] == keys[..i] + [keys[i]];
    assert keys[i] in keys;
  }

  method ComputeNegation(v: Variant, values: ReadTrackingValues) returns (r: Option<Value>)
    requires WellFormed(v) && v.compute.Negate? && values.Valid()
    modifies values
    ensures values.Valid() && values.asked == old(values.asked) + Asked(v, values.snapshot)
    ensures r == Result(v, values.snapshot)
  {
    var value := values.Get(v.sources[0]);
    assert v.sources == [v.sources[0]];
    r := if Numeric(value).Some? then Some(Number(Round4(-Numeric(value).value))) else None;
  }

  method ComputeSignedDelta(v: Variant, values: ReadTrackingValues) returns (r: Option<Value>)
    requires WellFormed(v) && v.compute.SignedDeltaMultiply? && values.Valid()
    modifies values
    ensures values.Valid() && values.asked == old(values.asked) + Asked(v, values.snapshot)
    ensures r == Result(v, values.snapshot)
  {
    hide DeltaPower;
    var voltage, charge, discharge := GetTriple(v.sources, values);
    if Numeric(voltage).None? {
      return None;
    }
    r := Some(Number(DeltaPower(Numeric(voltage).value, NumericOrZero(charge), NumericOrZero(discharge))));
  }

  method ComputeMagnitude(v: Variant, values: ReadTrackingValues) returns (r: Option<Value>)
    requires WellFormed(v) && v.compute.MagnitudeWithDirection? && values.Valid()
    modifies values
    ensures values.Valid() && values.asked == old(values.asked) + Asked(v, values.snapshot)
    ensures r == Result(v, values.snapshot)
  {
    hide Round4;
    var magnitude, direction := GetPair(v.sources, values);
    if Numeric(magnitude).None? || direction.Unknown? {
      return None;
    }
    var x := Numeric(magnitude).value;
    var size := if x < 0.0 then -x else x;
    r := Some(Number(Round4(if SaysCharging(direction) then size else -size)));
  }

  /** `_compute_eybond_g_ascii_battery_power`. */
  method ComputeGAsciiBatteryPower(v: Variant, values: ReadTrackingValues) returns (r: Option<Value>)
    requires WellFormed(v) && v.compute.GAsciiBatteryPower? && values.Valid()
    modifies values
    ensures values.Valid() && values.asked == old(values.asked) + Asked(v, values.snapshot)
    ensures r == Result(v, values.snapshot)
  {
    hide ModeOf, Numeric, GAsciiPower;
    var voltage, current, mode := GetTriple(v.sources, values);
    if Numeric(voltage).None? || Numeric(current).None? {
      return None;
    }
    var amps := Numeric(current).value;
    if amps == 0.0 && ModeOf(mode).BatteryMode? {
      var pv := values.Get(PvChargingCurrent);
      var charger := values.Get(ChargingCurrent);
      amps := FirstPositive(pv, charger);
    }
    r := SignPower(Numeric(voltage).value, amps, ModeOf(mode));
  }

  method SignPower(voltage: real, amps: real, mode: ModeClass) returns (r: Option<Value>)
    ensures r == GAsciiPower(voltage, amps, mode)
  {
    if amps == 0.0 {
      return Some(Number(0.0));
    }
    if amps < 0.0 {
      return Some(Number(Round4(voltage * amps)));
    }
    match mode {
      case BatteryMode => r := Some(Number(Round4(voltage * amps)));
      case LineMode => r := Some(Number(Round4(voltage * amps)));
      case SoftStartMode => r := Some(Number(Round4(-(voltage * amps))));
      case OtherMode => r := None;
    }
  }

  /** The reads of `_grid_present`. */
  method ReadGridPresence(values: ReadTrackingValues) returns (grid: F.GridState)
    requires values.Valid()
    modifies values
    ensures values.Valid() && values.asked == old(values.asked) + GridAsked(values.snapshot)
    ensures grid == GridPresence(values.snapshot)
  {
    var voltage := values.Get(GridVoltage);
    if Numeric(voltage).Some? {
      return if Numeric(voltage).value >= 20.0 then F.GridPresent else F.GridAbsent;
    }
    var mode := values.Get(OperatingMode);
    assert [GridVoltage] + [OperatingMode] == [GridVoltage, OperatingMode];
    grid := if Says(mode, "Battery") || Says(mode, "Off-Grid") then F.GridAbsent else F.GridUnknown;
  }

  /** The reads of `_flow_charge_source`, stopping at the first state that names a source. */
  method ReadChargeSource(values: ReadTrackingValues) returns (source: Option<F.ChargeSource>)
    requires values.Valid()
    modifies values
    ensures values.Valid() && values.asked == old(values.asked) + SourceAsked(values.snapshot)
    ensures source == ChargeSourceOf(values.snapshot)
  {
    ghost var start := values.asked;
    var state := values.Get(PowerFlowChargeSourceState);
    if StateSource(state).Some? {
      return StateSource(state);
    }
    state := values.Get(ChargingSourceState);
    assert values.asked == start + [PowerFlowChargeSourceState, ChargingSourceState];
    if StateSource(state).Some? {
      return StateSource(state);
    }
    var priority := values.Get(ChargeSourcePriority);
    source := if Says(priority, "PV Only") then Some(F.FromPv) else None;
  }

  /** The reads of the splitter beyond its three measured powers. */
  method ReadDetails(values: ReadTrackingValues, load: real, pv: real, battery: real)
    returns (readings: F.Readings)
    requires 0.0 <= load && 0.0 <= pv && values.Valid()
    modifies values
    ensures values.Valid() && values.asked == old(values.asked) + DetailsAsked(values.snapshot)
    ensures readings == WithDetails(values.snapshot, load, pv, battery)
  {
    hide GridPresence, GridAsked, ChargeSourceOf, SourceAsked;
    var grid := ReadGridPresence(values);
    var gridPower, pvCharging, pvExport := GetTriple([GridPower, PvChargingPower, SolarFeedToGridPower], values);
    var source := ReadChargeSource(values);
    var mode := values.Get(OperatingMode);
    readings := F.Readings(load, pv, battery, grid, Numeric(gridPower), NonNegative(pvCharging),
                           NonNegative(pvExport), source, Says(mode, "Mains") || Says(mode, "Bypass"));
  }

  /** `_compute_flow_split` on a tracked snapshot. */
  method ComputeFlow(v: Variant, values: ReadTrackingValues) returns (routes: Option<F.Routes>)
    requires WellFormed(v) && v.compute.Flow? && values.Valid()
    modifies values
    ensures values.Valid() && values.asked == old(values.asked) + Asked(v, values.snapshot)
    ensures routes.Some? <==> FlowReadings(values.snapshot).Some?
    ensures routes.Some? ==> routes.value == F.Split(FlowReadings(values.snapshot).value).Rounded()
  {
    hide F.Split, WithDetails, DetailsAsked;
    var load, pv, battery := GetTriple(v.sources, values);
    if Numeric(load).None? || Numeric(pv).None? || Numeric(battery).None? {
      return None;
    }
    var readings := ReadDetails(values, NonNegative(load).value, NonNegative(pv).value, Numeric(battery).value);
    var exact := F.ComputeSplit(readings);
    routes := Some(exact);
  }

  /** `_compute_variant`. */
  method ComputeVariant(v: Variant, values: ReadTrackingValues) returns (r: Option<Value>)
    requires WellFormed(v) && values.Valid()
    modifies values
    ensures values.Valid() && values.asked == old(values.asked) + Asked(v, values.snapshot)
    ensures r == Result(v, values.snapshot)
  {
    hide Numeric, Round4, FlowReadings, SaysCharging, ModeOf;
    match v.compute {
      case Passthrough =>
        var value := values.Get(v.sources[0]);
        assert v.sources == [v.sources[0]];
        r := if value.Unknown? then None else Some(value);
      case Multiply =>
        var product := ComputeProduct(v.sources, values);
        r := if product.Some? then Some(Number(Round4(product.value))) else None;
      case Sum =>
        var total := ComputeSum(v.sources, values);
        r := if total.Some? then Some(Number(Round4(total.value))) else None;
      case Negate =>
        r := ComputeNegation(v, values);
      case SignedDeltaMultiply =>
        r := ComputeSignedDelta(v, values);
      case GAsciiBatteryPower =>
        r := ComputeGAsciiBatteryPower(v, values);
      case MagnitudeWithDirection =>
        r := ComputeMagnitude(v, values);
      case Flow(route) =>
        var routes := ComputeFlow(v, values);
        r := if routes.Some? then Some(Number(routes.value.At(route))) else None;
    }
  }
}
