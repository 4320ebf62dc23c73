/**
 What each compute of the canonical table promises about its result, and which keys it may consult,
 said in terms of the measured values alone.
 */
module ComputeLaws {
  import opened Numbers
  import opened Text
  import opened Keys
  import opened Telemetry
  import opened CanonicalTable
  import F = FlowSplit

  type Measured = map<Key, Value>

  // ---- measured numbers and words ----------------------------------------------------

  /** The value of the key is this number. */
  ghost predicate Shows(m: Measured, k: Key, x: real) {
    && k in m
    && (m[k] == Number(x)
        || (m[k].Integer? && x == m[k].number as real)
        || (m[k] == Boolean(true) && x == 1.0) || (m[k] == Boolean(false) && x == 0.0))
  }

  predicate NoNumber(m: Measured, k: Key) { k !in m || m[k].Unknown? || m[k].Words? || m[k].Structured? }

  predicate Reads(m: Measured, k: Key, text: string) { k in m && m[k] == Words(text) }

  /** The value the key has, unknown when it has none. */
  predicate Holds(m: Measured, k: Key, v: Value) { if k in m then m[k] == v else v == Unknown }

  /** A rounded number: within half of the fourth digit, on the same side of zero. */
  ghost predicate Gives(r: Option<Value>, x: real) {
    && r.Some? && r.value.Number?
    && -0.00005 <= r.value.amount - x <= 0.00005
    && (x >= 0.0 ==> r.value.amount >= 0.0) && (x <= 0.0 ==> r.value.amount <= 0.0)
  }

  // ---- one law for each compute ----------------------------------------------------------

  function Total(xs: seq<real>): real { if xs == [] then 0.0 else xs[0] + Total(xs[1..]) }

  function Product(xs: seq<real>): real { if xs == [] then 1.0 else xs[0] * Product(xs[1..]) }

  /** The keys show these numbers, key by key. */
  ghost predicate AllShow(m: Measured, keys: seq<Key>, xs: seq<real>) {
    |xs| == |keys| && forall i :: 0 <= i < |keys| ==> Shows(m, keys[i], xs[i])
  }

  ghost predicate SumLaw(m: Measured, keys: seq<Key>, r: Option<Value>) {
    && (forall xs :: AllShow(m, keys, xs) ==> Gives(r, Total(xs)))
    && ((exists k :: k in keys && NoNumber(m, k)) ==> r == None)
  }

  ghost predicate ProductLaw(m: Measured, keys: seq<Key>, r: Option<Value>) {
    && (forall xs :: AllShow(m, keys, xs) ==> Gives(r, Product(xs)))
    && ((exists k :: k in keys && NoNumber(m, k)) ==> r == None)
  }

  predicate PassthroughLaw(m: Measured, k: Key, r: Option<Value>) {
    if k in m && m[k] != Unknown then r == Some(m[k]) else r == None
  }

  ghost predicate NegationLaw(m: Measured, k: Key, r: Option<Value>) {
    && (forall x :: Shows(m, k, x) ==> Gives(r, 0.0 - x))
    && (NoNumber(m, k) ==> r == None)
  }

  /** A current that is not a number counts as none. */
  ghost predicate Flows(m: Measured, k: Key, amps: real) { Shows(m, k, amps) || (NoNumber(m, k) && amps == 0.0) }

  /** Watts in by the charging current minus watts out by the discharging one. */
  ghost predicate SignedDeltaLaw(m: Measured, volts: Key, charging: Key, discharging: Key, r: Option<Value>) {
    && (forall u, c, d :: Shows(m, volts, u) && Flows(m, charging, c) && Flows(m, discharging, d) ==>
          Gives(r, u * c - u * d) && (c == 0.0 && d == 0.0 ==> r == Some(Number(0.0))))
    && (NoNumber(m, volts) ==> r == None)
  }

  predicate ChargingWord(v: Value) {
    || v == Integer(0)
    || (v.Words? && (Lower(Strip(v.text)) == "charge" || Lower(Strip(v.text)) == "charging" || Strip(v.text) == "0"))
  }

  /** The size of the magnitude, towards the battery exactly when the direction says so. */
  ghost predicate DirectionLaw(m: Measured, magnitude: Key, direction: Key, r: Option<Value>) {
    && (forall x, d :: Shows(m, magnitude, x) && Holds(m, direction, d) && d != Unknown ==>
          Gives(r, if ChargingWord(d) == (x >= 0.0) then x else 0.0 - x))
    && (NoNumber(m, magnitude) || Holds(m, direction, Unknown) ==> r == None)
  }

  // ---- the G-ASCII battery power ---------------------------------------------------------

  /** The operating mode begins with this letter. */
  predicate ModeBegins(v: Value, c: char) { v.Words? && Strip(v.text) != "" && UpperChar(Strip(v.text)[0]) == c }

  predicate LineWord(v: Value) {
    || v == Integer(4)
    || (v.Words? && Upper(Strip(v.text)) in {"L", "4", "LINE", "UTILITY", "MAINS"})
  }

  /** A number prints with a leading zero up to one, unless it is so small that an exponent is printed. */
  predicate SoftStartWord(v: Value) {
    || v == Integer(0) || ModeBegins(v, '0')
    || (v.Number? && (v.amount == 0.0 || 0.0001 <= v.amount < 1.0))
  }

  ghost predicate Positive(m: Measured, k: Key, amps: real) { Shows(m, k, amps) && amps > 0.0 }

  ghost predicate NonePositive(m: Measured, k: Key) { NoNumber(m, k) || exists x :: Shows(m, k, x) && x <= 0.0 }

  /** A zero battery current in battery mode is replaced by the first positive charging current. */
  ghost predicate EffectiveCurrent(m: Measured, current: Key, mode: Value, amps: real) {
    if Shows(m, current, 0.0) && ModeBegins(mode, 'B') then
      || Positive(m, PvChargingCurrent, amps)
      || (NonePositive(m, PvChargingCurrent) && Positive(m, ChargingCurrent, amps))
      || (NonePositive(m, PvChargingCurrent) && NonePositive(m, ChargingCurrent) && amps == 0.0)
    else Shows(m, current, amps)
  }

  /** A signed current keeps its sign; an unsigned one gets it from the mode, or is not explained. */
  ghost predicate GAsciiLaw(m: Measured, volts: Key, current: Key, mode: Key, r: Option<Value>) {
    && (NoNumber(m, volts) || NoNumber(m, current) ==> r == None)
    && (forall u, w, amps ::
          Shows(m, volts, u) && Holds(m, mode, w) && !NoNumber(m, current) && EffectiveCurrent(m, current, w, amps) ==>
            if amps <= 0.0 || ModeBegins(w, 'B') || LineWord(w) then Gives(r, u * amps)
            else if SoftStartWord(w) then Gives(r, 0.0 - u * amps)
            else r == None)
  }

  // ---- the readings of the flow split ------------------------------------------------------

  /** A clamped reading: a number below zero reads as zero, and no number as nothing. */
  ghost predicate Clamps(m: Measured, k: Key, reading: Option<real>) {
    && (forall x :: Shows(m, k, x) ==> reading == Some(if x < 0.0 then 0.0 else x))
    && (NoNumber(m, k) ==> reading == None)
  }

  ghost predicate Measures(m: Measured, k: Key, reading: Option<real>) {
    && (forall x :: Shows(m, k, x) ==> reading == Some(x))
    && (NoNumber(m, k) ==> reading == None)
  }

  /** Twenty volts make a grid; without a voltage only an off-grid mode says anything. */
  ghost predicate GridLaw(m: Measured, grid: F.GridState) {
    && (forall volts :: Shows(m, GridVoltage, volts) ==> (grid.GridPresent? <==> volts >= 20.0) && !grid.GridUnknown?)
    && (NoNumber(m, GridVoltage) ==>
          && !grid.GridPresent?
          && (grid.GridAbsent? <==> Reads(m, OperatingMode, "Battery") || Reads(m, OperatingMode, "Off-Grid")))
  }

  /** The state names a charging source. */
  predicate NamesSource(m: Measured, k: Key) {
    Reads(m, k, "PV") || Reads(m, k, "Utility") || Reads(m, k, "PV + Utility")
  }

  predicate Names(m: Measured, k: Key, source: Option<F.ChargeSource>) {
    && (Reads(m, k, "PV") ==> source == Some(F.FromPv))
    && (Reads(m, k, "Utility") ==> source == Some(F.FromUtility))
    && (Reads(m, k, "PV + Utility") ==> source == Some(F.FromPvAndUtility))
  }

  /** The inverter's state goes first, then the charger's, then a PV-only priority. */
  predicate SourceLaw(m: Measured, source: Option<F.ChargeSource>) {
    if NamesSource(m, PowerFlowChargeSourceState) then Names(m, PowerFlowChargeSourceState, source)
    else if NamesSource(m, ChargingSourceState) then Names(m, ChargingSourceState, source)
    else if Reads(m, ChargeSourcePriority, "PV Only") then source == Some(F.FromPv)
    else source == None
  }

  /** These are the readings the measured values give. */
  ghost predicate ReadingsLaw(m: Measured, r: F.Readings) {
    && Clamps(m, OutputPower, Some(r.load)) && Clamps(m, PvPower, Some(r.pv)) && Measures(m, BatteryPower, Some(r.battery))
    && GridLaw(m, r.grid) && Measures(m, GridPower, r.gridPower)
    && Clamps(m, PvChargingPower, r.pvCharging) && Clamps(m, SolarFeedToGridPower, r.pvExport)
    && SourceLaw(m, r.chargeSource)
    && (r.gridFirst <==> Reads(m, OperatingMode, "Mains") || Reads(m, OperatingMode, "Bypass"))
  }

  /** One power that is no number leaves nothing to split. */
  predicate NoReadings(m: Measured) { NoNumber(m, OutputPower) || NoNumber(m, PvPower) || NoNumber(m, BatteryPower) }

  ghost predicate FlowLaw(m: Measured, route: F.Route, r: Option<Value>) {
    && (NoReadings(m) ==> r == None)
    && (!NoReadings(m) ==>
          exists x: F.Readings :: ReadingsLaw(m, x) && r == Some(Number(F.Split(x).Rounded().At(route))))
  }

  // ---- all computes ------------------------------------------------------------------------

  /** What the result of a variant must be. */
  ghost predicate Lawful(v: Variant, m: Measured, r: Option<Value>)
    requires WellFormed(v)
  {
    match v.compute
    case Passthrough => PassthroughLaw(m, v.sources[0], r)
    case Multiply => ProductLaw(m, v.sources, r)
    case Sum => SumLaw(m, v.sources, r)
    case Negate => NegationLaw(m, v.sources[0], r)
    case SignedDeltaMultiply => SignedDeltaLaw(m, v.sources[0], v.sources[1], v.sources[2], r)
    case GAsciiBatteryPower => GAsciiLaw(m, v.sources[0], v.sources[1], v.sources[2], r)
    case MagnitudeWithDirection => DirectionLaw(m, v.sources[0], v.sources[1], r)
    case Flow(route) => FlowLaw(m, route, r)
  }

  /** The keys a compute needs to look at, given what the others say: no more, and no fewer. */
  ghost predicate Needed(v: Variant, m: Measured, k: Key)
    requires WellFormed(v)
  {
    match v.compute
    case Multiply => NeededNumber(m, v.sources, k)
    case Sum => NeededNumber(m, v.sources, k)
    case GAsciiBatteryPower =>
      || k in v.sources
      || ((k.PvChargingCurrent? || k.ChargingCurrent?)
          && !NoNumber(m, v.sources[0]) && Shows(m, v.sources[1], 0.0)
          && v.sources[2] in m && ModeBegins(m[v.sources[2]], 'B'))
    case Flow(_) => k in v.sources || (!NoReadings(m) && NeededDetail(m, k))
    case _ => k in v.sources
  }

  /** The key is read before, or as, the first that is no number. */
  ghost predicate NeededNumber(m: Measured, keys: seq<Key>, k: Key) { exists i: nat :: NeededAt(m, keys, k, i) }

  predicate NeededAt(m: Measured, keys: seq<Key>, k: Key, i: nat) {
    i < |keys| && keys[i] == k && forall j :: 0 <= j < i ==> !NoNumber(m, keys[j])
  }

  predicate NeededDetail(m: Measured, k: Key) {
    || k.GridVoltage? || k.OperatingMode? || k.GridPower? || k.PvChargingPower? || k.SolarFeedToGridPower?
    || k.PowerFlowChargeSourceState?
    || (k.ChargingSourceState? && !NamesSource(m, PowerFlowChargeSourceState))
    || (k.ChargeSourcePriority? && !NamesSource(m, PowerFlowChargeSourceState) && !NamesSource(m, ChargingSourceState))
  }
}
