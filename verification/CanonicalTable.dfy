/** The alias table of `canonical_telemetry.py`: which variant fills which key, for which driver and pack. */
module CanonicalTable {
  import opened Numbers
  import opened Keys
  import F = FlowSplit

  datatype Compute =
    | Passthrough | Multiply | Sum | Negate
    | SignedDeltaMultiply | GAsciiBatteryPower | MagnitudeWithDirection
    | Flow(route: F.Route)

  datatype Variant = Variant(drivers: seq<Driver>, packs: seq<Pack>, sources: seq<Key>, compute: Compute)

  datatype Spec = Spec(key: Key, variants: seq<Variant>)

  function For(drivers: seq<Driver>, sources: seq<Key>, compute: Compute): Variant {
    Variant(drivers, [], sources, compute)
  }

  function ForPack(pack: Pack, sources: seq<Key>, compute: Compute): Variant {
    Variant([ModbusCatalog], [pack], sources, compute)
  }

  const FLOW_DRIVERS: seq<Driver> :=
    [ModbusSmg, Pi18, Pi30, SmartessLocal, EybondGAscii, SrneModbus, MustPvPh18, ModbusCatalog]

  function FlowSpec(key: Key, route: F.Route): Spec {
    Spec(key, [For(FLOW_DRIVERS, [OutputPower, PvPower, BatteryPower], Flow(route))])
  }

  /** The number of table rows; the six flow rows are the last. */
  const ROWS := 17
  const FLOW_START := 11

  /** Table row `i`, in table order. */
  function Row(i: nat): Spec
    requires i < ROWS
  {
    if i == 0 then Spec(GridVoltage, [
      For([Pi30], [InputVoltage], Passthrough),
      For([SmartessLocal], [AcInputVoltage], Passthrough)])
    else if i == 1 then Spec(GridFrequency, [
      For([Pi30], [InputFrequency], Passthrough),
      For([SmartessLocal], [AcInputFrequency], Passthrough)])
    else if i == 2 then Spec(OutputPower, [
      For([Pi18, Pi30, SmartessLocal, EybondGAscii], [OutputActivePower], Passthrough),
      For([MustPvPh18], [AcOutputPower], Passthrough),
      ForPack(SolisEsinv, [HouseholdLoadPower, BackupLoadPower], Sum),
      ForPack(Deye3PhHigh80kw, [LoadPhasePowerL1, LoadPhasePowerL2, LoadPhasePowerL3], Sum)])
    else if i == 3 then Spec(LoadPercent, [
      For([Pi18], [OutputLoadPercent], Passthrough),
      For([EybondGAscii], [OutputLoadPercentage], Passthrough)])
    else if i == 4 then Spec(PvVoltage, [
      For([Pi18, Pi30, SmartessLocal, EybondGAscii], [PvInputVoltage], Passthrough)])
    else if i == 5 then Spec(PvCurrent, [
      For([Pi30], [PvInputCurrent], Passthrough)])
    else if i == 6 then Spec(PvPower, [
      For([Pi18, Pi30, SmartessLocal], [PvInputPower], Passthrough),
      For([SrneModbus], [Pv1InputPower, Pv2InputPower], Sum),
      For([SrneModbus], [Pv1InputPower], Passthrough),
      For([MustPvPh18], [PvChargingPower], Passthrough),
      ForPack(AohaiFsa, [PvInputVoltage, PvInputCurrent], Multiply),
      ForPack(GrowattSpf, [Pv1InputPower, Pv2InputPower], Sum),
      ForPack(DeyeLv, [Pv1InputPower, Pv2InputPower, Pv3InputPower, Pv4InputPower], Sum),
      ForPack(Deye3PhHigh80kw, [Pv1InputPower, Pv2InputPower, Pv3InputPower, Pv4InputPower], Sum)])
    else if i == 7 then Spec(PvChargingPower, [
      ForPack(GrowattSpf, [Pv1InputPower, Pv2InputPower], Sum)])
    else if i == 8 then Spec(BatteryPercent, [
      For([Pi18, EybondGAscii], [BatteryCapacity], Passthrough)])
    else if i == 9 then Spec(BatteryPower, [
      For([ModbusSmg], [BatteryAveragePower], Passthrough),
      For([Pi18, Pi30], [BatteryVoltage, BatteryChargeCurrent, BatteryDischargeCurrent], SignedDeltaMultiply),
      For([SmartessLocal], [BatteryVoltage, ChargingCurrent, BatteryDischargeCurrent], SignedDeltaMultiply),
      For([EybondGAscii], [BatteryVoltage, BatteryCurrent, EybondGAsciiOperatingModeCode], GAsciiBatteryPower),
      For([SrneModbus], [ChargePower], Passthrough),
      ForPack(AohaiFsa, [BatteryVoltage, BatteryCurrent], Multiply),
      ForPack(SolisEsinv, [BatteryPowerMagnitude, BatteryCurrentDirection], MagnitudeWithDirection)])
    else if i == 10 then Spec(GridPower, [
      ForPack(SolisEsinv, [GridPortPower], Negate)])
    else if i == 11 then FlowSpec(PvToHomePower, F.PvToHome)
    else if i == 12 then FlowSpec(PvToBatteryPower, F.PvToBattery)
    else if i == 13 then FlowSpec(PvToGridPower, F.PvToGrid)
    else if i == 14 then FlowSpec(BatteryToHomePower, F.BatteryToHome)
    else if i == 15 then FlowSpec(GridToHomePower, F.GridToHome)
    else FlowSpec(GridToBatteryPower, F.GridToBattery)
  }

  /** Where a key is filled in the table; natives are filled nowhere. */
  function RowOf(k: Key): Option<nat> {
    match k
    case GridVoltage => Some(0)
    case GridFrequency => Some(1)
    case OutputPower => Some(2)
    case LoadPercent => Some(3)
    case PvVoltage => Some(4)
    case PvCurrent => Some(5)
    case PvPower => Some(6)
    case PvChargingPower => Some(7)
    case BatteryPercent => Some(8)
    case BatteryPower => Some(9)
    case GridPower => Some(10)
    case PvToHomePower => Some(11)
    case PvToBatteryPower => Some(12)
    case PvToGridPower => Some(13)
    case BatteryToHomePower => Some(14)
    case GridToHomePower => Some(15)
    case GridToBatteryPower => Some(16)
    case _ => None
  }

  function FlowKey(route: F.Route): Key {
    match route
    case PvToHome => PvToHomePower
    case PvToBattery => PvToBatteryPower
    case PvToGrid => PvToGridPower
    case BatteryToHome => BatteryToHomePower
    case GridToHome => GridToHomePower
    case GridToBattery => GridToBatteryPower
  }

  /** Each row fills one key of its own, and `RowOf` finds it. */
  lemma RowsAreWhereRowOfSays(i: nat, k: Key)
    requires i < ROWS
    ensures RowOf(k) == Some(i) <==> Row(i).key == k
  {
    hide Row, RowOf;
    RowOfFindsRow(i);
    if RowOf(k) == Some(i) {
      FoundRowHasKey(i, k);
    }
  }

  lemma RowOfFindsRow(i: nat)
    requires i < ROWS
    ensures RowOf(Row(i).key) == Some(i)
  {
    hide For, ForPack, FLOW_DRIVERS;
  }

  lemma FoundRowHasKey(i: nat, k: Key)
    requires i < ROWS && RowOf(k) == Some(i)
    ensures Row(i).key == k
  {
    hide For, ForPack, FLOW_DRIVERS;
  }

  /** The keys a variant may consult: its sources and the extra keys of its compute. */
  predicate MayAsk(v: Variant, k: Key) {
    || k in v.sources
    || match v.compute
       case GAsciiBatteryPower => k.PvChargingCurrent? || k.ChargingCurrent?
       case Flow(_) =>
         || k.GridVoltage? || k.OperatingMode? || k.GridPower? || k.PvChargingPower?
         || k.SolarFeedToGridPower? || k.PowerFlowChargeSourceState? || k.ChargingSourceState?
         || k.ChargeSourcePriority?
       case _ => false
  }

  /** Every compute gets the number of sources it indexes. */
  predicate WellFormed(v: Variant) {
    match v.compute
    case Passthrough => |v.sources| == 1
    case Negate => |v.sources| == 1
    case Multiply => |v.sources| >= 1
    case Sum => |v.sources| >= 1
    case SignedDeltaMultiply => |v.sources| == 3
    case GAsciiBatteryPower => |v.sources| == 3
    case MagnitudeWithDirection => |v.sources| == 2
    case Flow(_) => v.sources == [OutputPower, PvPower, BatteryPower]
  }

  /** Row `j` can be filled under driver `d`. */
  predicate ServesDriver(j: nat, d: Driver)
    requires j < ROWS
  {
    exists v :: v in Row(j).variants && d in v.drivers
  }

  /** No variant consults a key that its own or a later row fills under the same driver. */
  ghost predicate NoForwardRead(i: nat, v: Variant) {
    forall k, d :: MayAsk(v, k) && d in v.drivers && RowOf(k).Some? && ServesDriver(RowOf(k).value, d)
      ==> RowOf(k).value < i
  }
}
