/** The telemetry keys, drivers and packs that the canonical table names, and all others by name. */
module Keys {
  import opened Text

  /** The names of the listed keys. */
  const KEY_NAMES: set<string> := {
    "grid_voltage", "grid_frequency", "output_power", "load_percent", "pv_voltage", "pv_current", "pv_power",
    "pv_charging_power", "battery_percent", "battery_power", "grid_power", "pv_to_home_power",
    "pv_to_battery_power", "pv_to_grid_power", "battery_to_home_power", "grid_to_home_power",
    "grid_to_battery_power", "input_voltage", "ac_input_voltage", "input_frequency", "ac_input_frequency",
    "output_active_power", "ac_output_power", "household_load_power", "backup_load_power",
    "load_phase_power_l1", "load_phase_power_l2", "load_phase_power_l3", "output_load_percent",
    "output_load_percentage", "pv_input_voltage", "pv_input_current", "pv_input_power", "pv1_input_power",
    "pv2_input_power", "pv3_input_power", "pv4_input_power", "battery_capacity", "battery_average_power",
    "battery_voltage", "battery_charge_current", "battery_discharge_current", "charging_current",
    "pv_charging_current", "battery_current", "eybond_g_ascii_operating_mode_code", "charge_power",
    "battery_power_magnitude", "battery_current_direction", "grid_port_power", "operating_mode",
    "solar_feed_to_grid_power", "power_flow_charge_source_state", "charging_source_state",
    "charge_source_priority"}

  datatype Key =
    // the canonical aliases, in table order
    | GridVoltage | GridFrequency | OutputPower | LoadPercent | PvVoltage | PvCurrent | PvPower
    | PvChargingPower | BatteryPercent | BatteryPower | GridPower | PvToHomePower
    | PvToBatteryPower | PvToGridPower | BatteryToHomePower | GridToHomePower | GridToBatteryPower
    // native keys some variant reads
    | InputVoltage | AcInputVoltage | InputFrequency | AcInputFrequency | OutputActivePower
    | AcOutputPower | HouseholdLoadPower | BackupLoadPower | LoadPhasePowerL1 | LoadPhasePowerL2
    | LoadPhasePowerL3 | OutputLoadPercent | OutputLoadPercentage | PvInputVoltage | PvInputCurrent
    | PvInputPower | Pv1InputPower | Pv2InputPower | Pv3InputPower | Pv4InputPower
    | BatteryCapacity | BatteryAveragePower | BatteryVoltage | BatteryChargeCurrent
    | BatteryDischargeCurrent | ChargingCurrent | PvChargingCurrent | BatteryCurrent
    | EybondGAsciiOperatingModeCode | ChargePower | BatteryPowerMagnitude | BatteryCurrentDirection
    | GridPortPower | OperatingMode | SolarFeedToGridPower | PowerFlowChargeSourceState
    | ChargingSourceState | ChargeSourcePriority
    // any other key a driver reports
    | OtherKey(name: string)

  function Name(k: Key): string {
    match k
    case GridVoltage => "grid_voltage"
    case GridFrequency => "grid_frequency"
    case OutputPower => "output_power"
    case LoadPercent => "load_percent"
    case PvVoltage => "pv_voltage"
    case PvCurrent => "pv_current"
    case PvPower => "pv_power"
    case PvChargingPower => "pv_charging_power"
    case BatteryPercent => "battery_percent"
    case BatteryPower => "battery_power"
    case GridPower => "grid_power"
    case PvToHomePower => "pv_to_home_power"
    case PvToBatteryPower => "pv_to_battery_power"
    case PvToGridPower => "pv_to_grid_power"
    case BatteryToHomePower => "battery_to_home_power"
    case GridToHomePower => "grid_to_home_power"
    case GridToBatteryPower => "grid_to_battery_power"
    case InputVoltage => "input_voltage"
    case AcInputVoltage => "ac_input_voltage"
    case InputFrequency => "input_frequency"
    case AcInputFrequency => "ac_input_frequency"
    case OutputActivePower => "output_active_power"
    case AcOutputPower => "ac_output_power"
    case HouseholdLoadPower => "household_load_power"
    case BackupLoadPower => "backup_load_power"
    case LoadPhasePowerL1 => "load_phase_power_l1"
    case LoadPhasePowerL2 => "load_phase_power_l2"
    case LoadPhasePowerL3 => "load_phase_power_l3"
    case OutputLoadPercent => "output_load_percent"
    case OutputLoadPercentage => "output_load_percentage"
    case PvInputVoltage => "pv_input_voltage"
    case PvInputCurrent => "pv_input_current"
    case PvInputPower => "pv_input_power"
    case Pv1InputPower => "pv1_input_power"
    case Pv2InputPower => "pv2_input_power"
    case Pv3InputPower => "pv3_input_power"
    case Pv4InputPower => "pv4_input_power"
    case BatteryCapacity => "battery_capacity"
    case BatteryAveragePower => "battery_average_power"
    case BatteryVoltage => "battery_voltage"
    case BatteryChargeCurrent => "battery_charge_current"
    case BatteryDischargeCurrent => "battery_discharge_current"
    case ChargingCurrent => "charging_current"
    case PvChargingCurrent => "pv_charging_current"
    case BatteryCurrent => "battery_current"
    case EybondGAsciiOperatingModeCode => "eybond_g_ascii_operating_mode_code"
    case ChargePower => "charge_power"
    case BatteryPowerMagnitude => "battery_power_magnitude"
    case BatteryCurrentDirection => "battery_current_direction"
    case GridPortPower => "grid_port_power"
    case OperatingMode => "operating_mode"
    case SolarFeedToGridPower => "solar_feed_to_grid_power"
    case PowerFlowChargeSourceState => "power_flow_charge_source_state"
    case ChargingSourceState => "charging_source_state"
    case ChargeSourcePriority => "charge_source_priority"
    case OtherKey(name) => name
  }

  /** `_strict_key`; listed keys are literals in normalized form, and no other key goes by their names. */
  predicate StrictKey(k: Key) { k.OtherKey? ==> Normalized(k.name) && k.name !in KEY_NAMES }

  const DRIVER_NAMES: set<string> := {
    "modbus_smg", "pi18", "pi30", "smartess_local", "eybond_g_ascii", "srne_modbus", "must_pv_ph18",
    "modbus_catalog"}

  datatype Driver =
    | ModbusSmg | Pi18 | Pi30 | SmartessLocal | EybondGAscii | SrneModbus | MustPvPh18 | ModbusCatalog
    | OtherDriver(name: string)

  const NoDriver := OtherDriver("")

  /** `_strict_driver_key` for a bound driver. */
  predicate StrictDriver(d: Driver) { d.OtherDriver? ==> Normalized(d.name) && d.name !in DRIVER_NAMES }

  const PACK_NAMES: set<string> := {"solis_esinv", "deye_3ph_high_80kw", "aohai_fsa", "growatt_spf", "deye_lv"}

  /** The surface variants ("packs") that gate multi-pack drivers. */
  datatype Pack =
    | SolisEsinv | Deye3PhHigh80kw | AohaiFsa | GrowattSpf | DeyeLv
    | OtherPack(name: string)

  predicate StrictPack(p: Pack) { p.OtherPack? ==> Normalized(p.name) && p.name !in PACK_NAMES }

  /** Among strict keys, a listed one goes by a listed name and no other does. */
  lemma OtherKeysHaveOtherNames(k: Key)
    requires StrictKey(k)
    ensures k.OtherKey? <==> Name(k) !in KEY_NAMES
  {
  }
}
