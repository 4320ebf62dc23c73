/**
 The power-flow splitter of `canonical_telemetry.py`: watts from three finite sources (PV, battery
 discharge, grid import) are routed to three sinks (home, battery charge, grid export).

 `Split` says what every route must be, as one closed expression over the readings.
 `ComputeSplit` is the splitter itself: it draws down mutable budgets in the order the
 source does, and is proved to produce exactly the rounded `Split`.
 */
module FlowSplit {
  import opened Numbers

  datatype ChargeSource = FromPv | FromUtility | FromPvAndUtility

  /** The strongest statement a driver made about the grid being there. */
  datatype GridState = GridUnknown | GridPresent | GridAbsent

  datatype RawReadings = Readings(
    load: real, pv: real, battery: real,
    grid: GridState, gridPower: Option<real>,
    pvCharging: Option<real>, pvExport: Option<real>,
    chargeSource: Option<ChargeSource>,
    gridFirst: bool)

  /** Clamped readings: load, PV, PV-charging and PV-export powers are never negative. */
  type Readings = r: RawReadings |
    && 0.0 <= r.load && 0.0 <= r.pv
    && (r.pvCharging.Some? ==> 0.0 <= r.pvCharging.value)
    && (r.pvExport.Some? ==> 0.0 <= r.pvExport.value)
    witness Readings(0.0, 0.0, 0.0, GridUnknown, None, None, None, None, false)

  datatype Route = PvToHome | PvToBattery | PvToGrid | BatteryToHome | GridToHome | GridToBattery

  datatype Routes = Routes(
    pvToHome: real, pvToBattery: real, pvToGrid: real,
    batteryToHome: real, gridToHome: real, gridToBattery: real)
  {
    function At(route: Route): real {
      match route
      case PvToHome => pvToHome
      case PvToBattery => pvToBattery
      case PvToGrid => pvToGrid
      case BatteryToHome => batteryToHome
      case GridToHome => gridToHome
      case GridToBattery => gridToBattery
    }

    function Home(): real { pvToHome + batteryToHome + gridToHome }

    function Rounded(): Routes {
      Routes(Round4(pvToHome), Round4(pvToBattery), Round4(pvToGrid),
             Round4(batteryToHome), Round4(gridToHome), Round4(gridToBattery))
    }
  }

  // ---- what the readings mean -------------------------------------------------

  function Charge(r: Readings): (c: real) ensures 0.0 <= c { Max(0.0, r.battery) }

  function Discharge(r: Readings): (d: real) ensures 0.0 <= d { Max(0.0, -r.battery) }

  /** The grid import budget; `None` when the readings give no way to know it. */
  function GridImport(r: Readings): (b: Option<real>)
    ensures b.Some? ==> 0.0 <= b.value
  {
    match r.grid
    case GridAbsent => if r.gridPower.Some? then Some(0.0) else None
    case GridPresent =>
      if r.gridPower.Some? then Some(Max(0.0, r.gridPower.value))
      else Some(Max(0.0, r.load + Charge(r) - r.pv - Discharge(r)))
    case GridUnknown =>
      if r.gridPower.Some? then Some(Max(0.0, r.gridPower.value)) else None
  }

  /** A budget in watts, zero when unknown. */
  function Watts(budget: Option<real>): real { if budget.Some? then budget.value else 0.0 }

  /** The import budget in watts, zero when absent or unknown. */
  function ImportWatts(r: Readings): (w: real) ensures 0.0 <= w { Watts(GridImport(r)) }

  /** How much PV the meters want to see exported. */
  function ExportWanted(r: Readings): (w: real) ensures 0.0 <= w {
    if r.grid.GridAbsent? then 0.0
    else if r.pvExport.Some? then r.pvExport.value
    else if r.gridPower.Some? then Max(0.0, -r.gridPower.value)
    else 0.0
  }

  predicate UtilityOnly(r: Readings) { r.chargeSource == Some(FromUtility) }

  predicate PvOnly(r: Readings) { r.chargeSource == Some(FromPv) }

  /** Direct evidence that PV feeds the battery. */
  predicate ExplicitPvCharge(r: Readings) {
    || r.pvCharging.Some?
    || r.chargeSource == Some(FromPv)
    || r.chargeSource == Some(FromPvAndUtility)
  }

  predicate ExplicitUtilityCharge(r: Readings) {
    r.chargeSource == Some(FromUtility) || r.chargeSource == Some(FromPvAndUtility)
  }

  // ---- the split as one expression ---------------------------------------------

  /** PV reserved for the battery before the home is served. */
  function ReservedPv(r: Readings): (w: real)
    ensures 0.0 <= w <= r.pv && w <= Charge(r)
  {
    if UtilityOnly(r) || !ExplicitPvCharge(r) then 0.0
    else if r.pvCharging.Some? then Min(r.pv, Min(Charge(r), r.pvCharging.value))
    else Min(r.pv, Charge(r))
  }

  /** Grid import reserved for the battery before the home is served. */
  function ReservedGrid(r: Readings): (w: real)
    ensures 0.0 <= w <= ImportWatts(r) && w <= Charge(r) - ReservedPv(r)
  {
    if ExplicitUtilityCharge(r) then Min(ImportWatts(r), Charge(r) - ReservedPv(r)) else 0.0
  }

  datatype HomeRoutes = HomeRoutes(pvToHome: real, batteryToHome: real, gridToHome: real)

  /** What each source gives the home, from the head of the source order down. */
  function HomeSplit(pv: real, discharge: real, grid: real, load: real, gridFirst: bool): (h: HomeRoutes)
    requires 0.0 <= pv && 0.0 <= discharge && 0.0 <= grid && 0.0 <= load
    ensures 0.0 <= h.pvToHome <= pv && 0.0 <= h.batteryToHome <= discharge && 0.0 <= h.gridToHome <= grid
    ensures h.pvToHome + h.batteryToHome + h.gridToHome == Min(load, pv + discharge + grid)
  {
    if gridFirst then
      var fromGrid := Min(grid, load);
      var fromPv := Min(pv, load - fromGrid);
      HomeRoutes(fromPv, Min(discharge, load - fromGrid - fromPv), fromGrid)
    else
      var fromPv := Min(pv, load);
      var fromBattery := Min(discharge, load - fromPv);
      HomeRoutes(fromPv, fromBattery, Min(grid, load - fromPv - fromBattery))
  }

  /** PV left by the home that may explain battery charge nobody gave evidence for. */
  function LatePv(r: Readings, pv: real, charge: real): real {
    if ExplicitPvCharge(r) || UtilityOnly(r) then 0.0 else Min(pv, charge)
  }

  /** Grid import left by the home that may explain what battery charge remains. */
  function LateGrid(r: Readings, grid: real, charge: real): real {
    if PvOnly(r) then 0.0 else Min(grid, charge)
  }

  function Split(r: Readings): Routes {
    var pv := r.pv - ReservedPv(r);
    var grid := ImportWatts(r) - ReservedGrid(r);
    var home := HomeSplit(pv, Discharge(r), grid, r.load, r.gridFirst);
    var charge := Charge(r) - ReservedPv(r) - ReservedGrid(r);
    var latePv := LatePv(r, pv - home.pvToHome, charge);
    var lateGrid := LateGrid(r, grid - home.gridToHome, charge - latePv);
    Routes(home.pvToHome, ReservedPv(r) + latePv, Min(pv - home.pvToHome - latePv, ExportWanted(r)),
           home.batteryToHome, home.gridToHome, ReservedGrid(r) + lateGrid)
  }

  // ---- the splitter ---------------------------------------------------------------

  datatype HomeSource = Pv | Battery | Grid

  /** The budgets one pass of the splitter draws down, and the home routes it fills. */
  class FlowBudgets {
    var pv: real
    var grid: Option<real>
    var discharge: real
    var load: real
    var pvToHome: real
    var batteryToHome: real
    var gridToHome: real

    constructor (pv: real, grid: Option<real>, discharge: real, load: real)
      ensures this.pv == pv && this.grid == grid && this.discharge == discharge && this.load == load
      ensures pvToHome == batteryToHome == gridToHome == 0.0
    {
      this.pv, this.grid, this.discharge, this.load := pv, grid, discharge, load;
      pvToHome, batteryToHome, gridToHome := 0.0, 0.0, 0.0;
    }

    ghost predicate Valid()
      reads this
    {
      && 0.0 <= pv && 0.0 <= discharge && 0.0 <= load
      && (grid.Some? ==> 0.0 <= grid.value)
    }

    ghost function GridWatts(): real
      reads this
    {
      Watts(grid)
    }

    /** Moves watts from one source to the home until the load or the source runs dry. */
    method RouteToHome(source: HomeSource)
      requires Valid()
      modifies this
      ensures Valid()
      // every watt taken from a budget shows up in the matching home route, and nowhere else
      ensures pv + pvToHome == old(pv + pvToHome)
      ensures discharge + batteryToHome == old(discharge + batteryToHome)
      ensures GridWatts() + gridToHome == old(GridWatts() + gridToHome)
      ensures grid.Some? <==> old(grid).Some?
      ensures load + pvToHome + batteryToHome + gridToHome
           == old(load + pvToHome + batteryToHome + gridToHome)
      // only the named source is touched, and it only gives
      ensures source != Pv ==> pv == old(pv)
      ensures source != Battery ==> discharge == old(discharge)
      ensures source != Grid ==> grid == old(grid)
      ensures load <= old(load)
      // and it gives all it can
      ensures load == 0.0
           || match source
              case Pv => pv == 0.0
              case Battery => discharge == 0.0
              case Grid => GridWatts() == 0.0
    {
      if load <= 0.0 {
        return;
      }
      var routed;
      match source {
        case Pv =>
          routed := Min(pv, load);
          pv, pvToHome := pv - routed, pvToHome + routed;
        case Battery =>
          routed := Min(discharge, load);
          discharge, batteryToHome := discharge - routed, batteryToHome + routed;
        case Grid =>
          if grid.None? {
            return;
          }
          routed := Min(grid.value, load);
          grid, gridToHome := Some(grid.value - routed), gridToHome + routed;
      }
      load := load - routed;
    }
  }

  /** Serves the home from all three sources in the order the operating mode asks for. */
  method ServeHome(pv: real, discharge: real, grid: Option<real>, load: real, gridFirst: bool)
    returns (routes: HomeRoutes, pvLeft: real, gridLeft: Option<real>)
    requires 0.0 <= pv && 0.0 <= discharge && 0.0 <= load && 0.0 <= Watts(grid)
    ensures routes == HomeSplit(pv, discharge, Watts(grid), load, gridFirst)
    ensures pvLeft == pv - routes.pvToHome
    ensures gridLeft.Some? <==> grid.Some?
    ensures Watts(gridLeft) == Watts(grid) - routes.gridToHome
  {
    var home := new FlowBudgets(pv, grid, discharge, load);
    if gridFirst {
      home.RouteToHome(Grid);
      home.RouteToHome(Pv);
      home.RouteToHome(Battery);
    } else {
      home.RouteToHome(Pv);
      home.RouteToHome(Battery);
      home.RouteToHome(Grid);
    }
    routes := HomeRoutes(home.pvToHome, home.batteryToHome, home.gridToHome);
    pvLeft, gridLeft := home.pv, home.grid;
  }

  /** The grid budget and the wanted export, corrected for an absent or merely detected grid. */
  method GridBudgets(r: Readings) returns (gridImport: Option<real>, desiredExport: real)
    ensures gridImport == GridImport(r) && desiredExport == ExportWanted(r)
  {
    gridImport := if r.gridPower.Some? then Some(Max(0.0, r.gridPower.value)) else None;
    var gridExport := if r.gridPower.Some? then Max(0.0, -r.gridPower.value) else 0.0;
    var pvExport := r.pvExport;
    if r.grid.GridAbsent? {
      gridImport := if r.gridPower.Some? then Some(0.0) else None;
      gridExport, pvExport := 0.0, Some(0.0);
    } else if r.grid.GridPresent? && gridImport.None? {
      gridImport := Some(Max(0.0, r.load + Charge(r) - r.pv - Discharge(r)));
    }
    desiredExport := Max(0.0, if pvExport.Some? then pvExport.value else gridExport);
  }

  /** Charging routes with direct evidence, reserved before the home is served. */
  method ReserveForBattery(r: Readings, gridImport: Option<real>)
    returns (pvToBattery: real, gridToBattery: real)
    requires gridImport == GridImport(r)
    ensures pvToBattery == ReservedPv(r) && gridToBattery == ReservedGrid(r)
  {
    pvToBattery, gridToBattery := 0.0, 0.0;
    if r.chargeSource != Some(FromUtility) && ExplicitPvCharge(r) {
      var desired := if r.pvCharging.None? then Charge(r) else Min(Charge(r), r.pvCharging.value);
      pvToBattery := Min(r.pv, desired);
    }
    var chargeRemaining := Charge(r) - pvToBattery;
    if gridImport.Some? && ExplicitUtilityCharge(r) && chargeRemaining > 0.0 {
      gridToBattery := Min(gridImport.value, chargeRemaining);
    }
  }

  /** Remaining source power that may explain the battery sink after the home is served. */
  method ExplainCharge(r: Readings, pv: real, grid: Option<real>, charge: real)
    returns (latePv: real, lateGrid: real)
    requires 0.0 <= pv && 0.0 <= charge && (grid.Some? ==> 0.0 <= grid.value)
    ensures latePv == LatePv(r, pv, charge)
    ensures lateGrid == LateGrid(r, Watts(grid), charge - latePv)
  {
    latePv, lateGrid := 0.0, 0.0;
    if !ExplicitPvCharge(r) && r.chargeSource != Some(FromUtility) {
      latePv := Min(pv, charge);
    }
    var chargeRemaining := charge - latePv;
    if grid.Some? && r.chargeSource != Some(FromPv) && chargeRemaining > 0.0 {
      lateGrid := Min(grid.value, chargeRemaining);
    }
  }

  /** The splitter: one finite budget per source and sink, drawn down route by route. */
  method ComputeExactSplit(r: Readings) returns (routes: Routes)
    ensures routes == Split(r)
    ensures WithinBudgets(r, routes, 0.0) && Lawful(r, routes)
  {
    hide HomeSplit, LatePv, LateGrid, ReservedPv, ReservedGrid, ExportWanted, Charge, Discharge;
    var gridImport, desiredExport := GridBudgets(r);
    var pvToBattery, gridToBattery := ReserveForBattery(r, gridImport);
    var chargeRemaining := Charge(r) - pvToBattery - gridToBattery;
    var gridRemaining := if gridImport.Some? then Some(gridImport.value - gridToBattery) else None;

    assert Watts(gridRemaining) == ImportWatts(r) - ReservedGrid(r);
    var home, pvRemaining;
    home, pvRemaining, gridRemaining :=
      ServeHome(r.pv - pvToBattery, Discharge(r), gridRemaining, r.load, r.gridFirst);

    var latePv, lateGrid := ExplainCharge(r, pvRemaining, gridRemaining, chargeRemaining);
    pvToBattery, gridToBattery := pvToBattery + latePv, gridToBattery + lateGrid;
    var gridToHome := home.gridToHome;
    if r.grid.GridAbsent? {
      SplitConserves(r);
      gridToHome, gridToBattery := 0.0, 0.0;
    }
    var pvToGrid := Min(pvRemaining - latePv, desiredExport);
    routes := Routes(home.pvToHome, pvToBattery, pvToGrid, home.batteryToHome, gridToHome, gridToBattery);
    SplitConserves(r);
    SplitIsTheLawfulOne(r, routes);
  }

  /** `_compute_flow_split` on the readings: the exact routes, each rounded to four digits. */
  method ComputeSplit(r: Readings) returns (routes: Routes)
    ensures routes == Split(r).Rounded()
    ensures WithinBudgets(r, routes, 0.00005)
    ensures PvOnly(r) ==> routes.gridToBattery == 0.0
    ensures UtilityOnly(r) ==> routes.pvToBattery == 0.0
  {
    hide Split, WithinBudgets, Lawful;
    RoundedSplitConserves(r);
    var exact := ComputeExactSplit(r);
    routes := exact.Rounded();
  }

  // ---- no watt is spent twice ---------------------------------------------------------

  /** Every route is non-negative and every source and sink is a budget spent at most once. */
  ghost predicate WithinBudgets(r: Readings, f: Routes, slack: real)
  {
    && (forall route: Route :: 0.0 <= f.At(route))
    && f.pvToHome + f.pvToBattery + f.pvToGrid <= r.pv + 3.0 * slack
    && f.gridToHome + f.gridToBattery <= ImportWatts(r) + 2.0 * slack
    && f.batteryToHome <= Discharge(r) + slack
    && f.Home() <= r.load + 3.0 * slack
    && f.pvToBattery + f.gridToBattery <= Charge(r) + 2.0 * slack
    && f.pvToGrid <= ExportWanted(r) + slack
  }

  lemma SplitConserves(r: Readings)
    ensures WithinBudgets(r, Split(r), 0.0)
    ensures PvOnly(r) ==> Split(r).gridToBattery == 0.0
    ensures UtilityOnly(r) ==> Split(r).pvToBattery == 0.0
    ensures r.grid.GridAbsent? ==> Split(r).gridToHome == Split(r).gridToBattery == Split(r).pvToGrid == 0.0
  {
    var f := Split(r);
    forall route: Route ensures 0.0 <= f.At(route) {
      match route {
        case PvToHome => case PvToBattery => case PvToGrid =>
        case BatteryToHome => case GridToHome => case GridToBattery =>
      }
    }
  }

  /** Rounding each route to four digits can overspend a budget by at most 0.00005 per route. */
  lemma RoundedSplitConserves(r: Readings)
    ensures WithinBudgets(r, Split(r).Rounded(), 0.00005)
    ensures PvOnly(r) ==> Split(r).Rounded().gridToBattery == 0.0
    ensures UtilityOnly(r) ==> Split(r).Rounded().pvToBattery == 0.0
  {
    hide Split, ImportWatts, Discharge, Charge, ExportWanted, Round4;
    SplitConserves(r);
    var exact, f := Split(r), Split(r).Rounded();
    forall route: Route ensures 0.0 <= f.At(route) {
      assert 0.0 <= exact.At(route) && f.At(route) == Round4(exact.At(route));
    }
  }

  // ---- the laws that leave only one split --------------------------------------------------

  /** The home gets all it can from what is not reserved, from the head of the source order down. */
  ghost predicate HomeLaw(r: Readings, f: Routes) {
    var pv, battery, grid := r.pv - ReservedPv(r), Discharge(r), ImportWatts(r) - ReservedGrid(r);
    && 0.0 <= f.pvToHome <= pv && 0.0 <= f.batteryToHome <= battery && 0.0 <= f.gridToHome <= grid
    && f.Home() == Min(r.load, pv + battery + grid)
    && if r.gridFirst then
         && (f.pvToHome > 0.0 ==> f.gridToHome == grid)
         && (f.batteryToHome > 0.0 ==> f.gridToHome == grid && f.pvToHome == pv)
       else
         && (f.batteryToHome > 0.0 ==> f.pvToHome == pv)
         && (f.gridToHome > 0.0 ==> f.pvToHome == pv && f.batteryToHome == battery)
  }

  /** PV may explain more charge than was reserved for it. */
  predicate PvMayCharge(r: Readings) { !ExplicitPvCharge(r) && !UtilityOnly(r) }

  /** The battery gets its reservations, then all that PV and after it the grid may explain. */
  ghost predicate ChargeLaw(r: Readings, f: Routes) {
    var pvLeft, gridLeft := r.pv - f.pvToHome - f.pvToBattery, ImportWatts(r) - f.gridToHome - f.gridToBattery;
    && ReservedPv(r) <= f.pvToBattery && ReservedGrid(r) <= f.gridToBattery
    && 0.0 <= pvLeft && 0.0 <= gridLeft && f.pvToBattery + f.gridToBattery <= Charge(r)
    && (f.pvToBattery > ReservedPv(r) ==> PvMayCharge(r))
    && (f.gridToBattery > ReservedGrid(r) ==> !PvOnly(r) && (PvMayCharge(r) ==> pvLeft == 0.0))
    && (f.pvToBattery + f.gridToBattery < Charge(r) ==>
          (PvMayCharge(r) ==> pvLeft == 0.0) && (!PvOnly(r) ==> gridLeft == 0.0))
  }

  ghost predicate Lawful(r: Readings, f: Routes) {
    && HomeLaw(r, f) && ChargeLaw(r, f)
    && f.pvToGrid == Min(r.pv - f.pvToHome - f.pvToBattery, ExportWanted(r))
  }

  /** The laws have exactly one solution for any readings, and it is the split. */
  lemma SplitIsTheLawfulOne(r: Readings, f: Routes)
    ensures Lawful(r, f) <==> f == Split(r)
  {
    HomeSplitIsTheLawfulOne(r, f);
    HomeSplitIsTheLawfulOne(r, Split(r));
  }

  lemma HomeSplitIsTheLawfulOne(r: Readings, f: Routes)
    ensures HomeLaw(r, f) <==>
      HomeRoutes(f.pvToHome, f.batteryToHome, f.gridToHome)
        == HomeSplit(r.pv - ReservedPv(r), Discharge(r), ImportWatts(r) - ReservedGrid(r), r.load, r.gridFirst)
  {
    hide ReservedPv, ReservedGrid, ImportWatts, Discharge;
  }

  // ---- the home comes first --------------------------------------------------------------

  /** The home receives its whole load, or else everything the sources hold after the reservations. */
  lemma HomeTakesAllItCan(r: Readings)
    ensures Split(r).Home()
         == Min(r.load, r.pv + Discharge(r) + ImportWatts(r) - ReservedPv(r) - ReservedGrid(r))
  {
  }

  /** Enough measured supply for both sinks means a fully served home. */
  lemma HomeIsServed(r: Readings)
    requires GridImport(r).Some?
    requires r.pv + Discharge(r) + GridImport(r).value >= r.load + Charge(r)
    ensures Split(r).Home() == r.load
  {
    HomeTakesAllItCan(r);
  }

  /** An import inferred from the grid voltage always closes the balance. */
  lemma InferredGridServesHome(r: Readings)
    requires r.grid.GridPresent? && r.gridPower.None?
    ensures Split(r).Home() == r.load
  {
    HomeIsServed(r);
  }

  /** If any load stays unmet, every source has been emptied into the home and the battery. */
  lemma UnmetLoadEmptiesEverySource(r: Readings)
    requires Split(r).Home() < r.load
    ensures Split(r).pvToHome + Split(r).pvToBattery == r.pv
    ensures Split(r).batteryToHome == Discharge(r)
    ensures Split(r).gridToHome + Split(r).gridToBattery == ImportWatts(r)
    ensures Split(r).pvToGrid == 0.0
  {
  }

  /** Charge left unexplained means no source that was allowed to explain it has a watt left. */
  lemma UnmetChargeEmptiesAllowedSources(r: Readings)
    requires Split(r).pvToBattery + Split(r).gridToBattery < Charge(r)
    ensures !PvOnly(r) ==> Split(r).gridToHome + Split(r).gridToBattery == ImportWatts(r)
    ensures !ExplicitPvCharge(r) && !UtilityOnly(r) ==> Split(r).pvToHome + Split(r).pvToBattery == r.pv
  {
  }

  // ---- refinement of the priority split of `derived_energy.py` --------------------------------

  /** The three-route split used for energy totals: PV, then battery, then grid. */
  function PrioritySplit(load: real, pv: real, battery: real, gridPower: Option<real>): HomeRoutes
    requires 0.0 <= load && 0.0 <= pv
  {
    var pvToHome := Min(pv, load);
    var afterPv := Max(0.0, load - pvToHome);
    var batteryToHome := Min(Max(0.0, -battery), afterPv);
    var afterBattery := Max(0.0, afterPv - batteryToHome);
    var gridToHome :=
      if gridPower.None? then afterBattery else Min(Max(0.0, gridPower.value), afterBattery);
    HomeRoutes(pvToHome, batteryToHome, gridToHome)
  }

  /** Nothing in the readings says where battery charge comes from. */
  predicate NoChargeEvidence(r: Readings) { r.chargeSource.None? && r.pvCharging.None? }

  lemma SplitRefinesPrioritySplit(r: Readings)
    requires !r.gridFirst
    requires (r.gridPower.Some? && !r.grid.GridAbsent?) || (r.gridPower.None? && r.grid.GridPresent?)
    requires r.battery <= 0.0 || NoChargeEvidence(r)
    ensures HomeRoutes(Split(r).pvToHome, Split(r).batteryToHome, Split(r).gridToHome)
         == PrioritySplit(r.load, r.pv, r.battery, r.gridPower)
  {
  }
}
