/**
 The flow split, law by law, over the raw readings: what each route is worth under every kind of
 evidence, without a word about how the split is computed.
 */
module FlowLaws {
  import opened Numbers
  import opened FlowSplit

  // The readings' own sinks and sources: a positive battery power charges, a negative one discharges.
  function Sink(r: Readings): real { if r.battery > 0.0 then r.battery else 0.0 }
  function Source(r: Readings): real { if r.battery < 0.0 then 0.0 - r.battery else 0.0 }

  /** The smaller of two powers. */
  predicate IsSmaller(x: real, a: real, b: real) { x <= a && x <= b && (x == a || x == b) }

  // ---- what charges the battery ------------------------------------------------------------

  /** A measured PV charging power caps the PV route, together with the PV and the battery. */
  lemma MeteredPvCharge(r: Readings)
    requires r.pvCharging.Some? && r.chargeSource != Some(FromUtility)
    ensures Split(r).pvToBattery <= r.pv && Split(r).pvToBattery <= Sink(r)
    ensures Split(r).pvToBattery <= r.pvCharging.value
    ensures Split(r).pvToBattery == r.pv || Split(r).pvToBattery == Sink(r) || Split(r).pvToBattery == r.pvCharging.value
  {
  }

  /** A state that says PV charges gives the battery all the PV it can take, before the home. */
  lemma StatedPvCharge(r: Readings)
    requires r.pvCharging.None? && (r.chargeSource == Some(FromPv) || r.chargeSource == Some(FromPvAndUtility))
    ensures IsSmaller(Split(r).pvToBattery, r.pv, Sink(r))
  {
  }

  /** Utility charging: no PV at all, and all the import the battery can take, before the home. */
  lemma StatedUtilityCharge(r: Readings)
    requires r.chargeSource == Some(FromUtility)
    ensures Split(r).pvToBattery == 0.0
    ensures IsSmaller(Split(r).gridToBattery, Metered(r), Sink(r))
  {
  }

  /** Both charge: the grid gives what PV leaves the battery to take, before the home. */
  lemma StatedBothCharge(r: Readings)
    requires r.chargeSource == Some(FromPvAndUtility)
    ensures IsSmaller(Split(r).gridToBattery, Metered(r), Sink(r) - Split(r).pvToBattery)
  {
  }

  /** PV charging only: the grid gives the battery nothing. */
  lemma StatedPvOnly(r: Readings)
    requires r.chargeSource == Some(FromPv)
    ensures Split(r).gridToBattery == 0.0
  {
  }

  /** No state names a source: the grid gives what the home and PV leave. */
  lemma UnstatedGridCharge(r: Readings)
    requires r.chargeSource.None?
    ensures IsSmaller(Split(r).gridToBattery, Metered(r) - Split(r).gridToHome, Sink(r) - Split(r).pvToBattery)
  {
  }

  /** No evidence at all: PV gives what the home leaves. */
  lemma UnstatedPvCharge(r: Readings)
    requires r.chargeSource.None? && r.pvCharging.None?
    ensures IsSmaller(Split(r).pvToBattery, r.pv - Split(r).pvToHome, Sink(r))
  {
  }

  // ---- what the grid may give ------------------------------------------------------------------

  /** The import budget: measured, inferred from the deficit when only a voltage is known, or nothing. */
  function Metered(r: Readings): real {
    if r.grid.GridAbsent? then 0.0
    else if r.gridPower.Some? then (if r.gridPower.value > 0.0 then r.gridPower.value else 0.0)
    else if r.grid.GridUnknown? then 0.0
    else
      var deficit := r.load + Sink(r) - r.pv - Source(r);
      if deficit > 0.0 then deficit else 0.0
  }

  /** The grid routes share that budget, and use all of it while load is unmet. */
  lemma GridRoutesShareTheImport(r: Readings)
    ensures 0.0 <= Split(r).gridToHome && 0.0 <= Split(r).gridToBattery
    ensures Split(r).gridToHome + Split(r).gridToBattery <= Metered(r)
    ensures Split(r).Home() < r.load ==> Split(r).gridToHome + Split(r).gridToBattery == Metered(r)
  {
  }

  // ---- what serves the home ----------------------------------------------------------------------

  /** PV goes before the battery and the battery before the grid, and each gives all it has left. */
  lemma HomeFromPvFirst(r: Readings)
    requires !r.gridFirst
    ensures r.chargeSource.None? && r.pvCharging.None? ==> IsSmaller(Split(r).pvToHome, r.pv, r.load)
    ensures r.chargeSource.Some? || r.pvCharging.Some? ==>
      IsSmaller(Split(r).pvToHome, r.pv - Split(r).pvToBattery, r.load)
    ensures IsSmaller(Split(r).batteryToHome, Source(r), r.load - Split(r).pvToHome)
    ensures r.chargeSource.None? ==>
      IsSmaller(Split(r).gridToHome, Metered(r), r.load - Split(r).pvToHome - Split(r).batteryToHome)
    ensures r.chargeSource.Some? ==>
      IsSmaller(Split(r).gridToHome, Metered(r) - Split(r).gridToBattery, r.load - Split(r).pvToHome - Split(r).batteryToHome)
  {
  }

  /** On mains or bypass the grid goes first. */
  lemma HomeFromGridFirst(r: Readings)
    requires r.gridFirst
    ensures r.chargeSource.None? ==> IsSmaller(Split(r).gridToHome, Metered(r), r.load)
    ensures r.chargeSource.Some? ==> IsSmaller(Split(r).gridToHome, Metered(r) - Split(r).gridToBattery, r.load)
    ensures r.chargeSource.None? && r.pvCharging.None? ==>
      IsSmaller(Split(r).pvToHome, r.pv, r.load - Split(r).gridToHome)
    ensures r.chargeSource.Some? || r.pvCharging.Some? ==>
      IsSmaller(Split(r).pvToHome, r.pv - Split(r).pvToBattery, r.load - Split(r).gridToHome)
    ensures IsSmaller(Split(r).batteryToHome, Source(r), r.load - Split(r).gridToHome - Split(r).pvToHome)
  {
  }

  // ---- what is exported -----------------------------------------------------------------------------

  /** PV that is left is exported as far as a meter saw it go, and never into an absent grid. */
  lemma Export(r: Readings)
    ensures r.grid.GridAbsent? ==> Split(r).pvToGrid == 0.0
    ensures !r.grid.GridAbsent? && r.pvExport.Some? ==>
      IsSmaller(Split(r).pvToGrid, r.pv - Split(r).pvToHome - Split(r).pvToBattery, r.pvExport.value)
    ensures !r.grid.GridAbsent? && r.pvExport.None? && r.gridPower.Some? ==>
      IsSmaller(Split(r).pvToGrid, r.pv - Split(r).pvToHome - Split(r).pvToBattery,
                if r.gridPower.value < 0.0 then 0.0 - r.gridPower.value else 0.0)
    ensures !r.grid.GridAbsent? && r.pvExport.None? && r.gridPower.None? ==> Split(r).pvToGrid == 0.0
  {
  }
}
