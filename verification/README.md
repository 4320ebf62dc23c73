# Verified models for the EyeBond Local integration

A Dafny project that models the parts of the integration where a mistake would be silent, and proves what
they promise for every input, every run and every interleaving. `dafny verify dfyconfig.toml` checks it all.

**Telemetry** (`Keys`, `Telemetry`, `CanonicalTable`, `Canonical`, `CanonicalWalk`, `ComputeLaws`, `CanonicalLaws`,
`Projection`, `FlowSplit`, `FlowLaws`, `Energy`, `EnergyLaws`, `EnergyFlows`). Driver results are folded into a frame
of fresh and carried points; one pass over the canonical table adds aliases while recording what each of them read;
the last aliases split power among three sources and three sinks; power is integrated to energy, plainly and per
day or month. Each loop that updates state in the source is a method here, proved against a function, and the
properties are proved about the function: the split is the only one its laws allow, the pass is idempotent and never
interferes, freshness is the freshness of everything an alias rests on, and energy is conserved across cycles. The
modules named `Laws` say what each route, compute and kilowatt hour is worth in terms of raw readings, without the
functions above.

**Passive discovery** (`Registry`, `Coalescing`, `ListenerInventory`, `DiscoverySpec`, `Discovery`,
`DiscoveryRuns`, `PublicationRuns`, `ProbeRuns`, `TicketRuns`, `DiscoverySteps`). The service is a class whose
methods state their whole new state; the properties are about every run of its operations, among them both halves
of publication (what gets a card, and what is remembered or forgotten), and in `DiscoverySteps` about every run of
the steps between the awaits of a poll.

**DESSMonitor evidence** (`Text`, `Calendar`, `Timestamps`, `Records`, `TimeBases`, `History`, `Resolution`,
`Collection`, `Collecting`, `CloudMetadata`, `TextLaws`, `EvidenceLaws`, `CloudLaws`). Calendar arithmetic, timestamps and
their string order, four levels of strict record printers and parsers, the bounded collection loop, and the metadata
normalisers, down to which payload entry ends up in which field.

**Identity and endpoints** (`Identity`, `Endpoint`, `EndpointLaws`). Prefix-based identity over runs, and the endpoint
parser and printer.

Floats are exact reals, and rounding to four digits is a function within 0.00005. What an operation asks of the
outside (clock readings, provider replies, the listener inventory with owners, the cloud catalog, flows that were
aborted) is a parameter that may take any value.

## What turned out not to hold

Each of these has a lemma with a concrete input, and an exact condition on the inputs.

- A key-parameter list whose rows all lack an id is admitted by the metadata normaliser, and the collection
  constructor then raises whatever the clock and the provider do (`CloudMetadata.UnnamedRowsDefeatCollection`);
  every other list is fine (`Collecting.CollectHistory`).
- A socket that is pending removal for one entry need not be quarantined: when another entry that held the same
  socket is resumed, the quarantine is lifted for both (`DiscoveryRuns.PendingSocketCanBeShown`). It happens
  exactly after such a resume (`DiscoveryRuns.PendingIsQuarantinedUnlessReleased`).
- A reload does not always keep its sockets off the cards: show-again forgets the retirement of a socket that is
  still pending, so after the resume the next poll may publish it (`DiscoveryRuns.ResumedSocketCanBePublished`).
  Retirement is lost exactly so (`DiscoveryRuns.PendingIsRetiredUnlessShownAgain`), and probing aside it is all
  that holds the socket back (`DiscoveryRuns.ResumedSocketIsSuppressedIff`).
- A socket older than every probe scope can be suppressed by one. A retain set may name any session, old or new
  (`ProbeRuns.EarlierSocketCanBeProbed`); and a scope that begins while a listener does not answer takes the socket
  for a new one (`ProbeRuns.MissedSocketCanBeProbed`). There is no third way
  (`ProbeRuns.EarlierSocketNeedsRetainOrMiss`), and when any socket is suppressed by probing is in
  `ProbeRuns.ProbedIffMarked`.
- Publication is edge-triggered only once it is remembered: two polls that overlap between the start of a flow and
  its remembering put up one card twice (`DiscoverySteps.OverlappingPollsCanPublishTwice`), and until then every
  repeated offer does (`DiscoverySteps.OfferRepeatsUntilRemembered`).
- Coalescing can leave a collector without a candidate, although different full PNs are meant to stay apart: a
  candidate with a short PN absorbs one full PN and then grows into another
  (`Coalescing.CoalescingCanLoseACollector`). It happens exactly so (`Coalescing.RepresentedIffHeld`), and never when
  no PN stands between two collectors (`Coalescing.UnambiguousRowsAreRepresented`).
- A removal ticket can name a socket that is gone, because it is dropped only with the entry's last pending socket
  (`TicketRuns.TicketCanOutliveItsSocket`, `TicketRuns.TicketNamesPendingSocketIff`).
- The inventory can list one socket key twice, exactly when rows of two listeners name one port for one id
  (`ListenerInventory.ForeignPortsCanListASocketTwice`, `ListenerInventory.InventoryListsSocketsOnceIff`).
- Converting a timestamp can overflow the representable years, and the handlers for type and value errors do not
  name that error, so it escapes from parsing a resolved series and from the collection loop
  (`Resolution.SomeRecordRaises`, `Collecting.LateRunEscapes`). It takes the first or the last day of the calendar
  (`Resolution.OtherDaysAreConvertible`); exactly when it escapes is in `Resolution.ParserRaisesIff` and
  `Collecting.CollectHistory`.
- Printing a bare host in full writes the catalog's default port, which nothing checks
  (`Endpoint.OversizedCatalogPortIsNotReadBack`); the result is refused exactly when that number is not a port
  (`Endpoint.FullNormalisationIsIdempotentIff`).
- Provider text is stripped before it is cut to 512 characters, so a cut behind a space leaves text that the field
  constructors refuse with a value error (`CloudMetadata.CutTitleRaises`,
  `CloudMetadata.TextIsNormalUnlessCutBehindSpace`); so does an unlisted live key that starts or ends with an
  underscore (`CloudMetadata.EdgedLiveKeyRaises`, `CloudMetadata.LiveKeyIsWellFormedUnlessEdgedByUnderscore`).
  A section name is not cut at all, so one of more than 512 characters is refused too
  (`CloudMetadata.LongSectionRaises`); `CloudMetadata.NormalizeLastData` raises exactly when a field within the
  limit is refused.

## Model

| member | source | states |
|---|---|---|
| FlowSplit.SplitIsTheLawfulOne | custom_components/eybond_local/canonical_telemetry.py:910-1004 | for any readings the routes that obey the home law, the charge law and the export law are exactly the split: the home is filled from the head of the source order, reservations with evidence go first, PV explains charge before the grid, and only left-over PV is exported; no other six numbers do |
| FlowSplit.HomeSplitIsTheLawfulOne | custom_components/eybond_local/canonical_telemetry.py:937-975 | the home routes are the only ones that take as much as the sources hold while drawing on a later source only when every earlier one is dry, in both source orders |
| FlowSplit.ComputeExactSplit | custom_components/eybond_local/canonical_telemetry.py:862-1004 | the budget-drawing splitter returns that one lawful split, and it stays within every budget |
| FlowSplit.ComputeSplit | custom_components/eybond_local/canonical_telemetry.py:862-1013 | the published routes are that split rounded route by route; each budget is exceeded by at most 0.00005 per route, "PV" evidence forces grid-to-battery to 0 and "Utility" forces PV-to-battery to 0 |
| FlowSplit.FlowBudgets.RouteToHome | custom_components/eybond_local/canonical_telemetry.py:941-966 | moving watts to the home conserves every budget plus its route, touches only the named source, and stops only when the load or that source is at zero |
| FlowSplit.ServeHome | custom_components/eybond_local/canonical_telemetry.py:968-975 | three such moves in the mode's order give the home split, and the remainders are what it left |
| FlowSplit.GridBudgets | custom_components/eybond_local/canonical_telemetry.py:871-890 | import and export budgets: absent grid owns nothing, a detected but unmetered grid gets exactly the non-negative deficit |
| FlowSplit.ReserveForBattery | custom_components/eybond_local/canonical_telemetry.py:910-935 | charging routes with direct evidence are capped by source and sink before the home is served |
| FlowSplit.ExplainCharge | custom_components/eybond_local/canonical_telemetry.py:977-994 | what is left of PV, and then of the grid, may explain remaining charge unless evidence rules it out |
| FlowSplit.SplitConserves | custom_components/eybond_local/canonical_telemetry.py:892-1004 | before rounding no watt of PV, discharge, import, load or charge is used twice, and an absent grid owns no route |
| FlowSplit.RoundedSplitConserves | custom_components/eybond_local/canonical_telemetry.py:1006-1013 | after rounding a sum of k routes exceeds its budget by at most k times 0.00005 |
| FlowSplit.HomeTakesAllItCan | custom_components/eybond_local/canonical_telemetry.py:937-975 | the home routes add up to the load, or to everything not reserved for the battery |
| FlowSplit.HomeIsServed | custom_components/eybond_local/canonical_telemetry.py:937-975 | a known import with enough total supply for load and charge serves the home completely |
| FlowSplit.InferredGridServesHome | custom_components/eybond_local/canonical_telemetry.py:882-890 | an import inferred from voltage always serves the home completely |
| FlowSplit.UnmetLoadEmptiesEverySource | custom_components/eybond_local/canonical_telemetry.py:937-1004 | unmet load means every source is spent, so nothing is exported |
| FlowSplit.UnmetChargeEmptiesAllowedSources | custom_components/eybond_local/canonical_telemetry.py:977-994 | unexplained charge means every source allowed to explain it is spent |
| FlowSplit.SplitRefinesPrioritySplit | custom_components/eybond_local/derived_energy.py:394-418 | outside Mains/Bypass, with the grid metered or inferred and no charging or no charging evidence, the split gives the same three home routes as the priority split for energy totals |
| FlowLaws.MeteredPvCharge | custom_components/eybond_local/canonical_telemetry.py:910-922 | with a measured PV charging power and no utility-only state, PV-to-battery is the least of PV, charge and that measurement |
| FlowLaws.StatedPvCharge | custom_components/eybond_local/canonical_telemetry.py:910-922 | a PV or PV + Utility state without a measurement gives the battery the smaller of PV and charge, before the home |
| FlowLaws.StatedUtilityCharge | custom_components/eybond_local/canonical_telemetry.py:910-935 | utility charging: no PV, and the smaller of import and charge, before the home |
| FlowLaws.StatedBothCharge | custom_components/eybond_local/canonical_telemetry.py:921-935 | PV + Utility: the grid reserves what PV leaves the battery to take, as far as the import goes |
| FlowLaws.UnstatedGridCharge | custom_components/eybond_local/canonical_telemetry.py:977-994 | without a state the grid gives the battery what the home and PV leave, and all of it |
| FlowLaws.UnstatedPvCharge | custom_components/eybond_local/canonical_telemetry.py:977-994 | without any evidence PV gives the battery what the home leaves, and all of it |
| FlowLaws.GridRoutesShareTheImport | custom_components/eybond_local/canonical_telemetry.py:871-890 | the grid routes together stay within the import as metered or inferred from the raw readings, and use all of it while load is unmet |
| FlowLaws.HomeFromPvFirst | custom_components/eybond_local/canonical_telemetry.py:937-975 | PV, then battery, then grid: each gives the home the smaller of what it has left and what is still needed |
| FlowLaws.HomeFromGridFirst | custom_components/eybond_local/canonical_telemetry.py:937-975 | on mains or bypass: grid, then PV, then battery, each giving all it can |
| FlowLaws.Export | custom_components/eybond_local/canonical_telemetry.py:996-1004 | left-over PV is exported up to the export meter, else up to the negative grid power, and never into an absent grid |
| Numbers.Round4 | custom_components/eybond_local/canonical_telemetry.py:1007-1012 | the stand-in for rounding to four digits: within 0.00005, never below zero from above it, and zero at zero |
| Numbers.RoundingIsToNearestEven | custom_components/eybond_local/canonical_telemetry.py:1007-1012 | values on the four-digit grid stay, and halfway between two goes to the even one |
| CanonicalTable.RowsAreWhereRowOfSays | custom_components/eybond_local/canonical_telemetry.py:71-576 | every table row fills one key of its own and is found by it |
| Canonical.ComputeVariant | custom_components/eybond_local/canonical_telemetry.py:752-814 | computing through the tracking reader returns the variant's result and asks exactly the keys the specification says, in order |
| Canonical.ReadTrackingValues.Get | custom_components/eybond_local/canonical_telemetry.py:61-65 | a read returns the value or nothing and records a present key once, in first-read order |
| Canonical.ComputeGAsciiBatteryPower | custom_components/eybond_local/canonical_telemetry.py:817-859 | sign, fallback currents and unknown modes of the G-ASCII battery power, with the reads each path makes |
| Canonical.ComputeFlow | custom_components/eybond_local/canonical_telemetry.py:862-876 | the splitter on a tracked snapshot: its value and every key it asks |
| CanonicalLaws.ResultIsLawful | custom_components/eybond_local/canonical_telemetry.py:752-814 | every compute obeys its law, stated over the measured values alone: sums, products, negation, volts times charging minus discharging current, the sign a direction word gives, the G-ASCII cases and the split of the readings, each within 0.00005, and absent when a needed number is |
| CanonicalLaws.SumIsLawful | custom_components/eybond_local/canonical_telemetry.py:756-775 | a sum or product of shown numbers is theirs to four digits, and nothing when one is no number |
| CanonicalLaws.SignedDeltaIsLawful | custom_components/eybond_local/canonical_telemetry.py:777-787 | within 0.00005 of volts times charging current minus volts times discharging current, and 0 when both are 0 |
| CanonicalLaws.DirectionIsLawful | custom_components/eybond_local/canonical_telemetry.py:798-805 | the size of the magnitude, towards the battery exactly when the direction is a charging word |
| CanonicalLaws.GAsciiIsLawful | custom_components/eybond_local/canonical_telemetry.py:817-859 | signed currents keep their sign, unsigned ones get it from the mode, a zero current in battery mode is replaced by the first positive charging current, and other modes give nothing |
| CanonicalLaws.FlowReadingsAreLawful | custom_components/eybond_local/canonical_telemetry.py:862-908 | the splitter reads exactly what the measured values say: clamped powers, the grid state, the meters, the charging source and the grid-first modes |
| CanonicalLaws.GridPresenceIsLawful | custom_components/eybond_local/canonical_telemetry.py:1050-1059 | twenty volts make a grid; without a voltage only an off-grid mode says there is none |
| CanonicalLaws.ChargeSourceIsLawful | custom_components/eybond_local/canonical_telemetry.py:1016-1026 | the inverter state goes before the charger state, and both before a PV-only priority |
| CanonicalLaws.RecordedIsNeeded | custom_components/eybond_local/canonical_telemetry.py:54-68 | a computation records exactly the present keys its law needs, given what the others say: no further state once one names a source, no charging currents outside a zero battery-mode current |
| CanonicalLaws.AliasIsLawful | custom_components/eybond_local/canonical_telemetry.py:705-814 | an alias that is not native obeys the law of the first variant that serves driver, pack and sources, and records what that law needs |
| CanonicalLaws.Pi30BatteryPower | custom_components/eybond_local/canonical_telemetry.py:694-732 | end to end: a PI30 mapping with battery voltage and both currents gets a battery power within 0.00005 of volts times charging minus discharging current |
| CanonicalLaws.FirstServingMatches | custom_components/eybond_local/canonical_telemetry.py:735-749 | the first variant that serves the driver, the pack and the present keys is the one that is used |
| CanonicalLaws.PackRowsServeTheirPack | custom_components/eybond_local/canonical_telemetry.py:735-749 | a variant for one pack applies to exactly that pack under the catalog driver |
| CanonicalLaws.TextProtocolAliases | custom_components/eybond_local/canonical_telemetry.py:71-576 | the grid, output and load rows of the text protocols, variant by variant |
| CanonicalLaws.TextProtocolSolarAliases | custom_components/eybond_local/canonical_telemetry.py:71-576 | their solar rows |
| CanonicalLaws.BatteryPowerAliases | custom_components/eybond_local/canonical_telemetry.py:71-576 | the battery power rows of the first drivers |
| CanonicalLaws.ModbusAliases | custom_components/eybond_local/canonical_telemetry.py:71-576 | the rows of the register-mapped drivers |
| CanonicalLaws.CatalogPowerAliases | custom_components/eybond_local/canonical_telemetry.py:71-576 | the output and battery rows of the catalog packs |
| CanonicalLaws.CatalogSolarAliases | custom_components/eybond_local/canonical_telemetry.py:71-576 | the solar rows of the catalog packs |
| CanonicalWalk.ValueMap.ApplyCanonicalPass | custom_components/eybond_local/canonical_telemetry.py:694-732 | the in-place loop over a mutable mapping yields the specified values and computations |
| CanonicalWalk.MatchVariant | custom_components/eybond_local/canonical_telemetry.py:735-749 | the first applicable variant whose sources are all available, or none |
| CanonicalWalk.NativeValuesAreKept | custom_components/eybond_local/canonical_telemetry.py:707-710 | the pass changes no value that was there before it |
| CanonicalWalk.WalkExtends | custom_components/eybond_local/canonical_telemetry.py:705-732 | later rows keep what earlier rows added and add only their own keys |
| CanonicalWalk.UnrecordedKeysCannotMatter | custom_components/eybond_local/canonical_telemetry.py:54-68 | changing or removing present keys a computation did not record changes neither its value nor its record |
| CanonicalWalk.SameAnswersSameResult | custom_components/eybond_local/canonical_telemetry.py:752-859 | two mappings that answer the asked keys alike give the same result and the same questions |
| CanonicalWalk.TableHasNoForwardRead | custom_components/eybond_local/canonical_telemetry.py:71-576 | no row active for a driver may read a key that a later row active for the same driver fills |
| CanonicalWalk.OnlyGrowattFillsPvCharging | custom_components/eybond_local/canonical_telemetry.py:71-576 | the one forward source of the table has a canonical variant only under another driver |
| CanonicalWalk.PassIsIdempotent | custom_components/eybond_local/canonical_telemetry.py:694-732 | a second pass adds nothing, for every driver and pack |
| CanonicalWalk.FlowAliasesComeFromOneSplit | custom_components/eybond_local/canonical_telemetry.py:807-812 | every flow alias that is not native is the matching route of one split over the finished values, and is absent exactly when load, PV or battery power is no number |
| CanonicalWalk.AliasIsDecidedAtItsRow | custom_components/eybond_local/canonical_telemetry.py:705-732 | an alias that is not native is in the result exactly when its own row computed it, with that value |
| Projection.ProjectCanonicalTelemetry | custom_components/eybond_local/canonical_telemetry.py:632-691 | the typed projection: strict pack, sorted unique points, and exactly the specified alias points |
| Projection.AliasPointSays | custom_components/eybond_local/canonical_telemetry.py:672-686 | the point of an alias carries its key, value and sources, and is fresh exactly when every source is |
| Projection.ProjectionKeepsEveryAlias | custom_components/eybond_local/canonical_telemetry.py:655-686 | the typed projection has the same keys and values as the untyped mapping, and every point satisfies the point constructor |
| Projection.RowSources | custom_components/eybond_local/canonical_telemetry.py:661-671 | what a row records is non-empty, distinct, present and never the alias itself, so no alias is dropped |
| Projection.ProjectionIsGrounded | custom_components/eybond_local/canonical_telemetry.py:655-686 | native points are untouched, and sources of an alias are native or aliases of earlier rows |
| Projection.FreshMeansRestsOnFresh | custom_components/eybond_local/canonical_telemetry.py:672-679 | a point is fresh exactly when every native point in the transitive closure of its sources is fresh |
| Projection.AliasIsFreshIffLatestReportedItsSources | custom_components/eybond_local/canonical_telemetry.py:632-691 | over every run folded and projected, an alias is fresh exactly when the latest result set every native key it transitively rests on |
| Telemetry.FoldDriverTelemetry | custom_components/eybond_local/telemetry.py:210-260 | one fold: rejected exactly for a bad driver key or any bad key among the values or the removed keys; otherwise a valid sorted frame equal to the specified merge |
| Keys.OtherKeysHaveOtherNames | custom_components/eybond_local/telemetry.py:50-63 | no key outside the table goes by the name of a table key |
| Telemetry.Overlay | custom_components/eybond_local/telemetry.py:246-255 | scalar values become fresh points, structured values remove, everything else survives |
| Telemetry.SortedPoints | custom_components/eybond_local/telemetry.py:256-260 | points come out sorted by key without duplicates and without loss |
| Telemetry.FoldRunIsLastWriteReplay | custom_components/eybond_local/telemetry.py:210-260 | over any run a key is present exactly when some result set it with no later full result, driver switch, removal or replacement, and it holds that write |
| Telemetry.FreshMeansLatest | custom_components/eybond_local/telemetry.py:225-255 | over any run the fresh points are exactly the scalar keys of the latest result |
| Energy.EnergyAccumulator.constructor | custom_components/eybond_local/energy.py:11-14 | a new accumulator holds its initial total and remembers no sample |
| Energy.EnergyAccumulator.Accumulate | custom_components/eybond_local/energy.py:28-41 | the total stays initial plus the trapezoids of adjacent unreset samples with a gap in (0, 3600] seconds |
| Energy.EnergyAccumulator.SetTotal | custom_components/eybond_local/energy.py:22-26 | restoring replaces the total and keeps the sample stream |
| Energy.EnergyAccumulator.ResetSample | custom_components/eybond_local/energy.py:43-47 | a reset keeps the total and forgets the sample |
| Energy.EnergyIsMonotone | custom_components/eybond_local/energy.py:28-41 | totals never decrease, whatever the clock does |
| Energy.EnergyIsAtMostPeakTimesElapsed | custom_components/eybond_local/energy.py:28-41 | on chronological runs the energy is at most peak power times elapsed time |
| Energy.CyclingEnergyAccumulator.constructor | custom_components/eybond_local/energy.py:53-58 | a new cycling accumulator starts from its initial total and stored period |
| Energy.CyclingEnergyAccumulator.Restore | custom_components/eybond_local/energy.py:73-79 | a stored total survives only into the period it was stored for, with no remembered sample |
| Energy.CyclingEnergyAccumulator.Accumulate | custom_components/eybond_local/energy.py:81-88 | the open total and period stay those of the run since the last restore |
| Energy.CyclingEnergyAccumulator.ResetSample | custom_components/eybond_local/energy.py:43-47 | a reset keeps the open cycle |
| Energy.PeriodFollowsLatestSample | custom_components/eybond_local/energy.py:84-86 | the stored period is always that of the latest sample |
| Energy.CyclesLoseOnlyStraddlingEnergy | custom_components/eybond_local/energy.py:81-88 | on one stream, plain energy exceeds the closed and open cycle totals by exactly the counted trapezoids that straddle a boundary |
| EnergyLaws.MeanPowerFlows | custom_components/eybond_local/energy.py:31-37 | between samples at most an hour apart exactly the mean of their powers flows: 3600000 watt seconds to the kilowatt hour |
| EnergyLaws.ConstantPowerFlows | custom_components/eybond_local/energy.py:31-37 | constant power over a counted gap adds exactly power times seconds over 3600000 |
| EnergyLaws.KilowattHour | custom_components/eybond_local/energy.py:31-37 | 1000 W for 3600 s is 1 kWh |
| EnergyLaws.PowersMayBeSwapped | custom_components/eybond_local/energy.py:36-37 | which of two end powers came first does not matter |
| EnergyLaws.NothingFlows | custom_components/eybond_local/energy.py:32-47 | nothing flows over a long or backward gap, into a reset or out of one |
| EnergyLaws.PeriodsAreCalendarPeriods | custom_components/eybond_local/energy.py:66-71 | two moments share a period exactly when they share the day, or the month |
| EnergyFlows.EnergiesOfBothAdd | custom_components/eybond_local/energy.py:28-41 | over every run the energy of two summed power streams is the sum of their energies |
| EnergyFlows.RoutedEnergyStaysWithinBudgets | custom_components/eybond_local/derived_energy.py:337-391 | integrated over any run, the energies of the routes sharing a source or sink (PV, load, import, charge, discharge, wanted export) stay within the energy of that source or sink plus 0.00005 W per route |
| EnergyFlows.RoutedPowerStaysWithinBudgets | custom_components/eybond_local/canonical_telemetry.py:862-1013 | at every refresh the rounded routes of PV, load, import, charge, discharge and export stay within those meters |
| Identity.SameIdentityIsNotTransitive | custom_components/eybond_local/collector_identity.py:67-83 | a short PN can match two full PNs that do not match each other |
| Identity.ObservationIsAbsorbedOrRefused | custom_components/eybond_local/collector_identity.py:121-137 | a conflict leaves the durable PN alone; anything else becomes a prefix of it |
| Identity.DurableOnlyExtends | custom_components/eybond_local/collector_identity.py:121-137 | over any run the durable PN only extends, conflicts leave it unchanged, and every accepted observation stays a prefix |
| Identity.DurableIsLongest | custom_components/eybond_local/collector_identity.py:98-137 | a conflict-free run ends with its longest observation |
| Identity.RunsConvergeInAnyOrder | custom_components/eybond_local/collector_identity.py:67-137 | a run is conflict-free exactly when its observations match pair by pair, and then ends with the longest |
| Identity.OrderDoesNotMatter | custom_components/eybond_local/collector_identity.py:67-137 | any reordering of a conflict-free run is conflict-free with the same durable PN |
| Identity.FirstStrongSourceIsKept | custom_components/eybond_local/collector_identity.py:43-58 | identity evidence is strong from the first strong observation on, and keeps that one |
| EvidenceLaws.TenCharactersMakeAPrefix | custom_components/eybond_local/collector_identity.py:67-83 | ten shared characters identify and nine do not, equal PNs do whatever their length, and empty ones do not |
| Coalescing.KnownIdentities | custom_components/eybond_local/collector_identity.py:21-46 | the three strong sources, and what can and cannot be a PN |
| Registry.Projection | custom_components/eybond_local/connection/session_registry.py:217-266 | the coalesced view consists of inventory sockets with an id |
| Registry.ProjectionHasDistinctCollectors | custom_components/eybond_local/connection/session_registry.py:217-266 | no two candidates of the coalesced view are the same collector |
| Registry.AbsorbedByTheSameCollector | custom_components/eybond_local/connection/session_registry.py:238-254 | one observation is absorbed by a candidate of the same collector that is at least as strongly identified |
| Coalescing.AbsorbIsUpdate | custom_components/eybond_local/connection/session_registry.py:232-255 | one observation changes only the first candidate of its collector, or is appended |
| Coalescing.TheStrongerObservationStays | custom_components/eybond_local/connection/session_registry.py:239-252 | of two observations of one collector the strongly identified one stays, then the longer PN, then the first |
| Coalescing.DiscoverableStates | custom_components/eybond_local/connection/session_registry.py:128-141 | live sessions are discoverable, closed or still anonymous ones are not, and one on a wrong route exactly if strongly identified |
| Coalescing.RepresentationStep | custom_components/eybond_local/connection/session_registry.py:232-255 | one observation leaves a PN represented exactly if it leaves a candidate for it, or there was one and the observation does not turn it into another collector |
| Coalescing.RepresentedIffHeld | custom_components/eybond_local/connection/session_registry.py:217-261 | a PN is represented in the coalesced view exactly when some row left a candidate for it and no later row turned that into another collector |
| Coalescing.UnambiguousRowsAreRepresented | custom_components/eybond_local/connection/session_registry.py:217-261 | when no PN stands between two different collectors every identified row is represented, whatever the order |
| Coalescing.CoalescingCanLoseACollector | custom_components/eybond_local/connection/session_registry.py:223-228 | a strong short PN, a weak full one and another strong full one: the weak collector is in no candidate |
| Registry.Unclaimed | custom_components/eybond_local/connection/session_registry.py:291-298 | exactly the candidates of the coalesced view without owner and discoverable, all of them live inventory sockets with an id |
| ListenerInventory.IterObservedSessions | custom_components/eybond_local/passive_discovery.py:477-527 | the inventory loop over listeners yields the first sighting of every socket |
| ListenerInventory.FirstsAreOnePerSocket | custom_components/eybond_local/passive_discovery.py:477-527 | every sighted socket is kept under exactly one of its sightings |
| ListenerInventory.RowsKeepTheirPort | custom_components/eybond_local/passive_discovery.py:516-518 | a port a row already has goes before its listener's, and everything else is the row's |
| ListenerInventory.InventoryListsSocketsOnceIff | custom_components/eybond_local/passive_discovery.py:516-518 | a socket key is listed twice exactly when rows of two listeners name one port for one id; never when rows name no port of their own |
| ListenerInventory.ForeignPortsCanListASocketTwice | custom_components/eybond_local/passive_discovery.py:516-518 | two listeners whose rows name a third port, and one socket key listed twice |
| Discovery.PassiveCallbackDiscovery.constructor | custom_components/eybond_local/passive_discovery.py:105-147 | a new service has seen, hidden and published nothing |
| Discovery.PassiveCallbackDiscovery.BeginActiveProbeScope | custom_components/eybond_local/passive_discovery.py:154-160 | a scope records the sockets of the moment as its baseline and changes nothing else |
| Discovery.PassiveCallbackDiscovery.EndActiveProbeScope | custom_components/eybond_local/passive_discovery.py:162-204 | the whole new state after ending a scope, with and without a retain set |
| Discovery.PassiveCallbackDiscovery.RetireEntrySessions | custom_components/eybond_local/passive_discovery.py:206-278 | the whole new state after retiring an entry, with at most one exact ticket |
| Discovery.PassiveCallbackDiscovery.ResumeEntrySessions | custom_components/eybond_local/passive_discovery.py:280-288 | the whole new state after a cancelled removal |
| Discovery.PassiveCallbackDiscovery.TakeEntryRemovalTicket | custom_components/eybond_local/passive_discovery.py:290-301 | the ticket, and the whole new state with the quarantine untouched |
| Discovery.PassiveCallbackDiscovery.SnapshotUnclaimedCollectorSessions | custom_components/eybond_local/passive_discovery.py:303-353 | exactly the well-formed unclaimed sockets outside the quarantine |
| Discovery.PassiveCallbackDiscovery.ShowDiscoveredDevicesAgain | custom_components/eybond_local/passive_discovery.py:355-389 | clears history, probing and retirement but not quarantine, polls, and counts what had been hidden |
| Discovery.PassiveCallbackDiscovery.CaptureActiveProbeSessions | custom_components/eybond_local/passive_discovery.py:398-417 | sockets new to an open scope are suppressed and every marker is trimmed to the live inventory |
| Discovery.PassiveCallbackDiscovery.PruneNotifiedForObservedSessions | custom_components/eybond_local/passive_discovery.py:1036-1079 | history survives exactly while the projection shows what it stands for |
| Discovery.PassiveCallbackDiscovery.ForgetAborted | custom_components/eybond_local/passive_discovery.py:1164-1187 | aborted flows leave the history, nothing else does |
| Discovery.PassiveCallbackDiscovery.PollOnce | custom_components/eybond_local/passive_discovery.py:624-751 | the cards of one poll and the whole new state |
| Discovery.PassiveCallbackDiscovery.TryPublish | custom_components/eybond_local/passive_discovery.py:663-751 | a candidate gets a card exactly when no check holds it back, and is then remembered |
| DiscoveryRuns.QuarantineStep | custom_components/eybond_local/passive_discovery.py:206-301 | one event leaves a socket quarantined exactly if it captures it, or it was quarantined and is neither released nor seen gone |
| DiscoveryRuns.QuarantinedIsHidden | custom_components/eybond_local/passive_discovery.py:319-321 | a quarantined socket is in no interactive snapshot and on no card |
| DiscoveryRuns.TakenSocketStaysHidden | custom_components/eybond_local/passive_discovery.py:290-301 | after a ticket is taken, a pending quarantined socket stays out of snapshots and cards under every interleaving, until a poll sees it gone or an entry still holding it resumes |
| DiscoveryRuns.RemovedSocketStaysHidden | custom_components/eybond_local/passive_discovery.py:290-301 | over every run from the start, a socket pending for a removed entry that no resume of another holder released stays out of snapshots and cards until it is released or seen gone |
| DiscoveryRuns.PendingSocketCanBeShown | custom_components/eybond_local/passive_discovery.py:280-301 | a concrete run in which a pending socket is shown after its ticket was taken, because another entry that also held it resumed |
| DiscoveryRuns.PendingIsQuarantinedUnlessReleased | custom_components/eybond_local/passive_discovery.py:206-301 | over every run a pending socket is not quarantined exactly when, after its last capture, some entry that held it was resumed |
| DiscoveryRuns.ReleasedSocketIsShown | custom_components/eybond_local/passive_discovery.py:280-288 | a reload that resumes brings the socket back to the interactive snapshot |
| DiscoveryRuns.RetiredStep | custom_components/eybond_local/passive_discovery.py:382-412 | one event leaves a socket retired exactly if it captures it, or it was retired and the event is no show-again and does not see it gone; a retired socket gets no card |
| DiscoveryRuns.PendingIsRetiredUnlessShownAgain | custom_components/eybond_local/passive_discovery.py:206-389 | over every run a pending socket is not retired exactly when a show-again followed its last capture |
| DiscoveryRuns.RetiredSocketStaysUnpublished | custom_components/eybond_local/passive_discovery.py:382-412 | a retired socket stays off every card until it closes or show-again runs, under every interleaving |
| DiscoveryRuns.ResumedSocketStaysUnpublished | custom_components/eybond_local/passive_discovery.py:280-288 | over every run from the start, a resumed pending socket that no show-again touched since its capture stays off every card until it closes or show-again runs |
| DiscoveryRuns.ResumedSocketIsSuppressedIff | custom_components/eybond_local/passive_discovery.py:419-428 | after a resume a pending socket is suppressed exactly when probing suppressed it or no show-again followed its last capture |
| DiscoveryRuns.ResumedSocketCanBePublished | custom_components/eybond_local/passive_discovery.py:382-385 | a concrete run, retire, show-again, resume, after which the next poll puts the same socket on a card |
| DiscoveryRuns.CardsAreEdgeTriggered | custom_components/eybond_local/passive_discovery.py:624-751 | between two cards of one PN on one port lies a poll that lacked or forgot it, or a show-again |
| DiscoveryRuns.CardsOfOnePollDiffer | custom_components/eybond_local/passive_discovery.py:701-751 | one poll never puts up two cards for one PN on one port |
| PublicationRuns.NoteStep | custom_components/eybond_local/passive_discovery.py:1036-1079 | exactly what one event leaves in the history: what was there, is still listed and was not aborted, and the notes of its own cards |
| PublicationRuns.UnlistedIsForgotten | custom_components/eybond_local/passive_discovery.py:1036-1079 | after a look whose view has no row for the PN on that port, or for that session, it is not remembered |
| PublicationRuns.PollPublishes | custom_components/eybond_local/passive_discovery.py:624-751 | a poll puts every free, discoverable candidate that nothing hides or holds and that it does not remember on a card, or another candidate of its PN or session on that port |
| PublicationRuns.CardsArePublishedRightly | custom_components/eybond_local/passive_discovery.py:624-751 | and only those: a card is free, unhidden, not held, with a peer and a wire-safe PN, and was not remembered |
| PublicationRuns.ReturningCollectorIsPublished | custom_components/eybond_local/passive_discovery.py:1039-1043 | from any state: once a look lists neither the collector nor its new session, the next look at its free, unhidden socket puts it up again |
| PublicationRuns.ReturningCollectorFromTheStart | custom_components/eybond_local/passive_discovery.py:1039-1043 | three polls from the start, seen, gone and back on another socket: a card at the first, none at the second, and one at the third |
| PublicationRuns.SnapshotShows | custom_components/eybond_local/passive_discovery.py:303-353 | a search shows exactly the free, discoverable candidates outside the quarantine that say who and where they are |
| DiscoveryRuns.PendingStepExactly | custom_components/eybond_local/passive_discovery.py:206-301 | exactly what one event does to the sockets pending for an entry |
| DiscoverySteps.PollIsItsSteps | custom_components/eybond_local/passive_discovery.py:624-751 | a poll that nothing interrupts does exactly what its steps between awaits do |
| DiscoverySteps.SocketStep | custom_components/eybond_local/passive_discovery.py:624-751 | exactly what one such step does to the quarantine and the retirement of one socket |
| DiscoverySteps.RemovedSocketStaysHiddenInside | custom_components/eybond_local/passive_discovery.py:290-301 | a removed socket stays out of snapshots and cards also when operations and other polls come between the steps of a poll |
| DiscoverySteps.RetiredSocketStaysUnpublishedInside | custom_components/eybond_local/passive_discovery.py:382-412 | a retired socket stays off every card until it closes or show-again runs, also inside polls |
| DiscoverySteps.RememberedCardsAreEdgeTriggered | custom_components/eybond_local/passive_discovery.py:717-751 | once a card is remembered, another one for the same PN and port needs a step in between that reopened it |
| DiscoverySteps.OfferRepeatsUntilRemembered | custom_components/eybond_local/passive_discovery.py:701-751 | until a started flow is remembered the same offer starts it again, and from then on it does not |
| DiscoverySteps.OverlappingPollsCanPublishTwice | custom_components/eybond_local/passive_discovery.py:701-751 | two polls that check one candidate before either remembers it both put up its card |
| ProbeRuns.PollSuppressesNewSockets | custom_components/eybond_local/passive_discovery.py:398-417 | after every poll each live socket new to an open scope is suppressed and every marker set is within the live inventory |
| ProbeRuns.EndScopeReleasesExactly | custom_components/eybond_local/passive_discovery.py:182-204 | ending a scope releases exactly its new sockets that are neither retained nor new to another open scope, and changes nothing else |
| ProbeRuns.ProbedStep | custom_components/eybond_local/passive_discovery.py:154-204 | for every event and socket: suppressed by probing after it exactly if the event marks the socket, or it was suppressed and the event does not let go of it |
| ProbeRuns.ProbedIffMarked | custom_components/eybond_local/passive_discovery.py:154-204 | over every run a socket is suppressed by probing exactly when some event marked it and none since let go of it |
| ProbeRuns.EarlierSocketNeedsRetainOrMiss | custom_components/eybond_local/passive_discovery.py:154-204 | a socket first seen with no scope open is marked only by a retain set that names it, or after a scope began while the inventory missed it |
| ProbeRuns.EarlierSocketIsProbedIffRetained | custom_components/eybond_local/passive_discovery.py:186-204 | the case in which every baseline lists that socket: it is suppressed by probing exactly when some retain set named it and neither a show-again nor its closing came since |
| ProbeRuns.EarlierSocketCanBeProbed | custom_components/eybond_local/passive_discovery.py:186-204 | a concrete scope whose retain set names a socket older than the scope suppresses it |
| ProbeRuns.MissedSocketCanBeProbed | custom_components/eybond_local/passive_discovery.py:503-506 | a concrete run, poll, a scope that begins while the listener does not answer, poll, suppresses an older socket with no retain set |
| TicketRuns.TicketStep | custom_components/eybond_local/passive_discovery.py:206-301 | what each event leaves of a ticket and of the socket it names |
| TicketRuns.TicketStepExactly | custom_components/eybond_local/passive_discovery.py:206-301 | exactly when one event leaves an entry a ticket, which one, and what taking it returns |
| TicketRuns.ChosenRowGetsTheTicket | custom_components/eybond_local/passive_discovery.py:234-278 | the claimed socket, or without a claim the only one that may restart, gets the ticket exactly when one can describe it |
| TicketRuns.TicketsAreForChosenRows | custom_components/eybond_local/passive_discovery.py:234-278 | nothing else gets a ticket |
| TicketRuns.TicketsNeedPendingSockets | custom_components/eybond_local/passive_discovery.py:206-301 | over every run an entry has a ticket only while it has a pending socket |
| TicketRuns.TicketNamesPendingSocketIff | custom_components/eybond_local/passive_discovery.py:206-301 | over every run the socket on a ticket is still pending exactly when no look at the inventory since the latest unload saw it gone |
| TicketRuns.TicketCanOutliveItsSocket | custom_components/eybond_local/passive_discovery.py:413-417 | a concrete run whose ticket names a socket that is gone, because another pending socket keeps it |
| Calendar.NextDayIsOneLater | custom_components/eybond_local/dessmonitor_time_basis.py:73-78 | Gregorian day arithmetic: the next day is one ordinal later, and leaves the calendar only after its last day |
| Calendar.PreviousDayIsOneEarlier | custom_components/eybond_local/dessmonitor_time_basis.py:73-78 | the previous day is one ordinal earlier, and leaves the calendar only before its first day |
| Calendar.FieldOrderIsTimeOrder | custom_components/eybond_local/dessmonitor_time_basis.py:73-78 | comparing year, month, day and second compares moments |
| Calendar.ToUtcShiftsByOffset | custom_components/eybond_local/dessmonitor_time_basis.py:73-78 | a conversion moves time by exactly the offset and overflows exactly outside years 1 to 9999 |
| Calendar.ToUtcKeepsOrder | custom_components/eybond_local/dessmonitor_time_basis.py:73-78 | conversion keeps strict order in both directions |
| TextLaws.KnownDays | custom_components/eybond_local/dessmonitor_time_basis.py:73-78 | leap years, and the day numbers of known dates |
| TextLaws.KnownConversions | custom_components/eybond_local/dessmonitor_time_basis.py:73-78 | east of Greenwich is earlier in UTC, across midnight and across a leap day; and offsets that are and are not accepted |
| Timestamps.TextOrderIsTimeOrder | custom_components/eybond_local/dessmonitor_history.py:175-185 | string order of both timestamp formats is chronological order |
| Timestamps.LocalRoundTrip | custom_components/eybond_local/dessmonitor_history.py:79-94 | local timestamps parse exactly when they are the canonical print of what they parse to |
| TextLaws.PrintedDate | custom_components/eybond_local/dessmonitor_history.py:68-76 | four, two and two digits between dashes are the year, month and day |
| TextLaws.PrintedForm | custom_components/eybond_local/dessmonitor_time_basis.py:73-78 | a space between date and clock in local time, a T and the offset in UTC |
| TextLaws.OrderOfText | custom_components/eybond_local/dessmonitor_history.py:175-185 | text is ordered by its first difference, and a beginning goes before what it begins |
| TextLaws.FormsAreDecimal | custom_components/eybond_local/dessmonitor_history.py:97-105 | sign, digits with at most one point, exponent: every such text is a number |
| TextLaws.DecimalsHaveForm | custom_components/eybond_local/dessmonitor_history.py:97-105 | and nothing else is |
| TextLaws.StripTakesSpaces | custom_components/eybond_local/dessmonitor_cloud.py:677 | stripping takes the spaces at both ends and nothing else |
| Timestamps.PrintedUtcIsUtcText | custom_components/eybond_local/dessmonitor_history_resolution.py:31-49 | every printed UTC timestamp is accepted as one |
| TimeBases.BasisRoundTrip | custom_components/eybond_local/dessmonitor_time_basis.py:80-136 | printing and parsing a time basis are exact inverses in both directions |
| TimeBases.ParseDeviceTimeBasis | custom_components/eybond_local/dessmonitor_time_basis.py:139-192 | a time basis exactly when one row matches the device, carrying that row's offset |
| TimeBases.MatchingRowsMatch | custom_components/eybond_local/dessmonitor_time_basis.py:150-188 | the candidates are exactly the matching rows |
| EvidenceLaws.RowMatches | custom_components/eybond_local/dessmonitor_time_basis.py:163-184 | a row is for the device exactly with one PN identity, the other three numbers equal, and an offset of whole minutes from -12 to +14 hours |
| EvidenceLaws.BasisRecordSays | custom_components/eybond_local/dessmonitor_time_basis.py:80-89 | the record says the identity, the offset and its authority under their own names |
| Records.IdentityRoundTrip | custom_components/eybond_local/dessmonitor_cloud.py:109-133 | printing and parsing a device identity are exact inverses in both directions |
| Records.ListParsesIff | custom_components/eybond_local/dessmonitor_history.py:266-281 | a list of records parses exactly when every record does, to the values of the records |
| Records.ListRaisesIff | custom_components/eybond_local/dessmonitor_collection.py:291-296 | a list raises exactly when some record raises and all before it parse |
| Records.ListFromRecord | custom_components/eybond_local/dessmonitor_history.py:266-281 | the loop that appends parsed records computes that |
| History.CheckPoints | custom_components/eybond_local/dessmonitor_history.py:175-185 | the constructor's loop accepts exactly strictly ascending points of the requested date |
| History.PointRoundTrip | custom_components/eybond_local/dessmonitor_history.py:121-138 | printing and parsing one point are exact inverses in both directions |
| History.SeriesRoundTrip | custom_components/eybond_local/dessmonitor_history.py:191-304 | printing and parsing a series are exact inverses in both directions |
| History.SeriesFromRecord | custom_components/eybond_local/dessmonitor_history.py:214-304 | the parser with its loop computes that inverse |
| EvidenceLaws.AcceptedHeaders | custom_components/eybond_local/dessmonitor_history.py:153-170 | a series names a device, a key, optional words, a day, and the precision its source allows |
| EvidenceLaws.SeriesRecordSays | custom_components/eybond_local/dessmonitor_history.py:191-213 | the record says each part of the series under its own name, and that nothing is resolved or mapped |
| History.NormalizedPoints | custom_components/eybond_local/dessmonitor_history.py:329-351 | refused exactly for a non-list, too many rows or two usable rows of one moment; otherwise exactly the usable points, strictly ascending |
| EvidenceLaws.PointsAreOfUsableRows | custom_components/eybond_local/dessmonitor_history.py:307-327 | the usable points are exactly those of rows with a timestamp of the day and a number under their fields |
| EvidenceLaws.PayloadFields | custom_components/eybond_local/dessmonitor_history.py:354-427 | where the points and the unit of the two payloads are |
| History.PointsByStamp | custom_components/eybond_local/dessmonitor_history.py:340-350 | the dictionary holds exactly the usable points, and fails exactly on a repeated moment |
| History.SortedByStamp | custom_components/eybond_local/dessmonitor_history.py:351-351 | the values of the dictionary in ascending timestamp order |
| History.ParseKeyParameterHistory | custom_components/eybond_local/dessmonitor_history.py:354-383 | parses exactly the readable payloads, always into a valid series of the usable points |
| History.ParseSoleChartHistory | custom_components/eybond_local/dessmonitor_history.py:386-427 | parses exactly the readable payloads with a usable header, always into a valid series of the usable points |
| Resolution.ConversionKeepsTextOrder | custom_components/eybond_local/dessmonitor_history_resolution.py:129-134 | ascending local text stays ascending as UTC text |
| Resolution.ConvertedPointsAreFine | custom_components/eybond_local/dessmonitor_history_resolution.py:115-135 | the constructor finds nothing to object to in converted points |
| Resolution.JudgeSeries | custom_components/eybond_local/dessmonitor_history_resolution.py:103-135 | the constructor's loop: accepted, mismatched or overflowing |
| Resolution.ResolveHistoryTimeBasis | custom_components/eybond_local/dessmonitor_history_resolution.py:221-246 | with one identity, resolving never fails on order and succeeds exactly when every shifted moment is representable; the result is valid and keeps its source |
| Resolution.OtherDaysAreConvertible | custom_components/eybond_local/dessmonitor_time_basis.py:73-78 | only the first and the last day of the calendar can overflow |
| Resolution.FineIffConverted | custom_components/eybond_local/dessmonitor_history_resolution.py:115-135 | the constructor finds nothing wrong exactly when the points are the converted source points |
| Resolution.OverflowExactly | custom_components/eybond_local/dessmonitor_history_resolution.py:115-135 | the constructor raises the uncaught overflow exactly when all points before some point are converted source points, and that one repeats a source point that cannot be converted |
| Resolution.ParserRaisesIff | custom_components/eybond_local/dessmonitor_history_resolution.py:157-218 | the record parser raises exactly on the well-shaped records whose parts parse to such a series |
| Resolution.LateMomentOverflows | custom_components/eybond_local/dessmonitor_time_basis.py:73-78 | a valid local timestamp of the last day that overflows in the westernmost zone |
| Resolution.SomeRecordRaises | custom_components/eybond_local/dessmonitor_history_resolution.py:157-218 | for every device a concrete record on which the parser raises |
| Resolution.PointRoundTrip | custom_components/eybond_local/dessmonitor_history_resolution.py:67-93 | printing and parsing a resolved point are exact inverses in both directions |
| Resolution.ResolvedRoundTrip | custom_components/eybond_local/dessmonitor_history_resolution.py:141-218 | printing and parsing a resolved series are exact inverses in both directions |
| Resolution.ResolvedFromRecord | custom_components/eybond_local/dessmonitor_history_resolution.py:157-218 | the parser with its loop computes that inverse, or the overflow |
| EvidenceLaws.ResolvedRecordSays | custom_components/eybond_local/dessmonitor_history_resolution.py:141-155 | the record says source, basis, points and count, and that no mapping is proven |
| Collection.CheckSeries | custom_components/eybond_local/dessmonitor_collection.py:154-172 | accepts exactly series of one identity, basis and date with distinct keys |
| Collection.CheckCollection | custom_components/eybond_local/dessmonitor_collection.py:117-182 | accepts exactly what the accounting rule allows |
| EvidenceLaws.AcceptedCollections | custom_components/eybond_local/dessmonitor_collection.py:117-182 | with a basis a collection is accepted exactly when its counts add up and its series are of one device, basis and day under different keys; without one exactly when it is empty |
| EvidenceLaws.StatusSays | custom_components/eybond_local/dessmonitor_collection.py:184-192 | missing basis, nothing collected, something lost, or everything there |
| EvidenceLaws.CollectionRecordSays | custom_components/eybond_local/dessmonitor_collection.py:202-225 | the record says each part and each count under its own name, and that it is read-only |
| EvidenceLaws.PointsAddUp | custom_components/eybond_local/dessmonitor_collection.py:198-200 | the point count is the sum over the series |
| Collection.CollectionRoundTrip | custom_components/eybond_local/dessmonitor_collection.py:202-318 | printing and parsing are exact inverses through all four nested levels, so derived fields never disagree with their sources |
| Collection.CollectionRaisesIff | custom_components/eybond_local/dessmonitor_collection.py:227-318 | the parser raises exactly when nothing before the series is refused and, after series that parse, one raises |
| Collection.CollectionFromRecord | custom_components/eybond_local/dessmonitor_collection.py:227-318 | the parser with its loops computes that inverse |
| Collecting.ReadParameter | custom_components/eybond_local/dessmonitor_collection.py:476-507 | one attempt succeeds or overflows exactly on a readable reply, and the series is the field's payload under the field's labels |
| Collecting.ReadChart | custom_components/eybond_local/dessmonitor_collection.py:529-548 | the fallback attempt succeeds or overflows exactly on a readable chart reply |
| Collecting.Wanted | custom_components/eybond_local/dessmonitor_collection.py:457-466 | the ids the loop is willing to ask for: each non-empty id once |
| Collecting.WalkKeyParameters | custom_components/eybond_local/dessmonitor_collection.py:466-514 | the loop makes exactly the attempts the clock, the limit and the replies allow, keeps exactly what their replies say, and escapes exactly when an attempt it makes overflows |
| Collecting.RunsEndOneWay | custom_components/eybond_local/dessmonitor_collection.py:466-507 | a run ends after one number of attempts with one verdict on the budget, and then no attempt it made overflowed |
| Collecting.LateRunEscapes | custom_components/eybond_local/dessmonitor_collection.py:477-499 | a concrete device, zone, day and reply for which the overflow escapes from the run |
| Collecting.CollectedFits | custom_components/eybond_local/dessmonitor_collection.py:466-514 | whatever was collected has distinct keys, one identity, basis and date |
| Collecting.FallBackOnChart | custom_components/eybond_local/dessmonitor_collection.py:524-552 | the chart is asked once, only with budget left; its outcome always satisfies the constructor, and it escapes exactly when the chart is asked and overflows |
| Collecting.CollectHistory | custom_components/eybond_local/dessmonitor_collection.py:439-563 | for every pattern of failures and clock readings the constructor accepts the result exactly when the key list is empty or names some field; an overflow escapes exactly when an attempt that is made overflows, which takes the first or last day of the calendar |
| Collecting.WantedIffCollectable | custom_components/eybond_local/dessmonitor_collection.py:459-470 | something is wanted exactly when some field has an id |
| Collecting.WithoutTimeBasis | custom_components/eybond_local/dessmonitor_collection.py:424-453 | the early results without a time basis are valid collections |
| CloudMetadata.TextIsNormalUnlessCutBehindSpace | custom_components/eybond_local/dessmonitor_cloud.py:670-677 | provider text is normalised exactly unless it is longer than 512 and the cut falls behind a space |
| CloudMetadata.NormalizeLastData | custom_components/eybond_local/dessmonitor_cloud.py:680-709 | the first fields offered by all sections up to the limit, or the value error of one of them |
| CloudMetadata.AppendSection | custom_components/eybond_local/dessmonitor_cloud.py:691-708 | one section appends up to the shared limit |
| CloudMetadata.BuildRows | custom_components/eybond_local/dessmonitor_cloud.py:717-733 | the shared row loop constructs exactly the offered fields, or raises when one is not well formed |
| CloudMetadata.NormalizeChartFields | custom_components/eybond_local/dessmonitor_cloud.py:712-734 | chart fields of the rows within the limit |
| CloudMetadata.NormalizeKeyParameters | custom_components/eybond_local/dessmonitor_cloud.py:737-793 | live keys first, then rows within what is left |
| CloudMetadata.KeyOffers | custom_components/eybond_local/dessmonitor_cloud.py:752-793 | live keys and rows together never exceed the limit |
| CloudMetadata.LiveKeyIsWellFormedUnlessEdgedByUnderscore | custom_components/eybond_local/dessmonitor_cloud.py:753-774 | a live key is refused by its own title exactly when it is unlisted and starts or ends with an underscore |
| CloudMetadata.NormalizeControlFields | custom_components/eybond_local/dessmonitor_cloud.py:796-826 | control fields of the rows within the limit |
| CloudMetadata.ReadChoices | custom_components/eybond_local/dessmonitor_cloud.py:809-816 | the loop keeps complete choices under distinct values |
| CloudMetadata.Choices | custom_components/eybond_local/dessmonitor_cloud.py:809-816 | choices have distinct non-empty values and non-empty labels |
| CloudMetadata.WithControlValues | custom_components/eybond_local/dessmonitor_cloud.py:829-883 | order and metadata are kept, exactly the planned requests up to the first transport failure are made, answers land on their own field, unavailable means some request failed, and the value error comes exactly from a shown text that is not normalised |
| CloudMetadata.AskedIsTheOnlyOne | custom_components/eybond_local/dessmonitor_cloud.py:844-863 | the number of requests is the only one that stops at the first transport failure |
| CloudMetadata.CollectMetadata | custom_components/eybond_local/dessmonitor_cloud.py:1024-1055 | each normaliser gets what the earlier ones left, the total is at most 512, the bundle limit check never fires, and the collection raises exactly when a normaliser does, the value limit is negative or a shown value is not normalised |
| CloudLaws.BudgetIsShared | custom_components/eybond_local/dessmonitor_cloud.py:1024-1037 | for four payloads whose rows each show a field or none, the bundle holds exactly the fields within 512: latest values first, then chart fields, key parameters and controls within what is left |
| CloudLaws.ShownValuesAreRead | custom_components/eybond_local/dessmonitor_cloud.py:680-709 | for rows that each show a field or none, the result is those fields, id, title, value and unit each from its own key, section by section and row by row, up to the limit |
| CloudLaws.ShownChartFieldsAreRead | custom_components/eybond_local/dessmonitor_cloud.py:712-734 | the same for chart fields, where the limit counts rows |
| CloudLaws.ShownKeyParametersAreRead | custom_components/eybond_local/dessmonitor_cloud.py:737-793 | the same for key parameters: live keys first, then rows within what is left |
| CloudLaws.KeyRowsAreTheFirstList | custom_components/eybond_local/dessmonitor_cloud.py:740-751 | the rows are the payload itself or the first of four entries that is a list |
| CloudLaws.UnlistedTitles | custom_components/eybond_local/dessmonitor_cloud.py:761-764 | an unlisted live key is shown with spaces for underscores, in title case |
| CloudLaws.ListedTitles | custom_components/eybond_local/dessmonitor_cloud.py:761-764 | the titles of the listed live keys |
| CloudLaws.ShownControlsAreRead | custom_components/eybond_local/dessmonitor_cloud.py:796-826 | the same for controls, with hint, unit and choices |
| CloudLaws.ShownChoicesAreKept | custom_components/eybond_local/dessmonitor_cloud.py:809-816 | choices under values of their own are kept in row order; incomplete and repeated ones are passed over |
| CloudLaws.AnswersAreShown | custom_components/eybond_local/dessmonitor_cloud.py:829-883 | a control shows the text of its own answer, or nothing, and keeps its metadata |
| CloudLaws.NormalTextIsKept | custom_components/eybond_local/dessmonitor_cloud.py:670-677 | normalised text is kept, and what is neither text nor a scalar is no text |
| CloudLaws.LongTextIsCut | custom_components/eybond_local/dessmonitor_cloud.py:670-677 | longer text keeps its first 512 characters |
| CloudMetadata.FieldsStayWithinLimit | custom_components/eybond_local/dessmonitor_cloud.py:680-826 | no normaliser exceeds the limit it was given |
| CloudMetadata.UnnamedRowsDefeatCollection | custom_components/eybond_local/dessmonitor_cloud.py:779-785 | a titled row without an id is admitted, and then no history collection can be constructed |
| CloudMetadata.EdgedLiveKeyRaises | custom_components/eybond_local/dessmonitor_cloud.py:753-774 | one live key that starts with an underscore makes the normaliser raise |
| CloudMetadata.CutTitleRaises | custom_components/eybond_local/dessmonitor_cloud.py:776-792 | one title whose cut falls behind a space makes the normaliser raise |
| CloudMetadata.LongSectionRaises | custom_components/eybond_local/dessmonitor_cloud.py:686-708 | a section name of more than 512 characters makes the normaliser raise |
| Endpoint.HostIsOneWord | custom_components/eybond_local/collector_endpoint.py:99-123 | an accepted host holds no comma and no surrounding space |
| EndpointLaws.HostForm | custom_components/eybond_local/collector_endpoint.py:355-361 | a bare host, spaces aside, gets its default port and TCP, unless a port is demanded |
| EndpointLaws.HostPortForm | custom_components/eybond_local/collector_endpoint.py:362-370 | host and port get TCP, unless a protocol is demanded |
| EndpointLaws.FullForm | custom_components/eybond_local/collector_endpoint.py:371-376 | host, port and protocol are taken as they are, the protocol in capitals, TCP only where demanded |
| EndpointLaws.FourWordsAreRefused | custom_components/eybond_local/collector_endpoint.py:377-378 | a text with more commas is refused |
| EndpointLaws.KnownProtocols | custom_components/eybond_local/collector_endpoint.py:139-151 | capitals and spaces do not matter to a protocol |
| EndpointLaws.DigitsAreAPort | custom_components/eybond_local/collector_endpoint.py:126-136 | digits are a port exactly when their number is, with or without a plus sign or leading zeros |
| EndpointLaws.Underscores | custom_components/eybond_local/collector_endpoint.py:126-136 | one underscore between digits says nothing; at an end or doubled it spoils the number |
| EndpointLaws.DefaultPorts | custom_components/eybond_local/collector_endpoint.py:154-165 | the family's own port, and otherwise 502 for the old binary family and 18899 for all others |
| EndpointLaws.DottedHosts | custom_components/eybond_local/collector_endpoint.py:116-123 | a label in front of a host is a host exactly when both parts are fine and short enough together |
| EndpointLaws.OneLabelHosts | custom_components/eybond_local/collector_endpoint.py:116-123 | a name without a dot is a host exactly when it is a label |
| Endpoint.IntTextReadsBack | custom_components/eybond_local/collector_endpoint.py:126-136 | a printed port is one word and reads back as itself |
| Endpoint.ProtocolsParseToValidOnes | custom_components/eybond_local/collector_endpoint.py:139-151 | accepted protocols are stable under parsing |
| Endpoint.InspectedPartsAreValid | custom_components/eybond_local/collector_endpoint.py:345-398 | parsing yields only valid parts |
| Endpoint.ShapedTextReadsBack | custom_components/eybond_local/collector_endpoint.py:88-96 | all valid parts survive printing in their own shape, in all three shapes |
| Endpoint.FullTextReadsBack | custom_components/eybond_local/collector_endpoint.py:88-96 | the full print reads back exactly when the port is in range, with both flags set |
| Endpoint.ShapedRoundTrip | custom_components/eybond_local/collector_endpoint.py:345-457 | re-parsing the shaped print of any accepted endpoint gives the same parts and flags, and shaped normalisation is idempotent |
| Endpoint.FullNormalisationIsIdempotentIff | custom_components/eybond_local/collector_endpoint.py:441-457 | full normalisation is idempotent exactly when the default port, if it is used, is a port |
| Endpoint.OversizedCatalogPortIsNotReadBack | custom_components/eybond_local/collector_endpoint.py:383-387 | a catalog under which a bare host is accepted but its full print is not |

## Left out

- IEEE rounding, NaN and infinity: arithmetic is over exact reals, so an alias of an infinite or undefined reading is not modelled.
- A list or dictionary as the value of a flow state key: the source raises a type error when it looks it up in a set; here it names no charging source.
- Telemetry keys, drivers and packs are enumerated, with one case for every other name; that case under an enumerated name stands for nothing in the source and is refused as not strict.
- The untyped runtime cache beside the typed frame, which treats a key both set and removed differently from the typed fold.
- EnergyFlows.RoutedEnergyStaysWithinBudgets: takes one stream of refreshes for all routes, because the sensors that feed the accumulators are not part of this model.
- The cycling accumulator holds a plain one instead of inheriting from it, and period keys are values instead of text.
- The descriptions of derived energy sensors and the other variants of derived power, which only select keys or add.
- Discovery.PassiveCallbackDiscovery.PollOnce: is one step on one inventory snapshot; what may come between its awaits is in the runs of DiscoverySteps. The flows aborted around it, the entries and flows that hold a candidate back, and the settling time of weak identities are part of its environment.
- Registry claims, handoffs and ownership rules: the owner of every socket is part of the environment, so no disjointness of owners is assumed.
- Publication history written by older instances without a prefix, and the removal of equal history entries before they are written again, which has no effect.
- Listener start, stop and release; entry upgrades during a poll; logging.
- TimeBases.ParseDeviceTimeBasis: takes rows with their fields already read by exact type, because the accepted payload shapes are single-branch facts.
- Timestamps.LocalRoundTrip: accepts years 0001 to 9999 everywhere, although the platform printing of years below 1000 may make the source refuse some of them.
- Decimal exponents beyond what the decimal library accepts, and decimal digits outside ASCII.
- Non-ASCII text: stripping, upper and lower case and titles are those of ASCII, so letters whose upper case turns into ASCII are not modelled.
- The IPv4 branch of the host check: an address in dotted form is also a host name, and anything with a colon is refused either way.
- CloudMetadata.TextOf: takes the text that printing a number or truth value shows as part of the payload.
- The retry of required metadata actions, unavailable-action lists, raw packet digests, and the refusal of a bundle with nothing in it.
- Login, signing, URL building, HTTP and progress callbacks: a request may succeed, be rejected, or fail.
- The write-shape and profile helpers of the endpoint module, which only choose flags for the printer.
