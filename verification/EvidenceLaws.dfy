/** What the evidence records say field by field, which rows count, and what a collection amounts to. */
module EvidenceLaws {
  import opened Numbers
  import opened Text
  import opened Timestamps
  import opened Records
  import opened TimeBases
  import I = Identity
  import H = History
  import R = Resolution
  import C = Collection

  // ---- records say what they are records of --------------------------------------------

  /** The record has this value under this field. */
  predicate Says(j: Json, f: Field, v: Json) { j.Object? && f in j.fields && j.fields[f] == v }

  predicate Has(fields: map<Field, Json>, f: Field, v: Json) { f in fields && fields[f] == v }

  lemma IdentityRecordSays(x: DeviceIdentity)
    ensures var j := IdentityRecord(x);
      Says(j, Pn, Str(x.pn)) && Says(j, Sn, Str(x.sn)) && Says(j, Devcode, Int(x.devcode)) && Says(j, Devaddr, Int(x.devaddr))
  {
  }

  lemma BasisRecordSays(b: Basis)
    ensures var j := BasisRecord(b);
      && Says(j, Records.Identity, IdentityRecord(b.identity)) && Says(j, OffsetSeconds, Int(b.offset))
      && Says(j, SchemaVersion, Int(1)) && Says(j, ProviderId, Str("smartess")) && Says(j, SourceId, Str("dessmonitor"))
      && Says(j, Authority, Str("provider_exact_device_timezone_offset")) && Says(j, SourceAction, Str("queryDeviceInfo"))
  {
    hide IdentityRecord;
  }

  lemma PointRecordsSay(p: H.Point, q: R.Point)
    ensures Says(H.PointRecord(p), DeviceLocalTimestamp, Str(p.local)) && Says(H.PointRecord(p), PointValue, Str(p.value))
    ensures Says(R.PointRecord(q), DeviceLocalTimestamp, Str(q.local)) && Says(R.PointRecord(q), PointValue, Str(q.value))
    ensures Says(R.PointRecord(q), UtcTimestamp, Str(q.utc))
  {
  }

  lemma SeriesRecordSays(x: H.Series)
    ensures var j := H.SeriesRecord(x);
      && Says(j, SourceAction, Str(x.source)) && Says(j, Records.Identity, IdentityRecord(x.identity))
      && Says(j, SeriesKey, Str(x.key)) && Says(j, Title, Str(x.title)) && Says(j, Unit, Str(x.unit))
      && Says(j, RequestedDate, Str(x.date)) && Says(j, PrecisionMinutes, Int(x.precision))
      && Says(j, Points, List(H.PointRecords(x.points))) && Says(j, PointCount, Int(|x.points|))
      && Says(j, SchemaVersion, Int(1)) && Says(j, Authority, Str("cloud_history_observation_only"))
      && Says(j, ProviderId, Str("smartess")) && Says(j, SourceId, Str("dessmonitor"))
      && Says(j, TimeBasis, Str("device_local_timezone_unresolved")) && Says(j, TimezoneOffset, Str(""))
      && Says(j, LocalMapping, Str("unproven")) && Says(j, LocalMappingProven, Bool(false))
  {
    hide H.SeriesRecord, IdentityRecord, H.PointRecords, H.SERIES_CONSTANTS;
    H.SeriesRecordShows(x);
    SeriesConstants();
  }

  lemma SeriesConstants()
    ensures var c := H.SERIES_CONSTANTS;
      && Has(c, SchemaVersion, Int(1)) && Has(c, Authority, Str("cloud_history_observation_only"))
      && Has(c, ProviderId, Str("smartess")) && Has(c, SourceId, Str("dessmonitor"))
      && Has(c, TimeBasis, Str("device_local_timezone_unresolved")) && Has(c, TimezoneOffset, Str(""))
      && Has(c, LocalMapping, Str("unproven")) && Has(c, LocalMappingProven, Bool(false))
  {
  }

  lemma ResolvedRecordSays(x: R.Resolved)
    ensures var j := R.ResolvedRecord(x);
      && Says(j, SourceSeries, H.SeriesRecord(x.source)) && Says(j, TimeBasis, BasisRecord(x.basis))
      && Says(j, Points, List(R.PointRecords(x.points))) && Says(j, PointCount, Int(|x.points|))
      && Says(j, SchemaVersion, Int(1)) && Says(j, Authority, Str("provider_identity_bound_time_resolution"))
      && Says(j, ProviderId, Str("smartess")) && Says(j, SourceId, Str("dessmonitor"))
      && Says(j, LocalMapping, Str("unproven")) && Says(j, LocalMappingProven, Bool(false))
  {
    hide R.ResolvedRecord, H.SeriesRecord, BasisRecord, R.PointRecords, R.RESOLVED_CONSTANTS;
    R.ResolvedRecordShape(x);
    ResolvedConstants();
  }

  lemma ResolvedConstants()
    ensures var c := R.RESOLVED_CONSTANTS;
      && Has(c, SchemaVersion, Int(1)) && Has(c, Authority, Str("provider_identity_bound_time_resolution"))
      && Has(c, ProviderId, Str("smartess")) && Has(c, SourceId, Str("dessmonitor"))
      && Has(c, LocalMapping, Str("unproven")) && Has(c, LocalMappingProven, Bool(false))
  {
  }

  lemma CollectionRecordSays(x: C.Collection)
    ensures var j := C.CollectionRecord(x);
      && Says(j, Records.Identity, IdentityRecord(x.identity)) && Says(j, TimeBasis, C.BasisOrNull(x.basis))
      && Says(j, RequestedDate, Str(x.date)) && Says(j, AttemptedSeriesCount, Int(x.attempted))
      && Says(j, FailedSeriesCount, Int(x.failed)) && Says(j, BudgetExhausted, Bool(x.exhausted))
      && Says(j, Records.Series, List(C.SeriesRecords(x.series))) && Says(j, Status, Str(C.StatusOf(x)))
      && Says(j, CollectedSeriesCount, Int(|x.series|)) && Says(j, PointCount, Int(C.TotalPoints(x.series)))
      && Says(j, SchemaVersion, Int(1)) && Says(j, Authority, Str("bounded_read_only_history_collection"))
      && Says(j, ProviderId, Str("smartess")) && Says(j, SourceId, Str("dessmonitor")) && Says(j, ReadOnly, Bool(true))
      && Says(j, LocalMappingProven, Bool(false)) && Says(j, ActivationAllowed, Bool(false))
  {
    hide C.CollectionRecord, IdentityRecord, C.BasisOrNull, C.SeriesRecords, C.StatusOf, C.TotalPoints;
    hide C.COLLECTION_CONSTANTS;
    C.CollectionRecordShape(x);
    CollectionConstants();
  }

  lemma CollectionConstants()
    ensures var c := C.COLLECTION_CONSTANTS;
      && Has(c, SchemaVersion, Int(1)) && Has(c, Authority, Str("bounded_read_only_history_collection"))
      && Has(c, ProviderId, Str("smartess")) && Has(c, SourceId, Str("dessmonitor")) && Has(c, ReadOnly, Bool(true))
      && Has(c, LocalMappingProven, Bool(false)) && Has(c, ActivationAllowed, Bool(false))
  {
  }

  // ---- what a collection amounts to --------------------------------------------------------

  /** A missing time basis, nothing collected, something lost, or everything there. */
  lemma StatusSays(x: C.Collection)
    requires C.ConstructorAccepts(x)
    ensures C.StatusOf(x) == "time_basis_unavailable" <==> x.basis == None
    ensures C.StatusOf(x) == "unavailable" <==> x.basis.Some? && x.series == []
    ensures C.StatusOf(x) == "complete" <==> x.basis.Some? && |x.series| == x.attempted && x.series != [] && !x.exhausted
    ensures C.StatusOf(x) == "partial" <==> x.series != [] && (|x.series| < x.attempted || x.exhausted)
  {
    hide C.BelongsTogether, C.DistinctKeys;
    assert |"time_basis_unavailable"| == 22 && |"unavailable"| == 11 && |"complete"| == 8 && |"partial"| == 7;
  }

  /**
   With a time basis, a collection is accepted exactly when its counts add up and its series are of one device,
   basis and day under different keys; without one, exactly when there is nothing in it.
   */
  lemma AcceptedCollections(x: C.Collection)
    ensures x.basis.Some? ==>
      (C.ConstructorAccepts(x) <==>
        && x.basis.value.identity == x.identity && ParseDate(x.date).Some?
        && x.failed == x.attempted - |x.series| && 0 <= x.failed && x.attempted <= 8 && (x.attempted == 0 ==> x.exhausted)
        && (forall y :: y in x.series ==>
              y.source.identity == x.identity && y.source.date == x.date && y.basis == x.basis.value)
        && (forall i, j :: 0 <= i < |x.series| && 0 <= j < |x.series| && i != j ==>
              x.series[i].source.source != x.series[j].source.source || x.series[i].source.key != x.series[j].source.key))
    ensures x.basis.None? ==>
      (C.ConstructorAccepts(x) <==> x == C.HistoryCollection(x.identity, None, "", 0, 0, x.exhausted, []))
  {
    hide ParseDate, C.SeriesKeyOf, C.DistinctKeys;
    KeysAreDistinct(x.series);
  }

  lemma KeysAreDistinct(series: seq<R.Resolved>)
    ensures C.DistinctKeys(series) <==>
      forall i, j :: 0 <= i < |series| && 0 <= j < |series| && i != j ==>
        series[i].source.source != series[j].source.source || series[i].source.key != series[j].source.key
  {
  }

  /** What a series says about itself: a device, a key, optional words, a day, and the precision of its source. */
  lemma AcceptedHeaders(x: H.Series)
    ensures H.ValidHeader(x) <==>
      && Short(x.identity.pn) && Short(x.identity.sn) && Short(x.key) && x.identity.pn != "" && x.identity.sn != ""
      && x.key != "" && Short(x.title) && Short(x.unit) && x.identity.devcode >= 0 && x.identity.devaddr >= 0
      && ParseDate(x.date).Some?
      && ((x.source == "queryDeviceKeyParameterOneDay" && x.precision == 0)
          || (x.source == "queryDeviceSoleChartEs" && 1 <= x.precision <= 24 * 60))
  {
    assert |"queryDeviceKeyParameterOneDay"| == 29 && |"queryDeviceSoleChartEs"| == 22;
  }

  /** No space at either end, and at most 512 characters. */
  predicate Short(s: string) { Trimmed(s) && |s| <= 512 }

  /** The points of all series together. */
  lemma {:induction false} PointsAddUp(a: seq<R.Resolved>, b: seq<R.Resolved>)
    ensures C.TotalPoints(a + b) == C.TotalPoints(a) + C.TotalPoints(b)
    ensures |a| == 1 ==> C.TotalPoints(a) == |a[0].points|
  {
    if |a| == 1 {
      assert a[..0] == [];
    }
    if b == [] {
      assert a + b == a;
    } else {
      var n := |b| - 1;
      PointsAddUp(a, b[..n]);
      assert (a + b)[..|a| + n] == a + b[..n];
    }
  }

  // ---- which rows count ------------------------------------------------------------------------

  /** A row of the device query is for this device: one PN identity, the other three numbers exactly. */
  lemma RowMatches(row: Row, x: DeviceIdentity)
    requires ValidIdentity(x)
    ensures Matches(row, x) <==>
      && row.pn != "" && Trimmed(row.pn)
      && (row.pn == x.pn || (|row.pn| >= 10 && |x.pn| >= 10 && (row.pn <= x.pn || x.pn <= row.pn)))
      && row.sn == x.sn && row.devcode == x.devcode && row.devaddr == x.devaddr
      && row.offset.Some? && row.offset.value % 60 == 0 && -12 * 3600 <= row.offset.value <= 14 * 3600
  {
  }

  /** A usable row: a timestamp of the day under the given field, and a number under "val". */
  predicate UsableRow(row: Json, stampField: Field, date: string, p: H.Point) {
    && Says(row, stampField, Str(p.local)) && Says(row, Val, Str(p.value))
    && ParseLocal(p.local).Some? && |p.local| >= 10 && p.local[..10] == date && NumericText(p.value)
  }

  /** The usable points are those of the usable rows, and no others. */
  lemma {:induction false} PointsAreOfUsableRows(rows: seq<Json>, stampField: Field, date: string, p: H.Point)
    ensures p in H.UsablePoints(rows, stampField, date) <==> exists i :: 0 <= i < |rows| && UsableRow(rows[i], stampField, date, p)
  {
    hide H.PointFromProvider, UsableRow;
    if rows != [] {
      var n := |rows| - 1;
      PointsAreOfUsableRows(rows[..n], stampField, date, p);
      ProvidedPoint(rows[n], stampField, date, p);
      assert forall i :: 0 <= i < n ==> rows[..n][i] == rows[i];
    }
  }

  lemma ProvidedPoint(row: Json, stampField: Field, date: string, p: H.Point)
    ensures H.PointFromProvider(row, stampField, date) == Some(p) <==> UsableRow(row, stampField, date, p)
  {
    hide ParseLocal, NumericText;
    var q := H.PointFromProvider(row, stampField, date);
    if q == Some(p) {
      StampsAreLong(p.local);
      assert [p][0] == p;
    }
  }

  lemma StampsAreLong(s: string)
    requires ParseLocal(s).Some?
    ensures |s| == 19
  {
  }

  /** Where the parts of the two payloads are; a chart unit is under "uint" before "unit". */
  lemma PayloadFields(dat: Json, rows: Json, unit: Json)
    requires dat.Object?
    ensures Says(dat, Parameter, rows) ==> H.KeyParameterRows(dat) == rows
    ensures Parameter !in dat.fields ==> H.KeyParameterRows(dat) == Null
    ensures Says(dat, Uint, unit) ==> H.ChartUnit(dat.fields) == unit
    ensures Uint !in dat.fields && Says(dat, Unit, unit) ==> H.ChartUnit(dat.fields) == unit
    ensures Uint !in dat.fields && Unit !in dat.fields ==> H.ChartUnit(dat.fields) == Str("")
  {
  }

  /** The identity prefix begins at ten characters. */
  lemma TenCharactersMakeAPrefix()
    ensures I.SameIdentity("E500002030", "E5000020301") && !I.SameIdentity("E50000203", "E500002030")
    ensures I.SameIdentity("E5", "E5") && !I.SameIdentity("", "") && I.SameIdentity(" E5", "E5 ")
  {
    assert "E500002030" == "E5000020301"[..10];
    assert Strip("E500002030") == "E500002030" && Strip("E5000020301") == "E5000020301" && Strip("E50000203") == "E50000203";
    assert Strip("E5") == "E5" && Strip("") == "";
    assert Strip(" E5") == Strip("E5") by { assert " E5"[1..] == "E5"; }
    assert Strip("E5 ") == Strip("E5") by { assert "E5 "[..2] == "E5"; }
  }
}
