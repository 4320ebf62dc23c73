/** `dessmonitor_history.py`: one day of numeric history in unresolved device-local time. */
module History {
  import opened Numbers
  import opened Text
  import opened Timestamps
  import opened Records
  import opened TimeBases

  const KEY_PARAMETER := "queryDeviceKeyParameterOneDay"
  const SOLE_CHART := "queryDeviceSoleChartEs"
  const HISTORY_AUTHORITY := "cloud_history_observation_only"
  const UNRESOLVED := "device_local_timezone_unresolved"
  const UNPROVEN := "unproven"
  const MAX_POINTS := 4096

  datatype Point = HistoryPoint(local: string, value: string)

  predicate ValidPoint(p: Point) { ParseLocal(p.local).Some? && NumericText(p.value) }

  predicate AllValid(points: seq<Point>) { forall i :: 0 <= i < |points| ==> ValidPoint(points[i]) }

  datatype Series = HistorySeries(
    identity: DeviceIdentity, source: string, key: string, date: string,
    points: seq<Point>, title: string, unit: string, precision: int)

  predicate ValidPrecision(precision: int, source: string) {
    if source == KEY_PARAMETER then precision == 0 else 1 <= precision <= 1440
  }

  /** Every point on the requested date. */
  predicate OnDate(points: seq<Point>, date: string) {
    forall i :: 0 <= i < |points| ==> ParseLocal(points[i].local).Some? && points[i].local[..10] == date
  }

  /** Strictly increasing timestamps, by text. */
  predicate Ascending(points: seq<Point>) {
    forall i :: 0 < i < |points| ==> Less(points[i - 1].local, points[i].local)
  }

  predicate ValidHeader(x: Series) {
    && ValidIdentity(x.identity)
    && Token(x.key) && OptionalToken(x.title) && OptionalToken(x.unit)
    && (x.source == KEY_PARAMETER || x.source == SOLE_CHART)
    && ParseDate(x.date).Some?
    && ValidPrecision(x.precision, x.source)
  }

  /** What the `DessMonitorHistorySeries` constructor accepts. */
  predicate ValidSeries(x: Series) {
    && ValidHeader(x)
    && |x.points| <= MAX_POINTS
    && AllValid(x.points)
    && OnDate(x.points, x.date) && Ascending(x.points)
  }

  /** The order and date loop of the constructor. */
  method CheckPoints(points: seq<Point>, date: string) returns (ok: bool)
    requires AllValid(points)
    ensures ok <==> OnDate(points, date) && Ascending(points)
  {
    hide ParseLocal, ValidPoint, Less;
    var previous, i := "", 0;
    while i < |points|
      invariant 0 <= i <= |points|
      invariant previous == if i == 0 then "" else points[i - 1].local
      invariant previous == "" <==> i == 0
      invariant forall j :: 0 <= j < i ==>
        ParseLocal(points[j].local).Some? && |points[j].local| == 19 && points[j].local[..10] == date
      invariant forall j :: 0 < j < i ==> Less(points[j - 1].local, points[j].local)
    {
      var timestamp := points[i].local;
      ValidStampsAreLong(points[i]);
      if timestamp[..10] != date {
        return false;
      }
      LessIsTotal(timestamp, previous);
      if previous != "" && AtMost(timestamp, previous) {
        return false;
      }
      previous, i := timestamp, i + 1;
    }
    ok := true;
  }

  lemma ValidStampsAreLong(p: Point)
    requires ValidPoint(p)
    ensures ParseLocal(p.local).Some? && |p.local| == 19
  {
  }

  // ---- records -----------------------------------------------------------------

  function PointRecord(p: Point): Json {
    Object(map[DeviceLocalTimestamp := Str(p.local), PointValue := Str(p.value)])
  }

  function ParsePoint(j: Json): ParseOutcome<Point> {
    if !HasExactly(j, {DeviceLocalTimestamp, PointValue}) then Refused
    else
      var local, value := j.fields[DeviceLocalTimestamp], j.fields[PointValue];
      if !local.Str? || !value.Str? || !ValidPoint(HistoryPoint(local.text, value.text)) then Refused
      else Accepted(HistoryPoint(local.text, value.text))
  }

  function PointRecords(points: seq<Point>): (r: seq<Json>)
    ensures |r| == |points| && forall i :: 0 <= i < |r| ==> r[i] == PointRecord(points[i])
  {
    seq(|points|, i requires 0 <= i < |points| => PointRecord(points[i]))
  }

  function ParsePoints(items: seq<Json>): ParseOutcome<seq<Point>> { ParseList(items, ParsePoint) }

  lemma PointRoundTrip(p: Point, j: Json)
    ensures ValidPoint(p) ==> ParsePoint(PointRecord(p)) == Accepted(p)
    ensures ParsePoint(j).Accepted? ==> ValidPoint(ParsePoint(j).value) && PointRecord(ParsePoint(j).value) == j
  {
    hide ValidPoint;
    if ParsePoint(j).Accepted? {
      assert PointRecord(ParsePoint(j).value).fields == j.fields;
    }
  }

  lemma PointRecordsParse(points: seq<Point>)
    requires AllValid(points)
    ensures ParsePoints(PointRecords(points)) == Accepted(points)
  {
    hide ValidPoint, ParsePoint, PointRecord, ParseList;
    forall i | 0 <= i < |points| ensures ParsePoint(PointRecords(points)[i]) == Accepted(points[i]) {
      PointRoundTrip(points[i], Null);
    }
    ListParsesIff(PointRecords(points), ParsePoint, points);
  }

  lemma ParsedPointsAreTheirRecords(items: seq<Json>)
    requires ParsePoints(items).Accepted?
    ensures PointRecords(ParsePoints(items).value) == items && AllValid(ParsePoints(items).value)
  {
    hide ValidPoint, ParsePoint, PointRecord, ParseList;
    var points := ParsePoints(items).value;
    ListParsesIff(items, ParsePoint, points);
    forall i | 0 <= i < |items| ensures ValidPoint(points[i]) && PointRecord(points[i]) == items[i] {
      PointRoundTrip(points[i], items[i]);
    }
  }

  /** What every series record says. */
  const SERIES_CONSTANTS: map<Field, Json> := map[
    SchemaVersion := Int(1), Authority := Str(HISTORY_AUTHORITY), ProviderId := Str(PROVIDER),
    SourceId := Str(SOURCE), TimeBasis := Str(UNRESOLVED), TimezoneOffset := Str(""),
    LocalMapping := Str(UNPROVEN), LocalMappingProven := Bool(false)]

  const SERIES_KEYS: set<Field> :=
    {SourceAction, Records.Identity, SeriesKey, Title, Unit, RequestedDate, PrecisionMinutes, Points, PointCount}

  function SeriesFree(x: Series): map<Field, Json> {
    map[SourceAction := Str(x.source), Records.Identity := IdentityRecord(x.identity), SeriesKey := Str(x.key),
        Title := Str(x.title), Unit := Str(x.unit), RequestedDate := Str(x.date),
        PrecisionMinutes := Int(x.precision), Points := List(PointRecords(x.points)), PointCount := Int(|x.points|)]
  }

  /** `to_record`. */
  function SeriesRecord(x: Series): Json { Object(SERIES_CONSTANTS + SeriesFree(x)) }

  lemma SeriesKeysAreSeparate()
    ensures SERIES_CONSTANTS.Keys !! SERIES_KEYS
  {
  }

  lemma SeriesFreeKeys(x: Series)
    ensures SeriesFree(x).Keys == SERIES_KEYS
  {
  }

  /** The field set is exact, the constants are said, and the free fields have the exact types asked for. */
  predicate SeriesShaped(j: Json) {
    && HasExactly(j, SERIES_CONSTANTS.Keys + SERIES_KEYS)
    && Agrees(j.fields, SERIES_CONSTANTS)
    && j.fields[Points].List?
    && j.fields[SourceAction].Str? && j.fields[SeriesKey].Str? && j.fields[Title].Str? && j.fields[Unit].Str?
    && j.fields[RequestedDate].Str? && j.fields[PrecisionMinutes].Int?
  }

  function AssembleSeries(j: Json, identity: DeviceIdentity, points: seq<Point>): Series
    requires SeriesShaped(j)
  {
    HistorySeries(identity, j.fields[SourceAction].text, j.fields[SeriesKey].text, j.fields[RequestedDate].text,
                  points, j.fields[Title].text, j.fields[Unit].text, j.fields[PrecisionMinutes].number)
  }

  /** `DessMonitorHistorySeries.from_record`. */
  function ParseSeries(j: Json): Option<Series> {
    if !SeriesShaped(j) then None
    else
      var identity := ParseIdentity(j.fields[Records.Identity]);
      var points := ParsePoints(j.fields[Points].items);
      if identity.None? || !points.Accepted? then None
      else
        var x := AssembleSeries(j, identity.value, points.value);
        if ValidSeries(x) && j.fields[PointCount] == Int(|x.points|) then Some(x) else None
  }

  /** What the free part of a record shows field by field. */
  predicate ShowsSeries(fields: map<Field, Json>, x: Series) {
    && fields.Keys >= SERIES_KEYS
    && fields[SourceAction] == Str(x.source) && fields[Records.Identity] == IdentityRecord(x.identity)
    && fields[SeriesKey] == Str(x.key) && fields[Title] == Str(x.title) && fields[Unit] == Str(x.unit)
    && fields[RequestedDate] == Str(x.date) && fields[PrecisionMinutes] == Int(x.precision)
    && fields[Points] == List(PointRecords(x.points)) && fields[PointCount] == Int(|x.points|)
  }

  lemma FreeShowsSeries(x: Series)
    ensures ShowsSeries(SeriesFree(x), x)
  {
    hide IdentityRecord, PointRecords;
  }

  lemma AgreeingShowsSeries(fields: map<Field, Json>, x: Series)
    requires fields.Keys >= SERIES_KEYS && Agrees(fields, SeriesFree(x))
    ensures ShowsSeries(fields, x)
  {
    hide IdentityRecord, PointRecords, SeriesFree;
    SeriesFreeKeys(x);
    FreeShowsSeries(x);
  }

  lemma SeriesRecordShows(x: Series)
    ensures SeriesRecord(x).Object? && ShowsSeries(SeriesRecord(x).fields, x)
    ensures SeriesRecord(x).fields.Keys == SERIES_CONSTANTS.Keys + SERIES_KEYS
    ensures Agrees(SeriesRecord(x).fields, SERIES_CONSTANTS)
  {
    hide SeriesFree, SERIES_CONSTANTS, SERIES_KEYS, ShowsSeries, Agrees;
    SeriesKeysAreSeparate();
    SeriesFreeKeys(x);
    PartsShow(SERIES_CONSTANTS, SeriesFree(x));
    AgreeingShowsSeries(SeriesRecord(x).fields, x);
  }

  lemma SeriesRecordShape(x: Series)
    ensures SeriesShaped(SeriesRecord(x))
    ensures SeriesRecord(x).fields[Records.Identity] == IdentityRecord(x.identity)
    ensures SeriesRecord(x).fields[Points] == List(PointRecords(x.points))
    ensures SeriesRecord(x).fields[PointCount] == Int(|x.points|)
    ensures AssembleSeries(SeriesRecord(x), x.identity, x.points) == x
  {
    hide IdentityRecord, PointRecords, SeriesRecord, SERIES_CONSTANTS, Agrees;
    SeriesRecordShows(x);
  }

  lemma SeriesRecordParses(x: Series)
    requires ValidSeries(x)
    ensures ParseSeries(SeriesRecord(x)) == Some(x)
  {
    SeriesRecordShape(x);
    hide SeriesRecord, SeriesShaped, AssembleSeries;
    hide ParseIdentity, IdentityRecord, ParsePoints, PointRecords, ValidPoint, OnDate, Ascending, ValidHeader;
    SeriesIdentityIsValid(x);
    IdentityRoundTrip(x.identity, Null);
    PointRecordsParse(x.points);
  }

  lemma SeriesPointsAreValid(x: Series)
    requires ValidSeries(x)
    ensures AllValid(x.points)
  {
  }

  lemma SeriesIdentityIsValid(x: Series)
    requires ValidHeader(x)
    ensures ValidIdentity(x.identity)
  {
  }

  lemma ParsedSeriesIsItsRecord(j: Json)
    requires ParseSeries(j).Some?
    ensures ValidSeries(ParseSeries(j).value) && SeriesRecord(ParseSeries(j).value) == j
  {
    hide ParseIdentity, IdentityRecord, ParsePoints, PointRecords, ValidSeries;
    var x := ParseSeries(j).value;
    IdentityRoundTrip(x.identity, j.fields[Records.Identity]);
    ParsedPointsAreTheirRecords(j.fields[Points].items);
    SeriesFreeKeys(x);
    PartsMakeWhole(j.fields, SERIES_CONSTANTS, SeriesFree(x));
  }

  /** Printing and parsing a series are exact inverses, in both directions. */
  lemma SeriesRoundTrip(x: Series, j: Json)
    ensures ValidSeries(x) ==> ParseSeries(SeriesRecord(x)) == Some(x)
    ensures ParseSeries(j).Some? ==> ValidSeries(ParseSeries(j).value) && SeriesRecord(ParseSeries(j).value) == j
  {
    hide ParseSeries, SeriesRecord, ValidSeries;
    if ValidSeries(x) { SeriesRecordParses(x); }
    if ParseSeries(j).Some? { ParsedSeriesIsItsRecord(j); }
  }

  /** `from_record` with its loop over the raw points. */
  method SeriesFromRecord(j: Json) returns (x: Option<Series>)
    ensures x == ParseSeries(j)
  {
    hide SeriesShaped, ValidPoint, OnDate, Ascending, ParsePoint, ParseIdentity;
    if !SeriesShaped(j) {
      return None;
    }
    ShapedSeriesHasParts(j);
    var points := ListFromRecord(j.fields[Points].items, ParsePoint);
    var identity := ParseIdentity(j.fields[Records.Identity]);
    if !points.Accepted? || identity.None? {
      return None;
    }
    var series := AssembleSeries(j, identity.value, points.value);
    ParsedPointsAreTheirRecords(j.fields[Points].items);
    if !ValidHeader(series) || |series.points| > MAX_POINTS {
      return None;
    }
    var ok := CheckPoints(series.points, series.date);
    if !ok || j.fields[PointCount] != Int(|series.points|) {
      return None;
    }
    x := Some(series);
  }

  lemma ShapedSeriesHasParts(j: Json)
    requires SeriesShaped(j)
    ensures j.Object? && Points in j.fields && j.fields[Points].List?
    ensures Records.Identity in j.fields && PointCount in j.fields
  {
  }

  // ---- provider payloads -----------------------------------------------------------

  /** A row that carries a usable point for the requested date, under the given timestamp field. */
  function PointFromProvider(row: Json, stampField: Field, date: string): Option<Point> {
    if !row.Object? || stampField !in row.fields || Val !in row.fields then None
    else
      var local, value := row.fields[stampField], row.fields[Val];
      if !local.Str? || !value.Str? then None
      else
        var p := HistoryPoint(local.text, value.text);
        if ValidPoint(p) && OnDate([p], date) then Some(p) else None
  }

  /** The usable points of a payload, in payload order. */
  function UsablePoints(rows: seq<Json>, stampField: Field, date: string): seq<Point> {
    if rows == [] then []
    else
      var p := PointFromProvider(rows[|rows| - 1], stampField, date);
      UsablePoints(rows[..|rows| - 1], stampField, date) + if p.Some? then [p.value] else []
  }

  predicate DistinctStamps(points: seq<Point>) {
    forall i, j :: 0 <= i < j < |points| ==> points[i].local != points[j].local
  }

  datatype PointsOutcome = Usable(points: seq<Point>) | PayloadInvalid | LimitExceeded | Ambiguous

  lemma {:induction false} UsablePointsAreValid(rows: seq<Json>, stampField: Field, date: string)
    ensures forall p :: p in UsablePoints(rows, stampField, date) ==> ValidPoint(p) && OnDate([p], date)
    ensures |UsablePoints(rows, stampField, date)| <= |rows|
  {
    hide ValidPoint, OnDate;
    if rows != [] {
      UsablePointsAreValid(rows[..|rows| - 1], stampField, date);
    }
  }

  /** `_normalized_points`: usable rows sorted by timestamp; two rows for one moment are an error. */
  method NormalizedPoints(rows: Json, stampField: Field, date: string) returns (out: PointsOutcome)
    ensures out.PayloadInvalid? <==> !rows.List?
    ensures out.LimitExceeded? <==> rows.List? && |rows.items| > MAX_POINTS
    ensures rows.List? && |rows.items| <= MAX_POINTS ==>
      var usable := UsablePoints(rows.items, stampField, date);
      && (out.Usable? <==> DistinctStamps(usable))
      && (out.Usable? ==>
            && Ascending(out.points) && OnDate(out.points, date) && |out.points| <= MAX_POINTS
            && AllValid(out.points)
            && (forall p :: p in out.points <==> p in usable))
  {
    hide ValidPoint, PointFromProvider;
    if !rows.List? {
      return PayloadInvalid;
    }
    if |rows.items| > MAX_POINTS {
      return LimitExceeded;
    }
    var points := PointsByStamp(rows.items, stampField, date);
    if points.None? {
      return Ambiguous;
    }
    UsablePointsAreValid(rows.items, stampField, date);
    var ordered := SortedByStamp(points.value);
    OrderedPointsFit(ordered, UsablePoints(rows.items, stampField, date), date);
    out := Usable(ordered);
  }

  /** Exactly the given points, each under its own timestamp. */
  ghost predicate Holds(byStamp: map<string, Point>, points: seq<Point>) {
    && |byStamp| == |points|
    && (forall p :: p in points <==> p.local in byStamp && byStamp[p.local] == p)
    && forall k :: k in byStamp ==> byStamp[k].local == k
  }

  /** The dictionary of `_normalized_points`, or nothing when two usable rows share a moment. */
  method PointsByStamp(rows: seq<Json>, stampField: Field, date: string) returns (r: Option<map<string, Point>>)
    ensures r.Some? <==> DistinctStamps(UsablePoints(rows, stampField, date))
    ensures r.Some? ==> Holds(r.value, UsablePoints(rows, stampField, date))
  {
    hide PointFromProvider, Holds, DistinctStamps;
    var byStamp: map<string, Point> := map[];
    var i := 0;
    NothingHeld();
    while i < |rows|
      invariant 0 <= i <= |rows|
      invariant DistinctStamps(UsablePoints(rows[..i], stampField, date))
      invariant Holds(byStamp, UsablePoints(rows[..i], stampField, date))
    {
      assert rows[..i + 1][..i] == rows[..i];
      var p := PointFromProvider(rows[i], stampField, date);
      if p.Some? {
        HoldsOneMore(byStamp, UsablePoints(rows[..i], stampField, date), p.value);
        if p.value.local in byStamp {
          RepeatedStampIsAmbiguous(rows, i, stampField, date);
          return None;
        }
        byStamp := byStamp[p.value.local := p.value];
      }
      assert UsablePoints(rows[..i], stampField, date) + [] == UsablePoints(rows[..i], stampField, date);
      i := i + 1;
    }
    assert rows[..i] == rows;
    r := Some(byStamp);
  }

  lemma NothingHeld()
    ensures Holds(map[], []) && DistinctStamps([])
  {
  }

  lemma HoldsOneMore(byStamp: map<string, Point>, points: seq<Point>, p: Point)
    requires Holds(byStamp, points) && DistinctStamps(points)
    ensures p.local in byStamp <==> exists q :: q in points && q.local == p.local
    ensures p.local !in byStamp ==>
      Holds(byStamp[p.local := p], points + [p]) && DistinctStamps(points + [p])
  {
    if p.local in byStamp {
      assert byStamp[p.local] in points;
    } else {
      forall i | 0 <= i < |points| ensures points[i].local != p.local {
        assert points[i] in points;
      }
    }
  }

  lemma {:induction false} UsablePointsGrow(rows: seq<Json>, n: nat, stampField: Field, date: string)
    requires n <= |rows|
    ensures UsablePoints(rows[..n], stampField, date) <= UsablePoints(rows, stampField, date)
    decreases |rows| - n
  {
    hide PointFromProvider;
    if n < |rows| {
      UsablePointsGrow(rows, n + 1, stampField, date);
      assert rows[..n + 1][..n] == rows[..n];
    } else {
      assert rows[..n] == rows;
    }
  }

  lemma RepeatedStampIsAmbiguous(rows: seq<Json>, i: nat, stampField: Field, date: string)
    requires i < |rows| && PointFromProvider(rows[i], stampField, date).Some?
    requires exists p :: p in UsablePoints(rows[..i], stampField, date)
                         && p.local == PointFromProvider(rows[i], stampField, date).value.local
    ensures !DistinctStamps(UsablePoints(rows, stampField, date))
  {
    hide PointFromProvider;
    UsablePointsGrow(rows, i + 1, stampField, date);
    assert rows[..i + 1][..i] == rows[..i];
    var before := UsablePoints(rows[..i], stampField, date);
    var p :| p in before && p.local == PointFromProvider(rows[i], stampField, date).value.local;
    var j :| 0 <= j < |before| && before[j] == p;
    var all := UsablePoints(rows, stampField, date);
    assert all[j] == p && all[|before|] == PointFromProvider(rows[i], stampField, date).value;
  }

  /** `tuple(points[key] for key in sorted(points))`. */
  method SortedByStamp(points: map<string, Point>) returns (ordered: seq<Point>)
    requires forall k :: k in points ==> points[k].local == k
    ensures Ascending(ordered) && |ordered| == |points|
    ensures forall p :: p in ordered <==> p.local in points && points[p.local] == p
  {
    var keys := Sorted(points.Keys, (k: string) => k);
    ordered := seq(|keys|, i requires 0 <= i < |keys| => points[keys[i]]);
    forall i | 0 < i < |ordered| ensures Less(ordered[i - 1].local, ordered[i].local) {
      LessIsTotal(keys[i - 1], keys[i]);
    }
    forall p: Point | p.local in points && points[p.local] == p ensures p in ordered {
      var i :| 0 <= i < |keys| && keys[i] == p.local;
      assert ordered[i] == p;
    }
    DistinctHasSetSize(keys, points.Keys);
  }

  lemma {:induction false} DistinctHasSetSize<T>(items: seq<T>, all: set<T>)
    requires Distinct(items) && forall x :: x in items <==> x in all
    ensures |items| == |all|
  {
    if items == [] {
      assert all == {};
    } else {
      var n := |items| - 1;
      assert forall x :: x in items[..n] <==> x in all - {items[n]};
      DistinctHasSetSize(items[..n], all - {items[n]});
    }
  }

  lemma OrderedPointsFit(ordered: seq<Point>, usable: seq<Point>, date: string)
    requires forall p :: p in ordered <==> p in usable
    requires forall p :: p in usable ==> ValidPoint(p) && OnDate([p], date)
    ensures OnDate(ordered, date)
    ensures AllValid(ordered)
  {
    hide ValidPoint;
    forall i | 0 <= i < |ordered|
      ensures ParseLocal(ordered[i].local).Some? && ordered[i].local[..10] == date && ValidPoint(ordered[i])
    {
      assert ordered[i] in ordered;
      assert OnDate([ordered[i]], date) && [ordered[i]][0] == ordered[i];
    }
  }

  datatype SeriesOutcome = Parsed(series: Series) | Unreadable

  /** The point list of a key-parameter payload: its `parameter` field. */
  function KeyParameterRows(dat: Json): Json {
    if dat.Object? && Parameter in dat.fields then dat.fields[Parameter] else Null
  }

  /** A payload whose points can be told apart, and few enough. */
  predicate ReadablePayload(rows: Json, stampField: Field, date: string) {
    rows.List? && |rows.items| <= MAX_POINTS && DistinctStamps(UsablePoints(rows.items, stampField, date))
  }

  /** `parse_key_parameter_history`: a payload it can read always becomes a valid series. */
  method ParseKeyParameterHistory(dat: Json, identity: DeviceIdentity, parameter: string, date: string)
    returns (out: SeriesOutcome)
    requires ValidIdentity(identity)
    ensures out.Parsed? <==>
      && Token(parameter) && ParseDate(date).Some? && dat.Object?
      && ReadablePayload(KeyParameterRows(dat), Ts, date)
    ensures out.Parsed? ==>
      && ValidSeries(out.series)
      && out.series.identity == identity && out.series.source == KEY_PARAMETER
      && out.series.key == parameter && out.series.date == date && out.series.precision == 0
      && out.series.title == parameter && out.series.unit == ""
      && forall p :: p in out.series.points <==> p in UsablePoints(KeyParameterRows(dat).items, Ts, date)
  {
    hide ValidPoint, ParseDate, OnDate, Ascending, UsablePoints, ValidIdentity;
    if !Token(parameter) || ParseDate(date).None? || !dat.Object? {
      return Unreadable;
    }
    var points := NormalizedPoints(KeyParameterRows(dat), Ts, date);
    if !points.Usable? {
      return Unreadable;
    }
    out := Parsed(HistorySeries(identity, KEY_PARAMETER, parameter, date, points.points, parameter, "", 0));
  }

  function FieldOr(dat: map<Field, Json>, f: Field, default: Json): Json { if f in dat then dat[f] else default }

  /** The chart's own key, name and unit; `uint` goes before `unit`. */
  function ChartUnit(dat: map<Field, Json>): Json { FieldOr(dat, Uint, FieldOr(dat, Unit, Str(""))) }

  predicate ReadableChartHeader(dat: map<Field, Json>) {
    var key, title, unit := FieldOr(dat, OptionalKey, Null), FieldOr(dat, NameKey, Str("")), ChartUnit(dat);
    && key.Str? && title.Str? && unit.Str?
    && Token(key.text) && OptionalToken(title.text) && OptionalToken(unit.text)
  }

  /** `parse_sole_chart_history`. */
  method ParseSoleChartHistory(dat: Json, identity: DeviceIdentity, date: string, precision: int)
    returns (out: SeriesOutcome)
    requires ValidIdentity(identity)
    ensures out.Parsed? <==>
      && ParseDate(date).Some? && ValidPrecision(precision, SOLE_CHART) && dat.Object?
      && ReadableChartHeader(dat.fields) && ReadablePayload(FieldOr(dat.fields, Rets, Null), Key, date)
    ensures out.Parsed? ==>
      && ValidSeries(out.series)
      && out.series.identity == identity && out.series.source == SOLE_CHART && out.series.date == date
      && out.series.precision == precision
      && FieldOr(dat.fields, OptionalKey, Null) == Str(out.series.key)
      && FieldOr(dat.fields, NameKey, Str("")) == Str(out.series.title)
      && ChartUnit(dat.fields) == Str(out.series.unit)
      && (forall p :: p in out.series.points <==>
            p in UsablePoints(FieldOr(dat.fields, Rets, Null).items, Key, date))
  {
    hide ValidPoint, ParseDate, OnDate, Ascending, UsablePoints, ValidIdentity, ChartUnit;
    if ParseDate(date).None? || !ValidPrecision(precision, SOLE_CHART) || !dat.Object? {
      return Unreadable;
    }
    if !ReadableChartHeader(dat.fields) {
      return Unreadable;
    }
    var key := FieldOr(dat.fields, OptionalKey, Null).text;
    var title := FieldOr(dat.fields, NameKey, Str("")).text;
    var unit := ChartUnit(dat.fields).text;
    var points := NormalizedPoints(FieldOr(dat.fields, Rets, Null), Key, date);
    if !points.Usable? {
      return Unreadable;
    }
    out := Parsed(HistorySeries(identity, SOLE_CHART, key, date, points.points, title, unit, precision));
  }
}
