/**
 `dessmonitor_history_resolution.py`: device-local history becomes UTC through the one time basis of
 the same cloud device, and nothing else.
 */
module Resolution {
  import opened Numbers
  import opened Text
  import opened Calendar
  import opened Timestamps
  import opened Records
  import opened TimeBases
  import H = History

  const RESOLVED_AUTHORITY := "provider_identity_bound_time_resolution"

  datatype Point = ResolvedPoint(local: string, utc: string, value: string)

  predicate ValidPoint(p: Point) { H.ValidPoint(H.HistoryPoint(p.local, p.value)) && IsUtcText(p.utc) }

  datatype Resolved = ResolvedSeries(source: H.Series, basis: Basis, points: seq<Point>)

  /** How the constructor ends: normally, with a type or value error, or with an arithmetic overflow. */
  datatype Verdict = Fine | Mismatch | Overflow

  /** The UTC text of a source point; `None` is the overflow past the representable years. */
  function PointUtc(p: H.Point, basis: Basis): Option<string>
    requires H.ValidPoint(p) && ValidBasis(basis)
  {
    UtcOf(basis, p.local)
  }

  /** One round of the constructor's loop. */
  function JudgePoint(source: H.Point, basis: Basis, p: Point, previousUtc: string): Verdict
    requires ValidBasis(basis) && H.ValidPoint(source)
  {
    if p.local != source.local || p.value != source.value then Mismatch
    else
      match PointUtc(source, basis)
      case None => Overflow
      case Some(utc) =>
        if p.utc != utc then Mismatch
        else if previousUtc != "" && AtMost(p.utc, previousUtc) then Mismatch
        else Fine
  }

  /** The loop over the first `n` points; the first error ends it. */
  function JudgePoints(source: seq<H.Point>, basis: Basis, points: seq<Point>, n: nat): Verdict
    requires ValidBasis(basis) && n <= |points| == |source|
    requires H.AllValid(source)
  {
    if n == 0 then Fine
    else
      var before := JudgePoints(source, basis, points, n - 1);
      if before != Fine then before
      else JudgePoint(source[n - 1], basis, points[n - 1], if n == 1 then "" else points[n - 2].utc)
  }

  /** The constructor's own checks. */
  function Judge(x: Resolved): Verdict
    requires H.ValidSeries(x.source) && ValidBasis(x.basis)
  {
    if x.source.identity != x.basis.identity || |x.points| != |x.source.points| then Mismatch
    else JudgePoints(x.source.points, x.basis, x.points, |x.points|)
  }

  predicate ValidPoints(points: seq<Point>) { forall i :: 0 <= i < |points| ==> ValidPoint(points[i]) }

  predicate ValidResolved(x: Resolved) {
    H.ValidSeries(x.source) && ValidBasis(x.basis) && ValidPoints(x.points) && Judge(x) == Fine
  }

  /** `DessMonitorResolvedHistorySeries.__post_init__` as a loop. */
  method JudgeSeries(x: Resolved) returns (verdict: Verdict)
    requires H.ValidSeries(x.source) && ValidBasis(x.basis)
    ensures verdict == Judge(x)
  {
    hide H.ValidPoint, JudgePoint, H.ValidSeries, ValidBasis;
    H.SeriesPointsAreValid(x.source);
    if x.source.identity != x.basis.identity || |x.points| != |x.source.points| {
      return Mismatch;
    }
    var previousUtc, i := "", 0;
    while i < |x.points|
      invariant 0 <= i <= |x.points|
      invariant previousUtc == if i == 0 then "" else x.points[i - 1].utc
      invariant JudgePoints(x.source.points, x.basis, x.points, i) == Fine
    {
      verdict := JudgePoint(x.source.points[i], x.basis, x.points[i], previousUtc);
      if verdict != Fine {
        FirstErrorWins(x.source.points, x.basis, x.points, i + 1, |x.points|);
        return;
      }
      previousUtc, i := x.points[i].utc, i + 1;
    }
    verdict := Fine;
  }

  lemma {:induction false} FirstErrorWins(source: seq<H.Point>, basis: Basis, points: seq<Point>, n: nat, m: nat)
    requires ValidBasis(basis) && n <= m <= |points| == |source|
    requires H.AllValid(source)
    requires JudgePoints(source, basis, points, n) != Fine
    ensures JudgePoints(source, basis, points, m) == JudgePoints(source, basis, points, n)
  {
    hide H.ValidPoint, H.AllValid, JudgePoint;
    if n < m {
      FirstErrorWins(source, basis, points, n, m - 1);
    }
  }

  // ---- resolving a series -------------------------------------------------------

  datatype ResolveOutcome = Resolution(series: Resolved) | IdentityMismatch | OutOfOrder | OutOfRange

  /** The shifted moment of a point lies in the representable years. */
  predicate Convertible(p: H.Point, basis: Basis)
    requires H.ValidPoint(p)
  {
    Representable(ParseLocal(p.local).value, basis.offset)
  }

  predicate AllConvertible(points: seq<H.Point>, basis: Basis)
    requires H.AllValid(points)
  {
    forall i :: 0 <= i < |points| ==> Convertible(points[i], basis)
  }

  lemma ConvertibleIffUtc(p: H.Point, basis: Basis)
    requires H.ValidPoint(p) && ValidBasis(basis)
    ensures PointUtc(p, basis).Some? <==> Convertible(p, basis)
  {
    hide Representable, UtcText, Instant, ToUtc, ParseLocal;
    ToUtcShiftsByOffset(ParseLocal(p.local).value, basis.offset);
  }

  /** A converted point is the source moment moved by exactly the offset, printed canonically. */
  lemma ConvertedPointMeansShifted(p: H.Point, basis: Basis)
    requires H.ValidPoint(p) && ValidBasis(basis)
    ensures PointUtc(p, basis).Some? ==>
      var t := ToUtc(ParseLocal(p.local).value, basis.offset).value;
      && PointUtc(p, basis).value == UtcText(t) && IsUtcText(UtcText(t))
      && Instant(t) == Instant(ParseLocal(p.local).value) - basis.offset
  {
    hide Representable, UtcText, IsUtcText, Instant, ToUtc, ParseLocal;
    ToUtcShiftsByOffset(ParseLocal(p.local).value, basis.offset);
    if PointUtc(p, basis).Some? {
      PrintedUtcIsUtcText(ToUtc(ParseLocal(p.local).value, basis.offset).value);
    }
  }

  /** Ordered local text stays ordered as UTC text. */
  lemma ConversionKeepsTextOrder(p: H.Point, q: H.Point, basis: Basis)
    requires H.ValidPoint(p) && H.ValidPoint(q) && ValidBasis(basis) && Less(p.local, q.local)
    requires PointUtc(p, basis).Some? && PointUtc(q, basis).Some?
    ensures Less(PointUtc(p, basis).value, PointUtc(q, basis).value)
  {
    hide LocalText, UtcText, Less, ToUtc, ParseLocal, Before;
    var a, b := ParseLocal(p.local).value, ParseLocal(q.local).value;
    LocalRoundTrip(a, p.local);
    LocalRoundTrip(b, q.local);
    TextOrderIsTimeOrder(a, b);
    ToUtcKeepsOrder(a, b, basis.offset);
    TextOrderIsTimeOrder(ToUtc(a, basis.offset).value, ToUtc(b, basis.offset).value);
  }

  /** The points are exactly the converted source points. */
  predicate ConvertedFrom(points: seq<Point>, source: seq<H.Point>, basis: Basis)
    requires ValidBasis(basis) && |points| <= |source|
    requires H.AllValid(source)
  {
    forall i :: 0 <= i < |points| ==>
      && points[i].local == source[i].local && points[i].value == source[i].value
      && PointUtc(source[i], basis) == Some(points[i].utc)
  }

  /** The constructor finds nothing to object to in converted points. */
  lemma {:induction false} ConvertedPointsAreFine(source: seq<H.Point>, basis: Basis, points: seq<Point>, n: nat)
    requires ValidBasis(basis) && n <= |points| == |source| && H.Ascending(source)
    requires H.AllValid(source)
    requires ConvertedFrom(points, source, basis)
    ensures JudgePoints(source, basis, points, n) == Fine
  {
    hide H.ValidPoint, PointUtc, Less;
    if n > 0 {
      ConvertedPointsAreFine(source, basis, points, n - 1);
      if n > 1 {
        ConversionKeepsTextOrder(source[n - 2], source[n - 1], basis);
        LessIsTotal(points[n - 2].utc, points[n - 1].utc);
      }
    }
  }

  lemma ConvertedPointsAreValid(source: seq<H.Point>, basis: Basis, points: seq<Point>)
    requires ValidBasis(basis) && |points| == |source|
    requires H.AllValid(source)
    requires ConvertedFrom(points, source, basis)
    ensures ValidPoints(points)
  {
    hide H.ValidPoint, PointUtc, IsUtcText;
    forall i | 0 <= i < |points| ensures ValidPoint(points[i]) {
      ConvertedPointMeansShifted(source[i], basis);
      assert H.HistoryPoint(points[i].local, points[i].value) == source[i];
    }
  }

  /**
   `resolve_dessmonitor_history_time_basis`: with one identity on both sides, resolving a valid series
   never fails on order; it succeeds exactly when every shifted moment is representable.
   */
  method ResolveHistoryTimeBasis(source: H.Series, basis: Basis) returns (out: ResolveOutcome)
    requires H.ValidSeries(source) && ValidBasis(basis)
    ensures out.IdentityMismatch? <==> source.identity != basis.identity
    ensures !out.OutOfOrder?
    ensures source.identity == basis.identity ==>
      (out.Resolution? <==> AllConvertible(source.points, basis))
    ensures out.Resolution? ==>
      && ValidResolved(out.series) && out.series.source == source && out.series.basis == basis
      && ConvertedFrom(out.series.points, source.points, basis)
  {
    hide H.AllValid, PointUtc, Convertible, Judge, ConvertedFrom, ValidPoints, AllConvertible;
    if source.identity != basis.identity {
      return IdentityMismatch;
    }
    var points := ConvertPoints(source.points, basis);
    if points.None? {
      return OutOfRange;
    }
    var series := ResolvedSeries(source, basis, points.value);
    ConvertedPointsAreFine(source.points, basis, points.value, |points.value|);
    ConvertedPointsAreValid(source.points, basis, points.value);
    JudgingConverted(series);
    var verdict := JudgeSeries(series);
    out := match verdict case Fine => Resolution(series) case Mismatch => OutOfOrder case Overflow => OutOfRange;
  }

  lemma JudgingConverted(x: Resolved)
    requires H.ValidSeries(x.source) && ValidBasis(x.basis) && x.source.identity == x.basis.identity
    requires |x.points| == |x.source.points|
    requires JudgePoints(x.source.points, x.basis, x.points, |x.points|) == Fine
    ensures Judge(x) == Fine
  {
  }

  /** The comprehension that converts every point, or the overflow that stops it. */
  method ConvertPoints(source: seq<H.Point>, basis: Basis) returns (r: Option<seq<Point>>)
    requires ValidBasis(basis) && H.AllValid(source)
    ensures r.Some? <==> AllConvertible(source, basis)
    ensures r.Some? ==> |r.value| == |source| && ConvertedFrom(r.value, source, basis)
  {
    hide H.ValidPoint, PointUtc, Convertible;
    var points: seq<Point> := [];
    var i := 0;
    while i < |source|
      invariant 0 <= i == |points| <= |source|
      invariant ConvertedFrom(points, source, basis)
      invariant forall j :: 0 <= j < i ==> Convertible(source[j], basis)
    {
      var p := source[i];
      ConvertibleIffUtc(p, basis);
      var utc := PointUtc(p, basis);
      if utc.None? {
        return None;
      }
      points, i := points + [ResolvedPoint(p.local, utc.value, p.value)], i + 1;
    }
    r := Some(points);
  }

  /** The only days on which a shifted moment can leave the representable years. */
  predicate EdgeDay(date: string) { date == DateText(FIRST_DAY) || date == DateText(LAST_DAY) }

  /** Only the first and the last day of the calendar can overflow. */
  lemma OtherDaysAreConvertible(p: H.Point, basis: Basis, date: string)
    requires H.ValidPoint(p) && ValidBasis(basis) && H.OnDate([p], date)
    requires !EdgeDay(date)
    ensures Convertible(p, basis)
  {
    hide DateText, Ordinal;
    var t := ParseLocal(p.local).value;
    LocalRoundTrip(t, p.local);
    assert [p][0] == p && p.local[..10] == DateText(t.date);
    assert t.date != FIRST_DAY && t.date != LAST_DAY;
    PreviousDayIsOneEarlier(t.date);
    NextDayIsOneLater(t.date);
    ConvertibleIffUtc(p, basis);
    assert ToUtc(t, basis.offset).Some?;
  }

  // ---- records ----------------------------------------------------------------------

  function PointRecord(p: Point): Json {
    Object(map[DeviceLocalTimestamp := Str(p.local), UtcTimestamp := Str(p.utc), PointValue := Str(p.value)])
  }

  function ParsePoint(j: Json): ParseOutcome<Point> {
    if !HasExactly(j, {DeviceLocalTimestamp, UtcTimestamp, PointValue}) then Refused
    else
      var local, utc, value := j.fields[DeviceLocalTimestamp], j.fields[UtcTimestamp], j.fields[PointValue];
      if !local.Str? || !utc.Str? || !value.Str? || !ValidPoint(ResolvedPoint(local.text, utc.text, value.text)) then Refused
      else Accepted(ResolvedPoint(local.text, utc.text, value.text))
  }

  function PointRecords(points: seq<Point>): (r: seq<Json>)
    ensures |r| == |points| && forall i :: 0 <= i < |r| ==> r[i] == PointRecord(points[i])
  {
    seq(|points|, i requires 0 <= i < |points| => PointRecord(points[i]))
  }

  function ParsePoints(items: seq<Json>): ParseOutcome<seq<Point>> { ParseList(items, ParsePoint) }

  lemma PointRoundTrip(p: Point, j: Json)
    ensures ValidPoint(p) ==> ParsePoint(PointRecord(p)) == Accepted(p)
    ensures ParsePoint(j).Accepted? ==> ValidPoint(ParsePoint(j).value) && PointRecord(ParsePoint(j).value) == j
  {
    hide ValidPoint;
    if ParsePoint(j).Accepted? {
      assert PointRecord(ParsePoint(j).value).fields == j.fields;
    }
  }

  lemma PointRecordsParse(points: seq<Point>)
    requires ValidPoints(points)
    ensures ParsePoints(PointRecords(points)) == Accepted(points)
  {
    hide ValidPoint, ParsePoint, PointRecord, ParseList;
    forall i | 0 <= i < |points| ensures ParsePoint(PointRecords(points)[i]) == Accepted(points[i]) {
      PointRoundTrip(points[i], Null);
    }
    ListParsesIff(PointRecords(points), ParsePoint, points);
  }

  lemma ParsedPointsAreTheirRecords(items: seq<Json>)
    requires ParsePoints(items).Accepted?
    ensures PointRecords(ParsePoints(items).value) == items && ValidPoints(ParsePoints(items).value)
  {
    hide ValidPoint, ParsePoint, PointRecord, ParseList;
    var points := ParsePoints(items).value;
    ListParsesIff(items, ParsePoint, points);
    forall i | 0 <= i < |items| ensures ValidPoint(points[i]) && PointRecord(points[i]) == items[i] {
      PointRoundTrip(points[i], items[i]);
    }
  }

  const RESOLVED_CONSTANTS: map<Field, Json> := map[
    SchemaVersion := Int(1), Authority := Str(RESOLVED_AUTHORITY), ProviderId := Str(PROVIDER),
    SourceId := Str(SOURCE), LocalMapping := Str(H.UNPROVEN), LocalMappingProven := Bool(false)]

  const RESOLVED_KEYS: set<Field> := {SourceSeries, TimeBasis, Points, PointCount}

  function ResolvedFree(x: Resolved): map<Field, Json> {
    map[SourceSeries := H.SeriesRecord(x.source), TimeBasis := BasisRecord(x.basis),
        Points := List(PointRecords(x.points)), PointCount := Int(|x.points|)]
  }

  /** `to_record`. */
  function ResolvedRecord(x: Resolved): Json { Object(RESOLVED_CONSTANTS + ResolvedFree(x)) }

  predicate ResolvedShaped(j: Json) {
    && HasExactly(j, RESOLVED_CONSTANTS.Keys + RESOLVED_KEYS)
    && Agrees(j.fields, RESOLVED_CONSTANTS)
    && j.fields[Points].List?
  }

  /** `DessMonitorResolvedHistorySeries.from_record`. */
  function ParseResolved(j: Json): ParseOutcome<Resolved> {
    if !ResolvedShaped(j) then Refused
    else
      var source, basis := H.ParseSeries(j.fields[SourceSeries]), ParseBasis(j.fields[TimeBasis]);
      var points := ParsePoints(j.fields[Points].items);
      if source.None? || basis.None? || !points.Accepted? then Refused
      else Finish(j, ResolvedSeries(source.value, basis.value, points.value))
  }

  function Finish(j: Json, x: Resolved): ParseOutcome<Resolved>
    requires ResolvedShaped(j)
  {
    if !H.ValidSeries(x.source) || !ValidBasis(x.basis) then Refused
    else
      match Judge(x)
      case Mismatch => Refused
      case Overflow => Raised
      case Fine => if j.fields[PointCount] == Int(|x.points|) then Accepted(x) else Refused
  }

  lemma ResolvedRecordShape(x: Resolved)
    ensures ResolvedShaped(ResolvedRecord(x))
    ensures ResolvedRecord(x).fields[SourceSeries] == H.SeriesRecord(x.source)
    ensures ResolvedRecord(x).fields[TimeBasis] == BasisRecord(x.basis)
    ensures ResolvedRecord(x).fields[Points] == List(PointRecords(x.points))
    ensures ResolvedRecord(x).fields[PointCount] == Int(|x.points|)
  {
    hide H.SeriesRecord, BasisRecord, PointRecords;
    assert RESOLVED_CONSTANTS.Keys !! RESOLVED_KEYS && ResolvedFree(x).Keys == RESOLVED_KEYS;
    PartsShow(RESOLVED_CONSTANTS, ResolvedFree(x));
  }

  lemma ResolvedRecordParses(x: Resolved)
    requires ValidResolved(x)
    ensures ParseResolved(ResolvedRecord(x)) == Accepted(x)
  {
    hide ResolvedRecord, ResolvedShaped, H.SeriesRecord, H.ParseSeries, H.ValidSeries;
    hide BasisRecord, ParseBasis, ValidBasis, Judge, PointRecords, ParsePoints, ValidPoints;
    ResolvedRecordShape(x);
    H.SeriesRoundTrip(x.source, Null);
    BasisRoundTrip(x.basis, Null);
    PointRecordsParse(x.points);
  }

  lemma ParsedResolvedIsItsRecord(j: Json)
    requires ParseResolved(j).Accepted?
    ensures ValidResolved(ParseResolved(j).value) && ResolvedRecord(ParseResolved(j).value) == j
  {
    hide H.SeriesRecord, H.ParseSeries, H.ValidSeries;
    hide BasisRecord, ParseBasis, ValidBasis, Judge, PointRecords, ParsePoints, ValidPoints;
    var x := ParseResolved(j).value;
    H.SeriesRoundTrip(x.source, j.fields[SourceSeries]);
    BasisRoundTrip(x.basis, j.fields[TimeBasis]);
    ParsedPointsAreTheirRecords(j.fields[Points].items);
    assert ResolvedFree(x).Keys == RESOLVED_KEYS;
    PartsMakeWhole(j.fields, RESOLVED_CONSTANTS, ResolvedFree(x));
  }

  /** Printing and parsing a resolved series are exact inverses, in both directions. */
  lemma ResolvedRoundTrip(x: Resolved, j: Json)
    ensures ValidResolved(x) ==> ParseResolved(ResolvedRecord(x)) == Accepted(x)
    ensures ParseResolved(j).Accepted? ==>
      ValidResolved(ParseResolved(j).value) && ResolvedRecord(ParseResolved(j).value) == j
  {
    hide ParseResolved, ResolvedRecord, ValidResolved;
    if ValidResolved(x) { ResolvedRecordParses(x); }
    if ParseResolved(j).Accepted? { ParsedResolvedIsItsRecord(j); }
  }

  // ---- the overflow that escapes ------------------------------------------------------

  /** The loop has found nothing wrong exactly when the points so far are the converted source points. */
  lemma {:induction false} FineIffConverted(source: seq<H.Point>, basis: Basis, points: seq<Point>, n: nat)
    requires ValidBasis(basis) && n <= |points| == |source| && H.AllValid(source) && H.Ascending(source)
    ensures JudgePoints(source, basis, points, n) == Fine <==> ConvertedFrom(points[..n], source, basis)
  {
    hide H.ValidPoint, PointUtc, Less;
    if n > 0 {
      FineIffConverted(source, basis, points, n - 1);
      assert points[..n] == points[..n - 1] + [points[n - 1]];
      if n > 1 && ConvertedFrom(points[..n], source, basis) {
        assert points[..n][n - 2] == points[n - 2] && points[..n][n - 1] == points[n - 1];
        ConversionKeepsTextOrder(source[n - 2], source[n - 1], basis);
        LessIsTotal(points[n - 2].utc, points[n - 1].utc);
      }
    }
  }

  /** All points before this one are the converted source points, and its source cannot be converted. */
  predicate OverflowsAt(source: seq<H.Point>, basis: Basis, points: seq<Point>, i: nat)
    requires ValidBasis(basis) && i < |points| == |source| && H.AllValid(source)
  {
    && ConvertedFrom(points[..i], source, basis)
    && points[i].local == source[i].local && points[i].value == source[i].value
    && !Convertible(source[i], basis)
  }

  lemma PointOverflowsExactly(source: H.Point, basis: Basis, p: Point, previousUtc: string)
    requires ValidBasis(basis) && H.ValidPoint(source)
    ensures JudgePoint(source, basis, p, previousUtc) == Overflow <==>
      p.local == source.local && p.value == source.value && !Convertible(source, basis)
  {
    hide H.ValidPoint, PointUtc, Convertible;
    ConvertibleIffUtc(source, basis);
  }

  lemma {:induction false} LoopOverflowsExactly(source: seq<H.Point>, basis: Basis, points: seq<Point>, n: nat)
    requires ValidBasis(basis) && n <= |points| == |source| && H.AllValid(source) && H.Ascending(source)
    ensures JudgePoints(source, basis, points, n) == Overflow <==>
      exists i: nat :: i < n && OverflowsAt(source, basis, points, i)
  {
    hide H.ValidPoint, JudgePoint, Convertible, ConvertedFrom, H.Ascending;
    if n > 0 {
      LoopOverflowsExactly(source, basis, points, n - 1);
      FineIffConverted(source, basis, points, n - 1);
      var previousUtc := if n == 1 then "" else points[n - 2].utc;
      PointOverflowsExactly(source[n - 1], basis, points[n - 1], previousUtc);
      if JudgePoints(source, basis, points, n - 1) == Fine {
        forall i: nat | i < n - 1 ensures !OverflowsAt(source, basis, points, i) {
        }
        assert JudgePoints(source, basis, points, n) == Overflow <==> OverflowsAt(source, basis, points, n - 1);
      }
    }
  }

  /** Some point of the series overflows the constructor. */
  ghost predicate Overflows(x: Resolved)
    requires H.ValidSeries(x.source) && ValidBasis(x.basis)
  {
    && x.source.identity == x.basis.identity && |x.points| == |x.source.points|
    && exists i: nat :: i < |x.points| && OverflowsAt(x.source.points, x.basis, x.points, i)
  }

  /** The constructor overflows exactly on such a series. */
  lemma OverflowExactly(x: Resolved)
    requires H.ValidSeries(x.source) && ValidBasis(x.basis)
    ensures Judge(x) == Overflow <==> Overflows(x)
  {
    hide H.ValidPoint, JudgePoint, OverflowsAt, JudgePoints;
    if x.source.identity == x.basis.identity && |x.points| == |x.source.points| {
      LoopOverflowsExactly(x.source.points, x.basis, x.points, |x.points|);
    }
  }

  /** The record is well shaped and its parts parse to those of the series. */
  predicate HasParts(j: Json, x: Resolved) {
    && ResolvedShaped(j)
    && H.ParseSeries(j.fields[SourceSeries]) == Some(x.source)
    && ParseBasis(j.fields[TimeBasis]) == Some(x.basis)
    && ParsePoints(j.fields[Points].items) == Accepted(x.points)
  }

  lemma PartsAreValid(j: Json, x: Resolved)
    requires HasParts(j, x)
    ensures H.ValidSeries(x.source) && ValidBasis(x.basis)
  {
    hide ResolvedShaped, H.ParseSeries, ParseBasis, H.ValidSeries, ValidBasis, H.SeriesRecord, BasisRecord;
    ShapedResolvedHasParts(j);
    H.SeriesRoundTrip(x.source, j.fields[SourceSeries]);
    BasisRoundTrip(x.basis, j.fields[TimeBasis]);
  }

  /** The record's parts are those of a series that overflows. */
  ghost predicate HasOverflowingParts(j: Json, x: Resolved) {
    && HasParts(j, x)
    && (PartsAreValid(j, x); Overflows(x))
  }

  lemma ParserJudgesParts(j: Json, x: Resolved)
    requires HasParts(j, x)
    ensures ParseResolved(j) == Raised <==> HasOverflowingParts(j, x)
  {
    hide H.ParseSeries, ParseBasis, H.ValidSeries, ValidBasis, Judge, Overflows, ParsePoints, ResolvedShaped;
    PartsAreValid(j, x);
    ShapedResolvedHasParts(j);
    OverflowExactly(x);
  }

  /** The parser raises exactly on the records whose parts parse to a series that overflows. */
  lemma ParserRaisesIff(j: Json)
    ensures ParseResolved(j) == Raised <==> exists x :: HasOverflowingParts(j, x)
  {
    hide H.ParseSeries, ParseBasis, H.ValidSeries, ValidBasis, Judge, ParsePoints, ResolvedShaped, Overflows;
    if ParseResolved(j) == Raised {
      ShapedResolvedHasParts(j);
      var x := ResolvedSeries(H.ParseSeries(j.fields[SourceSeries]).value, ParseBasis(j.fields[TimeBasis]).value,
                              ParsePoints(j.fields[Points].items).value);
      assert HasParts(j, x);
      ParserJudgesParts(j, x);
    }
    if x :| HasOverflowingParts(j, x) {
      ParserJudgesParts(j, x);
    }
  }

  // ---- an input that overflows ----------------------------------------------------------

  /** Half past one in the afternoon of the last day, twelve hours west of Greenwich. */
  const LATE := Stamp(LAST_DAY, 48600)
  const WEST := -43200

  lemma LateMomentOverflows()
    ensures ValidStamp(LATE) && ValidOffset(WEST) && ToUtc(LATE, WEST) == None
    ensures ParseLocal(LocalText(LATE)) == Some(LATE)
    ensures H.ValidPoint(H.HistoryPoint(LocalText(LATE), "1"))
  {
    hide LocalText, ParseLocal;
    LocalRoundTrip(LATE, "");
    assert LATE.second < DAY;
    OneIsNumericText();
  }

  lemma OneIsNumericText()
    ensures NumericText("1")
  {
    assert WithoutUnderscores("1") == "1";
    assert DigitsEnd("1", 0) == 1;
  }

  /** A valid one-point series of the last day, in its device's westernmost zone. */
  function LateSeries(identity: DeviceIdentity): Resolved {
    var local := LocalText(LATE);
    var source := H.HistorySeries(
      identity, H.KEY_PARAMETER, "power", DateText(LAST_DAY), [H.HistoryPoint(local, "1")], "", "", 0);
    ResolvedSeries(source, Basis(identity, WEST), [ResolvedPoint(local, UtcText(LATE), "1")])
  }

  lemma LateSeriesIsValidButForTheShift(identity: DeviceIdentity)
    requires ValidIdentity(identity)
    ensures var x := LateSeries(identity);
      && H.ValidSeries(x.source) && ValidBasis(x.basis) && ValidPoints(x.points)
      && Overflows(x)
  {
    hide LocalText, ParseLocal, DateText, ParseDate, UtcText, IsUtcText, NumericText, ValidIdentity, ToUtc;
    LateMomentOverflows();
    OneIsNumericText();
    LocalTextStartsWithDate(LATE);
    DateRoundTrip(LAST_DAY);
    PrintedUtcIsUtcText(LATE);
    var x := LateSeries(identity);
    LateHeader(x.source);
    ConvertibleIffUtc(x.source.points[0], x.basis);
    assert OverflowsAt(x.source.points, x.basis, x.points, 0);
  }

  lemma LateHeader(x: H.Series)
    requires ValidIdentity(x.identity) && ParseDate(x.date).Some?
    requires x.source == H.KEY_PARAMETER && x.key == "power" && x.title == "" && x.unit == "" && x.precision == 0
    ensures H.ValidHeader(x)
  {
    hide ParseDate, ValidIdentity;
  }

  lemma LocalTextStartsWithDate(t: Stamp)
    requires ValidStamp(t)
    ensures |LocalText(t)| == 19 && LocalText(t)[..10] == DateText(t.date)
  {
  }

  /** For every device there is a record that makes the parser raise. */
  lemma SomeRecordRaises(identity: DeviceIdentity)
    requires ValidIdentity(identity)
    ensures ParseResolved(ResolvedRecord(LateSeries(identity))) == Raised
  {
    hide ResolvedRecord, ResolvedShaped, H.SeriesRecord, H.ParseSeries, H.ValidSeries, ParseResolved, LateSeries;
    hide BasisRecord, ParseBasis, ValidBasis, PointRecords, ParsePoints, ValidPoints, ValidIdentity, Overflows;
    var x := LateSeries(identity);
    LateSeriesIsValidButForTheShift(identity);
    ResolvedRecordShape(x);
    H.SeriesRoundTrip(x.source, Null);
    BasisRoundTrip(x.basis, Null);
    PointRecordsParse(x.points);
    ParserJudgesParts(ResolvedRecord(x), x);
  }

  /** `from_record` with its loops over the raw points. */
  method ResolvedFromRecord(j: Json) returns (out: ParseOutcome<Resolved>)
    ensures out == ParseResolved(j)
  {
    hide ResolvedShaped, H.ParseSeries, ParseBasis, Judge, H.ValidSeries, ValidBasis;
    if !ResolvedShaped(j) {
      return Refused;
    }
    ShapedResolvedHasParts(j);
    var source := H.SeriesFromRecord(j.fields[SourceSeries]);
    var basis := ParseBasis(j.fields[TimeBasis]);
    var points := ListFromRecord(j.fields[Points].items, ParsePoint);
    if source.None? || basis.None? || !points.Accepted? {
      return Refused;
    }
    H.SeriesRoundTrip(source.value, j.fields[SourceSeries]);
    BasisRoundTrip(basis.value, j.fields[TimeBasis]);
    var series := ResolvedSeries(source.value, basis.value, points.value);
    var verdict := JudgeSeries(series);
    match verdict {
      case Mismatch => out := Refused;
      case Overflow => out := Raised;
      case Fine => out := if j.fields[PointCount] == Int(|series.points|) then Accepted(series) else Refused;
    }
  }

  lemma ShapedResolvedHasParts(j: Json)
    requires ResolvedShaped(j)
    ensures j.Object? && Points in j.fields && j.fields[Points].List?
    ensures SourceSeries in j.fields && TimeBasis in j.fields && PointCount in j.fields
  {
  }
}
