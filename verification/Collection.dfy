/** `dessmonitor_collection.py`: one bounded history attempt for one cloud device. */
module Collection {
  import opened Numbers
  import opened Timestamps
  import opened Records
  import opened TimeBases
  import R = Resolution

  const COLLECTION_AUTHORITY := "bounded_read_only_history_collection"
  const COMPLETE := "complete"
  const PARTIAL := "partial"
  const UNAVAILABLE := "unavailable"
  const NO_TIME_BASIS := "time_basis_unavailable"
  const MAX_SERIES := 8

  datatype Collection = HistoryCollection(
    identity: DeviceIdentity, basis: Option<Basis>, date: string,
    attempted: int, failed: int, exhausted: bool, series: seq<R.Resolved>)

  function SeriesKeyOf(x: R.Resolved): (string, string) { (x.source.source, x.source.key) }

  predicate DistinctKeys(series: seq<R.Resolved>) {
    forall i, j :: 0 <= i < j < |series| ==> SeriesKeyOf(series[i]) != SeriesKeyOf(series[j])
  }

  /** Every series belongs to this device, this time basis and this day. */
  predicate BelongsTogether(x: Collection) {
    forall i :: 0 <= i < |x.series| ==>
      && x.series[i].source.identity == x.identity
      && Some(x.series[i].basis) == x.basis
      && x.series[i].source.date == x.date
  }

  predicate AllResolved(series: seq<R.Resolved>) {
    forall i :: 0 <= i < |series| ==> R.ValidResolved(series[i])
  }

  /** What each part of a collection must be on its own. */
  predicate ValidParts(x: Collection) {
    && ValidIdentity(x.identity)
    && (x.basis.Some? ==> ValidBasis(x.basis.value))
    && AllResolved(x.series)
  }

  /** The accounting rule: nothing without a time basis; otherwise every attempt ended one way. */
  predicate Accounted(x: Collection) {
    if x.basis.None? then x.date == "" && x.attempted == 0 && x.failed == 0 && x.series == []
    else (x.attempted != 0 || x.exhausted) && |x.series| + x.failed == x.attempted
  }

  /** What the `DessMonitorHistoryCollection` constructor checks beyond its parts. */
  predicate ConstructorAccepts(x: Collection) {
    && (x.basis.Some? ==> x.basis.value.identity == x.identity)
    && ((x.date == "" && x.basis.None?) || ParseDate(x.date).Some?)
    && 0 <= x.attempted <= MAX_SERIES && 0 <= x.failed <= MAX_SERIES && |x.series| <= MAX_SERIES
    && BelongsTogether(x) && DistinctKeys(x.series)
    && Accounted(x)
  }

  predicate ValidCollection(x: Collection) { ValidParts(x) && ConstructorAccepts(x) }

  function StatusOf(x: Collection): string {
    if x.basis.None? then NO_TIME_BASIS
    else if x.series == [] then UNAVAILABLE
    else if x.failed != 0 || x.exhausted then PARTIAL
    else COMPLETE
  }

  predicate IsStatus(s: string) { s == COMPLETE || s == PARTIAL || s == UNAVAILABLE || s == NO_TIME_BASIS }

  function TotalPoints(series: seq<R.Resolved>): nat {
    if series == [] then 0 else TotalPoints(series[..|series| - 1]) + |series[|series| - 1].points|
  }

  // ---- records -------------------------------------------------------------------

  function SeriesRecords(series: seq<R.Resolved>): (r: seq<Json>)
    ensures |r| == |series| && forall i :: 0 <= i < |r| ==> r[i] == R.ResolvedRecord(series[i])
  {
    seq(|series|, i requires 0 <= i < |series| => R.ResolvedRecord(series[i]))
  }

  /** The series of a record, up to the first that is refused or raises. */
  function ParseSeriesList(items: seq<Json>): ParseOutcome<seq<R.Resolved>> { ParseList(items, R.ParseResolved) }

  lemma SeriesRecordsParse(series: seq<R.Resolved>)
    requires AllResolved(series)
    ensures ParseSeriesList(SeriesRecords(series)) == Accepted(series)
  {
    hide R.ValidResolved, R.ParseResolved, R.ResolvedRecord, ParseList;
    forall i | 0 <= i < |series| ensures R.ParseResolved(SeriesRecords(series)[i]) == Accepted(series[i]) {
      R.ResolvedRoundTrip(series[i], Null);
    }
    ListParsesIff(SeriesRecords(series), R.ParseResolved, series);
  }

  lemma ParsedSeriesAreTheirRecords(items: seq<Json>)
    requires ParseSeriesList(items).Accepted?
    ensures SeriesRecords(ParseSeriesList(items).value) == items && AllResolved(ParseSeriesList(items).value)
  {
    hide R.ValidResolved, R.ParseResolved, R.ResolvedRecord, ParseList;
    var series := ParseSeriesList(items).value;
    ListParsesIff(items, R.ParseResolved, series);
    forall i | 0 <= i < |items| ensures R.ValidResolved(series[i]) && R.ResolvedRecord(series[i]) == items[i] {
      R.ResolvedRoundTrip(series[i], items[i]);
    }
  }

  const COLLECTION_CONSTANTS: map<Field, Json> := map[
    SchemaVersion := Int(1), Authority := Str(COLLECTION_AUTHORITY), ProviderId := Str(PROVIDER),
    SourceId := Str(SOURCE), ReadOnly := Bool(true), LocalMappingProven := Bool(false),
    ActivationAllowed := Bool(false)]

  const COLLECTION_KEYS: set<Field> :=
    {Records.Identity, TimeBasis, RequestedDate, AttemptedSeriesCount, FailedSeriesCount, BudgetExhausted,
     Records.Series, Status, CollectedSeriesCount, PointCount}

  function BasisOrNull(basis: Option<Basis>): Json {
    match basis case Some(b) => BasisRecord(b) case None => Null
  }

  function CollectionFree(x: Collection): map<Field, Json> {
    map[Records.Identity := IdentityRecord(x.identity), TimeBasis := BasisOrNull(x.basis),
        RequestedDate := Str(x.date), AttemptedSeriesCount := Int(x.attempted),
        FailedSeriesCount := Int(x.failed), BudgetExhausted := Bool(x.exhausted),
        Records.Series := List(SeriesRecords(x.series)), Status := Str(StatusOf(x)),
        CollectedSeriesCount := Int(|x.series|), PointCount := Int(TotalPoints(x.series))]
  }

  /** `to_record`. */
  function CollectionRecord(x: Collection): Json { Object(COLLECTION_CONSTANTS + CollectionFree(x)) }

  /** The checks made before anything nested is parsed. */
  predicate CollectionShaped(j: Json) {
    && HasExactly(j, COLLECTION_CONSTANTS.Keys + COLLECTION_KEYS)
    && Agrees(j.fields, COLLECTION_CONSTANTS)
    && j.fields[Records.Series].List? && j.fields[BudgetExhausted].Bool?
    && j.fields[Status].Str? && IsStatus(j.fields[Status].text)
  }

  /** The time basis of a record: absent, parsed, or refused. */
  function ParseOptionalBasis(j: Json): Option<Option<Basis>> {
    if j == Null then Some(None)
    else match ParseBasis(j) case Some(b) => Some(Some(b)) case None => None
  }

  /** The counts and the day have the exact types the constructor asks for. */
  predicate CollectionTyped(j: Json)
    requires CollectionShaped(j)
  {
    j.fields[RequestedDate].Str? && j.fields[AttemptedSeriesCount].Int? && j.fields[FailedSeriesCount].Int?
  }

  function Assemble(j: Json, identity: DeviceIdentity, basis: Option<Basis>, series: seq<R.Resolved>): Collection
    requires CollectionShaped(j) && CollectionTyped(j)
  {
    HistoryCollection(identity, basis, j.fields[RequestedDate].text, j.fields[AttemptedSeriesCount].number,
                      j.fields[FailedSeriesCount].number, j.fields[BudgetExhausted].truth, series)
  }

  /** The derived fields say what they are derived from. */
  predicate DerivedFieldsAgree(j: Json, x: Collection)
    requires CollectionShaped(j)
  {
    && j.fields[Status] == Str(StatusOf(x))
    && j.fields[CollectedSeriesCount] == Int(|x.series|)
    && j.fields[PointCount] == Int(TotalPoints(x.series))
  }

  /** `DessMonitorHistoryCollection.from_record`. */
  function ParseCollection(j: Json): ParseOutcome<Collection> {
    if !CollectionShaped(j) then Refused
    else
      var identity := ParseIdentity(j.fields[Records.Identity]);
      var basis := ParseOptionalBasis(j.fields[TimeBasis]);
      if identity.None? || basis.None? then Refused
      else
        match ParseSeriesList(j.fields[Records.Series].items)
        case Refused => Refused
        case Raised => Raised
        case Accepted(series) =>
          if !CollectionTyped(j) then Refused
          else
            var x := Assemble(j, identity.value, basis.value, series);
            if ConstructorAccepts(x) && DerivedFieldsAgree(j, x) then Accepted(x) else Refused
  }

  lemma OptionalBasisRoundTrip(basis: Option<Basis>, j: Json)
    ensures (basis.Some? ==> ValidBasis(basis.value)) ==> ParseOptionalBasis(BasisOrNull(basis)) == Some(basis)
    ensures ParseOptionalBasis(j).Some? ==>
      && (ParseOptionalBasis(j).value.Some? ==> ValidBasis(ParseOptionalBasis(j).value.value))
      && BasisOrNull(ParseOptionalBasis(j).value) == j
  {
    hide ParseBasis, ValidBasis;
    if basis.Some? {
      BasisRoundTrip(basis.value, j);
    }
    if ParseBasis(j).Some? {
      BasisRoundTrip(ParseBasis(j).value, j);
    }
  }

  lemma CollectionFreeKeys(x: Collection)
    ensures CollectionFree(x).Keys == COLLECTION_KEYS
  {
    hide IdentityRecord, BasisOrNull, SeriesRecords, StatusOf, TotalPoints;
  }

  lemma StatusIsStatus(x: Collection)
    ensures IsStatus(StatusOf(x))
  {
  }

  lemma CollectionKeysAreSeparate()
    ensures COLLECTION_CONSTANTS.Keys !! COLLECTION_KEYS
  {
  }

  /** What the free part of a record shows field by field. */
  predicate ShowsFree(fields: map<Field, Json>, x: Collection) {
    && fields.Keys >= COLLECTION_KEYS
    && fields[Records.Identity] == IdentityRecord(x.identity)
    && fields[TimeBasis] == BasisOrNull(x.basis)
    && fields[RequestedDate] == Str(x.date)
    && fields[AttemptedSeriesCount] == Int(x.attempted)
    && fields[FailedSeriesCount] == Int(x.failed)
    && fields[BudgetExhausted] == Bool(x.exhausted)
    && fields[Records.Series] == List(SeriesRecords(x.series))
    && fields[Status] == Str(StatusOf(x))
    && fields[CollectedSeriesCount] == Int(|x.series|)
    && fields[PointCount] == Int(TotalPoints(x.series))
  }

  lemma FreeShowsItself(x: Collection)
    ensures ShowsFree(CollectionFree(x), x)
  {
    hide IdentityRecord, BasisOrNull, SeriesRecords, StatusOf, TotalPoints;
  }

  lemma ShowingFreeIsAgreeing(fields: map<Field, Json>, x: Collection)
    requires fields.Keys >= COLLECTION_KEYS
    ensures Agrees(fields, CollectionFree(x)) <==> ShowsFree(fields, x)
  {
    hide IdentityRecord, BasisOrNull, SeriesRecords, StatusOf, TotalPoints, CollectionFree;
    CollectionFreeKeys(x);
    FreeShowsItself(x);
    if ShowsFree(fields, x) {
      forall f | f in CollectionFree(x) ensures f in fields && fields[f] == CollectionFree(x)[f] {
        assert f in COLLECTION_KEYS;
      }
    }
  }

  lemma CollectionRecordShape(x: Collection)
    ensures CollectionRecord(x).Object? && ShowsFree(CollectionRecord(x).fields, x)
    ensures CollectionRecord(x).fields.Keys == COLLECTION_CONSTANTS.Keys + COLLECTION_KEYS
    ensures Agrees(CollectionRecord(x).fields, COLLECTION_CONSTANTS)
  {
    hide CollectionFree, COLLECTION_CONSTANTS, COLLECTION_KEYS, ShowsFree, Agrees;
    CollectionKeysAreSeparate();
    CollectionFreeKeys(x);
    PartsShow(COLLECTION_CONSTANTS, CollectionFree(x));
    ShowingFreeIsAgreeing(CollectionRecord(x).fields, x);
  }

  lemma CollectionRecordContents(x: Collection)
    ensures CollectionShaped(CollectionRecord(x)) && CollectionTyped(CollectionRecord(x))
    ensures DerivedFieldsAgree(CollectionRecord(x), x)
    ensures Assemble(CollectionRecord(x), x.identity, x.basis, x.series) == x
    ensures CollectionRecord(x).fields[Records.Identity] == IdentityRecord(x.identity)
    ensures CollectionRecord(x).fields[TimeBasis] == BasisOrNull(x.basis)
    ensures CollectionRecord(x).fields[Records.Series] == List(SeriesRecords(x.series))
  {
    hide CollectionRecord, COLLECTION_CONSTANTS, Agrees;
    hide IdentityRecord, BasisOrNull, SeriesRecords, StatusOf, TotalPoints, IsStatus;
    CollectionRecordShape(x);
    StatusIsStatus(x);
  }

  lemma CollectionRecordParses(x: Collection)
    requires ValidCollection(x)
    ensures ParseCollection(CollectionRecord(x)) == Accepted(x)
  {
    CollectionRecordContents(x);
    hide CollectionRecord, CollectionShaped, CollectionTyped, DerivedFieldsAgree, Assemble, ConstructorAccepts;
    hide ParseIdentity, IdentityRecord, ParseOptionalBasis, BasisOrNull, ParseSeriesList, SeriesRecords;
    hide ValidIdentity, ValidBasis, AllResolved;
    IdentityRoundTrip(x.identity, Null);
    OptionalBasisRoundTrip(x.basis, Null);
    SeriesRecordsParse(x.series);
  }

  /** What an accepted record was checked for. */
  lemma AcceptedIsChecked(j: Json)
    requires ParseCollection(j).Accepted?
    ensures CollectionShaped(j) && CollectionTyped(j)
    ensures var x := ParseCollection(j).value;
      && ParseIdentity(j.fields[Records.Identity]) == Some(x.identity)
      && ParseOptionalBasis(j.fields[TimeBasis]) == Some(x.basis)
      && ParseSeriesList(j.fields[Records.Series].items) == Accepted(x.series)
      && x == Assemble(j, x.identity, x.basis, x.series)
      && ConstructorAccepts(x) && DerivedFieldsAgree(j, x)
  {
    hide CollectionShaped, ConstructorAccepts, DerivedFieldsAgree, ParseIdentity, ParseOptionalBasis;
    hide ParseSeriesList, CollectionTyped;
  }

  lemma CheckedShowsFree(j: Json, x: Collection)
    requires CollectionShaped(j) && CollectionTyped(j) && DerivedFieldsAgree(j, x)
    requires x == Assemble(j, x.identity, x.basis, x.series)
    requires j.fields[Records.Identity] == IdentityRecord(x.identity)
    requires j.fields[TimeBasis] == BasisOrNull(x.basis)
    requires j.fields[Records.Series] == List(SeriesRecords(x.series))
    ensures j.fields.Keys == COLLECTION_CONSTANTS.Keys + COLLECTION_KEYS
    ensures Agrees(j.fields, COLLECTION_CONSTANTS) && ShowsFree(j.fields, x)
  {
    hide COLLECTION_CONSTANTS, Agrees, IdentityRecord, BasisOrNull, SeriesRecords, StatusOf, TotalPoints, IsStatus;
  }

  lemma ParsedCollectionIsItsRecord(j: Json)
    requires ParseCollection(j).Accepted?
    ensures ValidCollection(ParseCollection(j).value) && CollectionRecord(ParseCollection(j).value) == j
  {
    hide ParseCollection, CollectionShaped, CollectionTyped, DerivedFieldsAgree, CollectionFree, ShowsFree, Agrees;
    hide ConstructorAccepts, ParseIdentity, IdentityRecord, ParseOptionalBasis, BasisOrNull, ParseSeriesList;
    hide SeriesRecords, ValidIdentity, ValidBasis, AllResolved, COLLECTION_CONSTANTS, COLLECTION_KEYS;
    AcceptedIsChecked(j);
    var x := ParseCollection(j).value;
    ShapedHasParts(j);
    IdentityRoundTrip(x.identity, j.fields[Records.Identity]);
    OptionalBasisRoundTrip(x.basis, j.fields[TimeBasis]);
    ParsedSeriesAreTheirRecords(j.fields[Records.Series].items);
    CheckedShowsFree(j, x);
    ShowingFreeIsAgreeing(j.fields, x);
    CollectionFreeKeys(x);
    PartsMakeWhole(j.fields, COLLECTION_CONSTANTS, CollectionFree(x));
  }

  lemma ShapedHasParts(j: Json)
    requires CollectionShaped(j)
    ensures j.Object? && Records.Identity in j.fields && TimeBasis in j.fields
    ensures Records.Series in j.fields && j.fields[Records.Series].List?
  {
  }

  /**
   Printing and parsing a collection are exact inverses, in both directions, through all four nested
   levels: no accepted record can disagree with what it is derived from.
   */
  lemma CollectionRoundTrip(x: Collection, j: Json)
    ensures ValidCollection(x) ==> ParseCollection(CollectionRecord(x)) == Accepted(x)
    ensures ParseCollection(j).Accepted? ==>
      ValidCollection(ParseCollection(j).value) && CollectionRecord(ParseCollection(j).value) == j
  {
    hide ParseCollection, CollectionRecord, ValidCollection;
    if ValidCollection(x) { CollectionRecordParses(x); }
    if ParseCollection(j).Accepted? { ParsedCollectionIsItsRecord(j); }
  }

  /** The constructor's loop: every series fits the collection and none repeats an earlier key. */
  method CheckSeries(x: Collection) returns (ok: bool)
    ensures ok <==> BelongsTogether(x) && DistinctKeys(x.series)
  {
    var keys: set<(string, string)> := {};
    var i := 0;
    while i < |x.series|
      invariant 0 <= i <= |x.series|
      invariant forall k :: k in keys <==> exists j :: 0 <= j < i && SeriesKeyOf(x.series[j]) == k
      invariant BelongsTogether(x.(series := x.series[..i])) && DistinctKeys(x.series[..i])
    {
      var item := x.series[i];
      assert x.series[..i + 1] == x.series[..i] + [item];
      if item.source.identity != x.identity || Some(item.basis) != x.basis || item.source.date != x.date {
        return false;
      }
      var key := SeriesKeyOf(item);
      if key in keys {
        return false;
      }
      keys, i := keys + {key}, i + 1;
    }
    assert x.series[..i] == x.series;
    ok := true;
  }

  /** `DessMonitorHistoryCollection.__post_init__` on parts of the right types. */
  method CheckCollection(x: Collection) returns (ok: bool)
    ensures ok <==> ConstructorAccepts(x)
  {
    hide BelongsTogether, DistinctKeys, ParseDate;
    if x.basis.Some? && x.basis.value.identity != x.identity {
      return false;
    }
    if !((x.date == "" && x.basis.None?) || ParseDate(x.date).Some?) {
      return false;
    }
    if !(0 <= x.attempted <= MAX_SERIES && 0 <= x.failed <= MAX_SERIES) || |x.series| > MAX_SERIES {
      return false;
    }
    var fits := CheckSeries(x);
    if !fits {
      return false;
    }
    if x.basis.None? {
      ok := x.date == "" && x.attempted == 0 && x.failed == 0 && x.series == [];
    } else if x.attempted == 0 && !x.exhausted {
      ok := false;
    } else {
      ok := |x.series| + x.failed == x.attempted;
    }
  }

  /** `from_record` with its loops over the raw series and the parsed ones. */
  method CollectionFromRecord(j: Json) returns (out: ParseOutcome<Collection>)
    ensures out == ParseCollection(j)
  {
    hide CollectionShaped, CollectionTyped, DerivedFieldsAgree, Assemble, ConstructorAccepts;
    hide ParseIdentity, ParseOptionalBasis, ParseList, R.ParseResolved;
    if !CollectionShaped(j) {
      return Refused;
    }
    ShapedHasParts(j);
    var identity := ParseIdentity(j.fields[Records.Identity]);
    var basis := ParseOptionalBasis(j.fields[TimeBasis]);
    if identity.None? || basis.None? {
      return Refused;
    }
    var series := ListFromRecord(j.fields[Records.Series].items, R.ParseResolved);
    match series {
      case Refused => return Refused;
      case Raised => return Raised;
      case Accepted(items) =>
        if !CollectionTyped(j) {
          return Refused;
        }
        var x := Assemble(j, identity.value, basis.value, items);
        var ok := CheckCollection(x);
        out := if ok && DerivedFieldsAgree(j, x) then Accepted(x) else Refused;
    }
  }

  /** The parser raises exactly when nothing before the series is refused and one of the series raises. */
  lemma CollectionRaisesIff(j: Json)
    ensures ParseCollection(j).Raised? <==>
      && CollectionShaped(j)
      && ParseIdentity(j.fields[Records.Identity]).Some? && ParseOptionalBasis(j.fields[TimeBasis]).Some?
      && exists i: nat :: RaisesAt(j.fields[Records.Series].items, R.ParseResolved, i)
  {
    hide CollectionShaped, CollectionTyped, DerivedFieldsAgree, Assemble, ConstructorAccepts, R.ParseResolved;
    hide ParseIdentity, ParseOptionalBasis, ParseList, RaisesAt;
    if CollectionShaped(j) {
      ShapedHasParts(j);
      ListRaisesIff(j.fields[Records.Series].items, R.ParseResolved);
    }
  }
}
