/** `dessmonitor_time_basis.py`: one exact zone offset for one cloud device. */
module TimeBases {
  import opened Numbers
  import opened Text
  import opened Identity
  import opened Calendar
  import opened Timestamps
  import opened Records

  const BASIS_AUTHORITY := "provider_exact_device_timezone_offset"
  const PROVIDER := "smartess"
  const SOURCE := "dessmonitor"
  const BASIS_ACTION := "queryDeviceInfo"

  datatype Basis = Basis(identity: DeviceIdentity, offset: int)

  predicate ValidBasis(b: Basis) { ValidIdentity(b.identity) && ValidOffset(b.offset) }

  const BASIS_FIELDS: set<Field> :=
    {SchemaVersion, Authority, ProviderId, SourceId, SourceAction, Records.Identity, OffsetSeconds}

  /** `to_record`. */
  function BasisRecord(b: Basis): Json {
    Object(map[
      SchemaVersion := Int(1), Authority := Str(BASIS_AUTHORITY), ProviderId := Str(PROVIDER),
      SourceId := Str(SOURCE), SourceAction := Str(BASIS_ACTION),
      Records.Identity := IdentityRecord(b.identity), OffsetSeconds := Int(b.offset)])
  }

  function ParseBasis(j: Json): Option<Basis> {
    if !HasExactly(j, BASIS_FIELDS) then None
    else
      var identity := ParseIdentity(j.fields[Records.Identity]);
      var offset := j.fields[OffsetSeconds];
      if j.fields[Authority] != Str(BASIS_AUTHORITY) || j.fields[ProviderId] != Str(PROVIDER)
         || j.fields[SourceId] != Str(SOURCE) || j.fields[SourceAction] != Str(BASIS_ACTION)
         || j.fields[SchemaVersion] != Int(1)
         || identity.None? || !offset.Int? || !ValidOffset(offset.number)
      then None
      else Some(Basis(identity.value, offset.number))
  }

  lemma BasisRoundTrip(b: Basis, j: Json)
    ensures ValidBasis(b) ==> ParseBasis(BasisRecord(b)) == Some(b)
    ensures ParseBasis(j).Some? ==> ValidBasis(ParseBasis(j).value) && BasisRecord(ParseBasis(j).value) == j
  {
    hide ValidIdentity, ParseIdentity, IdentityRecord;
    IdentityRoundTrip(b.identity, Null);
    if ParseBasis(j).Some? {
      IdentityRoundTrip(b.identity, j.fields[Records.Identity]);
      assert BasisRecord(ParseBasis(j).value).fields == j.fields;
    }
  }

  /** `to_utc_timestamp` on a valid local text; `None` is the overflow past the representable years. */
  function UtcOf(b: Basis, local: string): (utc: Option<string>)
    requires ValidBasis(b) && ParseLocal(local).Some?
  {
    match ToUtc(ParseLocal(local).value, b.offset)
    case Some(t) => Some(UtcText(t))
    case None => None
  }

  // ---- the provider's answer -----------------------------------------------------

  datatype Row = Row(pn: string, sn: string, devcode: int, devaddr: int, offset: Option<int>)

  /** The row names this exact device and carries a usable offset. */
  predicate Matches(row: Row, x: DeviceIdentity) {
    && Normalized(row.pn) && row.sn == x.sn && row.devcode == x.devcode && row.devaddr == x.devaddr
    && SameIdentity(x.pn, row.pn)
    && row.offset.Some? && ValidOffset(row.offset.value)
  }

  function MatchingRows(rows: seq<Row>, x: DeviceIdentity): seq<Row> {
    if rows == [] then []
    else MatchingRows(rows[..|rows| - 1], x)
         + if Matches(rows[|rows| - 1], x) then [rows[|rows| - 1]] else []
  }

  lemma {:induction false} MatchingRowsMatch(rows: seq<Row>, x: DeviceIdentity)
    ensures forall r :: r in MatchingRows(rows, x) <==> r in rows && Matches(r, x)
  {
    hide Matches;
    if rows != [] {
      MatchingRowsMatch(rows[..|rows| - 1], x);
      assert rows == rows[..|rows| - 1] + [rows[|rows| - 1]];
    }
  }

  /** `parse_device_time_basis` on the well-typed rows: exactly one matching row, or nothing. */
  method ParseDeviceTimeBasis(rows: seq<Row>, x: DeviceIdentity) returns (basis: Option<Basis>)
    requires ValidIdentity(x)
    ensures basis.Some? <==> |MatchingRows(rows, x)| == 1
    ensures basis.Some? ==> ValidBasis(basis.value) && basis.value.identity == x
                            && MatchingRows(rows, x)[0].offset == Some(basis.value.offset)
  {
    hide Matches;
    var candidates: seq<Row> := [];
    var i := 0;
    while i < |rows|
      invariant 0 <= i <= |rows|
      invariant candidates == MatchingRows(rows[..i], x)
    {
      assert rows[..i + 1][..i] == rows[..i];
      if Matches(rows[i], x) {
        candidates := candidates + [rows[i]];
      }
      i := i + 1;
    }
    assert rows[..i] == rows;
    if |candidates| != 1 {
      return None;
    }
    MatchingRowsMatch(rows, x);
    MatchCarriesOffset(candidates[0], x);
    basis := Some(Basis(x, candidates[0].offset.value));
  }

  lemma MatchCarriesOffset(row: Row, x: DeviceIdentity)
    requires Matches(row, x)
    ensures row.offset.Some? && ValidOffset(row.offset.value)
  {
  }
}
