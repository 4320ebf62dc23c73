/** JSON-like records, and the strict field rules the DESSMonitor evidence modules share. */
module Records {
  import opened Numbers
  import opened Text
  import opened Timestamps

  /** The record fields the evidence formats name, and any other by its own name. */
  datatype Field =
    | SchemaVersion | Authority | ProviderId | SourceId | SourceAction | ReadOnly | ActivationAllowed
    | LocalMapping | LocalMappingProven | Identity | Pn | Sn | Devcode | Devaddr
    | OffsetSeconds | SeriesKey | Title | Unit | RequestedDate | PrecisionMinutes | TimeBasis
    | TimezoneOffset | Points | PointCount | DeviceLocalTimestamp | UtcTimestamp | PointValue
    | SourceSeries | AttemptedSeriesCount | FailedSeriesCount | BudgetExhausted | Series | Status
    | CollectedSeriesCount
    // provider payload fields
    | Parameter | Rets | Ts | Key | Val | OptionalKey | NameKey | Uint
    | OtherField(name: string)

  /** A decoded value; `Int` and `Bool` are distinct, as the exact type checks demand. */
  datatype Json =
    | Null | Bool(truth: bool) | Int(number: int) | Float(amount: real) | Str(text: string)
    | List(items: seq<Json>) | Object(fields: map<Field, Json>)

  predicate HasExactly(j: Json, keys: set<Field>) { j.Object? && j.fields.Keys == keys }

  /** The fields say at least what this part of a record says. */
  predicate Agrees(fields: map<Field, Json>, part: map<Field, Json>) {
    forall f :: f in part ==> f in fields && fields[f] == part[f]
  }

  /** A record of constant and free fields shows both parts. */
  lemma PartsShow(constants: map<Field, Json>, free: map<Field, Json>)
    requires constants.Keys !! free.Keys
    ensures (constants + free).Keys == constants.Keys + free.Keys
    ensures Agrees(constants + free, constants) && Agrees(constants + free, free)
  {
  }

  /** A record with no field beyond the two parts it shows is their sum. */
  lemma PartsMakeWhole(fields: map<Field, Json>, constants: map<Field, Json>, free: map<Field, Json>)
    requires fields.Keys == constants.Keys + free.Keys
    requires Agrees(fields, constants) && Agrees(fields, free)
    ensures fields == constants + free
  {
  }

  // ---- lists of records ----------------------------------------------------------

  /** How a parse ends: with a value, with a refusal, or with an overflow that escapes. */
  datatype ParseOutcome<T> = Accepted(value: T) | Refused | Raised

  /** Every item parses, or the first that does not decides. */
  function ParseList<T>(items: seq<Json>, parse: Json -> ParseOutcome<T>): ParseOutcome<seq<T>> {
    if items == [] then Accepted([])
    else
      match ParseList(items[..|items| - 1], parse)
      case Refused => Refused
      case Raised => Raised
      case Accepted(front) =>
        match parse(items[|items| - 1]) {
          case Refused => Refused
          case Raised => Raised
          case Accepted(last) => Accepted(front + [last])
        }
  }

  /** A list parses exactly when every item does, to the values of the items. */
  lemma {:induction false} ListParsesIff<T>(items: seq<Json>, parse: Json -> ParseOutcome<T>, values: seq<T>)
    ensures ParseList(items, parse) == Accepted(values) <==>
      |values| == |items| && forall i :: 0 <= i < |items| ==> parse(items[i]) == Accepted(values[i])
  {
    if items != [] {
      var n := |items| - 1;
      if |values| == |items| {
        ListParsesIff(items[..n], parse, values[..n]);
        assert values == values[..n] + [values[n]];
      } else if ParseList(items[..n], parse).Accepted? {
        ListParsesIff(items[..n], parse, ParseList(items[..n], parse).value);
      }
    }
  }

  /** What is decided by the first items stays decided. */
  lemma {:induction false} UnparsedPrefix<T>(items: seq<Json>, parse: Json -> ParseOutcome<T>, n: nat)
    requires n <= |items| && !ParseList(items[..n], parse).Accepted?
    ensures ParseList(items, parse) == ParseList(items[..n], parse)
    decreases |items| - n
  {
    if n < |items| {
      assert items[..n + 1][..n] == items[..n];
      UnparsedPrefix(items, parse, n + 1);
    } else {
      assert items[..n] == items;
    }
  }

  /** The first items parse, and this one raises. */
  predicate RaisesAt<T>(items: seq<Json>, parse: Json -> ParseOutcome<T>, i: nat) {
    i < |items| && ParseList(items[..i], parse).Accepted? && parse(items[i]).Raised?
  }

  lemma {:induction false} ListRaisesIff<T>(items: seq<Json>, parse: Json -> ParseOutcome<T>)
    ensures ParseList(items, parse).Raised? <==> exists i: nat :: RaisesAt(items, parse, i)
  {
    if i: nat :| RaisesAt(items, parse, i) {
      assert items[..i + 1][..i] == items[..i];
      UnparsedPrefix(items, parse, i + 1);
    }
    if items != [] && ParseList(items, parse).Raised? {
      var n := |items| - 1;
      if ParseList(items[..n], parse).Accepted? {
        assert RaisesAt(items, parse, n);
      } else {
        ListRaisesIff(items[..n], parse);
        var i: nat :| RaisesAt(items[..n], parse, i);
        assert items[..n][..i] == items[..i];
        assert RaisesAt(items, parse, i);
      }
    }
  }

  /** The loop over raw items of `from_record`. */
  method ListFromRecord<T>(items: seq<Json>, parse: Json -> ParseOutcome<T>) returns (out: ParseOutcome<seq<T>>)
    ensures out == ParseList(items, parse)
  {
    var parsed: seq<T> := [];
    var i := 0;
    while i < |items|
      invariant 0 <= i <= |items|
      invariant ParseList(items[..i], parse) == Accepted(parsed)
    {
      assert items[..i + 1][..i] == items[..i];
      var item := parse(items[i]);
      match item {
        case Refused =>
          UnparsedPrefix(items, parse, i + 1);
          return Refused;
        case Raised =>
          UnparsedPrefix(items, parse, i + 1);
          return Raised;
        case Accepted(x) =>
          parsed := parsed + [x];
      }
      i := i + 1;
    }
    assert items[..i] == items;
    out := Accepted(parsed);
  }

  // ---- tokens ----------------------------------------------------------------------

  const MAX_TEXT := 512

  /** `_required_token`. */
  predicate Token(s: string) { Normalized(s) && |s| <= MAX_TEXT }

  /** `_optional_token`. */
  predicate OptionalToken(s: string) { Trimmed(s) && |s| <= MAX_TEXT }

  // ---- one cloud device -------------------------------------------------------

  datatype DeviceIdentity = DeviceIdentity(pn: string, sn: string, devcode: int, devaddr: int)

  predicate ValidIdentity(x: DeviceIdentity) {
    Token(x.pn) && Token(x.sn) && x.devcode >= 0 && x.devaddr >= 0
  }

  function IdentityRecord(x: DeviceIdentity): Json {
    Object(map[Pn := Str(x.pn), Sn := Str(x.sn), Devcode := Int(x.devcode), Devaddr := Int(x.devaddr)])
  }

  function ParseIdentity(j: Json): Option<DeviceIdentity> {
    if !HasExactly(j, {Pn, Sn, Devcode, Devaddr}) then None
    else
      var pn, sn, code, addr := j.fields[Pn], j.fields[Sn], j.fields[Devcode], j.fields[Devaddr];
      if !(pn.Str? && sn.Str? && code.Int? && addr.Int?) then None
      else
        var x := DeviceIdentity(pn.text, sn.text, code.number, addr.number);
        if ValidIdentity(x) then Some(x) else None
  }

  lemma IdentityRoundTrip(x: DeviceIdentity, j: Json)
    ensures ValidIdentity(x) ==> ParseIdentity(IdentityRecord(x)) == Some(x)
    ensures ParseIdentity(j).Some? ==> ValidIdentity(ParseIdentity(j).value) && IdentityRecord(ParseIdentity(j).value) == j
  {
    hide ValidIdentity;
    if ParseIdentity(j).Some? {
      assert IdentityRecord(ParseIdentity(j).value).fields == j.fields;
    }
  }

  // ---- numeric text ------------------------------------------------------------------

  /** The end of the run of digits that starts at `i`. */
  function DigitsEnd(s: string, i: nat): (e: nat)
    requires i <= |s|
    ensures i <= e <= |s|
    decreases |s| - i
  {
    if i < |s| && IsDigit(s[i]) then DigitsEnd(s, i + 1) else i
  }

  function SkipSign(s: string, i: nat): (e: nat)
    requires i <= |s|
    ensures i <= e <= |s|
  {
    if i < |s| && (s[i] == '+' || s[i] == '-') then i + 1 else i
  }

  function WithoutUnderscores(s: string): string {
    if s == "" then "" else (if s[0] == '_' then "" else [s[0]]) + WithoutUnderscores(s[1..])
  }

  /** The finite numbers `Decimal` reads: digits with at most one point and an optional exponent. */
  predicate DecimalText(s: string) {
    var start := SkipSign(s, 0);
    var whole := DigitsEnd(s, start);
    var point := whole < |s| && s[whole] == '.';
    var end := if point then DigitsEnd(s, whole + 1) else whole;
    && (whole > start || (point && end > whole + 1))
    && (end == |s| || ((s[end] == 'e' || s[end] == 'E') && ExponentText(s, end + 1)))
  }

  predicate ExponentText(s: string, i: nat)
    requires i <= |s|
  {
    var digits := SkipSign(s, i);
    digits < |s| && DigitsEnd(s, digits) == |s|
  }

  /** `_numeric_text`. */
  predicate NumericText(s: string) { Token(s) && DecimalText(WithoutUnderscores(s)) }
}
