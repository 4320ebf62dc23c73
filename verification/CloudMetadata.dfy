/**
 `dessmonitor_cloud.py`: untrusted metadata payloads become bounded, normalised fields. Four
 normalisers share one budget, and reading the current control values never outlives the first
 transport failure.
 */
module CloudMetadata {
  import opened Numbers
  import opened Text
  import Rec = Records
  import Collecting

  const MAX_FIELDS := 512

  /** A decoded payload value. A non-string scalar is known by the text `str` shows and by its truth. */
  datatype Value =
    | Nothing
    | Scalar(shown: string, truth: bool)
    | Words(text: string)
    | List(items: seq<Value>)
    | Dict(entries: seq<(string, Value)>)

  function Find(entries: seq<(string, Value)>, key: string): Value {
    if entries == [] then Nothing
    else if entries[0].0 == key then entries[0].1
    else Find(entries[1..], key)
  }

  /** `value.get(key)` on a dictionary. */
  function Get(v: Value, key: string): Value { if v.Dict? then Find(v.entries, key) else Nothing }

  predicate Truthy(v: Value) {
    match v
    case Nothing => false
    case Scalar(_, truth) => truth
    case Words(text) => text != ""
    case List(items) => items != []
    case Dict(entries) => entries != []
  }

  /** Python's `or`. */
  function Or(a: Value, b: Value): Value { if Truthy(a) then a else b }

  function Clip(s: string): string { if |s| > Rec.MAX_TEXT then s[..Rec.MAX_TEXT] else s }

  /** `_text`: strip first, cut to length second. */
  function TextOf(v: Value): (s: string)
    ensures |s| <= Rec.MAX_TEXT
  {
    match v
    case Words(text) => Clip(Strip(text))
    case Scalar(shown, _) => Clip(Strip(shown))
    case _ => ""
  }

  /** The text whose cut falls just behind a space. */
  predicate CutBehindSpace(s: string) { |Strip(s)| > Rec.MAX_TEXT && IsSpace(Strip(s)[Rec.MAX_TEXT - 1]) }

  /** Cutting after stripping leaves text that is not normalised exactly when the cut falls behind a space. */
  lemma TextIsNormalUnlessCutBehindSpace(v: Value)
    ensures Rec.OptionalToken(TextOf(v)) <==>
      !((v.Words? && CutBehindSpace(v.text)) || (v.Scalar? && CutBehindSpace(v.shown)))
  {
  }

  datatype Action = LastData | ChartField | KeyParameters

  datatype MetadataField = MetadataField(
    id: string, title: string, value: string, unit: string, section: string, action: Action)

  /** What the `DessMonitorTelemetryField` constructor accepts. */
  predicate WellFormed(f: MetadataField) {
    && Rec.OptionalToken(f.id) && Rec.Token(f.title) && Rec.OptionalToken(f.value)
    && Rec.OptionalToken(f.unit) && Rec.OptionalToken(f.section)
  }

  datatype Control = Control(
    id: string, title: string, unit: string, hint: string, choices: seq<(string, string)>, current: string)

  predicate DistinctChoices(choices: seq<(string, string)>) {
    forall i, j :: 0 <= i < j < |choices| ==> choices[i].0 != choices[j].0
  }

  /** What the `DessMonitorControlField` constructor accepts. */
  predicate WellFormedControl(f: Control) {
    && Rec.Token(f.id) && Rec.Token(f.title)
    && Rec.OptionalToken(f.unit) && Rec.OptionalToken(f.hint) && Rec.OptionalToken(f.current)
    && (forall i :: 0 <= i < |f.choices| ==> Rec.Token(f.choices[i].0) && Rec.Token(f.choices[i].1))
    && DistinctChoices(f.choices)
  }

  /** The fields, or the value error of the first one its constructor refuses. */
  datatype Outcome<T> = Built(fields: seq<T>) | Raised

  predicate All<T>(items: seq<T>, well: T -> bool) { forall i :: 0 <= i < |items| ==> well(items[i]) }

  function Whole<T>(items: seq<T>, well: T -> bool): Outcome<T> {
    if All(items, well) then Built(items) else Raised
  }

  function FirstOf<T>(items: seq<T>, limit: nat): (r: seq<T>)
    ensures |r| == Least(limit, |items|) && r <= items
  {
    items[..Least(limit, |items|)]
  }

  /** What the rows offer, in order; a row may offer nothing. */
  function Offers<T>(rows: seq<Value>, offer: Value -> Option<T>): (r: seq<T>)
    ensures |r| <= |rows|
    ensures forall x :: x in r ==> exists i :: 0 <= i < |rows| && offer(rows[i]) == Some(x)
  {
    if rows == [] then []
    else
      var front, last := rows[..|rows| - 1], offer(rows[|rows| - 1]);
      Offers(front, offer) + if last.Some? then [last.value] else []
  }

  lemma {:induction false} OffersGrow<T>(rows: seq<Value>, n: nat, offer: Value -> Option<T>)
    requires n <= |rows|
    ensures Offers(rows[..n], offer) <= Offers(rows, offer)
    decreases |rows| - n
  {
    if n < |rows| {
      OffersGrow(rows, n + 1, offer);
      assert rows[..n + 1][..n] == rows[..n];
    } else {
      assert rows[..n] == rows;
    }
  }

  /** The loop every normaliser runs over its rows: skip, or construct and append. */
  method BuildRows<T>(rows: seq<Value>, offer: Value -> Option<T>, well: T -> bool) returns (out: Outcome<T>)
    ensures out == Whole(Offers(rows, offer), well)
  {
    var output: seq<T> := [];
    var i := 0;
    while i < |rows|
      invariant 0 <= i <= |rows|
      invariant output == Offers(rows[..i], offer) && All(output, well)
    {
      assert rows[..i + 1][..i] == rows[..i];
      var item := offer(rows[i]);
      if item.Some? {
        if !well(item.value) {
          OffersGrow(rows, i + 1, offer);
          assert Offers(rows, offer)[|output|] == item.value;
          return Raised;
        }
        output := output + [item.value];
      }
      i := i + 1;
    }
    assert rows[..i] == rows;
    out := Built(output);
  }

  // ---- latest values ------------------------------------------------------------------

  /** What one row of a section offers. */
  function LastDataField(section: string, row: Value): Option<MetadataField> {
    var title := TextOf(Or(Get(row, "par"), Get(row, "name")));
    if !row.Dict? || title == "" then None
    else Some(MetadataField(TextOf(Get(row, "id")), title, TextOf(Get(row, "val")), TextOf(Get(row, "unit")),
                            Strip(section), LastData))
  }

  function LastDataRow(section: string): Value -> Option<MetadataField> { row => LastDataField(section, row) }

  /** Everything all sections offer, in order. */
  function SectionOffers(sections: seq<(string, Value)>): seq<MetadataField> {
    if sections == [] then []
    else
      var last := sections[|sections| - 1];
      SectionOffers(sections[..|sections| - 1])
      + if last.1.List? then Offers(last.1.items, LastDataRow(last.0)) else []
  }

  function Sections(dat: Value): seq<(string, Value)> {
    if Get(dat, "pars").Dict? then Get(dat, "pars").entries else []
  }

  function LastDataOutcome(dat: Value, limit: nat): Outcome<MetadataField> {
    Whole(FirstOf(SectionOffers(Sections(dat)), limit), WellFormed)
  }

  /** Cutting to the limit in two steps is cutting once. */
  lemma CutTwice(a: seq<MetadataField>, b: seq<MetadataField>, limit: nat)
    ensures FirstOf(FirstOf(a, limit) + b, limit) == FirstOf(a + b, limit)
    ensures |FirstOf(a, limit)| == limit ==> FirstOf(a + b, limit) == FirstOf(a, limit)
    ensures Whole(FirstOf(a, limit), WellFormed).Raised? ==> Whole(FirstOf(a + b, limit), WellFormed).Raised?
  {
    hide WellFormed;
    if Whole(FirstOf(a, limit), WellFormed).Raised? {
      var i :| 0 <= i < |FirstOf(a, limit)| && !WellFormed(FirstOf(a, limit)[i]);
      assert FirstOf(a + b, limit)[i] == FirstOf(a, limit)[i];
    }
  }

  /** One more field on a list that still has room. */
  lemma OneMoreField(output: seq<MetadataField>, item: MetadataField, limit: nat)
    requires Whole(output, WellFormed).Built? && |output| < limit
    ensures FirstOf(output + [item], limit) == output + [item]
    ensures Whole(output + [item], WellFormed) == if WellFormed(item) then Built(output + [item]) else Raised
  {
    hide WellFormed;
    if !WellFormed(item) {
      assert (output + [item])[|output|] == item;
    }
  }

  lemma OffersOneMore<T>(rows: seq<Value>, i: nat, offer: Value -> Option<T>)
    requires i < |rows|
    ensures Offers(rows[..i + 1], offer) ==
      Offers(rows[..i], offer) + if offer(rows[i]).Some? then [offer(rows[i]).value] else []
    ensures Offers(rows[..i], offer) <= Offers(rows, offer) && Offers(rows[..i + 1], offer) <= Offers(rows, offer)
  {
    assert rows[..i + 1][..i] == rows[..i];
    OffersGrow(rows, i, offer);
    OffersGrow(rows, i + 1, offer);
  }

  /** What the fields so far mean for the final list: a full one is final, and so is a refused one. */
  lemma PrefixDecides(before: seq<MetadataField>, part: seq<MetadataField>, all: seq<MetadataField>, limit: nat)
    requires part <= all
    ensures |before + part| >= limit ==> FirstOf(before + all, limit) == FirstOf(before + part, limit)
    ensures Whole(FirstOf(before + part, limit), WellFormed).Raised? ==>
      Whole(FirstOf(before + all, limit), WellFormed).Raised?
  {
    hide WellFormed, Whole, FirstOf;
    assert before + part + all[|part|..] == before + all;
    CutTwice(before + part, all[|part|..], limit);
  }

  lemma CuttingNothing(fields: seq<MetadataField>, limit: nat)
    requires |fields| <= limit
    ensures FirstOf(fields, limit) == fields
  {
  }

  /** The inner loop: the rows of one section, until the limit. */
  method AppendSection(before: seq<MetadataField>, section: string, rows: seq<Value>, limit: nat)
    returns (out: Outcome<MetadataField>)
    requires |before| <= limit && Whole(before, WellFormed) == Built(before)
    ensures out == Whole(FirstOf(before + Offers(rows, LastDataRow(section)), limit), WellFormed)
  {
    hide WellFormed, LastDataRow, Whole, FirstOf, Offers;
    var offer := LastDataRow(section);
    var output, i := before, 0;
    NothingOffered(rows, offer, before);
    while i < |rows|
      invariant 0 <= i <= |rows|
      invariant output == before + Offers(rows[..i], offer) && |output| <= limit
      invariant Whole(output, WellFormed) == Built(output)
    {
      OffersOneMore(rows, i, offer);
      PrefixDecides(before, Offers(rows[..i], offer), Offers(rows, offer), limit);
      PrefixDecides(before, Offers(rows[..i + 1], offer), Offers(rows, offer), limit);
      if |output| >= limit {
        CuttingNothing(output, limit);
        return Built(output);
      }
      var item := offer(rows[i]);
      if item.Some? {
        OneMoreField(output, item.value, limit);
        assert before + Offers(rows[..i + 1], offer) == output + [item.value];
        if !WellFormed(item.value) {
          return Raised;
        }
        output := output + [item.value];
      } else {
        assert Offers(rows[..i], offer) + [] == Offers(rows[..i], offer);
      }
      i := i + 1;
    }
    assert rows[..i] == rows;
    CuttingNothing(output, limit);
    out := Built(output);
  }

  lemma NothingOffered(rows: seq<Value>, offer: Value -> Option<MetadataField>, before: seq<MetadataField>)
    ensures before + Offers(rows[..0], offer) == before
  {
    assert rows[..0] == [];
  }

  lemma {:induction false} SectionOffersGrow(sections: seq<(string, Value)>, n: nat)
    requires n <= |sections|
    ensures SectionOffers(sections[..n]) <= SectionOffers(sections)
    decreases |sections| - n
  {
    if n < |sections| {
      SectionOffersGrow(sections, n + 1);
      assert sections[..n + 1][..n] == sections[..n];
    } else {
      assert sections[..n] == sections;
    }
  }

  lemma SectionOffersStep(sections: seq<(string, Value)>, i: nat)
    requires i < |sections|
    ensures SectionOffers(sections[..i]) <= SectionOffers(sections)
    ensures SectionOffers(sections[..i + 1]) <= SectionOffers(sections)
    ensures SectionOffers(sections[..i + 1]) == SectionOffers(sections[..i])
      + if sections[i].1.List? then Offers(sections[i].1.items, LastDataRow(sections[i].0)) else []
  {
    hide Offers, LastDataRow;
    assert sections[..i + 1][..i] == sections[..i];
    SectionOffersGrow(sections, i);
    SectionOffersGrow(sections, i + 1);
  }

  /** One more section, cut to the limit, and what that decides. */
  lemma SectionsOneMore(sections: seq<(string, Value)>, i: nat, limit: nat)
    requires i < |sections|
    ensures var before, after := SectionOffers(sections[..i]), SectionOffers(sections[..i + 1]);
      var all, last := SectionOffers(sections), sections[i];
      && (last.1.List? ==>
            FirstOf(after, limit) == FirstOf(FirstOf(before, limit) + Offers(last.1.items, LastDataRow(last.0)), limit))
      && (!last.1.List? ==> after == before)
      && (|FirstOf(before, limit)| >= limit ==> FirstOf(all, limit) == FirstOf(before, limit))
      && (Whole(FirstOf(after, limit), WellFormed).Raised? ==> Whole(FirstOf(all, limit), WellFormed).Raised?)
  {
    hide WellFormed, Whole, FirstOf, Offers, LastDataRow, SectionOffers;
    var before, after := SectionOffers(sections[..i]), SectionOffers(sections[..i + 1]);
    SectionOffersStep(sections, i);
    PrefixDecides([], before, SectionOffers(sections), limit);
    PrefixDecides([], after, SectionOffers(sections), limit);
    assert [] + before == before && [] + after == after && [] + SectionOffers(sections) == SectionOffers(sections);
    if sections[i].1.List? {
      CutTwice(before, Offers(sections[i].1.items, LastDataRow(sections[i].0)), limit);
    } else {
      assert before + [] == before;
    }
  }

  lemma NoSections(sections: seq<(string, Value)>, limit: nat)
    ensures FirstOf(SectionOffers(sections[..0]), limit) == [] && Whole([], WellFormed) == Built([])
  {
    assert sections[..0] == [];
  }

  /** `_normalize_last_data`. */
  method NormalizeLastData(dat: Value, limit: nat) returns (out: Outcome<MetadataField>)
    ensures out == LastDataOutcome(dat, limit)
  {
    hide WellFormed, LastDataRow, Offers, Whole, FirstOf, SectionOffers, Sections;
    var sections := Sections(dat);
    var output: seq<MetadataField> := [];
    var i := 0;
    NoSections(sections, limit);
    while i < |sections|
      invariant 0 <= i <= |sections|
      invariant output == FirstOf(SectionOffers(sections[..i]), limit) && Whole(output, WellFormed) == Built(output)
    {
      SectionsOneMore(sections, i, limit);
      if |output| >= limit {
        return Built(output);
      }
      var rows := sections[i].1;
      if rows.List? {
        var next := AppendSection(output, sections[i].0, rows.items, limit);
        if next.Raised? {
          return Raised;
        }
        BuiltIsWhole(FirstOf(SectionOffers(sections[..i + 1]), limit));
        output := next.fields;
      }
      i := i + 1;
    }
    assert sections[..i] == sections;
    out := Built(output);
  }

  lemma BuiltIsWhole(fields: seq<MetadataField>)
    ensures Whole(fields, WellFormed).Built? ==> Whole(fields, WellFormed).fields == fields
  {
  }

  // ---- chart fields ---------------------------------------------------------------------

  function ChartRow(row: Value): Option<MetadataField> {
    var id, title := TextOf(Or(Get(row, "e0"), Get(row, "id"))), TextOf(Or(Get(row, "e1"), Get(row, "name")));
    if !row.Dict? || id == "" || title == "" then None
    else Some(MetadataField(id, title, "", TextOf(Or(Get(row, "e3"), Get(row, "unit"))), "chart", ChartField))
  }

  function ItemsOf(v: Value): seq<Value> { if v.List? then v.items else [] }

  function ChartOutcome(dat: Value, limit: nat): Outcome<MetadataField> {
    Whole(Offers(FirstOf(ItemsOf(dat), limit), ChartRow), WellFormed)
  }

  /** `_normalize_chart_fields`. */
  method NormalizeChartFields(dat: Value, limit: nat) returns (out: Outcome<MetadataField>)
    ensures out == ChartOutcome(dat, limit)
  {
    out := BuildRows(FirstOf(ItemsOf(dat), limit), ChartRow, WellFormed);
  }

  // ---- key parameters -------------------------------------------------------------------

  const TITLES: map<string, string> := map[
    "PV_OUTPUT_POWER" := "PV Power", "LOAD_ACTIVE_POWER" := "Load Active Power",
    "GRID_ACTIVE_POWER" := "Grid Power", "BT_BATTERY_CAPACITY" := "Battery Capacity",
    "BATTERY_ACTIVE_POWER" := "Battery Power"]

  /** `title()` on ASCII text: a letter after a letter is lower case, any other letter is upper case. */
  function Capitalised(s: string, insideWord: bool): (r: string)
    ensures |r| == |s|
    ensures forall i :: 0 <= i < |s| ==> (IsSpace(r[i]) <==> IsSpace(s[i]))
  {
    if s == "" then ""
    else
      var c := s[0];
      var shown := if insideWord then LowerChar(c) else UpperChar(c);
      [shown] + Capitalised(s[1..], IsLower(c) || IsUpper(c))
  }

  /** `replace("_", " ")`. */
  function Spaced(s: string): (r: string)
    ensures |r| == |s| && forall i :: 0 <= i < |s| ==> r[i] == if s[i] == '_' then ' ' else s[i]
  {
    seq(|s|, i requires 0 <= i < |s| => if s[i] == '_' then ' ' else s[i])
  }

  function TitleOf(id: string): string { if id in TITLES then TITLES[id] else Capitalised(Spaced(id), false) }

  function LiveKey(raw: Value): Option<MetadataField> {
    if !raw.Words? || !Rec.Token(raw.text) then None
    else Some(MetadataField(raw.text, TitleOf(raw.text), "", "", "key_parameter", KeyParameters))
  }

  /** A live key's own title is refused exactly when an unlisted key starts or ends with an underscore. */
  lemma LiveKeyIsWellFormedUnlessEdgedByUnderscore(raw: Value)
    requires LiveKey(raw).Some?
    ensures WellFormed(LiveKey(raw).value) <==>
      raw.text in TITLES || (raw.text[0] != '_' && raw.text[|raw.text| - 1] != '_')
  {
    var id := raw.text;
    if id in TITLES {
      ListedTitlesAreTokens(id);
    }
  }

  lemma ListedTitlesAreTokens(id: string)
    requires id in TITLES
    ensures Rec.Token(TITLES[id])
  {
  }

  function KeyRow(row: Value): Option<MetadataField> {
    var id := TextOf(Or(Or(Get(row, "e0"), Get(row, "id")), Get(row, "field")));
    var title := TextOf(Or(Or(Get(row, "e1"), Get(row, "par")), Get(row, "name")));
    if !row.Dict? || title == "" then None
    else Some(MetadataField(id, title, "", TextOf(Or(Get(row, "e3"), Get(row, "unit"))), "key_parameter", KeyParameters))
  }

  /** The first of the four accepted places that holds a list. */
  function KeyRows(dat: Value): seq<Value> {
    if dat.List? then dat.items
    else if Get(dat, "field").List? then Get(dat, "field").items
    else if Get(dat, "pars").List? then Get(dat, "pars").items
    else if Get(dat, "parameters").List? then Get(dat, "parameters").items
    else ItemsOf(Get(dat, "dat"))
  }

  /** Live keys first; rows share what is left of the limit. */
  function KeyOffers(dat: Value, limit: nat): (r: seq<MetadataField>)
    ensures |r| <= limit
  {
    var live := Offers(FirstOf(ItemsOf(Get(dat, "keys")), limit), LiveKey);
    live + Offers(FirstOf(KeyRows(dat), limit - |live|), KeyRow)
  }

  function KeyOutcome(dat: Value, limit: nat): Outcome<MetadataField> { Whole(KeyOffers(dat, limit), WellFormed) }

  /** `_normalize_key_parameters`. */
  method NormalizeKeyParameters(dat: Value, limit: nat) returns (out: Outcome<MetadataField>)
    ensures out == KeyOutcome(dat, limit)
  {
    hide WellFormed, LiveKey, KeyRow, KeyRows, Get;
    var live := BuildRows(FirstOf(ItemsOf(Get(dat, "keys")), limit), LiveKey, WellFormed);
    if live.Raised? {
      RefusedPart(Offers(FirstOf(ItemsOf(Get(dat, "keys")), limit), LiveKey), KeyOffers(dat, limit));
      return Raised;
    }
    var rest := BuildRows(FirstOf(KeyRows(dat), limit - |live.fields|), KeyRow, WellFormed);
    if rest.Raised? {
      RefusedPart(Offers(FirstOf(KeyRows(dat), limit - |live.fields|), KeyRow), KeyOffers(dat, limit));
      return Raised;
    }
    out := Built(live.fields + rest.fields);
  }

  lemma RefusedPart(part: seq<MetadataField>, all: seq<MetadataField>)
    requires Whole(part, WellFormed).Raised? && forall x :: x in part ==> x in all
    ensures Whole(all, WellFormed).Raised?
  {
    hide WellFormed;
    var i :| 0 <= i < |part| && !WellFormed(part[i]);
    assert part[i] in all;
  }

  // ---- inputs that raise ----------------------------------------------------------------

  /** One unlisted live key that starts with an underscore: the whole normalisation raises. */
  lemma EdgedLiveKeyRaises(limit: nat)
    requires limit > 0
    ensures KeyOutcome(Dict([("keys", List([Words("_soc")]))]), limit) == Raised
  {
    hide LiveKey, KeyRows, KeyRow, WellFormed;
    var raw := Words("_soc");
    var dat := Dict([("keys", List([raw]))]);
    assert Get(dat, "keys") == List([raw]);
    assert FirstOf([raw], limit) == [raw] && [raw][..0] == [];
    EdgedLiveKey(raw);
    assert Offers([raw], LiveKey) == [] + [LiveKey(raw).value];
    assert KeyOffers(dat, limit)[0] == LiveKey(raw).value;
  }

  lemma EdgedLiveKey(raw: Value)
    requires raw == Words("_soc")
    ensures LiveKey(raw).Some? && !WellFormed(LiveKey(raw).value)
  {
    assert |raw.text| == 4 && raw.text[0] == '_';
    if raw.text in TITLES {
      ListedKeysAreLong(raw.text);
    }
    LiveKeyIsWellFormedUnlessEdgedByUnderscore(raw);
  }

  lemma ListedKeysAreLong(id: string)
    requires id in TITLES
    ensures |id| > 4
  {
  }

  /** 511 letters, a space and a letter. */
  const LONG_TITLE: string := seq(511, i => 'a') + " b"

  /** One row under that title: the cut falls behind the space, and the whole normalisation raises. */
  lemma CutTitleRaises(limit: nat)
    requires limit > 0
    ensures KeyOutcome(List([Dict([("name", Words(LONG_TITLE))])]), limit) == Raised
  {
    hide KeyRow, WellFormed, LONG_TITLE;
    var row := Dict([("name", Words(LONG_TITLE))]);
    assert FirstOf(KeyRows(List([row])), limit) == [row] && [row][..0] == [];
    CutTitleRow(row);
    assert Offers([row], KeyRow) == [] + [KeyRow(row).value];
    assert KeyOffers(List([row]), limit)[0] == KeyRow(row).value;
  }

  lemma CutTitleRow(row: Value)
    requires row == Dict([("name", Words(LONG_TITLE))])
    ensures KeyRow(row).Some? && !WellFormed(KeyRow(row).value)
  {
    hide TextOf, Strip, Get, LONG_TITLE;
    NameOnly(row, LONG_TITLE);
    LongTitleIsCut();
  }

  lemma NameOnly(row: Value, name: string)
    requires row == Dict([("name", Words(name))])
    ensures Get(row, "name") == Words(name) && Get(row, "e1") == Nothing && Get(row, "par") == Nothing
  {
    assert [("name", Words(name))][1..] == [] && |"name"| == 4 && |"e1"| == 2 && |"par"| == 3;
    assert Find([], "e1") == Nothing && Find([], "par") == Nothing;
  }

  lemma LongTitleIsCut()
    ensures TextOf(Words(LONG_TITLE)) != "" && !Trimmed(TextOf(Words(LONG_TITLE)))
    ensures LONG_TITLE != ""
  {
    assert LONG_TITLE[0] == 'a' && LONG_TITLE[|LONG_TITLE| - 1] == 'b' && LONG_TITLE[511] == ' ';
  }

  /** A section name longer than the limit, which nothing cuts: the first field of its section raises. */
  lemma LongSectionRaises(section: string, limit: nat)
    requires |Strip(section)| > Rec.MAX_TEXT && limit > 0
    ensures LastDataOutcome(
      Dict([("pars", Dict([(section, List([Dict([("par", Words("Power"))])]))]))]), limit) == Raised
  {
    hide LastDataRow, WellFormed, Offers, Get;
    var row := Dict([("par", Words("Power"))]);
    var sections := [(section, List([row]))];
    var dat := Dict([("pars", Dict(sections))]);
    ParsOnly(dat, sections);
    assert Sections(dat) == sections;
    LongSectionRow(section, row);
    OneRowOffer(section, row);
    assert sections[..0] == [];
    assert SectionOffers(sections) == [] + Offers([row], LastDataRow(section));
    var offered := LastDataRow(section)(row).value;
    assert SectionOffers(sections) == [offered];
    assert !All(FirstOf([offered], limit), WellFormed) by { assert FirstOf([offered], limit)[0] == offered; }
  }

  lemma ParsOnly(dat: Value, sections: seq<(string, Value)>)
    requires dat == Dict([("pars", Dict(sections))])
    ensures Get(dat, "pars") == Dict(sections)
  {
  }

  lemma OneRowOffer(section: string, row: Value)
    requires LastDataRow(section)(row).Some?
    ensures Offers([row], LastDataRow(section)) == [LastDataRow(section)(row).value]
  {
    hide LastDataRow;
    assert [row][..0] == [];
    assert Offers([row], LastDataRow(section)) == [] + [LastDataRow(section)(row).value];
  }

  lemma LongSectionRow(section: string, row: Value)
    requires |Strip(section)| > Rec.MAX_TEXT && row == Dict([("par", Words("Power"))])
    ensures LastDataRow(section)(row).Some? && !WellFormed(LastDataRow(section)(row).value)
  {
    hide Get, TextOf, Strip, LastDataRow, WellFormed, Or;
    ParOnly(row);
    PowerIsText();
    TitledRow(section, row);
    LongSectionIsRefused(LastDataRow(section)(row).value);
  }

  lemma TitledRow(section: string, row: Value)
    requires row.Dict? && TextOf(Or(Get(row, "par"), Get(row, "name"))) != ""
    ensures LastDataRow(section)(row).Some? && LastDataRow(section)(row).value.section == Strip(section)
  {
    hide Get, TextOf, Strip, Or, LastDataField;
    TitledField(section, row);
  }

  lemma TitledField(section: string, row: Value)
    requires row.Dict? && TextOf(Or(Get(row, "par"), Get(row, "name"))) != ""
    ensures LastDataField(section, row).Some? && LastDataField(section, row).value.section == Strip(section)
  {
    hide Get, TextOf, Strip, Or;
  }

  lemma LongSectionIsRefused(f: MetadataField)
    requires |f.section| > Rec.MAX_TEXT
    ensures !WellFormed(f)
  {
    hide Rec.Token, Trimmed;
  }

  lemma ParOnly(row: Value)
    requires row == Dict([("par", Words("Power"))])
    ensures Get(row, "par") == Words("Power") && Or(Get(row, "par"), Get(row, "name")) == Words("Power")
  {
    hide Strip;
  }

  lemma PowerIsText()
    ensures TextOf(Words("Power")) == "Power"
  {
  }

  // ---- control fields ---------------------------------------------------------------------

  /** Complete choices under values not chosen before. */
  function Choices(rows: seq<Value>): (r: seq<(string, string)>)
    ensures DistinctChoices(r)
    ensures forall i :: 0 <= i < |r| ==> r[i].0 != "" && r[i].1 != ""
  {
    if rows == [] then []
    else
      var front, row := Choices(rows[..|rows| - 1]), rows[|rows| - 1];
      var choice := (TextOf(Get(row, "key")), TextOf(Get(row, "val")));
      if !row.Dict? || choice.0 == "" || choice.1 == "" || exists i :: 0 <= i < |front| && front[i].0 == choice.0
      then front
      else front + [choice]
  }

  /** The loop over the `item` rows of one control. */
  method ReadChoices(rows: seq<Value>) returns (choices: seq<(string, string)>)
    ensures choices == Choices(rows)
  {
    hide Get, TextOf;
    choices := [];
    for i := 0 to |rows|
      invariant choices == Choices(rows[..i])
    {
      assert rows[..i + 1][..i] == rows[..i];
      var row := rows[i];
      if row.Dict? {
        var key, shown := TextOf(Get(row, "key")), TextOf(Get(row, "val"));
        if key != "" && shown != "" && !(exists j :: 0 <= j < |choices| && choices[j].0 == key) {
          choices := choices + [(key, shown)];
        }
      }
    }
    assert rows[..|rows|] == rows;
  }

  function ControlRow(row: Value): Option<Control> {
    var id, title := TextOf(Get(row, "id")), TextOf(Or(Or(Get(row, "name"), Get(row, "field")), Get(row, "title")));
    if !row.Dict? || id == "" || title == "" then None
    else Some(Control(id, title, TextOf(Get(row, "unit")), TextOf(Get(row, "hint")),
                      Choices(ItemsOf(Get(row, "item"))), ""))
  }

  function ControlOutcome(dat: Value, limit: nat): Outcome<Control> {
    Whole(Offers(FirstOf(ItemsOf(Get(dat, "field")), limit), ControlRow), WellFormedControl)
  }

  /** One row of the loop below, with its own loop over the choices. */
  method ReadControl(row: Value) returns (f: Option<Control>)
    ensures f == ControlRow(row)
  {
    hide Get, TextOf, Choices;
    var id, title := TextOf(Get(row, "id")), TextOf(Or(Or(Get(row, "name"), Get(row, "field")), Get(row, "title")));
    if !row.Dict? || id == "" || title == "" {
      return None;
    }
    var choices := ReadChoices(ItemsOf(Get(row, "item")));
    f := Some(Control(id, title, TextOf(Get(row, "unit")), TextOf(Get(row, "hint")), choices, ""));
  }

  /** `_normalize_control_fields`. */
  method NormalizeControlFields(dat: Value, limit: nat) returns (out: Outcome<Control>)
    ensures out == ControlOutcome(dat, limit)
  {
    hide Get, ControlRow, WellFormedControl, Offers;
    var rows := FirstOf(ItemsOf(Get(dat, "field")), limit);
    var output: seq<Control> := [];
    var i := 0;
    NoControls(rows);
    while i < |rows|
      invariant 0 <= i <= |rows|
      invariant output == Offers(rows[..i], ControlRow) && All(output, WellFormedControl)
    {
      OffersOneMore(rows, i, ControlRow);
      var field := ReadControl(rows[i]);
      if field.Some? {
        if !WellFormedControl(field.value) {
          assert Offers(rows, ControlRow)[|output|] == field.value;
          return Raised;
        }
        output := output + [field.value];
      }
      i := i + 1;
    }
    assert rows[..i] == rows;
    out := Built(output);
  }

  lemma NoControls(rows: seq<Value>)
    ensures Offers(rows[..0], ControlRow) == []
  {
    assert rows[..0] == [];
  }

  // ---- current values ------------------------------------------------------------------------

  /** How one value request ends. */
  datatype Answer = Answered(dat: Value) | Rejected | TransportFailed

  /** What a control shows after its request. */
  function CurrentFrom(a: Answer): string {
    if a.Answered? && a.dat.Dict? then TextOf(Get(a.dat, "val")) else ""
  }

  /** `asked` requests were made: all that were planned, or up to and including the first transport failure. */
  predicate StopsAtTransportFailure(asked: nat, planned: nat, fetch: nat -> Answer) {
    && asked <= planned
    && (forall i :: 0 <= i < asked - 1 ==> !fetch(i).TransportFailed?)
    && (asked < planned ==> asked > 0 && fetch(asked - 1).TransportFailed?)
  }

  /** Order and metadata are the inputs'; the first `asked` controls show their answers, the others nothing. */
  predicate ValuesAdded(output: seq<Control>, fields: seq<Control>, asked: nat, fetch: nat -> Answer) {
    && |output| == |fields|
    && forall i :: 0 <= i < |fields| ==>
      output[i] == fields[i].(current := if i < asked then CurrentFrom(fetch(i)) else "")
  }

  /** How many of the planned requests are made: the first transport failure is the last. */
  function Asked(planned: nat, fetch: nat -> Answer): (asked: nat)
    ensures StopsAtTransportFailure(asked, planned, fetch)
  {
    if planned == 0 then 0
    else
      var before := Asked(planned - 1, fetch);
      if before > 0 && fetch(before - 1).TransportFailed? then before else before + 1
  }

  /** The number of requests is the only one that stops there. */
  lemma AskedIsTheOnlyOne(asked: nat, planned: nat, fetch: nat -> Answer)
    ensures StopsAtTransportFailure(asked, planned, fetch) <==> asked == Asked(planned, fetch)
  {
  }

  lemma {:induction false} AskedGrows(m: nat, n: nat, fetch: nat -> Answer)
    requires m <= n
    ensures Asked(m, fetch) <= Asked(n, fetch)
  {
    if m < n { AskedGrows(m, n - 1, fetch); }
  }

  /** Some answer to a request that is made shows a text its control refuses. */
  predicate SomeValueRefused(asked: nat, fetch: nat -> Answer) {
    exists i :: 0 <= i < asked && !Rec.OptionalToken(CurrentFrom(fetch(i)))
  }

  datatype ValuesOutcome = Values(controls: seq<Control>, unavailable: bool, asked: nat) | BadLimit | BadValue

  predicate SomeUnanswered(asked: nat, fetch: nat -> Answer) { exists i :: 0 <= i < asked && !fetch(i).Answered? }

  predicate EndsInTransportFailure(asked: nat, fetch: nat -> Answer) {
    asked > 0 && fetch(asked - 1).TransportFailed?
  }

  /** One more request is planned; it is made unless the last one failed in transport. */
  lemma PlanOneMore(asked: nat, planned: nat, fetch: nat -> Answer)
    requires StopsAtTransportFailure(asked, planned, fetch)
    ensures !EndsInTransportFailure(asked, fetch) ==>
      asked == planned && StopsAtTransportFailure(asked + 1, planned + 1, fetch)
    ensures EndsInTransportFailure(asked, fetch) ==> StopsAtTransportFailure(asked, planned + 1, fetch)
    ensures SomeUnanswered(asked + 1, fetch) <==> SomeUnanswered(asked, fetch) || !fetch(asked).Answered?
    ensures EndsInTransportFailure(asked, fetch) ==> SomeUnanswered(asked, fetch)
  {
    if EndsInTransportFailure(asked, fetch) {
      assert !fetch(asked - 1).Answered?;
    }
  }

  /** One more control at the end, showing the answer to its own request or nothing. */
  lemma ShowOneMore(output: seq<Control>, fields: seq<Control>, asked: nat, now: nat, fetch: nat -> Answer, c: string)
    requires |output| < |fields| && ValuesAdded(output, fields[..|output|], asked, fetch)
    requires All(fields, WellFormedControl) && All(output, WellFormedControl) && Rec.OptionalToken(c)
    requires asked <= |output| && (now == asked || now == asked + 1 == |output| + 1)
    requires c == if now > |output| then CurrentFrom(fetch(|output|)) else ""
    ensures var next := output + [fields[|output|].(current := c)];
      ValuesAdded(next, fields[..|next|], now, fetch) && All(next, WellFormedControl)
  {
    hide Rec.OptionalToken, Rec.Token, CurrentFrom, DistinctChoices;
  }

  lemma NothingShown(fields: seq<Control>, fetch: nat -> Answer)
    ensures ValuesAdded([], fields[..0], 0, fetch) && All([], WellFormedControl)
    ensures StopsAtTransportFailure(0, 0, fetch) && !EndsInTransportFailure(0, fetch) && !SomeUnanswered(0, fetch)
  {
  }

  /** `_with_control_values`; the reply to the i-th request is `fetch(i)`. */
  method WithControlValues(fields: seq<Control>, max: int, fetch: nat -> Answer) returns (out: ValuesOutcome)
    requires All(fields, WellFormedControl)
    ensures out.BadLimit? <==> max < 0
    ensures out.BadValue? <==> max >= 0 && SomeValueRefused(Asked(Least(|fields|, max), fetch), fetch)
    ensures out.Values? ==>
      && out.asked == Asked(Least(|fields|, max), fetch)
      && ValuesAdded(out.controls, fields, out.asked, fetch) && All(out.controls, WellFormedControl)
      && StopsAtTransportFailure(out.asked, Least(|fields|, max), fetch)
      && (out.unavailable <==> SomeUnanswered(out.asked, fetch))
  {
    hide Rec.OptionalToken, CurrentFrom, All, ValuesAdded, StopsAtTransportFailure, SomeUnanswered, Asked;
    if max < 0 {
      return BadLimit;
    }
    var output: seq<Control> := [];
    var unavailable, transportUnavailable, asked, index := false, false, 0, 0;
    NothingShownIsNormal();
    NothingShown(fields, fetch);
    AskedIsTheOnlyOne(0, 0, fetch);
    while index < |fields|
      invariant 0 <= index == |output| <= |fields| && asked <= index
      invariant ValuesAdded(output, fields[..index], asked, fetch) && All(output, WellFormedControl)
      invariant StopsAtTransportFailure(asked, Least(index, max), fetch)
      invariant transportUnavailable <==> EndsInTransportFailure(asked, fetch)
      invariant unavailable <==> SomeUnanswered(asked, fetch)
      invariant asked == Asked(Least(index, max), fetch) && !SomeValueRefused(asked, fetch)
    {
      var item, current := fields[index], "";
      PlanOneMore(asked, Least(index, max), fetch);
      ghost var before := asked;
      if index < max && !transportUnavailable {
        var answer := fetch(index);
        asked := asked + 1;
        match answer {
          case Rejected => unavailable := true;
          case TransportFailed => unavailable, transportUnavailable := true, true;
          case Answered(_) =>
        }
        current := CurrentFrom(answer);
      }
      AskedIsTheOnlyOne(asked, Least(index + 1, max), fetch);
      if !Rec.OptionalToken(current) {
        AskedGrows(Least(index + 1, max), Least(|fields|, max), fetch);
        return BadValue;
      }
      ShowOneMore(output, fields, before, asked, fetch, current);
      output, index := output + [item.(current := current)], index + 1;
    }
    assert fields[..index] == fields;
    out := Values(output, unavailable, asked);
  }

  lemma NothingShownIsNormal()
    ensures Rec.OptionalToken("")
  {
  }

  // ---- the shared budget ------------------------------------------------------------------------

  datatype Bundle = Bundle(
    telemetry: seq<MetadataField>, chart: seq<MetadataField>, keys: seq<MetadataField>, controls: seq<Control>)

  function FieldCount(b: Bundle): nat { |b.telemetry| + |b.chart| + |b.keys| + |b.controls| }

  datatype BundleOutcome = Collected(bundle: Bundle, valuesUnavailable: bool) | LimitExceeded | BundleRaised

  lemma FieldsStayWithinLimit(last: Value, chart: Value, keys: Value, controls: Value, limit: nat)
    ensures LastDataOutcome(last, limit).Built? ==> |LastDataOutcome(last, limit).fields| <= limit
    ensures ChartOutcome(chart, limit).Built? ==> |ChartOutcome(chart, limit).fields| <= limit
    ensures KeyOutcome(keys, limit).Built? ==> |KeyOutcome(keys, limit).fields| <= limit
    ensures ControlOutcome(controls, limit).Built? ==> |ControlOutcome(controls, limit).fields| <= limit
  {
    hide WellFormed, WellFormedControl, ChartRow, KeyOffers, ControlRow, SectionOffers, Sections, Get, FirstOf;
  }

  /** What is left of a limit after some fields; the fields of a refused payload use nothing. */
  function Rest<T>(limit: nat, out: Outcome<T>): nat {
    if out.Built? && |out.fields| <= limit then limit - |out.fields| else limit
  }

  /** The four outcomes, each under what the earlier ones leave of the budget. */
  datatype Outcomes = Outcomes(
    last: Outcome<MetadataField>, chart: Outcome<MetadataField>, keys: Outcome<MetadataField>, controls: Outcome<Control>)

  function OutcomesOf(last: Value, chart: Value, keys: Value, controls: Value): Outcomes {
    var t := LastDataOutcome(last, MAX_FIELDS);
    var c := ChartOutcome(chart, Rest(MAX_FIELDS, t));
    var k := KeyOutcome(keys, Rest(Rest(MAX_FIELDS, t), c));
    Outcomes(t, c, k, ControlOutcome(controls, Rest(Rest(Rest(MAX_FIELDS, t), c), k)))
  }

  predicate AllBuilt(o: Outcomes) { o.last.Built? && o.chart.Built? && o.keys.Built? && o.controls.Built? }

  /** The requests made for the current values. */
  function RequestsFor(o: Outcomes, max: nat, fetch: nat -> Answer): nat
    requires AllBuilt(o)
  {
    Asked(Least(|o.controls.fields|, max), fetch)
  }

  /**
   The normalising half of `fetch_read_only_evidence_for_session` and the bundle's own limit check: every
   normaliser gets what the earlier ones left, and the check never fires.
   */
  method CollectMetadata(last: Value, chart: Value, keys: Value, controls: Value, max: int, fetch: nat -> Answer)
    returns (out: BundleOutcome)
    ensures !out.LimitExceeded?
    ensures out.BundleRaised? <==>
      var o := OutcomesOf(last, chart, keys, controls);
      !AllBuilt(o) || max < 0 || SomeValueRefused(RequestsFor(o, max, fetch), fetch)
    ensures out.Collected? ==>
      var o, b := OutcomesOf(last, chart, keys, controls), out.bundle;
      && FieldCount(b) <= MAX_FIELDS
      && b.telemetry == o.last.fields && b.chart == o.chart.fields && b.keys == o.keys.fields
      && ValuesAdded(b.controls, o.controls.fields, RequestsFor(o, max, fetch), fetch)
      && (out.valuesUnavailable <==> SomeUnanswered(RequestsFor(o, max, fetch), fetch))
  {
    hide LastDataOutcome, ChartOutcome, KeyOutcome, ControlOutcome, WellFormed, WellFormedControl, CurrentFrom;
    hide Asked, SomeValueRefused, SomeUnanswered;
    ghost var o := OutcomesOf(last, chart, keys, controls);
    var remaining: nat := MAX_FIELDS;
    var telemetry := NormalizeLastData(last, remaining);
    FieldsStayWithinLimit(last, chart, keys, controls, remaining);
    if telemetry.Raised? {
      return BundleRaised;
    }
    remaining := remaining - |telemetry.fields|;
    var charts := NormalizeChartFields(chart, remaining);
    FieldsStayWithinLimit(last, chart, keys, controls, remaining);
    if charts.Raised? {
      return BundleRaised;
    }
    remaining := remaining - |charts.fields|;
    var parameters := NormalizeKeyParameters(keys, remaining);
    FieldsStayWithinLimit(last, chart, keys, controls, remaining);
    if parameters.Raised? {
      return BundleRaised;
    }
    remaining := remaining - |parameters.fields|;
    var normalized := NormalizeControlFields(controls, remaining);
    FieldsStayWithinLimit(last, chart, keys, controls, remaining);
    if normalized.Raised? {
      return BundleRaised;
    }
    BuiltControlsAreWellFormed(controls, remaining);
    var values := WithControlValues(normalized.fields, max, fetch);
    if !values.Values? {
      return BundleRaised;
    }
    var bundle := Bundle(telemetry.fields, charts.fields, parameters.fields, values.controls);
    out := if FieldCount(bundle) > MAX_FIELDS then LimitExceeded else Collected(bundle, values.unavailable);
  }

  lemma BuiltControlsAreWellFormed(dat: Value, limit: nat)
    ensures ControlOutcome(dat, limit).Built? ==> All(ControlOutcome(dat, limit).fields, WellFormedControl)
  {
  }

  // ---- what the key-parameter normaliser admits ----------------------------------------------------

  /** The bundle's key parameters as the history loop reads them. */
  function HistoryFields(fields: seq<MetadataField>): (r: seq<Collecting.KeyField>)
    ensures |r| == |fields|
    ensures forall i :: 0 <= i < |r| ==>
      r[i] == Collecting.KeyField(fields[i].id, fields[i].title, fields[i].unit)
  {
    seq(|fields|, i requires 0 <= i < |fields| =>
      Collecting.KeyField(fields[i].id, fields[i].title, fields[i].unit))
  }

  /** A payload of one titled row without an id is admitted, and no history can then be collected. */
  lemma UnnamedRowsDefeatCollection(limit: nat)
    requires limit > 0
    ensures var dat := List([Dict([("name", Words("Output power"))])]);
      && KeyOutcome(dat, limit).Built?
      && KeyOutcome(dat, limit).fields == [MetadataField("", "Output power", "", "", "key_parameter", KeyParameters)]
      && !Collecting.Collectable(HistoryFields(KeyOutcome(dat, limit).fields))
  {
    hide Collecting.Collectable, WellFormed;
    var row := Dict([("name", Words("Output power"))]);
    var dat := List([row]);
    var field := MetadataField("", "Output power", "", "", "key_parameter", KeyParameters);
    UnnamedRow(row, field);
    assert FirstOf(KeyRows(dat), limit) == [row] && [row][..0] == [];
    assert Offers([row], KeyRow) == Offers([], KeyRow) + [field];
    UnnamedIsNotCollectable(HistoryFields([field]));
  }

  lemma UnnamedRow(row: Value, field: MetadataField)
    requires row == Dict([("name", Words("Output power"))])
    requires field == MetadataField("", "Output power", "", "", "key_parameter", KeyParameters)
    ensures KeyRow(row) == Some(field) && WellFormed(field)
  {
    NameOnly(row, "Output power");
  }

  lemma UnnamedIsNotCollectable(fields: seq<Collecting.KeyField>)
    requires fields != [] && forall i :: 0 <= i < |fields| ==> fields[i].id == ""
    ensures !Collecting.Collectable(fields)
  {
  }
}
