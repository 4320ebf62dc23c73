/** What the metadata normalisers make of a payload, in terms of the texts it holds. */
module CloudLaws {
  import opened Numbers
  import opened Text
  import Rec = Records
  import opened CloudMetadata

  // ---- texts -----------------------------------------------------------------------------

  /** Normalised text is kept; anything that is no text or scalar is no text at all. */
  lemma NormalTextIsKept(s: string, truth: bool)
    requires Rec.OptionalToken(s)
    ensures TextOf(Words(s)) == s && TextOf(Scalar(s, truth)) == s
    ensures TextOf(Nothing) == "" && (forall items :: TextOf(List(items)) == "")
    ensures forall entries :: TextOf(Dict(entries)) == ""
  {
  }

  /** Longer text keeps its first 512 characters. */
  lemma LongTextIsCut(s: string)
    requires Trimmed(s) && |s| > 512
    ensures TextOf(Words(s)) == s[..512]
  {
  }

  /** The entry of the row is this text, or the text is empty and there is no entry. */
  predicate Has(row: Value, key: string, text: string) {
    Get(row, key) == Words(text) || (text == "" && Get(row, key) == Nothing)
  }

  /** The text is under the first of two keys, or under the second and nothing under the first. */
  predicate HasEither(row: Value, first: string, second: string, text: string) {
    || (text != "" && Get(row, first) == Words(text))
    || ((Get(row, first) == Nothing || Get(row, first) == Words("")) && Has(row, second, text))
  }

  predicate HasAnyOf(row: Value, first: string, second: string, third: string, text: string) {
    || (text != "" && Get(row, first) == Words(text))
    || ((Get(row, first) == Nothing || Get(row, first) == Words("")) && HasEither(row, second, third, text))
  }

  lemma HadTextIsRead(row: Value, a: string, b: string, c: string, text: string)
    requires Rec.OptionalToken(text)
    ensures Has(row, a, text) ==> TextOf(Get(row, a)) == text
    ensures HasEither(row, a, b, text) ==> TextOf(Or(Get(row, a), Get(row, b))) == text
    ensures HasAnyOf(row, a, b, c, text) ==> TextOf(Or(Or(Get(row, a), Get(row, b)), Get(row, c))) == text
  {
    hide TextOf, Get;
    NormalTextIsKept(text, true);
  }

  // ---- rows in order ---------------------------------------------------------------------------

  /** What is there, in order, without the gaps. */
  function Kept<T>(shown: seq<Option<T>>): seq<T> {
    if shown == [] then [] else (if shown[0].Some? then [shown[0].value] else []) + Kept(shown[1..])
  }

  lemma {:induction false} KeptFromTheEnd<T>(shown: seq<Option<T>>, last: Option<T>)
    ensures Kept(shown + [last]) == Kept(shown) + if last.Some? then [last.value] else []
  {
    if shown == [] {
      assert [] + [last] == [last] && [last][1..] == [];
    } else {
      KeptFromTheEnd(shown[1..], last);
      assert (shown + [last])[1..] == shown[1..] + [last];
    }
  }

  lemma {:induction false} KeptIsWell<T>(shown: seq<Option<T>>, well: T -> bool)
    requires forall i :: 0 <= i < |shown| && shown[i].Some? ==> well(shown[i].value)
    ensures All(Kept(shown), well)
  {
    if shown != [] {
      KeptIsWell(shown[1..], well);
    }
  }

  lemma {:induction false} RowsOfferInOrder<T>(rows: seq<Value>, offer: Value -> Option<T>, shown: seq<Option<T>>)
    requires |rows| == |shown| && forall i :: 0 <= i < |rows| ==> offer(rows[i]) == shown[i]
    ensures Offers(rows, offer) == Kept(shown)
  {
    if rows != [] {
      var n := |rows| - 1;
      RowsOfferInOrder(rows[..n], offer, shown[..n]);
      KeptFromTheEnd(shown[..n], shown[n]);
      assert shown == shown[..n] + [shown[n]];
    }
  }

  /** One list of rows, cut to the limit before anything is passed over. */
  lemma RowsAreRead<T>(
    rows: seq<Value>, offer: Value -> Option<T>, well: T -> bool, shown: seq<Option<T>>, limit: nat)
    requires |rows| == |shown| && forall i :: 0 <= i < |rows| ==> offer(rows[i]) == shown[i]
    requires forall i :: 0 <= i < |rows| && shown[i].Some? ==> well(shown[i].value)
    ensures Offers(FirstOf(rows, limit), offer) == Kept(FirstOf(shown, limit))
    ensures Whole(Offers(FirstOf(rows, limit), offer), well) == Built(Kept(FirstOf(shown, limit)))
  {
    hide Offers, Kept;
    RowsOfferInOrder(FirstOf(rows, limit), offer, FirstOf(shown, limit));
    KeptIsWell(FirstOf(shown, limit), well);
  }

  // ---- latest values ---------------------------------------------------------------------------------

  /** The row shows the field: id, title, value and unit each under its own key. */
  predicate ShowsValue(row: Value, section: string, f: MetadataField) {
    && row.Dict? && WellFormed(f) && f.section == Strip(section) && f.action == LastData
    && Has(row, "id", f.id) && HasEither(row, "par", "name", f.title) && Has(row, "val", f.value) && Has(row, "unit", f.unit)
  }

  lemma ShownValueIsRead(row: Value, section: string, f: MetadataField)
    requires ShowsValue(row, section, f)
    ensures LastDataRow(section)(row) == Some(f)
  {
    hide TextOf, Get, Or, Strip, HasEither, Has, LastDataField;
    ShownValueIsField(row, section, f);
  }

  lemma ShownValueIsField(row: Value, section: string, f: MetadataField)
    requires ShowsValue(row, section, f)
    ensures LastDataField(section, row) == Some(f)
  {
    hide TextOf, Get, Or, HasEither, Has;
    HadTextIsRead(row, "id", "", "", f.id);
    HadTextIsRead(row, "par", "name", "", f.title);
    HadTextIsRead(row, "val", "", "", f.value);
    HadTextIsRead(row, "unit", "", "", f.unit);
  }

  /** The row shows this field, or it shows no field: it is no dictionary, or has no title. */
  predicate ValueOrNothing(row: Value, section: string, shown: Option<MetadataField>) {
    if shown.Some? then ShowsValue(row, section, shown.value) else !row.Dict? || HasEither(row, "par", "name", "")
  }

  lemma ValueOrNothingIsRead(row: Value, section: string, shown: Option<MetadataField>)
    requires ValueOrNothing(row, section, shown)
    ensures LastDataRow(section)(row) == shown && (shown.Some? ==> WellFormed(shown.value))
  {
    hide Strip, Get, TextOf, Or, HasEither, WellFormed;
    if shown.Some? {
      ShownValueIsRead(row, section, shown.value);
      ShownValueIsWellFormed(row, section, shown.value);
    } else {
      HadTextIsRead(row, "par", "name", "", "");
    }
  }

  lemma ShownValueIsWellFormed(row: Value, section: string, f: MetadataField)
    requires ShowsValue(row, section, f)
    ensures WellFormed(f)
  {
  }

  /** A section is a list that shows this row by row, or no list and shows nothing. */
  predicate SectionShows(section: (string, Value), shown: seq<Option<MetadataField>>) {
    if section.1.List? then
      && |section.1.items| == |shown|
      && forall i :: 0 <= i < |shown| ==> ValueOrNothing(section.1.items[i], section.0, shown[i])
    else shown == []
  }

  /** What the sections show, one after the other. */
  function Together<T>(parts: seq<seq<T>>): seq<T> { if parts == [] then [] else parts[0] + Together(parts[1..]) }

  lemma {:induction false} TogetherFromTheEnd<T>(parts: seq<seq<T>>, last: seq<T>)
    ensures Together(parts + [last]) == Together(parts) + last
  {
    if parts == [] {
      assert [] + [last] == [last] && [last][1..] == [] && last + [] == last;
    } else {
      TogetherFromTheEnd(parts[1..], last);
      assert (parts + [last])[1..] == parts[1..] + [last];
    }
  }

  lemma {:induction false} KeptOfBoth<T>(a: seq<Option<T>>, b: seq<Option<T>>)
    ensures Kept(a + b) == Kept(a) + Kept(b)
  {
    hide Kept;
    if b == [] {
      KeptOfNothing<T>();
      assert a + b == a && Kept(a) + Kept(b) == Kept(a);
    } else {
      var n := |b| - 1;
      KeptOfBoth(a, b[..n]);
      KeptFromTheEnd(a + b[..n], b[n]);
      KeptFromTheEnd(b[..n], b[n]);
      assert b == b[..n] + [b[n]] && a + b == (a + b[..n]) + [b[n]];
    }
  }

  lemma {:induction false} SectionsOfferInOrder(
    sections: seq<(string, Value)>, shown: seq<seq<Option<MetadataField>>>)
    requires |sections| == |shown| && forall i :: 0 <= i < |shown| ==> SectionShows(sections[i], shown[i])
    ensures SectionOffers(sections) == Kept(Together(shown)) && All(Kept(Together(shown)), WellFormed)
  {
    hide SectionShows, Offers, LastDataRow, WellFormed, Kept, Together;
    if sections == [] {
      NothingTogether<MetadataField>();
    } else {
      var n := |sections| - 1;
      SectionsOfferInOrder(sections[..n], shown[..n]);
      SectionOffersInOrder(sections[n], shown[n]);
      TogetherFromTheEnd(shown[..n], shown[n]);
      KeptOfBoth(Together(shown[..n]), shown[n]);
      assert shown == shown[..n] + [shown[n]];
    }
  }

  lemma NothingTogether<T>()
    ensures Kept(Together<Option<T>>([])) == []
  {
  }

  lemma SectionOffersInOrder(section: (string, Value), shown: seq<Option<MetadataField>>)
    requires SectionShows(section, shown)
    ensures Kept(shown) == if section.1.List? then Offers(section.1.items, LastDataRow(section.0)) else []
    ensures All(Kept(shown), WellFormed)
  {
    hide ValueOrNothing, Offers, LastDataRow, WellFormed, Kept;
    if section.1.List? {
      forall i | 0 <= i < |shown|
        ensures LastDataRow(section.0)(section.1.items[i]) == shown[i] && (shown[i].Some? ==> WellFormed(shown[i].value))
      {
        ValueOrNothingIsRead(section.1.items[i], section.0, shown[i]);
      }
      RowsOfferInOrder(section.1.items, LastDataRow(section.0), shown);
      KeptIsWell(shown, WellFormed);
    } else {
      KeptOfNothing<MetadataField>();
    }
  }

  lemma KeptOfNothing<T>()
    ensures Kept<T>([]) == []
  {
  }

  /** Shown values become exactly those fields, section by section and row by row, up to the limit. */
  lemma ShownValuesAreRead(
    dat: Value, sections: seq<(string, Value)>, shown: seq<seq<Option<MetadataField>>>, limit: nat)
    requires |sections| == |shown| && forall i :: 0 <= i < |shown| ==> SectionShows(sections[i], shown[i])
    ensures Get(dat, "pars") == Dict(sections) ==> LastDataOutcome(dat, limit) == Built(FirstOf(Kept(Together(shown)), limit))
    ensures !Get(dat, "pars").Dict? ==> LastDataOutcome(dat, limit) == Built([])
  {
    hide Get, WellFormed, SectionOffers, SectionShows, Kept, Together;
    SectionsOfferInOrder(sections, shown);
    var none: seq<(string, Value)> := [];
    NoSections(none, limit);
    assert none[..0] == none;
  }

  // ---- chart fields ------------------------------------------------------------------------------------

  predicate ShowsChartField(row: Value, f: MetadataField) {
    && row.Dict? && WellFormed(f) && f.id != "" && f.value == "" && f.section == "chart" && f.action == ChartField
    && HasEither(row, "e0", "id", f.id) && HasEither(row, "e1", "name", f.title) && HasEither(row, "e3", "unit", f.unit)
  }

  lemma ShownChartFieldIsRead(row: Value, f: MetadataField)
    requires ShowsChartField(row, f)
    ensures ChartRow(row) == Some(f)
  {
    hide TextOf, Get, Or, HasEither;
    HadTextIsRead(row, "e0", "id", "", f.id);
    HadTextIsRead(row, "e1", "name", "", f.title);
    HadTextIsRead(row, "e3", "unit", "", f.unit);
  }

  /** The row shows this field, or none: it is no dictionary, or lacks its id or title. */
  predicate ChartFieldOrNothing(row: Value, shown: Option<MetadataField>) {
    if shown.Some? then ShowsChartField(row, shown.value)
    else !row.Dict? || HasEither(row, "e0", "id", "") || HasEither(row, "e1", "name", "")
  }

  lemma ChartFieldOrNothingIsRead(row: Value, shown: Option<MetadataField>)
    requires ChartFieldOrNothing(row, shown)
    ensures ChartRow(row) == shown && (shown.Some? ==> WellFormed(shown.value))
  {
    hide Get, TextOf, Or, HasEither, Strip;
    if shown.Some? {
      ShownChartFieldIsRead(row, shown.value);
    } else {
      HadTextIsRead(row, "e0", "id", "", "");
      HadTextIsRead(row, "e1", "name", "", "");
    }
  }

  /** Shown chart fields of the rows within the limit become exactly those fields, in row order. */
  lemma ShownChartFieldsAreRead(rows: seq<Value>, shown: seq<Option<MetadataField>>, dat: Value, limit: nat)
    requires |rows| == |shown| && forall i :: 0 <= i < |rows| ==> ChartFieldOrNothing(rows[i], shown[i])
    ensures dat == List(rows) ==> ChartOutcome(dat, limit) == Built(Kept(FirstOf(shown, limit)))
    ensures !dat.List? ==> ChartOutcome(dat, limit) == Built([])
  {
    hide ChartRow, WellFormed, Offers, ChartFieldOrNothing, Kept;
    forall i | 0 <= i < |rows| ensures ChartRow(rows[i]) == shown[i] && (shown[i].Some? ==> WellFormed(shown[i].value)) {
      ChartFieldOrNothingIsRead(rows[i], shown[i]);
    }
    RowsAreRead(rows, ChartRow, WellFormed, shown, limit);
    NothingIsOffered(ChartRow, limit);
    WholeIsBuilt([]);
  }

  lemma NothingIsOffered<T>(offer: Value -> Option<T>, limit: nat)
    ensures Offers(FirstOf([], limit), offer) == []
  {
  }

  // ---- key parameters ------------------------------------------------------------------------------------

  predicate ShowsKeyParameter(row: Value, f: MetadataField) {
    && row.Dict? && WellFormed(f) && f.value == "" && f.section == "key_parameter" && f.action == KeyParameters
    && HasAnyOf(row, "e0", "id", "field", f.id) && HasAnyOf(row, "e1", "par", "name", f.title)
    && HasEither(row, "e3", "unit", f.unit)
  }

  lemma ShownKeyParameterIsRead(row: Value, f: MetadataField)
    requires ShowsKeyParameter(row, f)
    ensures KeyRow(row) == Some(f)
  {
    hide TextOf, Get, Or, HasEither, HasAnyOf;
    HadTextIsRead(row, "e0", "id", "field", f.id);
    HadTextIsRead(row, "e1", "par", "name", f.title);
    HadTextIsRead(row, "e3", "unit", "", f.unit);
  }

  /** A live key shows itself, under its listed title or its own words. */
  predicate ShowsLiveKey(raw: Value, f: MetadataField) {
    && raw == Words(f.id) && Rec.Token(f.id) && WellFormed(f)
    && f.title == TitleOf(f.id) && f.value == "" && f.unit == "" && f.section == "key_parameter" && f.action == KeyParameters
  }

  /** The value is a live key, or it is none: no text, or text that is not normalised. */
  predicate LiveKeyOrNothing(raw: Value, shown: Option<MetadataField>) {
    if shown.Some? then ShowsLiveKey(raw, shown.value) else !raw.Words? || !Rec.Token(raw.text)
  }

  /** The row shows this field, or none: it is no dictionary, or has no title; the id may be missing. */
  predicate KeyParameterOrNothing(row: Value, shown: Option<MetadataField>) {
    if shown.Some? then ShowsKeyParameter(row, shown.value) else !row.Dict? || HasAnyOf(row, "e1", "par", "name", "")
  }

  lemma KeyParameterOrNothingIsRead(row: Value, shown: Option<MetadataField>)
    requires KeyParameterOrNothing(row, shown)
    ensures KeyRow(row) == shown && (shown.Some? ==> WellFormed(shown.value))
  {
    hide Get, TextOf, Or, HasEither, HasAnyOf, Strip;
    if shown.Some? {
      ShownKeyParameterIsRead(row, shown.value);
    } else {
      HadTextIsRead(row, "e1", "par", "name", "");
    }
  }

  lemma LiveKeyOrNothingIsRead(raw: Value, shown: Option<MetadataField>)
    requires LiveKeyOrNothing(raw, shown)
    ensures LiveKey(raw) == shown && (shown.Some? ==> WellFormed(shown.value))
  {
    hide Strip, TitleOf;
    if shown.Some? {
      ShownLiveKeyIsRead(raw, shown.value);
    }
  }

  /** The shown live keys, and the shown rows within what those leave. */
  function KeyFieldsWithin(
    live: seq<Option<MetadataField>>, rows: seq<Option<MetadataField>>, limit: nat): seq<MetadataField>
  {
    var first := Kept(FirstOf(live, limit));
    first + if |first| <= limit then Kept(FirstOf(rows, limit - |first|)) else []
  }

  /** Shown live keys come first, then the shown rows within what those leave of the limit. */
  lemma ShownKeyParametersAreRead(
    dat: Value, keys: seq<Value>, live: seq<Option<MetadataField>>,
    rows: seq<Value>, shown: seq<Option<MetadataField>>, limit: nat)
    requires ItemsOf(Get(dat, "keys")) == keys && KeyRows(dat) == rows
    requires |keys| == |live| && forall i :: 0 <= i < |keys| ==> LiveKeyOrNothing(keys[i], live[i])
    requires |rows| == |shown| && forall i :: 0 <= i < |rows| ==> KeyParameterOrNothing(rows[i], shown[i])
    ensures KeyOutcome(dat, limit) == Built(KeyFieldsWithin(live, shown, limit))
  {
    hide Get, LiveKey, KeyRow, KeyRows, WellFormed, Offers, LiveKeyOrNothing, KeyParameterOrNothing, Kept;
    forall i | 0 <= i < |keys| ensures LiveKey(keys[i]) == live[i] && (live[i].Some? ==> WellFormed(live[i].value)) {
      LiveKeyOrNothingIsRead(keys[i], live[i]);
    }
    forall i | 0 <= i < |rows| ensures KeyRow(rows[i]) == shown[i] && (shown[i].Some? ==> WellFormed(shown[i].value)) {
      KeyParameterOrNothingIsRead(rows[i], shown[i]);
    }
    RowsAreRead(keys, LiveKey, WellFormed, live, limit);
    RowsAreRead(rows, KeyRow, WellFormed, shown, limit - |Kept(FirstOf(live, limit))|);
    WholeIsBuilt(Kept(FirstOf(live, limit)) + Kept(FirstOf(shown, limit - |Kept(FirstOf(live, limit))|)));
  }

  lemma WholeIsBuilt(fields: seq<MetadataField>)
    ensures All(fields, WellFormed) ==> Whole(fields, WellFormed) == Built(fields)
  {
  }

  lemma ShownLiveKeyIsRead(raw: Value, f: MetadataField)
    requires ShowsLiveKey(raw, f)
    ensures LiveKey(raw) == Some(f)
  {
    hide TitleOf;
  }

  /** Where the rows of a key-parameter payload are: a bare list, or the first of four entries that is one. */
  lemma KeyRowsAreTheFirstList(dat: Value, rows: seq<Value>)
    requires dat.Dict?
    ensures KeyRows(List(rows)) == rows
    ensures Get(dat, "field") == List(rows) ==> KeyRows(dat) == rows
    ensures !Get(dat, "field").List? && Get(dat, "pars") == List(rows) ==> KeyRows(dat) == rows
    ensures !Get(dat, "field").List? && !Get(dat, "pars").List? && Get(dat, "parameters") == List(rows) ==> KeyRows(dat) == rows
    ensures !Get(dat, "field").List? && !Get(dat, "pars").List? && !Get(dat, "parameters").List? && Get(dat, "dat") == List(rows)
      ==> KeyRows(dat) == rows
  {
    hide Get;
  }

  predicate IsLetter(c: char) { 'a' <= c <= 'z' || 'A' <= c <= 'Z' }

  /** Title case: a letter behind a letter is small, any other letter is capital. */
  lemma {:induction false} TitleCase(s: string, inside: bool, i: nat)
    requires i < |s|
    ensures Capitalised(s, inside)[i] ==
      if (if i == 0 then inside else IsLetter(s[i - 1])) then LowerChar(s[i]) else UpperChar(s[i])
  {
    hide IsLetter, IsSpace, LowerChar, UpperChar, Capitalised;
    CapitalisedFront(s, inside);
    if i > 0 {
      TitleCase(s[1..], IsLetter(s[0]), i - 1);
      assert Capitalised(s, inside)[i] == Capitalised(s[1..], IsLetter(s[0]))[i - 1];
      assert s[1..][i - 1] == s[i];
      assert i > 1 ==> s[1..][i - 2] == s[i - 1];
    }
  }

  lemma CapitalisedFront(s: string, inside: bool)
    requires s != ""
    ensures Capitalised(s, inside) == [if inside then LowerChar(s[0]) else UpperChar(s[0])] + Capitalised(s[1..], IsLetter(s[0]))
  {
  }

  /** An unlisted live key is shown in words: underscores are spaces, in title case. */
  lemma UnlistedTitles(id: string, i: nat)
    requires id !in TITLES && i < |id|
    ensures |TitleOf(id)| == |id|
    ensures id[i] == '_' ==> TitleOf(id)[i] == ' '
    ensures id[i] != '_' && (i == 0 || !IsLetter(id[i - 1])) ==> TitleOf(id)[i] == UpperChar(id[i])
    ensures id[i] != '_' && i > 0 && IsLetter(id[i - 1]) ==> TitleOf(id)[i] == LowerChar(id[i])
  {
    TitleCase(Spaced(id), false, i);
  }

  /** The titles of the listed live keys. */
  lemma ListedTitles()
    ensures TitleOf("PV_OUTPUT_POWER") == "PV Power" && TitleOf("LOAD_ACTIVE_POWER") == "Load Active Power"
    ensures TitleOf("GRID_ACTIVE_POWER") == "Grid Power" && TitleOf("BT_BATTERY_CAPACITY") == "Battery Capacity"
    ensures TitleOf("BATTERY_ACTIVE_POWER") == "Battery Power"
  {
    hide Capitalised;
    assert "PV_OUTPUT_POWER"[0] != "LOAD_ACTIVE_POWER"[0] && |"BT_BATTERY_CAPACITY"| == 19;
  }

  // ---- control fields --------------------------------------------------------------------------------------

  /** The choice row shows a value and its label. */
  predicate ShowsChoice(row: Value, choice: (string, string)) {
    && row.Dict? && Rec.Token(choice.0) && Rec.Token(choice.1) && Has(row, "key", choice.0) && Has(row, "val", choice.1)
  }

  /** The choice row has no value or no label, or a value that is taken. */
  predicate AddsNoChoice(row: Value, taken: seq<(string, string)>) {
    || !row.Dict? || Has(row, "key", "") || Has(row, "val", "")
    || exists i :: 0 <= i < |taken| && taken[i].0 != "" && Has(row, "key", taken[i].0)
  }

  /** Row by row: a choice under a value of its own is shown behind the earlier ones, any other row shows nothing. */
  predicate ShowsChoices(rows: seq<Value>, choices: seq<(string, string)>) {
    if rows == [] then choices == []
    else
      var before, row := rows[..|rows| - 1], rows[|rows| - 1];
      || (AddsNoChoice(row, choices) && ShowsChoices(before, choices))
      || (choices != [] && ShowsChoice(row, choices[|choices| - 1]) && ShowsChoices(before, choices[..|choices| - 1]))
  }

  /** Shown choices under different values are kept, in row order. */
  lemma {:induction false} ShownChoicesAreKept(rows: seq<Value>, choices: seq<(string, string)>)
    requires ShowsChoices(rows, choices) && DistinctChoices(choices)
    requires forall i :: 0 <= i < |choices| ==> Rec.OptionalToken(choices[i].0)
    ensures Choices(rows) == choices
  {
    hide Choices, ShowsChoice, AddsNoChoice;
    if rows == [] {
      NoRowsNoChoices();
    } else {
      var n, m := |rows| - 1, |choices| - 1;
      if AddsNoChoice(rows[n], choices) && ShowsChoices(rows[..n], choices) {
        ShownChoicesAreKept(rows[..n], choices);
        NoMoreChoice(rows[..n], rows[n]);
        assert rows == rows[..n] + [rows[n]];
      } else {
        ShownChoicesAreKept(rows[..n], choices[..m]);
        OneMoreChoice(rows[..n], rows[n], choices[m]);
        assert choices == choices[..m] + [choices[m]] && rows == rows[..n] + [rows[n]];
      }
    }
  }

  lemma NoMoreChoice(rows: seq<Value>, row: Value)
    requires AddsNoChoice(row, Choices(rows))
    requires forall i :: 0 <= i < |Choices(rows)| ==> Rec.OptionalToken(Choices(rows)[i].0)
    ensures Choices(rows + [row]) == Choices(rows)
  {
    hide Get, TextOf, Strip;
    HadTextIsRead(row, "key", "", "", "");
    HadTextIsRead(row, "val", "", "", "");
    forall i | 0 <= i < |Choices(rows)| && Has(row, "key", Choices(rows)[i].0)
      ensures TextOf(Get(row, "key")) == Choices(rows)[i].0
    {
      HadTextIsRead(row, "key", "", "", Choices(rows)[i].0);
    }
    assert (rows + [row])[..|rows|] == rows;
  }

  lemma NoRowsNoChoices()
    ensures Choices([]) == []
  {
  }

  lemma OneMoreChoice(rows: seq<Value>, row: Value, choice: (string, string))
    requires ShowsChoice(row, choice) && forall i :: 0 <= i < |Choices(rows)| ==> Choices(rows)[i].0 != choice.0
    ensures Choices(rows + [row]) == Choices(rows) + [choice]
  {
    hide Get, TextOf, Has;
    HadTextIsRead(row, "key", "", "", choice.0);
    HadTextIsRead(row, "val", "", "", choice.1);
    assert (rows + [row])[..|rows|] == rows;
  }

  predicate ShowsControl(row: Value, f: Control) {
    && row.Dict? && WellFormedControl(f) && f.current == ""
    && Has(row, "id", f.id) && HasAnyOf(row, "name", "field", "title", f.title)
    && Has(row, "unit", f.unit) && Has(row, "hint", f.hint)
    && ShowsChoices(ItemsOf(Get(row, "item")), f.choices)
  }

  lemma ShownControlIsRead(row: Value, f: Control)
    requires ShowsControl(row, f)
    ensures ControlRow(row) == Some(f)
  {
    hide TextOf, Get, Or, Has, HasEither, HasAnyOf, Choices, ShowsChoice;
    HadTextIsRead(row, "id", "", "", f.id);
    HadTextIsRead(row, "name", "field", "title", f.title);
    HadTextIsRead(row, "unit", "", "", f.unit);
    HadTextIsRead(row, "hint", "", "", f.hint);
    ShownChoicesAreKept(ItemsOf(Get(row, "item")), f.choices);
  }

  /** The row shows this control, or none: it is no dictionary, or lacks its id or title. */
  predicate ControlOrNothing(row: Value, shown: Option<Control>) {
    if shown.Some? then ShowsControl(row, shown.value)
    else !row.Dict? || Has(row, "id", "") || HasAnyOf(row, "name", "field", "title", "")
  }

  lemma ControlOrNothingIsRead(row: Value, shown: Option<Control>)
    requires ControlOrNothing(row, shown)
    ensures ControlRow(row) == shown && (shown.Some? ==> WellFormedControl(shown.value))
  {
    hide Get, TextOf, Or, Has, HasAnyOf, Choices, ShowsChoices, WellFormedControl;
    if shown.Some? {
      ShownControlIsRead(row, shown.value);
      ShownControlIsWellFormed(row, shown.value);
    } else {
      HadTextIsRead(row, "id", "", "", "");
      HadTextIsRead(row, "name", "field", "title", "");
    }
  }

  /** Shown controls of the rows within the limit become exactly those fields, in row order. */
  lemma ShownControlsAreRead(dat: Value, rows: seq<Value>, shown: seq<Option<Control>>, limit: nat)
    requires |rows| == |shown| && forall i :: 0 <= i < |rows| ==> ControlOrNothing(rows[i], shown[i])
    ensures Get(dat, "field") == List(rows) ==> ControlOutcome(dat, limit) == Built(Kept(FirstOf(shown, limit)))
    ensures !Get(dat, "field").List? ==> ControlOutcome(dat, limit) == Built([])
  {
    hide Get, ControlRow, WellFormedControl, Offers, ControlOrNothing, Kept;
    forall i | 0 <= i < |rows|
      ensures ControlRow(rows[i]) == shown[i] && (shown[i].Some? ==> WellFormedControl(shown[i].value))
    {
      ControlOrNothingIsRead(rows[i], shown[i]);
    }
    RowsAreRead(rows, ControlRow, WellFormedControl, shown, limit);
    NothingIsOffered(ControlRow, limit);
  }

  lemma ShownControlIsWellFormed(row: Value, f: Control)
    requires ShowsControl(row, f)
    ensures WellFormedControl(f)
  {
    hide WellFormedControl;
  }

  // ---- entries ---------------------------------------------------------------------------------------------

  /** An entry is found under its key, and a false value leaves its place to the next key. */
  lemma {:induction false} EntriesAreFound(
    front: seq<(string, Value)>, key: string, v: Value, back: seq<(string, Value)>, other: Value)
    requires forall i :: 0 <= i < |front| ==> front[i].0 != key
    ensures Get(Dict(front + [(key, v)] + back), key) == v
    ensures Get(Dict(front), key) == Nothing
    ensures !Truthy(v) ==> Or(v, other) == other
    ensures Truthy(v) ==> Or(v, other) == v
  {
    if front == [] {
      assert ([(key, v)] + back)[0] == (key, v);
    } else {
      EntriesAreFound(front[1..], key, v, back, other);
      assert (front + [(key, v)] + back)[1..] == front[1..] + [(key, v)] + back;
    }
  }

  /** What Python takes for false: no value, a zero, and anything empty. */
  lemma FalseValues(shown: string)
    ensures !Truthy(Nothing) && !Truthy(Words("")) && !Truthy(List([])) && !Truthy(Dict([])) && !Truthy(Scalar(shown, false))
    ensures Truthy(Scalar(shown, true)) && (shown != "" ==> Truthy(Words(shown)))
    ensures Truthy(List([Nothing])) && Truthy(Dict([(shown, Nothing)]))
  {
  }

  // ---- current values -----------------------------------------------------------------------------------------

  /** A control shows the text its own answer has under "val", and nothing without one. */
  lemma AnswersAreShown(fields: seq<Control>, output: seq<Control>, asked: nat, fetch: nat -> Answer, i: nat, text: string)
    requires ValuesAdded(output, fields, asked, fetch) && i < |fields| && Rec.OptionalToken(text)
    ensures |output| == |fields| && output[i].id == fields[i].id && output[i].title == fields[i].title
    ensures output[i].unit == fields[i].unit && output[i].hint == fields[i].hint && output[i].choices == fields[i].choices
    ensures i < asked && fetch(i).Answered? && fetch(i).dat.Dict? && Has(fetch(i).dat, "val", text) ==> output[i].current == text
    ensures i >= asked || !fetch(i).Answered? || !fetch(i).dat.Dict? ==> output[i].current == ""
  {
    hide TextOf, Get;
    if i < asked && fetch(i).Answered? && fetch(i).dat.Dict? {
      HadTextIsRead(fetch(i).dat, "val", "", "", text);
    }
  }

  // ---- the shared budget ----------------------------------------------------------------------------------------

  /**
   The four payloads share 512 fields: latest values first, then chart fields, then key parameters, then
   controls, each within what the earlier ones left.
   */
  lemma BudgetIsShared(
    last: Value, chart: Value, keys: Value, controls: Value,
    sections: seq<(string, Value)>, values: seq<seq<Option<MetadataField>>>,
    charts: seq<Option<MetadataField>>, live: seq<Option<MetadataField>>, parameters: seq<Option<MetadataField>>,
    settings: seq<Option<Control>>)
    requires Get(last, "pars") == Dict(sections) && |sections| == |values|
    requires forall i :: 0 <= i < |values| ==> SectionShows(sections[i], values[i])
    requires chart.List? && |chart.items| == |charts|
    requires forall i :: 0 <= i < |charts| ==> ChartFieldOrNothing(chart.items[i], charts[i])
    requires |ItemsOf(Get(keys, "keys"))| == |live| && |KeyRows(keys)| == |parameters|
    requires forall i :: 0 <= i < |live| ==> LiveKeyOrNothing(ItemsOf(Get(keys, "keys"))[i], live[i])
    requires forall i :: 0 <= i < |parameters| ==> KeyParameterOrNothing(KeyRows(keys)[i], parameters[i])
    requires Get(controls, "field").List? && |Get(controls, "field").items| == |settings|
    requires forall i :: 0 <= i < |settings| ==> ControlOrNothing(Get(controls, "field").items[i], settings[i])
    ensures var o := OutcomesOf(last, chart, keys, controls);
      && AllBuilt(o)
      && o.last.fields == FirstOf(Kept(Together(values)), 512)
      && |o.last.fields| + |o.chart.fields| + |o.keys.fields| <= 512
      && o.chart.fields == Kept(FirstOf(charts, 512 - |o.last.fields|))
      && o.keys.fields == KeyFieldsWithin(live, parameters, 512 - |o.last.fields| - |o.chart.fields|)
      && o.controls.fields == Kept(FirstOf(settings, 512 - |o.last.fields| - |o.chart.fields| - |o.keys.fields|))
  {
    hide Get, Kept, Together, KeyRows, SectionShows, ChartFieldOrNothing, LiveKeyOrNothing, KeyParameterOrNothing;
    hide ControlOrNothing, LastDataOutcome, ChartOutcome, KeyOutcome, ControlOutcome, FirstOf, ItemsOf, KeyFieldsWithin;
    var o := OutcomesOf(last, chart, keys, controls);
    ShownValuesAreRead(last, sections, values, 512);
    var room: nat := 512 - |o.last.fields|;
    ShownChartFieldsAreRead(chart.items, charts, chart, room);
    KeptIsNoMore(charts, room);
    room := room - |o.chart.fields|;
    ShownKeyParametersAreRead(keys, ItemsOf(Get(keys, "keys")), live, KeyRows(keys), parameters, room);
    KeyFieldsAreNoMore(live, parameters, room);
    room := room - |o.keys.fields|;
    ShownControlsAreRead(controls, Get(controls, "field").items, settings, room);
  }

  lemma KeyFieldsAreNoMore(live: seq<Option<MetadataField>>, rows: seq<Option<MetadataField>>, limit: nat)
    ensures |KeyFieldsWithin(live, rows, limit)| <= limit
  {
    KeptIsNoMore(live, limit);
    KeptIsNoMore(rows, limit - |Kept(FirstOf(live, limit))|);
  }

  lemma KeptIsNoMore<T>(shown: seq<Option<T>>, limit: nat)
    ensures |Kept(FirstOf(shown, limit))| <= limit
  {
    KeptIsShort(FirstOf(shown, limit));
  }

  lemma {:induction false} KeptIsShort<T>(shown: seq<Option<T>>)
    ensures |Kept(shown)| <= |shown|
  {
    if shown != [] {
      KeptIsShort(shown[1..]);
    }
  }
}
