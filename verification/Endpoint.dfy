/** `collector_endpoint.py`: the `host`, `host,port` and `host,port,protocol` forms of one endpoint. */
module Endpoint {
  import opened Numbers
  import opened Text
  import opened Timestamps

  const DEFAULT_PORT := 18899
  const LEGACY_BINARY_PORT := 502
  const LEGACY_BINARY := "legacy_binary"
  const TCP := "TCP"

  /** `split(separator)`. */
  function Split(s: string, separator: char): (parts: seq<string>)
    ensures parts != []
  {
    if s == "" then [""]
    else
      var rest := Split(s[1..], separator);
      if s[0] == separator then [""] + rest else [[s[0]] + rest[0]] + rest[1..]
  }

  lemma {:induction false} SplitWithoutSeparator(s: string, separator: char)
    requires separator !in s
    ensures Split(s, separator) == [s]
  {
    if s != "" {
      SplitWithoutSeparator(s[1..], separator);
      assert s == [s[0]] + s[1..];
    }
  }

  lemma {:induction false} SplitAtFirstSeparator(front: string, separator: char, rest: string)
    requires separator !in front
    ensures Split(front + [separator] + rest, separator) == [front] + Split(rest, separator)
  {
    var all := front + [separator] + rest;
    if front == "" {
      assert all[1..] == rest;
    } else {
      SplitAtFirstSeparator(front[1..], separator, rest);
      assert all[1..] == front[1..] + [separator] + rest;
      assert front == [front[0]] + front[1..];
    }
  }

  /** Splitting loses nothing but the separators. */
  lemma {:induction false} SplitKeepsCharacters(s: string, separator: char, c: char)
    requires c in s && c != separator
    ensures exists i :: 0 <= i < |Split(s, separator)| && c in Split(s, separator)[i]
  {
    if c == s[0] {
      assert c in Split(s, separator)[0];
    } else {
      SplitKeepsCharacters(s[1..], separator, c);
      var rest := Split(s[1..], separator);
      var i :| 0 <= i < |rest| && c in rest[i];
      if s[0] == separator {
        assert Split(s, separator)[i + 1] == rest[i];
      } else {
        assert c in Split(s, separator)[i];
      }
    }
  }

  // ---- hosts ---------------------------------------------------------------------------

  predicate IsHostChar(c: char) { IsAlphanumeric(c) || c == '_' || c == '-' }

  /** One label of a host name: at most 63 characters, letters or digits at both ends. */
  predicate ValidLabel(s: string) {
    && 1 <= |s| <= 63
    && IsAlphanumeric(s[0]) && IsAlphanumeric(s[|s| - 1])
    && forall c :: c in s ==> IsHostChar(c)
  }

  /** A host name; a dotted IPv4 address is one too, and nothing with a colon is. */
  predicate ValidHost(s: string) {
    s != "" && |s| <= 253 && forall i :: 0 <= i < |Split(s, '.')| ==> ValidLabel(Split(s, '.')[i])
  }

  function ParseHost(text: string): Option<string> {
    if ValidHost(Strip(text)) then Some(Strip(text)) else None
  }

  /** No host hides a comma or a space. */
  lemma HostIsOneWord(s: string)
    requires ValidHost(s)
    ensures ',' !in s && Normalized(s)
  {
    hide ValidLabel, Split;
    forall c | c in s ensures c == '.' || IsHostChar(c) {
      if c != '.' {
        SplitKeepsCharacters(s, '.', c);
        var i :| 0 <= i < |Split(s, '.')| && c in Split(s, '.')[i];
        LabelCharacters(Split(s, '.')[i]);
      }
    }
    assert s[0] in s && s[|s| - 1] in s;
  }

  lemma LabelCharacters(s: string)
    requires ValidLabel(s)
    ensures forall c :: c in s ==> IsHostChar(c)
  {
  }

  // ---- ports ---------------------------------------------------------------------------

  const MAX_DIGITS := 4300

  /** Digits, with single underscores between them. */
  predicate Grouped(s: string, behindDigit: bool) {
    if s == "" then behindDigit
    else if s[0] == '_' then behindDigit && Grouped(s[1..], false)
    else IsDigit(s[0]) && Grouped(s[1..], true)
  }

  function DigitsOf(s: string): (r: string) {
    if s == "" then "" else (if IsDigit(s[0]) then [s[0]] else "") + DigitsOf(s[1..])
  }

  lemma {:induction false} DigitsOfIsDigits(s: string)
    ensures AllDigits(DigitsOf(s))
    ensures AllDigits(s) ==> DigitsOf(s) == s && (s != "" ==> Grouped(s, false)) && Grouped(s, true)
  {
    if s != "" {
      DigitsOfIsDigits(s[1..]);
      assert s == [s[0]] + s[1..];
      assert s[0] in s;
      if AllDigits(s) {
        assert forall c :: c in s[1..] ==> c in s;
      }
    }
  }

  /** `int(text)` on ASCII text: spaces around, a sign, leading zeros and underscores are all fine. */
  function ParseInt(text: string): Option<int> {
    var s := Strip(text);
    var signed := s != "" && (s[0] == '+' || s[0] == '-');
    var body := if signed then s[1..] else s;
    var digits := DigitsOf(body);
    if !Grouped(body, false) || |digits| > MAX_DIGITS then None
    else
      DigitsOfIsDigits(body);
      Some(if signed && s[0] == '-' then 0 - Number(digits) else Number(digits))
  }

  predicate PortInRange(port: int) { 1 <= port <= 65535 }

  function ParsePort(text: string): (port: Option<int>)
    ensures port.Some? ==> PortInRange(port.value)
  {
    var n := ParseInt(text);
    if n.Some? && PortInRange(n.value) then n else None
  }

  function Decimal(n: nat): (s: string)
    ensures s != "" && AllDigits(s)
  {
    if n < 10 then [Digit(n)] else Decimal(n / 10) + [Digit(n % 10)]
  }

  function IntText(n: int): string { if n < 0 then "-" + Decimal(-n) else Decimal(n) }

  lemma {:induction false} NumberOfDecimal(n: nat)
    ensures Number(Decimal(n)) == n
    ensures n < 100000 ==> |Decimal(n)| <= 5
  {
    if n < 10 {
      DigitOfValue(n);
      assert Number([Digit(n)][..0]) == 0;
    } else {
      NumberOfDecimal(n / 10);
      DecimalIsShort(n);
      DigitOfValue(n % 10);
      assert Decimal(n)[..|Decimal(n)| - 1] == Decimal(n / 10);
    }
  }

  lemma {:induction false} DecimalIsShort(n: nat)
    ensures n < 10 ==> |Decimal(n)| <= 1
    ensures n < 100 ==> |Decimal(n)| <= 2
    ensures n < 1000 ==> |Decimal(n)| <= 3
    ensures n < 10000 ==> |Decimal(n)| <= 4
    ensures n < 100000 ==> |Decimal(n)| <= 5
  {
    if n >= 10 {
      DecimalIsShort(n / 10);
    }
  }

  /** A printed integer is one word, and reads back as itself unless it is absurdly long. */
  lemma IntTextReadsBack(n: int)
    ensures ',' !in IntText(n) && Normalized(IntText(n))
    ensures ParseInt(IntText(n)).Some? ==> ParseInt(IntText(n)).value == n
    ensures PortInRange(n) ==> ParseInt(IntText(n)).Some?
  {
    hide Number, Decimal, Strip, Grouped, DigitsOf;
    var digits := Decimal(if n < 0 then -n else n);
    NumberOfDecimal(if n < 0 then -n else n);
    DigitsOfIsDigits(digits);
    assert digits[0] in digits && digits[|digits| - 1] in digits;
    if n < 0 {
      assert IntText(n)[1..] == digits;
    }
  }

  // ---- protocols -----------------------------------------------------------------------

  predicate IsAscii(s: string) { forall c :: c in s ==> c as int < 128 }

  /** A protocol token as it is stored. */
  predicate ValidProtocol(s: string, requireTcp: bool) {
    Normalized(s) && Upper(s) == s && IsAscii(s) && ',' !in s && (requireTcp ==> s == TCP)
  }

  function ParseProtocol(text: string, requireTcp: bool): Option<string> {
    var protocol := Upper(Strip(text));
    if protocol == "" || !IsAscii(protocol) || ',' in protocol || (requireTcp && protocol != TCP) then None
    else Some(protocol)
  }

  lemma ProtocolsParseToValidOnes(text: string, requireTcp: bool)
    ensures ParseProtocol(text, requireTcp).Some? ==>
      ValidProtocol(ParseProtocol(text, requireTcp).value, requireTcp)
    ensures ValidProtocol(text, requireTcp) ==> ParseProtocol(text, requireTcp) == Some(text)
  {
    hide Strip;
    var protocol := Upper(Strip(text));
    assert Upper(protocol) == protocol;
  }

  lemma TcpIsValid(requireTcp: bool)
    ensures ValidProtocol(TCP, requireTcp)
  {
    assert Upper(TCP) == TCP;
  }

  // ---- endpoints -------------------------------------------------------------------------

  /** The cloud catalog: the family behind a lower-case host, and a family's own port. */
  datatype Catalog = Catalog(families: map<string, string>, ports: map<string, int>)

  /** `default_collector_server_port`; the catalog's number is used as it is. */
  function DefaultPort(catalog: Catalog, host: string): int {
    var family := if Lower(host) in catalog.families then Lower(Strip(catalog.families[Lower(host)])) else "";
    if family != "" && family in catalog.ports && catalog.ports[family] != 0 then catalog.ports[family]
    else if family == LEGACY_BINARY then LEGACY_BINARY_PORT
    else DEFAULT_PORT
  }

  datatype Parts = Parts(
    host: string, port: int, protocol: string, hasExplicitPort: bool, hasExplicitProtocol: bool)

  datatype Demands = Demands(explicitPort: bool, explicitProtocol: bool, tcp: bool)

  /** What any endpoint can be: the image of the parser. */
  predicate ValidParts(x: Parts, demands: Demands, catalog: Catalog) {
    && ValidHost(x.host)
    && ValidProtocol(x.protocol, demands.tcp)
    && (x.hasExplicitProtocol || x.protocol == TCP)
    && (if x.hasExplicitPort then PortInRange(x.port)
        else !x.hasExplicitProtocol && !demands.explicitPort && x.port == DefaultPort(catalog, x.host))
    && (x.hasExplicitPort && demands.explicitProtocol ==> x.hasExplicitProtocol)
  }

  function Stripped(parts: seq<string>): (r: seq<string>)
    ensures |r| == |parts| && forall i :: 0 <= i < |parts| ==> r[i] == Strip(parts[i])
  {
    seq(|parts|, i requires 0 <= i < |parts| => Strip(parts[i]))
  }

  function Build(host: Option<string>, port: Option<int>, protocol: Option<string>, explicitPort: bool,
                 explicitProtocol: bool): Option<Parts> {
    if host.None? || port.None? || protocol.None? then None
    else Some(Parts(host.value, port.value, protocol.value, explicitPort, explicitProtocol))
  }

  /** `inspect_collector_server_endpoint`; `None` is the value error. */
  function Inspect(endpoint: string, demands: Demands, catalog: Catalog): Option<Parts> {
    var raw := Stripped(Split(endpoint, ','));
    if exists i :: 0 <= i < |raw| && raw[i] == "" then None
    else if |raw| == 1 then
      var host := ParseHost(raw[0]);
      if demands.explicitPort || host.None? then None
      else Build(host, Some(DefaultPort(catalog, host.value)), ParseProtocol(TCP, demands.tcp), false, false)
    else if |raw| == 2 then
      if demands.explicitProtocol then None
      else Build(ParseHost(raw[0]), ParsePort(raw[1]), ParseProtocol(TCP, demands.tcp), true, false)
    else if |raw| == 3 then
      Build(ParseHost(raw[0]), ParsePort(raw[1]), ParseProtocol(raw[2], demands.tcp), true, true)
    else None
  }

  /** `render`. */
  function Render(x: Parts, preserveShape: bool): string {
    if preserveShape && !x.hasExplicitPort then x.host
    else if preserveShape && !x.hasExplicitProtocol then x.host + "," + IntText(x.port)
    else x.host + "," + IntText(x.port) + "," + x.protocol
  }

  /** `normalize_collector_server_endpoint`. */
  function Normalize(endpoint: string, demands: Demands, catalog: Catalog, preserveShape: bool): Option<string> {
    match Inspect(endpoint, demands, catalog)
    case Some(x) => Some(Render(x, preserveShape))
    case None => None
  }

  /** The parser accepts only valid parts. */
  lemma InspectedPartsAreValid(endpoint: string, demands: Demands, catalog: Catalog)
    requires Inspect(endpoint, demands, catalog).Some?
    ensures ValidParts(Inspect(endpoint, demands, catalog).value, demands, catalog)
  {
    hide ValidHost, ValidProtocol, ParseProtocol, ParsePort, Split, Strip, DefaultPort, PortInRange;
    TcpIsValid(demands.tcp);
    ProtocolsParseToValidOnes(TCP, demands.tcp);
    var raw := Stripped(Split(endpoint, ','));
    if |raw| == 3 {
      ProtocolsParseToValidOnes(raw[2], demands.tcp);
    }
  }

  lemma TwoWordsSplit(a: string, b: string)
    requires ',' !in a && ',' !in b
    ensures Split(a + "," + b, ',') == [a, b]
  {
    SplitAtFirstSeparator(a, ',', b);
    SplitWithoutSeparator(b, ',');
  }

  lemma ThreeWordsSplit(a: string, b: string, c: string)
    requires ',' !in a && ',' !in b && ',' !in c
    ensures Split(a + "," + b + "," + c, ',') == [a, b, c]
  {
    hide Split;
    TwoWordsSplit(b, c);
    SplitAtFirstSeparator(a, ',', b + "," + c);
    assert a + "," + b + "," + c == a + [','] + (b + "," + c);
  }

  /** Words without a comma come back as they were joined. */
  lemma JoinedWordsSplit(a: string, b: string, c: string)
    requires ',' !in a && Normalized(a) && ',' !in b && Normalized(b)
    ensures Stripped(Split(a, ',')) == [a]
    ensures Stripped(Split(a + "," + b, ',')) == [a, b]
    ensures ',' !in c && Normalized(c) ==> Stripped(Split(a + "," + b + "," + c, ',')) == [a, b, c]
  {
    hide Strip, Split;
    SplitWithoutSeparator(a, ',');
    TwoWordsSplit(a, b);
    if ',' !in c {
      ThreeWordsSplit(a, b, c);
    }
  }

  /** Valid parts survive printing in their own shape, whichever of the three it is. */
  lemma ShapedTextReadsBack(x: Parts, demands: Demands, catalog: Catalog)
    requires ValidParts(x, demands, catalog)
    ensures Inspect(Render(x, true), demands, catalog) == Some(x)
  {
    hide ValidHost, ParseProtocol, ParseInt, IntText, Split, Strip, DefaultPort, Upper, IsAscii;
    HostIsOneWord(x.host);
    IntTextReadsBack(x.port);
    JoinedWordsSplit(x.host, IntText(x.port), x.protocol);
    TcpIsValid(demands.tcp);
    ProtocolsParseToValidOnes(TCP, demands.tcp);
    ProtocolsParseToValidOnes(x.protocol, demands.tcp);
  }

  /** Printing in full reads back exactly when the port is one, and then names everything outright. */
  lemma FullTextReadsBack(x: Parts, demands: Demands, catalog: Catalog)
    requires ValidParts(x, demands, catalog)
    ensures Inspect(Render(x, false), demands, catalog) ==
      if PortInRange(x.port) then Some(x.(hasExplicitPort := true, hasExplicitProtocol := true)) else None
  {
    hide ValidHost, ParseProtocol, ParseInt, IntText, Split, Strip, DefaultPort, Upper, IsAscii;
    HostIsOneWord(x.host);
    IntTextReadsBack(x.port);
    JoinedWordsSplit(x.host, IntText(x.port), x.protocol);
    ProtocolsParseToValidOnes(x.protocol, demands.tcp);
  }

  /** Parsing and shape-preserving printing are inverse, and normalising that way is idempotent. */
  lemma ShapedRoundTrip(endpoint: string, demands: Demands, catalog: Catalog)
    ensures var x := Inspect(endpoint, demands, catalog);
      x.Some? ==>
        && Inspect(Render(x.value, true), demands, catalog) == x
        && Normalize(Render(x.value, true), demands, catalog, true) == Normalize(endpoint, demands, catalog, true)
  {
    hide Inspect, ValidParts, Render;
    if Inspect(endpoint, demands, catalog).Some? {
      InspectedPartsAreValid(endpoint, demands, catalog);
      ShapedTextReadsBack(Inspect(endpoint, demands, catalog).value, demands, catalog);
    }
  }

  /** The one text whose full form cannot be read back: a bare host whose catalog port is no port. */
  predicate HasUnusableDefaultPort(x: Parts, catalog: Catalog) {
    !x.hasExplicitPort && !PortInRange(DefaultPort(catalog, x.host))
  }

  /** Full normalisation is idempotent exactly when the catalog's default port, if it is used, is a port. */
  lemma FullNormalisationIsIdempotentIff(endpoint: string, demands: Demands, catalog: Catalog)
    requires Inspect(endpoint, demands, catalog).Some?
    ensures var x, s := Inspect(endpoint, demands, catalog).value, Normalize(endpoint, demands, catalog, false);
      && (Normalize(s.value, demands, catalog, false) == s <==> !HasUnusableDefaultPort(x, catalog))
      && (Normalize(s.value, demands, catalog, false) == None <==> HasUnusableDefaultPort(x, catalog))
  {
    hide Inspect, DefaultPort, PortInRange, ValidHost, ValidProtocol, IntText;
    InspectedPartsAreValid(endpoint, demands, catalog);
    FullTextReadsBack(Inspect(endpoint, demands, catalog).value, demands, catalog);
  }

  /** A catalog that makes it fail. */
  lemma OversizedCatalogPortIsNotReadBack()
    ensures var catalog := Catalog(map["a" := "x"], map["x" := 70000]);
      var demands := Demands(false, false, false);
      var x := Parts("a", 70000, TCP, false, false);
      && Inspect("a", demands, catalog) == Some(x)
      && Inspect(Render(x, false), demands, catalog) == None
  {
    hide Strip, Decimal, ParseProtocol, ParseInt;
    var catalog := Catalog(map["a" := "x"], map["x" := 70000]);
    var demands := Demands(false, false, false);
    var x := Parts("a", 70000, TCP, false, false);
    SplitWithoutSeparator("a", '.');
    assert Lower("a") == "a" && Lower("x") == "x";
    assert Split("a", '.') == ["a"] && ValidLabel("a");
    TcpIsValid(false);
    assert ValidParts(x, demands, catalog);
    ShapedTextReadsBack(x, demands, catalog);
    FullTextReadsBack(x, demands, catalog);
  }
}
