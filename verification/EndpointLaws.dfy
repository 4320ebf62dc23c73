/** Which endpoint texts are accepted, and what they mean, whatever their spacing and case. */
module EndpointLaws {
  import opened Numbers
  import opened Text
  import opened Timestamps
  import opened Endpoint

  // ---- the three forms ------------------------------------------------------------------

  predicate OneWord(s: string) { ',' !in s }

  /** A bare host gets its default port and TCP, unless more is demanded. */
  lemma HostForm(a: string, demands: Demands, catalog: Catalog)
    requires OneWord(a)
    ensures Inspect(a, demands, catalog) ==
      if ValidHost(Strip(a)) && !demands.explicitPort
      then Some(Parts(Strip(a), DefaultPort(catalog, Strip(a)), "TCP", false, false)) else None
  {
    hide Strip, ValidHost, DefaultPort, Split, ParseProtocol;
    SplitWithoutSeparator(a, ',');
    TcpIsTcp(demands.tcp);
    StripTwice(a);
    EmptyIsNoHost();
  }

  /** A host with a port gets TCP, unless a protocol is demanded. */
  lemma HostPortForm(a: string, b: string, demands: Demands, catalog: Catalog)
    requires OneWord(a) && OneWord(b)
    ensures Inspect(a + "," + b, demands, catalog) ==
      if ValidHost(Strip(a)) && ParsePort(b).Some? && !demands.explicitProtocol
      then Some(Parts(Strip(a), ParsePort(b).value, "TCP", true, false)) else None
  {
    hide Strip, ValidHost, Split, ParseProtocol, ParsePort;
    TwoWordsSplit(a, b);
    TcpIsTcp(demands.tcp);
    StripTwice(a);
    PortIgnoresSpaces(b);
    EmptyIsNoHost();
  }

  /** Three parts are taken as they are. */
  lemma FullForm(a: string, b: string, c: string, demands: Demands, catalog: Catalog)
    requires OneWord(a) && OneWord(b) && OneWord(c)
    ensures Inspect(a + "," + b + "," + c, demands, catalog) ==
      if ValidHost(Strip(a)) && ParsePort(b).Some? && ProtocolWord(c, demands.tcp)
      then Some(Parts(Strip(a), ParsePort(b).value, Upper(Strip(c)), true, true)) else None
  {
    hide Strip, ValidHost, Split, ParsePort, ParseProtocol, Upper, Inspect, ProtocolWord;
    ThreeWordsSplit(a, b, c);
    var raw := Stripped(Split(a + "," + b + "," + c, ','));
    assert raw == [Strip(a), Strip(b), Strip(c)];
    ThreePartsAreInspected(a + "," + b + "," + c, Strip(a), Strip(b), Strip(c), demands, catalog);
    StripTwice(a);
    PortIgnoresSpaces(b);
    EmptyIsNoHost();
    ProtocolOfWord(c, demands.tcp);
  }

  lemma ThreePartsAreInspected(e: string, x: string, y: string, z: string, demands: Demands, catalog: Catalog)
    requires Stripped(Split(e, ',')) == [x, y, z]
    ensures Inspect(e, demands, catalog) ==
      if x == "" || y == "" || z == "" then None
      else Build(ParseHost(x), ParsePort(y), ParseProtocol(z, demands.tcp), true, true)
  {
    hide Strip, Split, ParseHost, ParsePort, ParseProtocol;
    var raw := Stripped(Split(e, ','));
    assert raw[0] == x && raw[1] == y && raw[2] == z;
  }

  lemma ProtocolOfWord(c: string, tcp: bool)
    requires OneWord(c)
    ensures ParseProtocol(Strip(c), tcp) == if ProtocolWord(c, tcp) then Some(Upper(Strip(c))) else None
    ensures Strip(c) == "" ==> !ProtocolWord(c, tcp)
  {
    hide Strip, IsAscii;
    StripTwice(c);
    StrippedWord(c);
  }

  /** A text with more commas is refused. */
  lemma FourWordsAreRefused(a: string, b: string, c: string, rest: string, demands: Demands, catalog: Catalog)
    requires OneWord(a) && OneWord(b) && OneWord(c)
    ensures Inspect(a + "," + b + "," + c + "," + rest, demands, catalog) == None
  {
    hide Split, Strip;
    SplitAtFirstSeparator(a, ',', b + "," + c + "," + rest);
    SplitAtFirstSeparator(b, ',', c + "," + rest);
    SplitAtFirstSeparator(c, ',', rest);
    assert a + "," + b + "," + c + "," + rest == a + [','] + (b + "," + c + "," + rest);
    assert b + "," + c + "," + rest == b + [','] + (c + "," + rest);
  }

  /** A protocol is some ASCII text; when TCP is demanded, TCP in any case. */
  predicate ProtocolWord(c: string, tcp: bool) {
    Strip(c) != "" && IsAscii(Upper(Strip(c))) && (tcp ==> Upper(Strip(c)) == "TCP")
  }

  lemma TcpIsTcp(tcp: bool)
    ensures ParseProtocol("TCP", tcp) == Some("TCP")
  {
    TcpIsValid(tcp);
    ProtocolsParseToValidOnes("TCP", tcp);
  }

  lemma StripTwice(s: string)
    ensures Strip(Strip(s)) == Strip(s)
  {
    hide Strip;
  }

  lemma EmptyIsNoHost()
    ensures !ValidHost("")
  {
  }

  lemma PortIgnoresSpaces(s: string)
    ensures ParsePort(Strip(s)) == ParsePort(s)
    ensures Strip(s) == "" ==> ParsePort(s) == None
  {
    hide Strip;
    StripTwice(s);
  }

  lemma StrippedWord(c: string)
    requires OneWord(c)
    ensures ',' !in Upper(Strip(c))
  {
    hide Strip;
    var s := Strip(c);
    forall i | 0 <= i < |s| ensures Upper(s)[i] != ',' {
      assert s[i] in s;
    }
  }

  // ---- letters -------------------------------------------------------------------------------

  /** Small and capital letters, in step; nothing else changes. */
  lemma LettersChangeCase(i: nat, c: char)
    requires i < 26
    ensures UpperChar('a' + i as char) == 'A' + i as char && LowerChar('A' + i as char) == 'a' + i as char
    ensures !('a' <= c <= 'z') ==> UpperChar(c) == c
    ensures !('A' <= c <= 'Z') ==> LowerChar(c) == c
  {
  }

  lemma KnownProtocols()
    ensures ParseProtocol(" tcp ", true) == Some("TCP") && ParseProtocol("Udp", false) == Some("UDP")
    ensures ParseProtocol("udp", true) == None && ParseProtocol("", false) == None && ParseProtocol("a,b", false) == None
  {
    hide Upper;
    assert " tcp "[1..] == "tcp " && "tcp "[..3] == "tcp";
    assert Strip(" tcp ") == Strip("tcp ") == Strip("tcp") == "tcp";
    assert Strip("Udp") == "Udp" && Strip("udp") == "udp" && Strip("a,b") == "a,b" && Strip("") == "";
    UpperOfThree("tcp", "TCP");
    UpperOfThree("Udp", "UDP");
    UpperOfThree("udp", "UDP");
    assert Upper("a,b")[1] == UpperChar(',');
    assert Upper("a,b")[1] in Upper("a,b");
    assert "UDP"[0] != "TCP"[0] && |Upper("")| == 0;
  }

  lemma UpperOfThree(s: string, t: string)
    requires |s| == |t| == 3 && UpperChar(s[0]) == t[0] && UpperChar(s[1]) == t[1] && UpperChar(s[2]) == t[2]
    ensures Upper(s) == t
  {
  }

  // ---- ports -------------------------------------------------------------------------------------

  /** Digits are a port when their number is one; a plus sign, leading zeros and single underscores are fine. */
  lemma DigitsAreAPort(digits: string)
    requires digits != "" && AllDigits(digits) && |digits| <= 4300
    ensures ParsePort(digits) == if 1 <= Number(digits) <= 65535 then Some(Number(digits)) else None
    ensures ParsePort("+" + digits) == ParsePort(digits) && ParsePort("-" + digits) == None
    ensures ParsePort("0" + digits) == (if |digits| < 4300 then ParsePort(digits) else None)
  {
    hide Strip, Grouped, DigitsOf, Number;
    PlainDigits(digits);
    SignedDigits(digits);
    LeadingZero(digits);
  }

  lemma PlainDigits(digits: string)
    requires digits != "" && AllDigits(digits)
    ensures Strip(digits) == digits && DigitsOf(digits) == digits && Grouped(digits, false)
    ensures digits[0] != '+' && digits[0] != '-'
  {
    hide Strip;
    assert digits[0] in digits && digits[|digits| - 1] in digits;
    DigitsOfIsDigits(digits);
  }

  lemma SignedDigits(digits: string)
    requires digits != "" && AllDigits(digits)
    ensures Strip("+" + digits) == "+" + digits && ("+" + digits)[1..] == digits
    ensures Strip("-" + digits) == "-" + digits && ("-" + digits)[1..] == digits
  {
    hide Strip;
    assert digits[|digits| - 1] in digits;
  }

  lemma LeadingZero(digits: string)
    requires digits != "" && AllDigits(digits)
    ensures AllDigits("0" + digits) && Number("0" + digits) == Number(digits)
    ensures Strip("0" + digits) == "0" + digits && DigitsOf("0" + digits) == "0" + digits && Grouped("0" + digits, false)
  {
    hide Strip;
    forall c | c in "0" + digits ensures IsDigit(c) {}
    PlainDigits("0" + digits);
    ZeroInFront(digits);
  }

  lemma {:induction false} ZeroInFront(digits: string)
    requires AllDigits(digits)
    ensures AllDigits("0" + digits) && Number("0" + digits) == Number(digits)
  {
    var all := "0" + digits;
    forall c | c in all ensures IsDigit(c) {}
    if digits == "" {
      assert all[..0] == "";
    } else {
      var n := |digits| - 1;
      ZeroInFront(digits[..n]);
      assert all[..|all| - 1] == "0" + digits[..n] && all[|all| - 1] == digits[n];
    }
  }

  lemma {:induction false} DigitsPassGroups(digits: string, rest: string, behind: bool)
    requires AllDigits(digits)
    ensures DigitsOf(digits + rest) == digits + DigitsOf(rest)
    ensures Grouped(digits + rest, behind) <==> Grouped(rest, behind || digits != "")
  {
    if digits == "" {
      assert digits + rest == rest;
    } else {
      assert digits[0] in digits;
      forall c | c in digits[1..] ensures IsDigit(c) { assert c in digits; }
      assert (digits + rest)[1..] == digits[1..] + rest;
      DigitsPassGroups(digits[1..], rest, true);
      assert digits == [digits[0]] + digits[1..];
    }
  }

  /** One underscore between digits says nothing; at an end, or doubled, it spoils the number. */
  lemma Underscores(a: string, b: string)
    requires a != "" && b != "" && AllDigits(a) && AllDigits(b)
    ensures ParsePort(a + "_" + b) == ParsePort(a + b)
    ensures ParsePort("_" + a) == None && ParsePort(a + "_") == None && ParsePort(a + "__" + b) == None
  {
    hide Strip, Number, ParsePort, DigitsOf, Grouped;
    InnerUnderscore(a, b);
    EdgeUnderscores(a, b);
  }

  /** What a text that begins and ends with a digit or an underscore is as a port. */
  predicate DigitOrUnderscore(c: char) { IsDigit(c) || c == '_' }

  lemma PortOfText(s: string)
    requires s != "" && DigitOrUnderscore(s[0]) && DigitOrUnderscore(s[|s| - 1])
    ensures ParsePort(s) ==
      if Grouped(s, false) && |DigitsOf(s)| <= 4300 && AllDigits(DigitsOf(s)) && PortInRange(Number(DigitsOf(s)))
      then Some(Number(DigitsOf(s))) else None
  {
    hide Strip, Grouped, DigitsOf, Number;
    DigitsOfIsDigits(s);
    assert Strip(s) == s;
  }

  lemma InnerUnderscore(a: string, b: string)
    requires a != "" && b != "" && AllDigits(a) && AllDigits(b)
    ensures ParsePort(a + "_" + b) == ParsePort(a + b)
  {
    hide ParsePort, DigitsOf, Grouped, Number;
    assert a[0] in a && b[|b| - 1] in b;
    DigitsPassGroups(b, "", true);
    DigitsPassGroups(b, "", false);
    assert b + "" == b;
    UnderscoreThen(b);
    DigitsPassGroups(a, "_" + b, false);
    DigitsPassGroups(a, b, false);
    assert a + "_" + b == a + ("_" + b);
    PortOfText(a + "_" + b);
    PortOfText(a + b);
  }

  lemma EdgeUnderscores(a: string, b: string)
    requires a != "" && b != "" && AllDigits(a) && AllDigits(b)
    ensures ParsePort("_" + a) == None && ParsePort(a + "_") == None && ParsePort(a + "__" + b) == None
  {
    hide ParsePort, DigitsOf, Grouped, Number;
    assert a[0] in a && a[|a| - 1] in a && b[|b| - 1] in b;
    UnderscoreThen(a);
    PortOfText("_" + a);
    UnderscoreThen("");
    NothingIsGrouped();
    assert "_" + "" == "_";
    DigitsPassGroups(a, "_", false);
    PortOfText(a + "_");
    UnderscoreThen("_" + b);
    UnderscoreThen(b);
    assert "_" + ("_" + b) == "__" + b && a + "__" + b == a + ("__" + b);
    DigitsPassGroups(a, "__" + b, false);
    PortOfText(a + "__" + b);
  }

  lemma NothingIsGrouped()
    ensures !Grouped("", false) && Grouped("", true)
  {
  }

  lemma UnderscoreThen(rest: string)
    ensures DigitsOf("_" + rest) == DigitsOf(rest)
    ensures Grouped("_" + rest, true) == Grouped(rest, false) && !Grouped("_" + rest, false)
  {
    assert ("_" + rest)[1..] == rest;
  }

  lemma NumberAppends(s: string, c: char)
    requires AllDigits(s) && IsDigit(c)
    ensures AllDigits(s + [c]) && Number(s + [c]) == 10 * Number(s) + DigitValue(c)
  {
    assert (s + [c])[..|s|] == s;
  }

  /** Numbers are decimal, and the last port is 65535. */
  lemma KnownPorts()
    ensures ParsePort("8899") == Some(8899) && ParsePort("65535") == Some(65535) && ParsePort("65536") == None
    ensures ParsePort("0") == None && ParsePort("") == None && ParsePort("x") == None
    ensures Decimal(8899) == "8899"
  {
    hide ParsePort, Number;
    NumbersOfPorts();
    DigitsAreAPort("8899");
    DigitsAreAPort("65535");
    DigitsAreAPort("65536");
    DigitsAreAPort("0");
    NoNumbers();
    DecimalOf8899();
  }

  lemma NumbersOfPorts()
    ensures Number("0") == 0 && Number("8899") == 8899 && Number("65535") == 65535 && Number("65536") == 65536
  {
    hide Number;
    NumberOfNothing();
    NumberAppends("", '0');
    assert "" + "0" == "0";
    NumberOfFour("8899");
    NumberOfFour("6553");
    NumberAppends("6553", '5');
    NumberAppends("6553", '6');
    assert "6553" + "5" == "65535" && "6553" + "6" == "65536";
  }

  lemma NumberOfFour(s: string)
    requires |s| == 4 && AllDigits(s)
    ensures IsDigit(s[0]) && IsDigit(s[1]) && IsDigit(s[2]) && IsDigit(s[3])
    ensures Number(s) == 1000 * DigitValue(s[0]) + 100 * DigitValue(s[1]) + 10 * DigitValue(s[2]) + DigitValue(s[3])
  {
    hide Number;
    assert s[0] in s && s[1] in s && s[2] in s && s[3] in s;
    NumberOfNothing();
    NumberAppends("", s[0]);
    NumberAppends([s[0]], s[1]);
    NumberAppends([s[0], s[1]], s[2]);
    NumberAppends([s[0], s[1], s[2]], s[3]);
    assert "" + [s[0]] == [s[0]] && [s[0]] + [s[1]] == [s[0], s[1]] && [s[0], s[1]] + [s[2]] == [s[0], s[1], s[2]];
    assert [s[0], s[1], s[2]] + [s[3]] == s;
  }

  lemma NumberOfNothing()
    ensures Number("") == 0
  {
  }

  lemma NoNumbers()
    ensures ParsePort("") == None && ParsePort("x") == None
  {
    assert Strip("x") == "x" && !Grouped("x", false) && Strip("") == "" && !Grouped("", false);
  }

  lemma DecimalOf8899()
    ensures Decimal(8899) == "8899"
  {
    assert Decimal(8) == "8" && Decimal(88) == "88" && Decimal(889) == "889";
  }

  // ---- default ports -------------------------------------------------------------------------------

  /** The family of the host, in normal form. */
  predicate HasFamily(catalog: Catalog, host: string, family: string) {
    if Lower(host) in catalog.families then family == Lower(Strip(catalog.families[Lower(host)])) else family == ""
  }

  /** The family's own port, and otherwise 502 for the old binary family and 18899 for all others. */
  lemma DefaultPorts(catalog: Catalog, host: string, family: string)
    requires HasFamily(catalog, host, family)
    ensures family != "" && family in catalog.ports && catalog.ports[family] != 0 ==>
      DefaultPort(catalog, host) == catalog.ports[family]
    ensures family == "" || family !in catalog.ports || catalog.ports[family] == 0 ==>
      DefaultPort(catalog, host) == if family == "legacy_binary" then 502 else 18899
  {
  }

  // ---- hosts ---------------------------------------------------------------------------------------------

  /** A name of one label. */
  lemma OneLabelHosts(s: string)
    requires '.' !in s
    ensures ValidHost(s) <==> ValidLabel(s)
  {
    hide ValidLabel;
    SplitWithoutSeparator(s, '.');
    LabelsAreShort(s);
    assert [s][0] == s;
  }

  lemma LabelsAreShort(s: string)
    ensures ValidLabel(s) ==> 1 <= |s| <= 63
  {
  }

  /** A label in front of more: both must be fine, and short enough together. */
  lemma DottedHosts(first: string, rest: string)
    requires '.' !in first && rest != ""
    ensures ValidHost(first + "." + rest) <==> ValidLabel(first) && ValidHost(rest) && |first| + 1 + |rest| <= 253
  {
    hide ValidLabel, Split;
    SplitAtFirstSeparator(first, '.', rest);
    var parts := Split(first + "." + rest, '.');
    assert parts == [first] + Split(rest, '.');
    assert parts[0] == first;
    assert forall i :: 0 <= i < |Split(rest, '.')| ==> parts[i + 1] == Split(rest, '.')[i];
    assert |first + "." + rest| == |first| + 1 + |rest|;
  }

  /** Letters, digits, dashes and underscores, but a letter or a digit at both ends. */
  lemma KnownLabels()
    ensures ValidLabel("a") && ValidLabel("A9") && ValidLabel("a_b-c")
    ensures !ValidLabel("") && !ValidLabel("-a") && !ValidLabel("a-") && !ValidLabel("_a") && !ValidLabel("a b") && !ValidLabel("a:b")
    ensures forall s :: |s| > 63 ==> !ValidLabel(s)
  {
    assert "a b"[1] in "a b" && "a:b"[1] in "a:b";
  }
}
