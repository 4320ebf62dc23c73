/** Dates, clocks and numbers as text: the exact forms, and known examples of each. */
module TextLaws {
  import opened Numbers
  import opened Text
  import opened Calendar
  import opened Timestamps
  import opened Records

  // ---- the calendar ------------------------------------------------------------------

  /** How long the months are, and where in the year they begin. */
  lemma Months(y: int)
    ensures DaysInMonth(y, 1) == 31 && DaysInMonth(y, 3) == 31 && DaysInMonth(y, 4) == 30 && DaysInMonth(y, 5) == 31
    ensures DaysInMonth(y, 6) == 30 && DaysInMonth(y, 7) == 31 && DaysInMonth(y, 8) == 31 && DaysInMonth(y, 9) == 30
    ensures DaysInMonth(y, 10) == 31 && DaysInMonth(y, 11) == 30 && DaysInMonth(y, 12) == 31
    ensures DaysInMonth(y, 2) == YearLength(y) - 337
    ensures DaysBeforeMonth(y, 3) == YearLength(y) - 306
  {
    assert DaysBeforeMonth(y, 2) == 31;
  }

  /** Years that are leap years and years that are not, and days whose number is known. */
  lemma KnownDays()
    ensures IsLeap(2000) && !IsLeap(1900) && IsLeap(2024) && !IsLeap(2023)
    ensures Ordinal(Date(1, 1, 1)) == 1 && Ordinal(Date(1970, 1, 1)) == 719163
    ensures Ordinal(Date(2000, 3, 1)) == 730180 && Ordinal(Date(9999, 12, 31)) == 3652059
  {
    hide Ordinal;
    KnownYears();
    DayNumber(1, 1, 1, 0, 0);
    DayNumber(1970, 1, 1, 719162, 0);
    DayNumber(2000, 3, 1, 730119, 60);
    DayNumber(9999, 12, 31, 3651694, 334);
  }

  lemma DayNumber(y: int, m: int, d: int, years: int, months: int)
    requires 1 <= m && DaysBeforeYear(y) == years && DaysBeforeMonth(y, m) == months
    ensures Ordinal(Date(y, m, d)) == years + months + d
  {
    hide DaysBeforeYear, DaysBeforeMonth;
  }

  lemma KnownYears()
    ensures DaysBeforeYear(1) == 0 && DaysBeforeYear(1970) == 719162 && DaysBeforeYear(2000) == 730119
    ensures DaysBeforeYear(9999) == 3651694
    ensures DaysBeforeMonth(1, 1) == 0 && DaysBeforeMonth(1970, 1) == 0
    ensures DaysBeforeMonth(2000, 3) == 60 && DaysBeforeMonth(9999, 12) == 334
  {
    hide DaysBeforeMonth;
    FirstOfYear(1);
    FirstOfYear(1970);
    Months(2000);
    MonthsAddUp(9999);
  }

  lemma FirstOfYear(y: int)
    ensures DaysBeforeMonth(y, 1) == 0
  {
  }

  // ---- timestamps ---------------------------------------------------------------------------

  const SAMPLE := Stamp(Date(2026, 7, 3), 4 * 3600 + 5 * 60 + 6)

  lemma TwoDigits(s: string)
    requires |s| == 2 && AllDigits(s)
    ensures Pad(10 * DigitValue(s[0]) + DigitValue(s[1]), 2) == s
  {
    hide Pad;
    PadOfNumber(s);
    assert s[..1][..0] == "" && s[0] in s && s[1] in s;
    assert Number(s) == 10 * Number(s[..1]) + DigitValue(s[1]);
    assert Number(s[..1]) == DigitValue(s[0]);
  }

  lemma FourDigits(s: string)
    requires |s| == 4 && AllDigits(s)
    ensures Pad(1000 * DigitValue(s[0]) + 100 * DigitValue(s[1]) + 10 * DigitValue(s[2]) + DigitValue(s[3]), 4) == s
  {
    hide Pad;
    PadOfNumber(s);
    assert s[0] in s && s[1] in s && s[2] in s && s[3] in s;
    assert s[..3][..2] == s[..2] && s[..2][..1] == s[..1] && s[..1][..0] == "";
    assert Number(s) == 10 * Number(s[..3]) + DigitValue(s[3]);
    assert Number(s[..3]) == 10 * Number(s[..2]) + DigitValue(s[2]);
    assert Number(s[..2]) == 10 * Number(s[..1]) + DigitValue(s[1]);
    assert Number(s[..1]) == DigitValue(s[0]);
  }

  /** Year, month and day, each zero-padded, between dashes. */
  lemma PrintedDate(y: string, m: string, d: string, date: Date)
    requires |y| == 4 && |m| == 2 && |d| == 2 && AllDigits(y) && AllDigits(m) && AllDigits(d) && ValidDate(date)
    requires date.year == 1000 * DigitValue(y[0]) + 100 * DigitValue(y[1]) + 10 * DigitValue(y[2]) + DigitValue(y[3])
    requires date.month == 10 * DigitValue(m[0]) + DigitValue(m[1]) && date.day == 10 * DigitValue(d[0]) + DigitValue(d[1])
    ensures DateText(date) == y + "-" + m + "-" + d
  {
    hide Pad;
    FourDigits(y);
    TwoDigits(m);
    TwoDigits(d);
  }

  /** Hour, minute and second, each zero-padded, between colons. */
  lemma PrintedClock(h: string, m: string, c: string, second: int)
    requires |h| == 2 && |m| == 2 && |c| == 2 && AllDigits(h) && AllDigits(m) && AllDigits(c) && 0 <= second < 86400
    requires second / 3600 == 10 * DigitValue(h[0]) + DigitValue(h[1])
    requires second / 60 % 60 == 10 * DigitValue(m[0]) + DigitValue(m[1])
    requires second % 60 == 10 * DigitValue(c[0]) + DigitValue(c[1])
    ensures ClockText(second) == h + ":" + m + ":" + c
  {
    hide Pad;
    TwoDigits(h);
    TwoDigits(m);
    TwoDigits(c);
  }

  /** A space between date and clock in local time; a T, and the offset behind, in UTC. */
  lemma PrintedForm()
    ensures ValidStamp(SAMPLE)
    ensures DateText(SAMPLE.date) == "2026-07-03" && ClockText(SAMPLE.second) == "04:05:06"
    ensures LocalText(SAMPLE) == "2026-07-03 04:05:06" && UtcText(SAMPLE) == "2026-07-03T04:05:06+00:00"
  {
    hide DateText, ClockText, DaysInMonth;
    SampleIsValid();
    PrintedDate("2026", "07", "03", SAMPLE.date);
    PrintedClock("04", "05", "06", SAMPLE.second);
    assert "2026" + "-" + "07" + "-" + "03" == "2026-07-03" && "04" + ":" + "05" + ":" + "06" == "04:05:06";
    assert "2026-07-03" + ([' '] + "04:05:06") == "2026-07-03 04:05:06";
    assert "2026-07-03" + (['T'] + "04:05:06") + "+00:00" == "2026-07-03T04:05:06+00:00";
  }

  lemma SampleIsValid()
    ensures ValidStamp(SAMPLE) && SAMPLE.second == 14706
  {
  }

  /** Two hours east of Greenwich is two hours earlier in UTC; so it is across midnight. */
  lemma KnownConversions()
    ensures ToUtc(SAMPLE, 7200) == Some(Stamp(Date(2026, 7, 3), 2 * 3600 + 5 * 60 + 6))
    ensures ToUtc(SAMPLE, 5 * 3600) == Some(Stamp(Date(2026, 7, 2), 23 * 3600 + 5 * 60 + 6))
    ensures ToUtc(Stamp(Date(2024, 2, 28), 20 * 3600), -5 * 3600) == Some(Stamp(Date(2024, 2, 29), 3600))
    ensures ValidOffset(-43200) && ValidOffset(50400) && !ValidOffset(-43260) && !ValidOffset(50460) && !ValidOffset(90)
  {
  }

  // ---- decimal numbers --------------------------------------------------------------------------

  predicate Sign(s: string) { s == "" || s == "+" || s == "-" }

  predicate Exponent(s: string, sign: string, digits: string) {
    s == "" || (digits != "" && AllDigits(digits) && Sign(sign) && (s == "e" + sign + digits || s == "E" + sign + digits))
  }

  /** A sign, digits with at most one point among them, and an exponent; all but some digit may be missing. */
  predicate DecimalForm(s: string, sign: string, whole: string, part: string, exponent: string, esign: string, edigits: string) {
    && Sign(sign) && AllDigits(whole) && (part == "" || (part[0] == '.' && AllDigits(part[1..])))
    && (whole != "" || |part| > 1) && Exponent(exponent, esign, edigits)
    && s == sign + whole + part + exponent
  }

  lemma {:induction false} DigitsRunTo(s: string, i: nat, e: nat)
    requires i <= e <= |s| && AllDigits(s[i..e]) && (e == |s| || !IsDigit(s[e]))
    ensures DigitsEnd(s, i) == e
    decreases e - i
  {
    if i < e {
      assert s[i] == s[i..e][0] && s[i] in s[i..e];
      forall c | c in s[i + 1..e] ensures IsDigit(c) { assert c in s[i..e]; }
      DigitsRunTo(s, i + 1, e);
    }
  }

  lemma {:induction false} RunIsDigits(s: string, i: nat)
    requires i <= |s|
    ensures AllDigits(s[i..DigitsEnd(s, i)])
    ensures DigitsEnd(s, i) == |s| || !IsDigit(s[DigitsEnd(s, i)])
    decreases |s| - i
  {
    if i < |s| && IsDigit(s[i]) {
      RunIsDigits(s, i + 1);
      assert s[i..DigitsEnd(s, i)] == [s[i]] + s[i + 1..DigitsEnd(s, i)];
    }
  }

  /** Every such form is accepted. */
  lemma FormsAreDecimal(
    s: string, sign: string, whole: string, part: string, exponent: string, esign: string, edigits: string)
    requires DecimalForm(s, sign, whole, part, exponent, esign, edigits)
    ensures DecimalText(s)
  {
    hide DigitsEnd, ExponentText, DecimalText, SkipSign, Exponent;
    SignSkips(s, sign, whole, part, exponent);
    ExponentBegins(exponent, esign, edigits);
    WholeEnds(s, sign, whole, part, exponent);
    PartEnds(s, sign + whole, part, exponent);
    ExponentFollows(s, sign + whole + part, exponent, esign, edigits);
    PartsAreDecimal(s, |sign|, |sign| + |whole|, |sign| + |whole| + |part|);
  }

  lemma SignSkips(s: string, sign: string, whole: string, part: string, exponent: string)
    requires Sign(sign) && s == sign + whole + part + exponent
    requires AllDigits(whole) && (part == "" || part[0] == '.') && (whole != "" || part != "")
    ensures SkipSign(s, 0) == |sign|
  {
    NumberBegins(whole, part, exponent);
    assert s == sign + (whole + part + exponent);
    SkippedSign(s, sign, whole + part + exponent);
  }

  lemma ExponentBegins(exponent: string, esign: string, edigits: string)
    requires Exponent(exponent, esign, edigits)
    ensures exponent == "" || exponent[0] == 'e' || exponent[0] == 'E'
  {
  }

  lemma ExponentFollows(s: string, front: string, exponent: string, esign: string, edigits: string)
    requires s == front + exponent && Exponent(exponent, esign, edigits)
    ensures |front| < |s| ==> (s[|front|] == 'e' || s[|front|] == 'E') && ExponentText(s, |front| + 1)
  {
    hide ExponentText;
    if exponent != "" {
      assert s[|front| + 1..] == exponent[1..] == esign + edigits;
      ExponentIsAccepted(s, |front| + 1, esign, edigits);
    }
  }

  lemma PartsAreDecimal(s: string, start: nat, dot: nat, end: nat)
    requires start <= dot <= end <= |s| && SkipSign(s, 0) == start && DigitsEnd(s, start) == dot
    requires if dot < |s| && s[dot] == '.' then DigitsEnd(s, dot + 1) == end else end == dot
    requires dot > start || end > dot + 1
    requires end < |s| ==> (s[end] == 'e' || s[end] == 'E') && ExponentText(s, end + 1)
    ensures DecimalText(s)
  {
    hide DigitsEnd, ExponentText, SkipSign;
  }

  lemma NumberBegins(whole: string, part: string, exponent: string)
    requires AllDigits(whole) && (part == "" || part[0] == '.') && (whole != "" || part != "")
    ensures var rest := whole + part + exponent; rest != "" && rest[0] != '+' && rest[0] != '-'
  {
    if whole != "" {
      assert whole[0] in whole;
    }
  }

  lemma WholeEnds(s: string, sign: string, whole: string, part: string, exponent: string)
    requires s == sign + whole + part + exponent && AllDigits(whole)
    requires (part == "" || part[0] == '.') && (exponent == "" || exponent[0] == 'e' || exponent[0] == 'E')
    ensures DigitsEnd(s, |sign|) == |sign| + |whole|
  {
    hide DigitsEnd;
    var dot := |sign| + |whole|;
    assert s[|sign|..dot] == whole;
    assert s[dot..] == part + exponent;
    assert dot < |s| ==> s[dot] == (part + exponent)[0];
    DigitsRunTo(s, |sign|, dot);
  }

  lemma PartEnds(s: string, front: string, part: string, exponent: string)
    requires s == front + part + exponent && (part == "" || (part[0] == '.' && AllDigits(part[1..])))
    requires exponent == "" || exponent[0] == 'e' || exponent[0] == 'E'
    ensures part != "" ==> s[|front|] == '.' && DigitsEnd(s, |front| + 1) == |front| + |part|
    ensures part == "" && |front| < |s| ==> s[|front|] != '.'
  {
    hide DigitsEnd;
    var end := |front| + |part|;
    assert s[end..] == exponent;
    assert end < |s| ==> s[end] == exponent[0];
    if part != "" {
      assert s[|front| + 1..end] == part[1..];
      DigitsRunTo(s, |front| + 1, end);
    }
  }

  lemma SkippedSign(s: string, sign: string, rest: string)
    requires Sign(sign) && s == sign + rest && (rest == "" || (rest[0] != '+' && rest[0] != '-'))
    ensures SkipSign(s, 0) == |sign|
  {
  }

  lemma ExponentIsAccepted(s: string, i: nat, sign: string, digits: string)
    requires i <= |s| && s[i..] == sign + digits && Sign(sign) && digits != "" && AllDigits(digits)
    ensures ExponentText(s, i)
  {
    hide DigitsEnd, SkipSign;
    var tail := s[i..];
    assert digits[0] in digits && tail[0] == s[i];
    SkippedSignAt(s, i, sign, digits);
    TailIsDigits(s, i, sign, digits);
    DigitsRunTo(s, i + |sign|, |s|);
  }

  lemma TailIsDigits(s: string, i: nat, sign: string, digits: string)
    requires i <= |s| && s[i..] == sign + digits
    ensures i + |sign| + |digits| == |s| && s[i + |sign|..|s|] == digits
  {
    assert |s[i..]| == |sign| + |digits|;
    forall j | 0 <= j < |digits| ensures s[i + |sign| + j] == digits[j] {
      assert s[i..][|sign| + j] == s[i + |sign| + j];
    }
  }

  lemma SkippedSignAt(s: string, i: nat, sign: string, digits: string)
    requires i < |s| && Sign(sign) && digits != "" && IsDigit(digits[0])
    requires s[i] == if sign == "" then digits[0] else sign[0]
    ensures SkipSign(s, i) == i + |sign|
  {
  }

  /** And nothing else is. */
  lemma DecimalsHaveForm(s: string)
    returns (sign: string, whole: string, part: string, exponent: string, esign: string, edigits: string)
    requires DecimalText(s)
    ensures DecimalForm(s, sign, whole, part, exponent, esign, edigits)
  {
    hide DigitsEnd, ExponentText, Exponent;
    var start := SkipSign(s, 0);
    var dot := DigitsEnd(s, start);
    var end := if dot < |s| && s[dot] == '.' then DigitsEnd(s, dot + 1) else dot;
    sign, whole, part, exponent := s[..start], s[start..dot], s[dot..end], s[end..];
    RunIsDigits(s, start);
    if dot < |s| && s[dot] == '.' {
      RunIsDigits(s, dot + 1);
      assert part[1..] == s[dot + 1..end];
    }
    SkippedIsSign(s, 0);
    assert s[..start] == s[0..start];
    esign, edigits := ExponentHasForm(s, end);
    assert s == sign + whole + part + exponent;
  }

  lemma SkippedIsSign(s: string, i: nat)
    requires i <= |s|
    ensures Sign(s[i..SkipSign(s, i)])
  {
  }

  lemma ExponentHasForm(s: string, end: nat) returns (sign: string, digits: string)
    requires end <= |s|
    requires end == |s| || ((s[end] == 'e' || s[end] == 'E') && ExponentText(s, end + 1))
    ensures Exponent(s[end..], sign, digits)
  {
    hide DigitsEnd;
    sign, digits := "", "";
    if end < |s| {
      var at := SkipSign(s, end + 1);
      sign, digits := s[end + 1..at], s[at..];
      RunIsDigits(s, at);
      SkippedIsSign(s, end + 1);
      assert digits == s[at..DigitsEnd(s, at)];
      assert s[end..] == [s[end]] + sign + digits;
    }
  }

  /** Numbers that are read. */
  lemma KnownNumbers()
    ensures DecimalText("1") && DecimalText("-12.5") && DecimalText(".5") && DecimalText("5.") && DecimalText("1e-5")
  {
    hide DecimalText;
    FormsAreDecimal("1", "", "1", "", "", "", "");
    FormsAreDecimal("-12.5", "-", "12", ".5", "", "", "");
    FormsAreDecimal(".5", "", "", ".5", "", "", "");
    FormsAreDecimal("5.", "", "5", ".", "", "", "");
    FormsAreDecimal("1e-5", "", "1", "", "e-5", "-", "5");
  }

  // ---- spaces and order ----------------------------------------------------------------------------

  predicate Spaces(s: string) { forall c :: c in s ==> c == ' ' || c == '\t' || c == '\n' || c == '\r' }

  /** Stripping takes the spaces at both ends away, and nothing else. */
  lemma StripTakesSpaces(before: string, s: string, after: string)
    requires Spaces(before) && Spaces(after) && Trimmed(s)
    ensures Strip(before + s + after) == s
  {
    hide Strip;
    SpacesBehindGo(s, after);
    SpacesInFrontGo(before, s + after);
    assert before + s + after == before + (s + after);
  }

  lemma {:induction false} SpacesBehindGo(s: string, after: string)
    requires Spaces(after)
    ensures Strip(s + after) == Strip(s)
  {
    hide Strip;
    if after == "" {
      assert s + after == s;
    } else {
      var n := |after| - 1;
      assert after[n] in after && forall c :: c in after[..n] ==> c in after;
      SpacesBehindGo(s, after[..n]);
      SpaceBehindGoes(s + after[..n], after[n]);
      assert s + after == s + after[..n] + [after[n]];
    }
  }

  lemma {:induction false} SpacesInFrontGo(before: string, s: string)
    requires Spaces(before)
    ensures Strip(before + s) == Strip(s)
  {
    if before == "" {
      assert before + s == s;
    } else {
      assert before[0] in before && forall c :: c in before[1..] ==> c in before;
      SpacesInFrontGo(before[1..], s);
      assert (before + s)[1..] == before[1..] + s && (before + s)[0] == before[0];
    }
  }

  /** One more space behind any text makes no difference. */
  lemma {:induction false} SpaceBehindGoes(s: string, c: char)
    requires IsSpace(c)
    ensures Strip(s + [c]) == Strip(s)
  {
    var all := s + [c];
    if s == "" {
      assert all[1..] == "";
    } else if IsSpace(s[0]) {
      assert all[1..] == s[1..] + [c];
      SpaceBehindGoes(s[1..], c);
    } else {
      assert all[..|all| - 1] == s;
    }
  }

  /** Text is ordered by its first difference, and a beginning goes before what it begins. */
  lemma OrderOfText(front: string, a: char, b: char, x: string, y: string)
    requires a < b
    ensures Less(front + [a] + x, front + [b] + y) && !Less(front + [b] + y, front + [a] + x)
    ensures Less(front, front + [a])
  {
    FirstDifference(a, b, x, y);
    assert front + [a] + x == front + ([a] + x) && front + [b] + y == front + ([b] + y);
    LessComparesFrontFirst(front, [a] + x, front, [b] + y);
    LessComparesFrontFirst(front, [b] + y, front, [a] + x);
    LessComparesFrontFirst(front, "", front, [a]);
    LessIsTotal(front, front);
    assert front + "" == front;
  }

  lemma FirstDifference(a: char, b: char, x: string, y: string)
    requires a < b
    ensures Less([a] + x, [b] + y) && !Less([b] + y, [a] + x)
  {
  }
}
