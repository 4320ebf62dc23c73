/** Timestamps as text: the fixed-width forms the DESSMonitor modules print, parse and compare. */
module Timestamps {
  import opened Numbers
  import opened Text
  import opened Calendar

  predicate IsDigit(c: char) { '0' <= c <= '9' }

  predicate AllDigits(s: string) { forall c :: c in s ==> IsDigit(c) }

  function Digit(n: nat): (c: char)
    requires n < 10
    ensures IsDigit(c) && (c - '0') as int == n
  {
    '0' + n as char
  }

  function DigitValue(c: char): (n: nat)
    requires IsDigit(c)
    ensures n < 10 && Digit(n) == c
  {
    (c - '0') as int
  }

  function Power10(width: nat): (p: nat)
    ensures p >= 1
  {
    if width == 0 then 1 else 10 * Power10(width - 1)
  }

  /** `n` in decimal, zero-padded to a fixed width. */
  function Pad(n: nat, width: nat): (s: string)
    requires n < Power10(width)
    ensures |s| == width && AllDigits(s)
  {
    if width == 0 then "" else Pad(n / 10, width - 1) + [Digit(n % 10)]
  }

  function Number(s: string): (n: nat)
    requires AllDigits(s)
    ensures n < Power10(|s|)
  {
    if s == "" then 0 else 10 * Number(s[..|s| - 1]) + DigitValue(s[|s| - 1])
  }

  lemma {:induction false} NumberOfPad(n: nat, width: nat)
    requires n < Power10(width)
    ensures Number(Pad(n, width)) == n
  {
    hide Digit, DigitValue, Power10;
    if width > 0 {
      Power10Steps(n, width);
      NumberOfPad(n / 10, width - 1);
      var s, last := Pad(n / 10, width - 1), Digit(n % 10);
      assert Pad(n, width) == s + [last];
      assert (s + [last])[..width - 1] == s;
      DigitOfValue(n % 10);
    } else {
      Power10Steps(n, 0);
    }
  }

  lemma Power10Steps(n: nat, width: nat)
    requires n < Power10(width)
    ensures width == 0 ==> n == 0
    ensures width > 0 ==> n / 10 < Power10(width - 1)
  {
  }

  lemma DigitOfValue(n: nat)
    requires n < 10
    ensures DigitValue(Digit(n)) == n
  {
  }

  lemma {:induction false} PadOfNumber(s: string)
    requires AllDigits(s)
    ensures Pad(Number(s), |s|) == s
  {
    if s != "" {
      PadOfNumber(s[..|s| - 1]);
      assert s == s[..|s| - 1] + [s[|s| - 1]];
    }
  }

  // ---- fixed-width text compares field by field ------------------------------------

  lemma {:induction false} LessComparesFrontFirst(a: string, b: string, c: string, d: string)
    requires |a| == |c|
    ensures Less(a + b, c + d) <==> Less(a, c) || (a == c && Less(b, d))
  {
    if a == "" {
      assert a + b == b && c + d == d;
    } else {
      assert (a + b)[1..] == a[1..] + b && (c + d)[1..] == c[1..] + d;
      assert a == [a[0]] + a[1..] && c == [c[0]] + c[1..];
      LessComparesFrontFirst(a[1..], b, c[1..], d);
      LessIsTotal(a, c);
    }
  }

  lemma {:induction false} PadKeepsOrder(m: nat, n: nat, width: nat)
    requires m < Power10(width) && n < Power10(width)
    ensures Less(Pad(m, width), Pad(n, width)) <==> m < n
    ensures Pad(m, width) == Pad(n, width) <==> m == n
  {
    hide Number;
    NumberOfPad(m, width);
    NumberOfPad(n, width);
    if width > 0 {
      PadKeepsOrder(m / 10, n / 10, width - 1);
      LessComparesFrontFirst(Pad(m / 10, width - 1), [Digit(m % 10)], Pad(n / 10, width - 1), [Digit(n % 10)]);
      DigitsKeepOrder(m % 10, n % 10);
    }
  }

  lemma DigitsKeepOrder(a: nat, b: nat)
    requires a < 10 && b < 10
    ensures Less([Digit(a)], [Digit(b)]) <==> a < b
  {
    assert [Digit(a)][1..] == [] && [Digit(b)][1..] == [];
  }

  /** One padded field in front of more text. */
  lemma FieldThenRest(m: nat, n: nat, width: nat, rest: string, other: string)
    requires m < Power10(width) && n < Power10(width)
    ensures Less(Pad(m, width) + rest, Pad(n, width) + other) <==> m < n || (m == n && Less(rest, other))
  {
    PadKeepsOrder(m, n, width);
    LessComparesFrontFirst(Pad(m, width), rest, Pad(n, width), other);
  }

  lemma MarkThenRest(mark: string, rest: string, other: string)
    ensures Less(mark + rest, mark + other) <==> Less(rest, other)
  {
    LessComparesFrontFirst(mark, rest, mark, other);
    LessIsTotal(mark, mark);
  }

  // ---- the printed forms ----------------------------------------------------------------

  lemma Widths()
    ensures Power10(2) == 100 && Power10(4) == 10000
  {
    assert Power10(1) == 10 && Power10(3) == 1000;
  }

  /** `date.isoformat()`. */
  function DateText(d: Date): (s: string)
    requires ValidDate(d)
    ensures |s| == 10
  {
    Widths();
    Pad(d.year, 4) + ("-" + (Pad(d.month, 2) + ("-" + Pad(d.day, 2))))
  }

  /** `hour:minute:second`. */
  function ClockText(second: int): (s: string)
    requires 0 <= second < DAY
    ensures |s| == 8
  {
    Widths();
    Pad(second / 3600, 2) + (":" + (Pad(second / 60 % 60, 2) + (":" + Pad(second % 60, 2))))
  }

  /** A moment with one separator between date and time. */
  function StampText(t: Stamp, separator: char): (s: string)
    requires ValidStamp(t)
    ensures |s| == 19 && s[..10] == DateText(t.date)
  {
    DateText(t.date) + ([separator] + ClockText(t.second))
  }

  /** `strftime("%Y-%m-%d %H:%M:%S")`. */
  function LocalText(t: Stamp): string
    requires ValidStamp(t)
  {
    StampText(t, ' ')
  }

  /** `isoformat()` in UTC. */
  function UtcText(t: Stamp): string
    requires ValidStamp(t)
  {
    StampText(t, 'T') + "+00:00"
  }

  lemma DateTextKeepsOrder(a: Date, b: Date)
    requires ValidDate(a) && ValidDate(b)
    ensures Less(DateText(a), DateText(b)) <==> DateBefore(a, b)
    ensures DateText(a) == DateText(b) <==> a == b
  {
    hide Less, Pad;
    Widths();
    var dayA, dayB := Pad(a.day, 2), Pad(b.day, 2);
    var monthA, monthB := Pad(a.month, 2) + ("-" + dayA), Pad(b.month, 2) + ("-" + dayB);
    FieldThenRest(a.year, b.year, 4, "-" + monthA, "-" + monthB);
    MarkThenRest("-", monthA, monthB);
    FieldThenRest(a.month, b.month, 2, "-" + dayA, "-" + dayB);
    MarkThenRest("-", dayA, dayB);
    PadKeepsOrder(a.day, b.day, 2);
    LessIsTotal(DateText(a), DateText(b));
    SplitText(Pad(a.year, 4), "-" + monthA, Pad(b.year, 4), "-" + monthB);
    SplitText("-", monthA, "-", monthB);
    SplitText(Pad(a.month, 2), "-" + dayA, Pad(b.month, 2), "-" + dayB);
    SplitText("-", dayA, "-", dayB);
    PadKeepsOrder(a.year, b.year, 4);
    PadKeepsOrder(a.month, b.month, 2);
  }

  /** Equal texts with fronts of equal length have equal fronts and equal rests. */
  lemma SplitText(a: string, b: string, c: string, d: string)
    requires |a| == |c|
    ensures a + b == c + d <==> a == c && b == d
  {
    if a + b == c + d {
      assert a == (a + b)[..|a|] && c == (c + d)[..|c|];
      assert b == (a + b)[|a|..] && d == (c + d)[|c|..];
    }
  }

  lemma ClockTextKeepsOrder(s: int, t: int)
    requires 0 <= s < DAY && 0 <= t < DAY
    ensures Less(ClockText(s), ClockText(t)) <==> s < t
  {
    hide Less, Pad;
    Widths();
    var secondS, secondT := Pad(s % 60, 2), Pad(t % 60, 2);
    var minuteS, minuteT := Pad(s / 60 % 60, 2) + (":" + secondS), Pad(t / 60 % 60, 2) + (":" + secondT);
    FieldThenRest(s / 3600, t / 3600, 2, ":" + minuteS, ":" + minuteT);
    MarkThenRest(":", minuteS, minuteT);
    FieldThenRest(s / 60 % 60, t / 60 % 60, 2, ":" + secondS, ":" + secondT);
    MarkThenRest(":", secondS, secondT);
    PadKeepsOrder(s % 60, t % 60, 2);
    ClockFields(s);
    ClockFields(t);
  }

  lemma ClockFields(s: int)
    requires 0 <= s < DAY
    ensures s == s / 3600 * 3600 + s / 60 % 60 * 60 + s % 60
    ensures 0 <= s / 60 % 60 * 60 + s % 60 < 3600
  {
    assert s / 3600 == s / 60 / 60;
  }

  /** Text order is time order, for both printed forms. */
  lemma TextOrderIsTimeOrder(a: Stamp, b: Stamp)
    requires ValidStamp(a) && ValidStamp(b)
    ensures Less(LocalText(a), LocalText(b)) <==> Before(a, b)
    ensures Less(UtcText(a), UtcText(b)) <==> Before(a, b)
  {
    hide Less, ClockText, DateText, DateBefore;
    DateTextKeepsOrder(a.date, b.date);
    ClockTextKeepsOrder(a.second, b.second);
    StampOrder(a, b, ' ');
    StampOrder(a, b, 'T');
    LessComparesFrontFirst(StampText(a, 'T'), "+00:00", StampText(b, 'T'), "+00:00");
    LessIsTotal("+00:00", "+00:00");
  }

  lemma StampOrder(a: Stamp, b: Stamp, separator: char)
    requires ValidStamp(a) && ValidStamp(b)
    ensures Less(StampText(a, separator), StampText(b, separator)) <==>
      Less(DateText(a.date), DateText(b.date)) || (DateText(a.date) == DateText(b.date)
                                                  && Less(ClockText(a.second), ClockText(b.second)))
  {
    hide Less, ClockText, DateText;
    LessComparesFrontFirst(DateText(a.date), [separator] + ClockText(a.second),
                           DateText(b.date), [separator] + ClockText(b.second));
    MarkThenRest([separator], ClockText(a.second), ClockText(b.second));
  }

  // ---- parsing -----------------------------------------------------------------------------

  /** Decimal digits at a place of the text, as a number. */
  function Field(s: string, from: nat, width: nat): (n: Option<nat>)
    ensures n.Some? ==> n.value < Power10(width)
  {
    if from + width <= |s| && AllDigits(s[from..from + width]) then Some(Number(s[from..from + width])) else None
  }

  /** A canonical ISO date: exactly what `isoformat` prints. */
  function ParseDate(s: string): (d: Option<Date>)
    ensures d.Some? ==> ValidDate(d.value)
  {
    var year, month, day := Field(s, 0, 4), Field(s, 5, 2), Field(s, 8, 2);
    if |s| == 10 && s[4] == '-' && s[7] == '-' && year.Some? && month.Some? && day.Some?
       && ValidDate(Date(year.value, month.value, day.value))
    then Some(Date(year.value, month.value, day.value)) else None
  }

  function ParseClock(s: string): (second: Option<int>)
    ensures second.Some? ==> 0 <= second.value < DAY
  {
    var h, m, c := Field(s, 0, 2), Field(s, 3, 2), Field(s, 6, 2);
    if |s| == 8 && s[2] == ':' && s[5] == ':' && h.Some? && m.Some? && c.Some?
       && h.value < 24 && m.value < 60 && c.value < 60
    then Some(h.value * 3600 + m.value * 60 + c.value) else None
  }

  function ParseStamp(s: string, separator: char): (t: Option<Stamp>)
    ensures t.Some? ==> ValidStamp(t.value)
  {
    if |s| != 19 || s[10] != separator then None
    else
      var d, c := ParseDate(s[..10]), ParseClock(s[11..]);
      if d.Some? && c.Some? then Some(Stamp(d.value, c.value)) else None
  }

  /** `_device_local_timestamp`: accepted exactly when printing gives the text back. */
  function ParseLocal(s: string): (t: Option<Stamp>)
    ensures t.Some? ==> ValidStamp(t.value)
  {
    ParseStamp(s, ' ')
  }

  lemma DateRoundTrip(d: Date)
    requires ValidDate(d)
    ensures ParseDate(DateText(d)) == Some(d)
  {
    hide Power10, Pad;
    Widths();
    var s := DateText(d);
    assert s[0..4] == Pad(d.year, 4) && s[5..7] == Pad(d.month, 2) && s[8..10] == Pad(d.day, 2);
    NumberOfPad(d.year, 4);
    NumberOfPad(d.month, 2);
    NumberOfPad(d.day, 2);
  }

  lemma ParsedDateIsCanonical(s: string)
    requires ParseDate(s).Some?
    ensures DateText(ParseDate(s).value) == s
  {
    hide Power10, Pad;
    PadOfNumber(s[0..4]);
    PadOfNumber(s[5..7]);
    PadOfNumber(s[8..10]);
    assert s == s[0..4] + ("-" + (s[5..7] + ("-" + s[8..10])));
  }

  lemma ClockRoundTrip(second: int)
    requires 0 <= second < DAY
    ensures ParseClock(ClockText(second)) == Some(second)
  {
    hide Power10, Pad;
    Widths();
    var s := ClockText(second);
    assert s[0..2] == Pad(second / 3600, 2) && s[3..5] == Pad(second / 60 % 60, 2) && s[6..8] == Pad(second % 60, 2);
    NumberOfPad(second / 3600, 2);
    NumberOfPad(second / 60 % 60, 2);
    NumberOfPad(second % 60, 2);
    ClockFields(second);
  }

  lemma ClockParts(h: nat, m: nat, c: nat)
    requires m < 60 && c < 60
    ensures var t := h * 3600 + m * 60 + c; t / 3600 == h && t / 60 % 60 == m && t % 60 == c
  {
    var t := h * 3600 + m * 60 + c;
    assert t / 60 == h * 60 + m;
  }

  lemma ParsedClockIsCanonical(s: string)
    requires ParseClock(s).Some?
    ensures ClockText(ParseClock(s).value) == s
  {
    hide Power10, Pad;
    var h, m, c := Number(s[0..2]), Number(s[3..5]), Number(s[6..8]);
    ClockParts(h, m, c);
    PadOfNumber(s[0..2]);
    PadOfNumber(s[3..5]);
    PadOfNumber(s[6..8]);
    assert s == s[0..2] + (":" + (s[3..5] + (":" + s[6..8])));
  }

  /** Parsing undoes printing, and every accepted text is the printed form of what it parses to. */
  lemma LocalRoundTrip(t: Stamp, s: string)
    ensures ValidStamp(t) ==> ParseLocal(LocalText(t)) == Some(t)
    ensures ParseLocal(s).Some? ==> LocalText(ParseLocal(s).value) == s
  {
    hide ParseDate, ParseClock, DateText, ClockText;
    if ValidStamp(t) {
      StampRoundTrip(t, ' ');
    }
    if ParseLocal(s).Some? {
      ParsedStampIsCanonical(s, ' ');
    }
  }

  lemma StampRoundTrip(t: Stamp, separator: char)
    requires ValidStamp(t)
    ensures ParseStamp(StampText(t, separator), separator) == Some(t)
  {
    hide ParseDate, ParseClock, DateText, ClockText;
    DateRoundTrip(t.date);
    ClockRoundTrip(t.second);
    assert StampText(t, separator)[11..] == ClockText(t.second);
  }

  lemma ParsedStampIsCanonical(s: string, separator: char)
    requires ParseStamp(s, separator).Some?
    ensures StampText(ParseStamp(s, separator).value, separator) == s
  {
    hide ParseDate, ParseClock, DateText, ClockText;
    ParsedDateIsCanonical(s[..10]);
    ParsedClockIsCanonical(s[11..]);
    assert s == s[..10] + ([separator] + s[11..]);
  }

  /** `_utc_timestamp`: a canonical zero-offset ISO moment, with six digits of microseconds if any. */
  predicate IsUtcText(s: string) {
    && |s| >= 25
    && ParseStamp(s[..19], 'T').Some?
    && s[|s| - 6..] == "+00:00"
    && (|s| == 25 || (|s| == 32 && s[19] == '.' && Field(s, 20, 6).Some? && Field(s, 20, 6).value != 0))
  }

  lemma PrintedUtcIsUtcText(t: Stamp)
    requires ValidStamp(t)
    ensures IsUtcText(UtcText(t))
  {
    hide ParseStamp, ParseDate, ParseClock, DateText, ClockText;
    StampRoundTrip(t, 'T');
    assert UtcText(t)[..19] == StampText(t, 'T') && UtcText(t)[19..] == "+00:00";
  }
}
