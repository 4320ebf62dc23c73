/**
 The proleptic Gregorian calendar of Python's `datetime`, and a shift by a whole-minute zone offset.
 */
module Calendar {
  import opened Numbers

  datatype Date = Date(year: int, month: int, day: int)

  predicate IsLeap(y: int) { y % 4 == 0 && (y % 100 != 0 || y % 400 == 0) }

  function DaysInMonth(y: int, m: int): int {
    if m == 2 then (if IsLeap(y) then 29 else 28)
    else if m == 4 || m == 6 || m == 9 || m == 11 then 30
    else 31
  }

  predicate ValidDate(d: Date) {
    1 <= d.year <= 9999 && 1 <= d.month <= 12 && 1 <= d.day <= DaysInMonth(d.year, d.month)
  }

  function DaysBeforeYear(y: int): int { (y - 1) * 365 + (y - 1) / 4 - (y - 1) / 100 + (y - 1) / 400 }

  function DaysBeforeMonth(y: int, m: int): int
    requires 1 <= m
    decreases m
  {
    if m == 1 then 0 else DaysBeforeMonth(y, m - 1) + DaysInMonth(y, m - 1)
  }

  /** `date.toordinal`: 1 is the first day of year 1. */
  function Ordinal(d: Date): int
    requires 1 <= d.month
  {
    DaysBeforeYear(d.year) + DaysBeforeMonth(d.year, d.month) + d.day
  }

  function NextDay(d: Date): Date {
    if d.day < DaysInMonth(d.year, d.month) then d.(day := d.day + 1)
    else if d.month < 12 then Date(d.year, d.month + 1, 1)
    else Date(d.year + 1, 1, 1)
  }

  function PreviousDay(d: Date): Date {
    if d.day > 1 then d.(day := d.day - 1)
    else if d.month > 1 then Date(d.year, d.month - 1, DaysInMonth(d.year, d.month - 1))
    else Date(d.year - 1, 12, 31)
  }

  const FIRST_DAY := Date(1, 1, 1)
  const LAST_DAY := Date(9999, 12, 31)

  function YearLength(y: int): int { if IsLeap(y) then 366 else 365 }

  /** The closed formula counts each year by its own length. */
  lemma YearsAddUp(y: int)
    ensures DaysBeforeYear(y + 1) == DaysBeforeYear(y) + YearLength(y)
  {
    QuotientSteps(y, 4);
    QuotientSteps(y, 100);
    QuotientSteps(y, 400);
    CenturiesAreFourthYears(y);
    AddUpQuotients(y, (y - 1) / 4, (y - 1) / 100, (y - 1) / 400, y % 4 == 0, y % 100 == 0, y % 400 == 0);
    assert y + 1 - 1 == y;
  }

  lemma CenturiesAreFourthYears(y: int)
    ensures y % 400 == 0 ==> y % 100 == 0
    ensures y % 100 == 0 ==> y % 4 == 0
  {
  }

  /** One year's days, from the quotients before it and what it is a multiple of. */
  lemma AddUpQuotients(y: int, q: int, h: int, f: int, fourth: bool, century: bool, fourthCentury: bool)
    requires (fourthCentury ==> century) && (century ==> fourth)
    ensures y * 365 + (q + if fourth then 1 else 0) - (h + if century then 1 else 0) + (f + if fourthCentury then 1 else 0)
         == (y - 1) * 365 + q - h + f + if fourth && (!century || fourthCentury) then 366 else 365
  {
  }

  lemma QuotientSteps(y: int, k: int)
    requires k == 4 || k == 100 || k == 400
    ensures y / k == (y - 1) / k + if y % k == 0 then 1 else 0
  {
  }

  lemma MonthsAddUp(y: int)
    ensures DaysBeforeMonth(y, 12) + 31 == YearLength(y)
    ensures forall m :: 1 <= m <= 12 ==> 0 <= DaysBeforeMonth(y, m) <= YearLength(y) - DaysInMonth(y, m)
  {
    assert DaysBeforeMonth(y, 2) == 31;
    assert DaysBeforeMonth(y, 3) == 31 + DaysInMonth(y, 2);
    assert DaysBeforeMonth(y, 4) == 62 + DaysInMonth(y, 2);
    assert DaysBeforeMonth(y, 5) == 92 + DaysInMonth(y, 2);
    assert DaysBeforeMonth(y, 6) == 123 + DaysInMonth(y, 2);
    assert DaysBeforeMonth(y, 7) == 153 + DaysInMonth(y, 2);
    assert DaysBeforeMonth(y, 8) == 184 + DaysInMonth(y, 2);
    assert DaysBeforeMonth(y, 9) == 215 + DaysInMonth(y, 2);
    assert DaysBeforeMonth(y, 10) == 245 + DaysInMonth(y, 2);
    assert DaysBeforeMonth(y, 11) == 276 + DaysInMonth(y, 2);
    assert DaysBeforeMonth(y, 12) == 306 + DaysInMonth(y, 2);
    forall m | 1 <= m <= 12
      ensures 0 <= DaysBeforeMonth(y, m) <= YearLength(y) - DaysInMonth(y, m)
    {
      assert m == 1 || m == 2 || m == 3 || m == 4 || m == 5 || m == 6
          || m == 7 || m == 8 || m == 9 || m == 10 || m == 11 || m == 12;
    }
  }

  lemma NextDayIsOneLater(d: Date)
    requires ValidDate(d)
    ensures Ordinal(NextDay(d)) == Ordinal(d) + 1
    ensures ValidDate(NextDay(d)) <==> d != LAST_DAY
  {
    hide DaysBeforeYear;
    YearsAddUp(d.year);
    MonthsAddUp(d.year);
  }

  lemma PreviousDayIsOneEarlier(d: Date)
    requires ValidDate(d)
    ensures Ordinal(PreviousDay(d)) == Ordinal(d) - 1
    ensures ValidDate(PreviousDay(d)) <==> d != FIRST_DAY
  {
    hide DaysBeforeYear;
    YearsAddUp(d.year - 1);
    MonthsAddUp(d.year - 1);
  }

  // ---- moments -------------------------------------------------------------------

  /** A naive `datetime` without microseconds: a date and a second of the day. */
  datatype Stamp = Stamp(date: Date, second: int)

  const DAY := 86400

  predicate ValidStamp(t: Stamp) { ValidDate(t.date) && 0 <= t.second < DAY }

  /** Seconds since the start of ordinal day 0. */
  function Instant(t: Stamp): int
    requires 1 <= t.date.month
  {
    Ordinal(t.date) * DAY + t.second
  }

  predicate DateBefore(a: Date, b: Date) {
    || a.year < b.year
    || (a.year == b.year && (a.month < b.month || (a.month == b.month && a.day < b.day)))
  }

  /** Field by field, most significant first. */
  predicate Before(a: Stamp, b: Stamp) {
    DateBefore(a.date, b.date) || (a.date == b.date && a.second < b.second)
  }

  lemma {:induction false} LaterYearsStartLater(y: int, z: int)
    requires y < z
    ensures DaysBeforeYear(y) + YearLength(y) <= DaysBeforeYear(z)
    decreases z - y
  {
    YearsAddUp(z - 1);
    if y < z - 1 {
      LaterYearsStartLater(y, z - 1);
    } else {
      YearsAddUp(y);
    }
  }

  lemma {:induction false} LaterMonthsStartLater(y: int, m: int, n: int)
    requires 1 <= m < n
    ensures DaysBeforeMonth(y, m) + DaysInMonth(y, m) <= DaysBeforeMonth(y, n)
    decreases n - m
  {
    if m < n - 1 {
      LaterMonthsStartLater(y, m, n - 1);
    }
  }

  lemma EarlierDatesHaveSmallerOrdinals(a: Date, b: Date)
    requires ValidDate(a) && ValidDate(b) && DateBefore(a, b)
    ensures Ordinal(a) < Ordinal(b)
  {
    hide DaysBeforeYear, DaysBeforeMonth, DaysInMonth;
    MonthsAddUp(a.year);
    MonthsAddUp(b.year);
    if a.year < b.year {
      LaterYearsStartLater(a.year, b.year);
    } else if a.month < b.month {
      LaterMonthsStartLater(a.year, a.month, b.month);
    }
  }

  /** Field order is time order. */
  lemma FieldOrderIsTimeOrder(a: Stamp, b: Stamp)
    requires ValidStamp(a) && ValidStamp(b)
    ensures Before(a, b) <==> Instant(a) < Instant(b)
    ensures a == b <==> Instant(a) == Instant(b)
  {
    hide Ordinal;
    if DateBefore(a.date, b.date) {
      EarlierDatesHaveSmallerOrdinals(a.date, b.date);
    } else if DateBefore(b.date, a.date) {
      EarlierDatesHaveSmallerOrdinals(b.date, a.date);
    } else {
      assert a.date == b.date;
    }
  }

  // ---- zone offsets ------------------------------------------------------------------

  /** `_offset_seconds`: whole minutes from twelve hours west to fourteen hours east. */
  predicate ValidOffset(offset: int) { -43200 <= offset <= 50400 && offset % 60 == 0 }

  /** Device-local to UTC; `None` is the overflow of a year outside 1..9999. */
  function ToUtc(local: Stamp, offset: int): (utc: Option<Stamp>)
    requires ValidStamp(local) && ValidOffset(offset)
    ensures utc.Some? ==> ValidStamp(utc.value)
  {
    var second := local.second - offset;
    var shifted :=
      if second < 0 then Stamp(PreviousDay(local.date), second + DAY)
      else if second >= DAY then Stamp(NextDay(local.date), second - DAY)
      else Stamp(local.date, second);
    if ValidStamp(shifted) then Some(shifted) else None
  }

  const FIRST_MOMENT := Stamp(FIRST_DAY, 0)
  const LAST_MOMENT := Stamp(LAST_DAY, 86399)

  /** The shifted moment lies in the representable years. */
  predicate Representable(local: Stamp, offset: int)
    requires 1 <= local.date.month
  {
    Instant(FIRST_MOMENT) <= Instant(local) - offset <= Instant(LAST_MOMENT)
  }

  /** A conversion moves time by exactly the offset, and overflows only past the calendar's ends. */
  lemma ToUtcShiftsByOffset(local: Stamp, offset: int)
    requires ValidStamp(local) && ValidOffset(offset)
    ensures ToUtc(local, offset).Some? <==> Representable(local, offset)
    ensures ToUtc(local, offset).Some? ==> Instant(ToUtc(local, offset).value) == Instant(local) - offset
  {
    hide Ordinal;
    NextDayIsOneLater(local.date);
    PreviousDayIsOneEarlier(local.date);
    if local.date != FIRST_DAY {
      FieldOrderIsTimeOrder(FIRST_MOMENT, local.(second := 0));
      FieldOrderIsTimeOrder(FIRST_MOMENT, Stamp(PreviousDay(local.date), 0));
    }
    if local.date != LAST_DAY {
      FieldOrderIsTimeOrder(local.(second := 86399), LAST_MOMENT);
      FieldOrderIsTimeOrder(Stamp(NextDay(local.date), 86399), LAST_MOMENT);
    }
  }

  /** Converting keeps the order of moments, strictly and in both directions. */
  lemma ToUtcKeepsOrder(a: Stamp, b: Stamp, offset: int)
    requires ValidStamp(a) && ValidStamp(b) && ValidOffset(offset)
    requires ToUtc(a, offset).Some? && ToUtc(b, offset).Some?
    ensures Before(ToUtc(a, offset).value, ToUtc(b, offset).value) <==> Before(a, b)
  {
    hide ToUtc, Instant, Before;
    ToUtcShiftsByOffset(a, offset);
    ToUtcShiftsByOffset(b, offset);
    FieldOrderIsTimeOrder(a, b);
    FieldOrderIsTimeOrder(ToUtc(a, offset).value, ToUtc(b, offset).value);
  }
}
