/**
 The date check of the capacity trend and the window of whole days built from two accepted dates.
 A date is written YYYY-MM-DD in the proleptic Gregorian calendar; day 0 is 1 January 1970.
 */
module CalendarDate {
  import opened Digits
  import opened TextOrder
  import opened Wrappers

  datatype Civil = Civil(year: int, month: int, day: int)

  predicate IsLeap(year: int) {
    year % 4 == 0 && (year % 100 != 0 || year % 400 == 0)
  }

  function YearLength(year: int): int {
    if IsLeap(year) then 366 else 365
  }

  function MonthLength(year: int, month: int): int {
    if month == 2 then if IsLeap(year) then 29 else 28
    else if month == 4 || month == 6 || month == 9 || month == 11 then 30
    else 31
  }

  predicate IsReal(c: Civil) {
    1 <= c.month <= 12 && 1 <= c.day <= MonthLength(c.year, c.month)
  }

  /** The day number of 1 January, by the closed formula of section 21.4.1 of ECMA-262. */
  function DayFromYear(year: int): int {
    365 * (year - 1970) + (year - 1969) / 4 - (year - 1901) / 100 + (year - 1601) / 400
  }

  /** The days of the year before the month. */
  function DaysBefore(year: int, month: int): int
    requires 1 <= month <= 12
  {
    if month == 1 then 0 else DaysBefore(year, month - 1) + MonthLength(year, month - 1)
  }

  function DayNumber(c: Civil): int
    requires 1 <= c.month <= 12
  {
    DayFromYear(c.year) + DaysBefore(c.year, c.month) + c.day - 1
  }

  function NextDay(c: Civil): Civil {
    if c.day < MonthLength(c.year, c.month) then c.(day := c.day + 1)
    else if c.month < 12 then Civil(c.year, c.month + 1, 1)
    else Civil(c.year + 1, 1, 1)
  }

  function PreviousDay(c: Civil): Civil {
    if c.day > 1 then c.(day := c.day - 1)
    else if c.month > 1 then Civil(c.year, c.month - 1, MonthLength(c.year, c.month - 1))
    else Civil(c.year - 1, 12, 31)
  }

  /** The date of a day number, counted from the first of January 1970. */
  function CivilOf(n: int): Civil
    decreases if n < 0 then -n else n
  {
    if n == 0 then Civil(1970, 1, 1)
    else if n > 0 then NextDay(CivilOf(n - 1))
    else PreviousDay(CivilOf(n + 1))
  }

  /** Lexicographic order on year, month and day. */
  predicate Before(c: Civil, d: Civil) {
    c.year < d.year || (c.year == d.year && (c.month < d.month || (c.month == d.month && c.day < d.day)))
  }

  // The calendar

  /** A floored quotient steps up exactly at the multiples of the divisor. */
  lemma FloorBy4(y: int)
    ensures (y - 1968) / 4 - (y - 1969) / 4 == if y % 4 == 0 then 1 else 0
  {
    assert y - 1968 == 4 * (y / 4 - 492) + y % 4;
  }

  lemma FloorBy100(y: int)
    ensures (y - 1900) / 100 - (y - 1901) / 100 == if y % 100 == 0 then 1 else 0
  {
    assert y - 1900 == 100 * (y / 100 - 19) + y % 100;
  }

  lemma FloorBy400(y: int)
    ensures (y - 1600) / 400 - (y - 1601) / 400 == if y % 400 == 0 then 1 else 0
  {
    assert y - 1600 == 400 * (y / 400 - 4) + y % 400;
  }

  lemma Centuries(y: int)
    ensures y % 100 == 0 ==> y % 4 == 0
    ensures y % 400 == 0 ==> y % 100 == 0
  {
    if y % 100 == 0 {
      MultipleOf(4, 25 * (y / 100));
    }
    if y % 400 == 0 {
      MultipleOf(100, 4 * (y / 400));
    }
  }

  lemma MultipleOf(n: int, k: int)
    requires n == 4 || n == 100
    ensures n * k % n == 0
  {
  }

  lemma YearStep(year: int)
    ensures DayFromYear(year + 1) == DayFromYear(year) + YearLength(year)
  {
    FloorBy4(year);
    FloorBy100(year);
    FloorBy400(year);
    Centuries(year);
  }

  lemma {:induction false} YearsGrow(a: int, b: int)
    requires a <= b
    ensures DayFromYear(a) + 365 * (b - a) <= DayFromYear(b)
    decreases b - a
  {
    if a < b {
      YearStep(a);
      YearsGrow(a + 1, b);
    }
  }

  lemma YearTable(year: int)
    ensures DaysBefore(year, 12) + 31 == YearLength(year)
  {
    var f := MonthLength(year, 2);
    assert DaysBefore(year, 2) == 31;
    assert DaysBefore(year, 3) == 31 + f;
    assert DaysBefore(year, 4) == 62 + f;
    assert DaysBefore(year, 5) == 92 + f;
    assert DaysBefore(year, 6) == 123 + f;
    assert DaysBefore(year, 7) == 153 + f;
    assert DaysBefore(year, 8) == 184 + f;
    assert DaysBefore(year, 9) == 215 + f;
    assert DaysBefore(year, 10) == 245 + f;
    assert DaysBefore(year, 11) == 276 + f;
  }

  /** The table of section 21.4.1 of ECMA-262: the days of a year before each month. */
  lemma MonthTable(year: int, month: int)
    requires 1 <= month <= 12
    ensures DaysBefore(year, month) ==
              [0, 31, 59, 90, 120, 151, 181, 212, 243, 273, 304, 334][month - 1] +
              if month > 2 && DayFromYear(year + 1) - DayFromYear(year) == 366 then 1 else 0
  {
    YearStep(year);
    hide DayFromYear;
    if month > 1 {
      MonthTable(year, month - 1);
    }
  }

  lemma {:induction false} MonthsGrow(year: int, a: int, b: int)
    requires 1 <= a < b <= 12
    ensures DaysBefore(year, a) + MonthLength(year, a) <= DaysBefore(year, b)
    decreases b
  {
    if a < b - 1 {
      MonthsGrow(year, a, b - 1);
    }
  }

  lemma DayOfYear(c: Civil)
    requires IsReal(c)
    ensures 0 <= DaysBefore(c.year, c.month) + c.day - 1 < YearLength(c.year)
  {
    YearTable(c.year);
    if c.month < 12 {
      MonthsGrow(c.year, c.month, 12);
    }
    if c.month > 1 {
      MonthsGrow(c.year, 1, c.month);
    }
  }

  /** Later real dates have larger day numbers, so a day number belongs to one real date only. */
  lemma DayNumberGrows(c: Civil, d: Civil)
    requires IsReal(c) && IsReal(d)
    ensures Before(c, d) <==> DayNumber(c) < DayNumber(d)
    ensures c == d <==> DayNumber(c) == DayNumber(d)
  {
    OrderedGrow(c, d);
    OrderedGrow(d, c);
  }

  lemma OrderedGrow(c: Civil, d: Civil)
    requires IsReal(c) && IsReal(d)
    ensures Before(c, d) ==> DayNumber(c) < DayNumber(d)
  {
    DayOfYear(c);
    DayOfYear(d);
    if c.year < d.year {
      YearStep(c.year);
      YearsGrow(c.year + 1, d.year);
    } else if c.year == d.year && c.month < d.month {
      MonthsGrow(c.year, c.month, d.month);
    }
  }

  lemma NextDayAddsOne(c: Civil)
    requires IsReal(c)
    ensures IsReal(NextDay(c)) && DayNumber(NextDay(c)) == DayNumber(c) + 1
  {
    YearTable(c.year);
    YearStep(c.year);
  }

  lemma PreviousDayTakesOne(c: Civil)
    requires IsReal(c)
    ensures IsReal(PreviousDay(c)) && DayNumber(PreviousDay(c)) == DayNumber(c) - 1
  {
    YearTable(c.year - 1);
    YearStep(c.year - 1);
  }

  lemma FirstDay()
    ensures IsReal(Civil(1970, 1, 1)) && DayNumber(Civil(1970, 1, 1)) == 0
  {
    assert MonthLength(1970, 1) == 31;
    hide IsLeap, MonthLength;
    assert 1 / 4 == 0 && 69 / 100 == 0 && 369 / 400 == 0;
    assert DayFromYear(1970) == 0;
    assert DaysBefore(1970, 1) == 0;
  }

  /** Counting days and the closed formula agree on every day number, before and after 1970. */
  lemma {:induction false} CivilOfInverts(n: int)
    ensures IsReal(CivilOf(n)) && DayNumber(CivilOf(n)) == n
    decreases if n < 0 then -n else n
  {
    hide DayFromYear, DaysBefore, NextDay, PreviousDay, MonthLength;
    assert n == 0 ==> DayNumber(Civil(1970, 1, 1)) == 0 && IsReal(Civil(1970, 1, 1)) by {
      FirstDay();
    }
    if n > 0 {
      CivilOfInverts(n - 1);
      NextDayAddsOne(CivilOf(n - 1));
    } else if n < 0 {
      CivilOfInverts(n + 1);
      PreviousDayTakesOne(CivilOf(n + 1));
    }
  }

  // Text

  function DigitOf(n: int): char
    requires 0 <= n < 10
  {
    (n + '0' as int) as char
  }

  /** `/^\d{4}-\d{2}-\d{2}$/`. */
  predicate HasShape(text: string) {
    && |text| == 10
    && IsDigit(text[0]) && IsDigit(text[1]) && IsDigit(text[2]) && IsDigit(text[3])
    && text[4] == '-' && IsDigit(text[5]) && IsDigit(text[6])
    && text[7] == '-' && IsDigit(text[8]) && IsDigit(text[9])
  }

  function Fields(text: string): Civil
    requires HasShape(text)
  {
    Civil(1000 * DigitValue(text[0]) + 100 * DigitValue(text[1]) + 10 * DigitValue(text[2]) + DigitValue(text[3]),
          10 * DigitValue(text[5]) + DigitValue(text[6]),
          10 * DigitValue(text[8]) + DigitValue(text[9]))
  }

  function TwoDigits(n: int): string
    requires 0 <= n < 100
  {
    [DigitOf(n / 10), DigitOf(n % 10)]
  }

  function FourDigits(n: int): string
    requires 0 <= n < 10000
  {
    TwoDigits(n / 100) + TwoDigits(n % 100)
  }

  /** The first ten characters of `toISOString`; years outside 0 to 9999 start with a sign. */
  function IsoDate(c: Civil): string
    requires IsReal(c)
  {
    if 0 <= c.year < 10000 then FourDigits(c.year) + "-" + TwoDigits(c.month) + "-" + TwoDigits(c.day)
    else if c.year < 0 then "-" else "+"
  }

  lemma TextDeterminesFields(text: string)
    requires HasShape(text) && IsReal(Fields(text))
    ensures IsoDate(Fields(text)) == text
  {
    var c := Fields(text);
    hide IsReal, IsLeap, MonthLength;
    assert c.year / 100 == 10 * DigitValue(text[0]) + DigitValue(text[1]);
    assert c.year % 100 == 10 * DigitValue(text[2]) + DigitValue(text[3]);
  }

  /** Every real date of these years has the shape, written with four, two and two digits and hyphens. */
  lemma DatesHaveShape(c: Civil)
    requires IsReal(c) && 0 <= c.year < 10000
    ensures HasShape(IsoDate(c)) && Fields(IsoDate(c)) == c
    ensures IsoDate(c) == FourDigits(c.year) + "-" + TwoDigits(c.month) + "-" + TwoDigits(c.day)
  {
    hide IsLeap;
  }

  lemma FieldsDetermineText(c: Civil)
    requires IsReal(c) && HasShape(IsoDate(c))
    ensures Fields(IsoDate(c)) == c
  {
  }

  /**
   `Date.parse` on texts of this shape: the standard fixes it for real dates, and for the others an
   engine may answer anything, such as a later day for 30 February.
   */
  ghost predicate ParsesRealDates(parse: string -> Option<int>) {
    forall text :: HasShape(text) && IsReal(Fields(text)) ==> parse(text) == Some(DayNumber(Fields(text)))
  }

  /** The check: the shape, a finite parse, and printing the parsed day gives the text back. */
  predicate ValidDate(text: string, parse: string -> Option<int>) {
    HasShape(text) && parse(text).Some? &&
    (CivilOfInverts(parse(text).value); IsoDate(CivilOf(parse(text).value)) == text)
  }

  /** Whatever the engine does with impossible dates, exactly the real ones are accepted. */
  lemma ValidDateIffReal(text: string, parse: string -> Option<int>)
    requires ParsesRealDates(parse)
    ensures ValidDate(text, parse) <==> HasShape(text) && IsReal(Fields(text))
  {
    if HasShape(text) && parse(text).Some? {
      var n := parse(text).value;
      CivilOfInverts(n);
      if IsoDate(CivilOf(n)) == text {
        FieldsDetermineText(CivilOf(n));
      }
      if IsReal(Fields(text)) {
        DayNumberGrows(CivilOf(n), Fields(text));
        TextDeterminesFields(text);
      }
    }
  }

  function Codes(text: string): (codes: seq<int>)
    ensures |codes| == |text|
  {
    seq(|text|, i requires 0 <= i < |text| => text[i] as int)
  }

  /** The texts that are accepted, all of them and no others. */
  lemma AcceptedTexts(text: string, parse: string -> Option<int>)
    requires ParsesRealDates(parse)
    ensures ValidDate(text, parse) <==>
              exists c: Civil ::
                && IsReal(c) && 0 <= c.year < 10000
                && text == FourDigits(c.year) + "-" + TwoDigits(c.month) + "-" + TwoDigits(c.day)
  {
    ValidDateIffReal(text, parse);
    hide ValidDate, IsReal;
    if HasShape(text) && IsReal(Fields(text)) {
      TextDeterminesFields(text);
      DatesHaveShape(Fields(text));
    }
    if c: Civil :|
      && IsReal(c) && 0 <= c.year < 10000
      && text == FourDigits(c.year) + "-" + TwoDigits(c.month) + "-" + TwoDigits(c.day)
    {
      DatesHaveShape(c);
    }
  }

  /** `a < b` on strings. */
  predicate TextLess(a: string, b: string) {
    Less(Codes(a), Codes(b))
  }

  /** Comparing two dates as strings compares their fields. */
  lemma TextOrderIsDateOrder(a: string, b: string)
    requires HasShape(a) && HasShape(b)
    ensures TextLess(a, b) <==> Before(Fields(a), Fields(b))
  {
    var x, y := Codes(a), Codes(b);
    if x == y {
      LessIrreflexive(x);
      assert forall i :: 0 <= i < 10 ==> a[i] as int == x[i] == y[i] == b[i] as int;
    } else {
      var k := FirstDifference(x, y);
      LessAt(x, y, k);
      forall i | 0 <= i < k
        ensures a[i] == b[i]
      {
        assert a[i] as int == x[..k][i] == y[..k][i] == b[i] as int;
      }
    }
  }

  // The window

  const DAY_SECONDS := 86400

  /** The query parameters are acceptable: no dates at all, or two real ones in order, not in the future. */
  predicate RangeAccepted(start: Option<string>, end: Option<string>, parse: string -> Option<int>, now: int) {
    (start.Some? || end.Some?) ==>
      && start.Some? && ValidDate(start.value, parse)
      && end.Some? && ValidDate(end.value, parse)
      && !TextLess(end.value, start.value)
      && parse(end.value).value * DAY_SECONDS <= now
  }

  /** `recorded_at >= start AND recorded_at < DATE_ADD(end, INTERVAL 1 DAY)`, in seconds. */
  predicate InWindow(start: int, end: int, recordedAt: int) {
    start * DAY_SECONDS <= recordedAt < (end + 1) * DAY_SECONDS
  }

  /** A range is accepted exactly when both dates are real, in calendar order, and begun. */
  lemma AcceptedRangeIff(start: string, end: string, parse: string -> Option<int>, now: int)
    requires ParsesRealDates(parse)
    ensures RangeAccepted(Some(start), Some(end), parse, now) <==>
              && HasShape(start) && IsReal(Fields(start)) && HasShape(end) && IsReal(Fields(end))
              && DayNumber(Fields(start)) <= DayNumber(Fields(end))
              && DayNumber(Fields(end)) * 86400 <= now
  {
    ValidDateIffReal(start, parse);
    ValidDateIffReal(end, parse);
    if HasShape(start) && IsReal(Fields(start)) && HasShape(end) && IsReal(Fields(end)) {
      TextOrderIsDateOrder(end, start);
      DayNumberGrows(Fields(end), Fields(start));
    }
  }

  /** A moment of a day lies in the window exactly when the day is one of the end - start + 1 asked for. */
  lemma WindowDays(start: int, end: int, recordedAt: int)
    ensures InWindow(start, end, recordedAt) <==> start <= recordedAt / DAY_SECONDS <= end
  {
  }

  /**
   The window built from two accepted dates holds a moment exactly when the date of the moment is neither
   before the first date nor after the second.
   */
  lemma WindowIsWholeDays(start: string, end: string, parse: string -> Option<int>, now: int, recordedAt: int)
    requires ParsesRealDates(parse) && RangeAccepted(Some(start), Some(end), parse, now)
    ensures HasShape(start) && HasShape(end) && parse(start).Some? && parse(end).Some?
    ensures InWindow(parse(start).value, parse(end).value, recordedAt) <==>
              var date := CivilOf(recordedAt / 86400);
              !Before(date, Fields(start)) && !Before(Fields(end), date)
  {
    var day := recordedAt / DAY_SECONDS;
    ValidDateIffReal(start, parse);
    ValidDateIffReal(end, parse);
    WindowDays(parse(start).value, parse(end).value, recordedAt);
    CivilOfInverts(day);
    DayNumberGrows(CivilOf(day), Fields(start));
    DayNumberGrows(Fields(end), CivilOf(day));
    hide IsReal, DayNumber, CivilOf, InWindow, Before, Fields, TextLess, HasShape;
  }
}
