/**
 * Calendar helpers of `src/lib/utils/dates.ts`: the last day of a month, the
 * ISO 8601 extended calendar date `YYYY-MM-DD` that `toISOString` begins
 * with, and the default date range of a month. JavaScript `Date` values are
 * modelled as calendar dates at midnight UTC; the clock read by
 * `getDefaultMonthDateRange` becomes its year and month parameters.
 */
module Dates {
  import opened Js

  /** A proleptic Gregorian calendar date; `month` runs 1..12. */
  datatype Date = Date(year: int, month: int, day: int)

  /** A JavaScript `Date`: a valid time value, or the invalid date (`NaN`). */
  datatype JsDate = Valid(date: Date) | InvalidDate

  predicate IsLeapYear(y: int) {
    y % 4 == 0 && (y % 100 != 0 || y % 400 == 0)
  }

  function DaysInMonth(y: int, m: int): (n: int)
    requires 1 <= m <= 12
    ensures 28 <= n <= 31
  {
    if m == 2 then (if IsLeapYear(y) then 29 else 28)
    else if m == 4 || m == 6 || m == 9 || m == 11 then 30
    else 31
  }

  predicate IsValidDate(d: Date) {
    1 <= d.month <= 12 && 1 <= d.day <= DaysInMonth(d.year, d.month)
  }

  /** The calendar day after `d`. */
  function NextDay(d: Date): Date
    requires IsValidDate(d)
  {
    if d.day < DaysInMonth(d.year, d.month) then d.(day := d.day + 1)
    else if d.month < 12 then Date(d.year, d.month + 1, 1)
    else Date(d.year + 1, 1, 1)
  }

  /** Chronological order. */
  predicate DateLe(a: Date, b: Date) {
    a.year < b.year || (a.year == b.year && (a.month < b.month || (a.month == b.month && a.day <= b.day)))
  }

  /**
   * The time values a `Date` can hold: 8.64e15 ms either side of the epoch,
   * from -271821-04-20 to +275760-09-13.
   */
  predicate InTimeRange(d: Date) {
    DateLe(Date(-271821, 4, 20), d) && DateLe(d, Date(275760, 9, 13))
  }

  function Clip(d: Date): JsDate {
    if InTimeRange(d) then Valid(d) else InvalidDate
  }

  /** `Date.UTC` reads a year from 0 to 99 as 1900 to 1999. */
  function UtcYear(y: int): int {
    if 0 <= y <= 99 then 1900 + y else y
  }

  /** The date `Date.UTC(y, m, 1)` names, for a 0-based month index that may run past 0..11 into other years. */
  function UtcFirstOfMonth(y: int, m: int): (d: Date)
    ensures IsValidDate(d) && d.day == 1
  {
    Date(UtcYear(y) + m / 12, m % 12 + 1, 1)
  }

  /** The date `Date.UTC(y, m, 0)` names: day 0 of a month is the day before its first. */
  function UtcDayZero(y: int, m: int): (d: Date)
    ensures IsValidDate(d) && NextDay(d) == UtcFirstOfMonth(y, m)
  {
    var first := UtcFirstOfMonth(y, m);
    if first.month == 1 then Date(first.year - 1, 12, 31)
    else Date(first.year, first.month - 1, DaysInMonth(first.year, first.month - 1))
  }

  /** `getLastDayOfMonth(year, month)`: `new Date(Date.UTC(year, month + 1, 0))`. */
  function LastDayOfMonth(year: int, month: int): JsDate
  {
    Clip(UtcDayZero(year, month + 1))
  }

  /**
   * For a month index 0..11 the last day lies in that same month of that same
   * year, and it is day 31, 30, or 28/29 for February by the Gregorian leap
   * rule; the next day is the first of the following month.
   */
  lemma LastDayOfMonthIsLastDay(year: int, month: int)
    requires 100 <= year <= 275759 && 0 <= month <= 11
    ensures LastDayOfMonth(year, month).Valid?
    ensures var d := LastDayOfMonth(year, month).date;
      && d.year == year && d.month == month + 1
      && d.day == (if month == 1 then (if IsLeapYear(year) then 29 else 28)
                   else if month in {3, 5, 8, 10} then 30 else 31)
      && NextDay(d).day == 1
  {
    LastDayOfMonthValue(year, month);
  }

  /** The last day of month index `month` is day `DaysInMonth` of month `month + 1`. */
  lemma LastDayOfMonthValue(year: int, month: int)
    requires 100 <= year <= 275759 && 0 <= month <= 11
    ensures LastDayOfMonth(year, month) == Valid(Date(year, month + 1, DaysInMonth(year, month + 1)))
  {
    var m := month + 1;
    var d := UtcDayZero(year, m);
    assert UtcYear(year) == year;
    if month == 11 {
      assert m / 12 == 1 && m % 12 == 0;
      assert UtcFirstOfMonth(year, m) == Date(year + 1, 1, 1);
      assert d == Date(year, 12, 31);
    } else {
      assert m / 12 == 0 && m % 12 == m;
      assert UtcFirstOfMonth(year, m) == Date(year, m + 1, 1);
      assert d == Date(year, m, DaysInMonth(year, m));
    }
    assert InTimeRange(d);
  }

  /** December's last day is the 31st of the same year. */
  lemma DecemberEndsOn31st(year: int)
    requires 100 <= year <= 275759
    ensures LastDayOfMonth(year, 11) == Valid(Date(year, 12, 31))
  {
    LastDayOfMonthIsLastDay(year, 11);
  }

  // ---------------------------------------------------------------- formatting

  /** The year field of `toISOString`: four digits for 0..9999, else a sign and six digits. */
  function YearString(y: int): string {
    if 0 <= y <= 9999 then PadStart(NatString(y), 4, '0')
    else (if y < 0 then "-" else "+") + PadStart(NatString(if y < 0 then -y else y), 6, '0')
  }

  function TwoDigits(n: int): string {
    PadStart(IntString(n), 2, '0')
  }

  function IsoDate(d: Date): string {
    YearString(d.year) + "-" + TwoDigits(d.month) + "-" + TwoDigits(d.day)
  }

  /**
   * `formatDateYYYYMMDD(date)`: `date.toISOString().split('T')[0]`;
   * `toISOString` throws a RangeError on the invalid date (`None`).
   */
  function FormatDate(jd: JsDate): Option<string> {
    if jd.InvalidDate? then None else Some(IsoDate(jd.date))
  }

  /** Reads an ISO 8601 extended calendar date `YYYY-MM-DD`; `None` for any other text or a day that does not exist. */
  function ParseIsoDate(s: string): (r: Option<Date>)
    ensures r.Some? ==> IsValidDate(r.value)
  {
    if |s| == 10 && s[4] == '-' && s[7] == '-'
       && AllDigits(s[..4]) && AllDigits(s[5..7]) && AllDigits(s[8..])
    then
      var d := Date(RadixValue(s[..4], 10), RadixValue(s[5..7], 10), RadixValue(s[8..], 10));
      if IsValidDate(d) then Some(d) else None
    else None
  }

  lemma TwoDigitsOf(n: int)
    requires 1 <= n <= 31
    ensures |TwoDigits(n)| == 2 && AllDigits(TwoDigits(n))
    ensures RadixValue(TwoDigits(n), 10) == n
  {
    PaddedValue(n, 2);
  }

  /**
   * For a year 0..9999 the formatted date is the 10-character `YYYY-MM-DD`,
   * zero-padded, and reading it back gives the same date.
   */
  lemma FormatDateRoundTrip(d: Date)
    requires IsValidDate(d) && 0 <= d.year <= 9999
    ensures FormatDate(Clip(d)).Some?
    ensures var s := FormatDate(Clip(d)).value;
      |s| == 10 && s[4] == '-' && s[7] == '-' && ParseIsoDate(s) == Some(d)
  {
    assert InTimeRange(d);
    IsoDateRoundTrip(d);
  }

  lemma IsoDateRoundTrip(d: Date)
    requires IsValidDate(d) && 0 <= d.year <= 9999
    ensures var s := IsoDate(d);
      |s| == 10 && s[4] == '-' && s[7] == '-' && ParseIsoDate(s) == Some(d)
  {
    var y, m, dd := YearString(d.year), TwoDigits(d.month), TwoDigits(d.day);
    var s := y + "-" + m + "-" + dd;
    assert |s| == 10 && s[4] == '-' && s[7] == '-' && ParseIsoDate(s) == Some(d) by {
      YearStringOf(d.year);
      TwoDigitsOf(d.month);
      TwoDigitsOf(d.day);
      assert Date(RadixValue(y, 10), RadixValue(m, 10), RadixValue(dd, 10)) == d;
      ParseIsoFields(y, m, dd);
    }
    assert IsoDate(d) == s;
  }

  /** Three digit fields joined by dashes read back as the date they spell, when it exists. */
  lemma ParseIsoFields(y: string, m: string, dd: string)
    requires |y| == 4 && |m| == 2 && |dd| == 2 && AllDigits(y) && AllDigits(m) && AllDigits(dd)
    requires IsValidDate(Date(RadixValue(y, 10), RadixValue(m, 10), RadixValue(dd, 10)))
    ensures var s := y + "-" + m + "-" + dd;
      && |s| == 10 && s[4] == '-' && s[7] == '-'
      && ParseIsoDate(s) == Some(Date(RadixValue(y, 10), RadixValue(m, 10), RadixValue(dd, 10)))
  {
    IsoFields(y, m, dd);
  }

  lemma YearStringOf(y: int)
    requires 0 <= y <= 9999
    ensures |YearString(y)| == 4 && AllDigits(YearString(y)) && RadixValue(YearString(y), 10) == y
  {
    PaddedValue(y, 4);
    DigitsBound4(y);
  }

  /** Where the three fields sit in `YYYY-MM-DD`. */
  lemma IsoFields(y: string, m: string, dd: string)
    requires |y| == 4 && |m| == 2 && |dd| == 2
    ensures var s := y + "-" + m + "-" + dd;
      && |s| == 10 && s[4] == '-' && s[7] == '-'
      && s[..4] == y && s[5..7] == m && s[8..] == dd
  {
  }

  lemma DigitsBound4(n: nat)
    requires n <= 9999
    ensures |NatString(n)| <= 4
  {
    if n >= 10 {
      assert NatString(n) == NatString(n / 10) + [DigitChar(n % 10)];
      if n / 10 >= 10 {
        assert NatString(n / 10) == NatString(n / 100) + [DigitChar(n / 10 % 10)];
      }
    }
  }

  // ---------------------------------------------------------------- default range

  datatype DateRange = DateRange(from: string, to: string)

  /**
   * `getDefaultMonthDateRange()` with the current year and 0-based month passed
   * in; `None` when formatting throws.
   */
  function DefaultMonthDateRange(year: int, month: int): Option<DateRange>
  {
    var from := FormatDate(Clip(UtcFirstOfMonth(year, month)));
    var to := FormatDate(LastDayOfMonth(year, month));
    if from.Some? && to.Some? then Some(DateRange(from.value, to.value)) else None
  }

  /**
   * The default range runs from day `01` to the last day of the same month:
   * both ends share the `YYYY-MM-` prefix and `from <= to`.
   */
  lemma DefaultRangeIsMonth(year: int, month: int)
    requires 100 <= year <= 9999 && 0 <= month <= 11
    ensures DefaultMonthDateRange(year, month).Some?
    ensures var r := DefaultMonthDateRange(year, month).value;
      && |r.from| == 10 && |r.to| == 10
      && r.from[..8] == r.to[..8]
      && r.from[8..] == "01"
      && ParseIsoDate(r.from) == Some(Date(year, month + 1, 1))
      && ParseIsoDate(r.to) == Some(Date(year, month + 1, DaysInMonth(year, month + 1)))
      && LexLe(r.from, r.to)
  {
    var first := Date(year, month + 1, 1);
    var last := Date(year, month + 1, DaysInMonth(year, month + 1));
    assert IsValidDate(first) && IsValidDate(last) && last == first.(day := last.day);
    MonthEnds(first, last);
    DefaultRangeDates(year, month);
  }

  lemma MonthEnds(first: Date, last: Date)
    requires IsValidDate(first) && IsValidDate(last) && 0 <= first.year <= 9999
    requires first.day == 1 && last == first.(day := last.day)
    ensures var a, b := IsoDate(first), IsoDate(last);
      && |a| == 10 && |b| == 10 && a[..8] == b[..8] && a[8..] == "01"
      && ParseIsoDate(a) == Some(first) && ParseIsoDate(b) == Some(last)
      && LexLe(a, b)
  {
    assert 1 <= last.day <= 31;
    SameMonthPrefix(first, last.day);
    IsoDateRoundTrip(first);
    IsoDateRoundTrip(last);
  }

  /** The two ends are the first and the last day of the month, formatted. */
  lemma DefaultRangeDates(year: int, month: int)
    requires 100 <= year <= 9999 && 0 <= month <= 11
    ensures DefaultMonthDateRange(year, month)
         == Some(DateRange(IsoDate(Date(year, month + 1, 1)),
                           IsoDate(Date(year, month + 1, DaysInMonth(year, month + 1)))))
  {
    var first := Date(year, month + 1, 1);
    var last := Date(year, month + 1, DaysInMonth(year, month + 1));
    assert FormatDate(Clip(UtcFirstOfMonth(year, month))) == Some(IsoDate(first)) by {
      assert UtcFirstOfMonth(year, month) == first;
      assert InTimeRange(first);
    }
    assert FormatDate(LastDayOfMonth(year, month)) == Some(IsoDate(last)) by {
      LastDayOfMonthValue(year, month);
    }
  }

  /** A first of the month and another day of that month share `YYYY-MM-`, and the first sorts first. */
  lemma SameMonthPrefix(first: Date, day: int)
    requires IsValidDate(first) && first.day == 1 && 0 <= first.year <= 9999 && 1 <= day <= 31
    ensures var a, b := IsoDate(first), IsoDate(first.(day := day));
      a[..8] == b[..8] && a[8..] == "01" && LexLe(a, b)
  {
    var prefix := YearString(first.year) + "-" + TwoDigits(first.month) + "-";
    assert |prefix| == 8 by {
      YearStringOf(first.year);
      TwoDigitsOf(first.month);
    }
    FirstDayPrecedes(day);
    TwoDigitsOf(day);
    assert IsoDate(first) == prefix + "01";
    assert IsoDate(first.(day := day)) == prefix + TwoDigits(day);
    SharedPrefix(prefix, "01", TwoDigits(day));
  }

  /** `"01"` sorts before the two-digit form of any day number. */
  lemma FirstDayPrecedes(day: int)
    requires 1 <= day <= 31
    ensures TwoDigits(1) == "01" && LexLe("01", TwoDigits(day))
  {
    assert TwoDigits(1) == "01" by {
      assert NatString(1) == "1";
    }
    TwoDigitsOf(1);
    TwoDigitsOf(day);
    DigitsOrder(TwoDigits(1), TwoDigits(day));
  }

  lemma SharedPrefix(p: string, a: string, b: string)
    requires |p| == 8 && |a| == 2 && |b| == 2 && LexLe(a, b)
    ensures (p + a)[..8] == (p + b)[..8] && (p + a)[8..] == a && LexLe(p + a, p + b)
  {
    assert (p + a)[..8] == p;
    assert (p + b)[..8] == p;
    LexLeCommonPrefix(p, a, b);
  }
}
