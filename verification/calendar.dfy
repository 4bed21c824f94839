/**
 * The proleptic Gregorian calendar in UTC, as Go's time package computes it:
 * day numbers counted from 1970-01-01, instants in seconds, month normalisation
 * of `time.Date`, the strict "2006-01-02" and "2006-01" layouts, and weekdays.
 */
module Calendar {
  import opened Wrappers
  import opened Strings

  const SecondsPerDay: int := 86400
  const SecondsPerWeek: int := 7 * 86400

  predicate IsLeap(y: int) {
    y % 4 == 0 && (y % 100 != 0 || y % 400 == 0)
  }

  predicate ValidMonth(m: int) {
    1 <= m <= 12
  }

  function DaysIn(y: int, m: int): (r: int)
    requires ValidMonth(m)
    ensures 28 <= r <= 31
    ensures m == 2 ==> (r == 29 <==> IsLeap(y))
  {
    if m == 2 then (if IsLeap(y) then 29 else 28)
    else if m == 4 || m == 6 || m == 9 || m == 11 then 30
    else 31
  }

  predicate ValidDate(y: int, m: int, d: int) {
    ValidMonth(m) && 1 <= d <= DaysIn(y, m)
  }

  /** Days of the year before the first of month `m`. */
  function DaysBeforeMonth(y: int, m: int): (r: int)
    requires ValidMonth(m)
    ensures m == 1 ==> r == 0
  {
    if m == 1 then 0 else DaysBeforeMonth(y, m - 1) + DaysIn(y, m - 1)
  }

  /** Leap years before year `y`, up to a constant that cancels in differences. */
  function LeapsBefore(y: int): int {
    (y - 1) / 4 - (y - 1) / 100 + (y - 1) / 400
  }

  /** Days from 1970-01-01 to the given date. */
  function DayNumber(y: int, m: int, d: int): int
    requires ValidMonth(m)
  {
    365 * (y - 1970) + (LeapsBefore(y) - LeapsBefore(1970)) + DaysBeforeMonth(y, m) + d - 1
  }

  /** Midnight UTC of the given date, in seconds since the epoch. */
  function Midnight(y: int, m: int, d: int): int
    requires ValidMonth(m)
  {
    DayNumber(y, m, d) * SecondsPerDay
  }

  lemma EpochIsDayZero()
    ensures DayNumber(1970, 1, 1) == 0
  {
  }

  /** A year adds one leap day exactly when it is a leap year. */
  lemma {:induction false} LeapStep(y: int)
    ensures LeapsBefore(y + 1) == LeapsBefore(y) + (if IsLeap(y) then 1 else 0)
  {
    DivStep4(y);
    DivStep100(y);
    DivStep400(y);
  }

  lemma DivStep4(y: int)
    ensures y / 4 == (y - 1) / 4 + (if y % 4 == 0 then 1 else 0)
  {
  }

  lemma DivStep100(y: int)
    ensures y / 100 == (y - 1) / 100 + (if y % 100 == 0 then 1 else 0)
  {
  }

  lemma DivStep400(y: int)
    ensures y / 400 == (y - 1) / 400 + (if y % 400 == 0 then 1 else 0)
  {
  }

  lemma {:induction false} YearLength(y: int)
    ensures DaysBeforeMonth(y, 12) + DaysIn(y, 12) == if IsLeap(y) then 366 else 365
  {
    var feb := DaysIn(y, 2);
    assert DaysBeforeMonth(y, 3) == 31 + feb;
    assert DaysBeforeMonth(y, 4) == 62 + feb;
    assert DaysBeforeMonth(y, 5) == 92 + feb;
    assert DaysBeforeMonth(y, 6) == 123 + feb;
    assert DaysBeforeMonth(y, 7) == 153 + feb;
    assert DaysBeforeMonth(y, 8) == 184 + feb;
    assert DaysBeforeMonth(y, 9) == 215 + feb;
    assert DaysBeforeMonth(y, 10) == 245 + feb;
    assert DaysBeforeMonth(y, 11) == 276 + feb;
    assert DaysBeforeMonth(y, 12) == 306 + feb;
  }

  /** The calendar successor of a valid date. */
  function NextDate(y: int, m: int, d: int): (r: (int, int, int))
    requires ValidDate(y, m, d)
    ensures ValidDate(r.0, r.1, r.2)
  {
    if d < DaysIn(y, m) then (y, m, d + 1)
    else if m < 12 then (y, m + 1, 1)
    else (y + 1, 1, 1)
  }

  /** Consecutive dates have consecutive day numbers: the numbering has no gaps or overlaps. */
  lemma {:induction false} NextDateIsNextDay(y: int, m: int, d: int)
    requires ValidDate(y, m, d)
    ensures var n := NextDate(y, m, d); DayNumber(n.0, n.1, n.2) == DayNumber(y, m, d) + 1
  {
    if d == DaysIn(y, m) && m == 12 {
      LeapStep(y);
      YearLength(y);
    }
  }

  /** The first day of the month after (y, m). */
  lemma {:induction false} NextMonthStart(y: int, m: int)
    requires ValidMonth(m)
    ensures var n := NormalizeMonth(y, m + 1);
      DayNumber(n.0, n.1, 1) == DayNumber(y, m, 1) + DaysIn(y, m)
  {
    if m == 12 {
      assert NormalizeMonth(y, m + 1) == (y + 1, 1);
      NewYear(y);
    } else {
      assert NormalizeMonth(y, m + 1) == (y, m + 1);
    }
  }

  /** A month's first instant and the next month's are its number of days apart. */
  lemma {:induction false} MonthLength(y: int, m: int)
    requires ValidMonth(m)
    ensures MonthStart(y, m) == Midnight(y, m, 1)
    ensures MonthStart(y, m + 1) == Midnight(y, m, 1) + DaysIn(y, m) * SecondsPerDay
  {
    assert NormalizeMonth(y, m) == (y, m);
    NextMonthStart(y, m);
  }

  /** Month numbers out of range included, the next month starts later. */
  lemma {:induction false} MonthStartsIncrease(y: int, m: int)
    ensures MonthStart(y, m) < MonthStart(y, m + 1)
  {
    var n := NormalizeMonth(y, m);
    NormalizeNext(y, m);
    FirstBeforeNext(n.0, n.1);
  }

  /** Normalising m + 1 is stepping once from the normalised (y, m). */
  lemma NormalizeNext(y: int, m: int)
    ensures var n := NormalizeMonth(y, m);
      && MonthStart(y, m) == Midnight(n.0, n.1, 1)
      && MonthStart(y, m + 1) == MonthStart(n.0, n.1 + 1)
  {
  }

  lemma {:induction false} FirstBeforeNext(y: int, m: int)
    requires ValidMonth(m)
    ensures Midnight(y, m, 1) < MonthStart(y, m + 1)
  {
    MonthLength(y, m);
  }

  /** The first of January follows the 31 days of December. */
  lemma {:induction false} NewYear(y: int)
    ensures DayNumber(y + 1, 1, 1) == DayNumber(y, 12, 1) + 31
  {
    LeapStep(y);
    YearLength(y);
    var before := DaysBeforeMonth(y, 12);
    assert DayNumber(y + 1, 1, 1) == 365 * (y - 1970) + 365 + (LeapsBefore(y + 1) - LeapsBefore(1970));
    assert DayNumber(y, 12, 1) == 365 * (y - 1970) + (LeapsBefore(y) - LeapsBefore(1970)) + before;
  }

  // ---------------------------------------------------------------------------
  // time.Date month normalisation

  /** `time.Date(y, m, ...)` with any month number: months past 12 or below 1 carry into the year. */
  function NormalizeMonth(y: int, m: int): (r: (int, int))
    ensures ValidMonth(r.1)
    ensures ValidMonth(m) ==> r == (y, m)
    ensures r.0 * 12 + r.1 == y * 12 + m
  {
    (y + (m - 1) / 12, (m - 1) % 12 + 1)
  }

  /** Midnight of the first day of the (normalised) month. */
  function MonthStart(y: int, m: int): int {
    var n := NormalizeMonth(y, m);
    Midnight(n.0, n.1, 1)
  }

  /** The first instant of the month and its last second, which falls on the month's last day. */
  function MonthRange(y: int, m: int): (r: (int, int))
    requires ValidMonth(m)
    ensures r.0 == Midnight(y, m, 1)
    ensures r.1 + 1 == MonthStart(y, m + 1)
    ensures DayOf(r.1) == DayNumber(y, m, DaysIn(y, m))
    ensures r.1 - r.0 == DaysIn(y, m) * SecondsPerDay - 1
  {
    NextMonthStart(y, m);
    LastSecondOfDay(DayNumber(y, m, 1) + DaysIn(y, m));
    (Midnight(y, m, 1), MonthStart(y, m + 1) - 1)
  }

  /** One second before midnight of day k is still day k - 1. */
  lemma {:induction false} LastSecondOfDay(k: int)
    ensures DayOf(k * SecondsPerDay - 1) == k - 1
  {
    assert k * SecondsPerDay - 1 == (k - 1) * SecondsPerDay + (SecondsPerDay - 1);
  }

  // ---------------------------------------------------------------------------
  // Weekdays

  /** Go's Weekday of a day number: 0 is Sunday; 1970-01-01 was a Thursday. */
  function Weekday(day: int): (r: int)
    ensures 0 <= r < 7
  {
    (day + 4) % 7
  }

  /** The day number of an instant (floor division: instants before 1970 fall on earlier days). */
  function DayOf(t: int): int {
    t / SecondsPerDay
  }

  /**
   * getWeekStart: midnight of the Monday of the week holding the instant, where
   * Sunday counts as the seventh day of its week.
   */
  function WeekStart(t: int): (r: int)
    ensures r % SecondsPerDay == 0
    ensures Weekday(r / SecondsPerDay) == 1
    ensures r <= t < r + SecondsPerWeek
  {
    var w := Weekday(DayOf(t));
    var back := (if w == 0 then 7 else w) - 1;
    DayBounds(t);
    MondayBack(DayOf(t));
    WholeDays(DayOf(t) - back);
    (DayOf(t) - back) * SecondsPerDay
  }

  /** An instant lies within its day. */
  lemma DayBounds(t: int)
    ensures DayOf(t) * SecondsPerDay <= t < DayOf(t) * SecondsPerDay + SecondsPerDay
  {
  }

  /** Stepping back to the week's Monday lands on a Monday, at most six days back. */
  lemma MondayBack(d: int)
    ensures var w := Weekday(d);
      var back := (if w == 0 then 7 else w) - 1;
      0 <= back <= 6 && Weekday(d - back) == 1
  {
  }

  /** Midnight of day k is a whole number of days. */
  lemma WholeDays(k: int)
    ensures (k * SecondsPerDay) % SecondsPerDay == 0 && (k * SecondsPerDay) / SecondsPerDay == k
  {
  }

  lemma EpochWasThursday()
    ensures Weekday(DayNumber(1970, 1, 1)) == 4
  {
  }

  // ---------------------------------------------------------------------------
  // Layouts

  /** Four digits, a dash, two digits: the shape of the "2006-01" layout. */
  predicate YearMonthShape(s: string) {
    |s| == 7 && s[4] == '-' && AllDigits(s[..4]) && AllDigits(s[5..7])
  }

  /** `time.Parse("2006-01", s)`: exactly four year digits, a dash and a two-digit month 01..12. */
  function ParseYearMonth(s: string): (r: Option<(int, int)>)
    ensures r.Some? <==> YearMonthShape(s) && ValidMonth(Decimal(s[5..7]))
    ensures r.Some? ==> 0 <= r.value.0 <= 9999 && ValidMonth(r.value.1)
    ensures r.Some? ==> r.value == (Decimal(s[..4]), Decimal(s[5..7]))
  {
    if YearMonthShape(s) && ValidMonth(Decimal(s[5..7])) then
      DecimalBound(s[..4]);
      Some((Decimal(s[..4]), Decimal(s[5..7])))
    else None
  }

  /** Ten characters: four digits, dash, two digits, dash, two digits. */
  predicate DateShape(s: string) {
    |s| == 10 && s[4] == '-' && s[7] == '-' && AllDigits(s[..4]) && AllDigits(s[5..7]) && AllDigits(s[8..10])
  }

  /**
   * `time.Parse("2006-01-02", s)` as a day number: the shape must match exactly, the
   * month must be 01..12 and the day must exist in that month.
   */
  function ParseDate(s: string): (r: Option<int>)
    ensures r.Some? <==> DateShape(s) && ValidDate(Decimal(s[..4]), Decimal(s[5..7]), Decimal(s[8..10]))
    ensures r.Some? ==> r.value == DayNumber(Decimal(s[..4]), Decimal(s[5..7]), Decimal(s[8..10]))
  {
    if DateShape(s) && ValidDate(Decimal(s[..4]), Decimal(s[5..7]), Decimal(s[8..10])) then
      Some(DayNumber(Decimal(s[..4]), Decimal(s[5..7]), Decimal(s[8..10])))
    else None
  }

  /** `Format("2006-01-02")` of a date with a four-digit year. */
  function FormatDate(y: int, m: int, d: int): (r: string)
    requires 0 <= y <= 9999 && ValidDate(y, m, d)
    ensures DateShape(r)
  {
    Padded(y, 4) + "-" + Padded(m, 2) + "-" + Padded(d, 2)
  }

  /** Formatting a date and parsing it back gives the same day. */
  lemma {:induction false} FormatParseRoundTrip(y: int, m: int, d: int)
    requires 0 <= y <= 9999 && ValidDate(y, m, d)
    ensures ParseDate(FormatDate(y, m, d)) == Some(DayNumber(y, m, d))
  {
    var s := FormatDate(y, m, d);
    assert s[..4] == Padded(y, 4);
    assert s[5..7] == Padded(m, 2);
    assert s[8..10] == Padded(d, 2);
    PaddedRoundTrip(y, 4);
    PaddedRoundTrip(m, 2);
    PaddedRoundTrip(d, 2);
  }
}
