/** Calendar dates as day numbers. A `Date` is the number of days since
    1970-01-01 (a Thursday), so "yesterday" is `d - 1` and `chrono`'s
    `(a - b).num_days()` is `a - b`. Weekdays, Monday-aligned weeks, the calendar
    year and the ISO 8601 week number are derived from it. */
module Calendar {

  type Date = int

  datatype Weekday = Mon | Tue | Wed | Thu | Fri | Sat | Sun

  /** `Weekday::num_days_from_monday`. */
  function NumDaysFromMonday(w: Weekday): (n: nat)
    ensures n < 7
  {
    match w
    case Mon => 0
    case Tue => 1
    case Wed => 2
    case Thu => 3
    case Fri => 4
    case Sat => 5
    case Sun => 6
  }

  function WeekdayFromIndex(i: int): (w: Weekday)
    requires 0 <= i < 7
    ensures NumDaysFromMonday(w) == i
  {
    if i == 0 then Mon
    else if i == 1 then Tue
    else if i == 2 then Wed
    else if i == 3 then Thu
    else if i == 4 then Fri
    else if i == 5 then Sat
    else Sun
  }

  /** `NaiveDate::weekday`: day 0 (1970-01-01) is a Thursday. */
  function WeekdayOf(d: Date): (w: Weekday)
    ensures NumDaysFromMonday(w) == (d + 3) % 7
  {
    WeekdayFromIndex((d + 3) % 7)
  }

  lemma WeekdayIndexInjective(v: Weekday, w: Weekday)
    requires NumDaysFromMonday(v) == NumDaysFromMonday(w)
    ensures v == w
  {
  }

  predicate IsWeekend(d: Date) {
    WeekdayOf(d) == Sat || WeekdayOf(d) == Sun
  }

  /** The day before a Monday is a Sunday; otherwise the weekday index drops by one. */
  lemma PreviousDay(d: Date)
    ensures NumDaysFromMonday(WeekdayOf(d - 1))
         == if WeekdayOf(d) == Mon then 6 else NumDaysFromMonday(WeekdayOf(d)) - 1
  {
  }

  /** The day after a Sunday is a Monday; otherwise the weekday index grows by one. */
  lemma NextDay(d: Date)
    ensures NumDaysFromMonday(WeekdayOf(d + 1))
         == if WeekdayOf(d) == Sun then 0 else NumDaysFromMonday(WeekdayOf(d)) + 1
  {
  }

  /** Weekdays repeat every seven days. */
  lemma WeekdayPeriodic(d: Date, k: int)
    ensures WeekdayOf(d + 7 * k) == WeekdayOf(d)
  {
    assert (d + 7 * k + 3) % 7 == (d + 3) % 7;
    WeekdayIndexInjective(WeekdayOf(d + 7 * k), WeekdayOf(d));
  }

  /** Going back `k` days, for `k` in 0..6, moves the weekday index back by `k`
      modulo 7: every weekday occurs among any seven consecutive days. */
  lemma WeekdayBack(d: Date, k: int)
    requires 0 <= k < 7
    ensures NumDaysFromMonday(WeekdayOf(d - k)) == (NumDaysFromMonday(WeekdayOf(d)) - k + 7) % 7
  {
  }

  /** The Monday on or before `d`: the first day of its Monday-aligned week
      (`d - d.weekday().num_days_from_monday()`). */
  function WeekStart(d: Date): (m: Date)
    ensures WeekdayOf(m) == Mon
    ensures d - 6 <= m <= d
    ensures m == d - NumDaysFromMonday(WeekdayOf(d))
  {
    d - NumDaysFromMonday(WeekdayOf(d))
  }

  /** Two dates lie in the same Monday-aligned week exactly when their week
      starts agree; such a week holds the seven days from its Monday on. */
  lemma WeekStartIff(d: Date, m: Date)
    requires WeekdayOf(m) == Mon
    ensures WeekStart(d) == m <==> m <= d <= m + 6
  {
    if m <= d <= m + 6 {
      assert (d + 3) % 7 == (m + 3) % 7 + (d - m);
    }
  }

  /** The week after the week of `d` is the week of `d + 7`. */
  lemma WeekStartNext(d: Date)
    ensures WeekStart(d + 7) == WeekStart(d) + 7
  {
    WeekdayPeriodic(d, 1);
  }

  // Proleptic Gregorian calendar (the calendar chrono's NaiveDate uses).

  /** Day number of the civil date y-m-dd. */
  function DaysFromCivil(y: int, m: int, dd: int): Date
    requires 1 <= m <= 12 && 1 <= dd <= 31
  {
    var y' := if m <= 2 then y - 1 else y;
    var era := y' / 400;
    var yoe := y' - era * 400;
    var mp := if m > 2 then m - 3 else m + 9;
    var doy := (153 * mp + 2) / 5 + dd - 1;
    var doe := yoe * 365 + yoe / 4 - yoe / 100 + doy;
    era * 146097 + doe - 719468
  }

  /** `NaiveDate::year`: the calendar year the day falls in. */
  function YearOf(d: Date): int {
    var z := d + 719468;
    var era := z / 146097;
    var doe := z - era * 146097;
    var yoe := (doe - doe / 1460 + doe / 36524 - doe / 146096) / 365;
    var y := yoe + era * 400;
    var doy := doe - (365 * yoe + yoe / 4 - yoe / 100);
    var mp := (5 * doy + 2) / 153;
    var m := if mp < 10 then mp + 3 else mp - 9;
    if m <= 2 then y + 1 else y
  }

  /** The ISO 8601 week of `d` is identified by the Thursday of its
      Monday-aligned week: its year is that Thursday's calendar year. */
  function IsoYear(d: Date): int {
    YearOf(WeekStart(d) + 3)
  }

  /** `NaiveDate::iso_week().week()`: the ISO 8601 week number. */
  function IsoWeekNumber(d: Date): int {
    var thursday := WeekStart(d) + 3;
    (thursday - DaysFromCivil(YearOf(thursday), 1, 1)) / 7 + 1
  }

  /** The ISO year and week number name exactly one Monday-aligned week: two
      dates have the same ISO week exactly when their week starts agree. */
  lemma IsoWeekIdentifiesWeek(a: Date, b: Date)
    ensures WeekStart(a) == WeekStart(b)
        <==> IsoYear(a) == IsoYear(b) && IsoWeekNumber(a) == IsoWeekNumber(b)
  {
    if WeekStart(a) == WeekStart(b) {
      SameWeekSameIsoWeek(a, b);
    }
    if IsoYear(a) == IsoYear(b) && IsoWeekNumber(a) == IsoWeekNumber(b) {
      SameIsoWeekSameWeek(a, b);
    }
  }

  lemma SameWeekSameIsoWeek(a: Date, b: Date)
    requires WeekStart(a) == WeekStart(b)
    ensures IsoYear(a) == IsoYear(b) && IsoWeekNumber(a) == IsoWeekNumber(b)
  {
  }

  lemma SameIsoWeekSameWeek(a: Date, b: Date)
    requires IsoYear(a) == IsoYear(b) && IsoWeekNumber(a) == IsoWeekNumber(b)
    ensures WeekStart(a) == WeekStart(b)
  {
    var j := DaysFromCivil(IsoYear(a), 1, 1);
    IsoWeekOffset(a, j);
    IsoWeekOffset(b, j);
    SameWeekOffset(WeekStart(a) + 3, WeekStart(b) + 3, j, IsoWeekNumber(a));
  }

  /** The ISO week number counts the weeks from the first day of the ISO year to
      the week's Thursday, a multiple of seven. */
  lemma IsoWeekOffset(d: Date, j: Date)
    requires j == DaysFromCivil(IsoYear(d), 1, 1)
    ensures (WeekStart(d) + 3) % 7 == 0
    ensures IsoWeekNumber(d) == (WeekStart(d) + 3 - j) / 7 + 1
  {
  }

  /** Two multiples of 7 that lie in the same run of seven days after `j` are equal. */
  lemma SameWeekOffset(x: int, y: int, j: int, w: int)
    requires x % 7 == 0 && y % 7 == 0
    requires w == (x - j) / 7 + 1 && w == (y - j) / 7 + 1
    ensures x == y
  {
    var q := w - 1;
    assert 7 * q <= x - j < 7 * q + 7;
    assert 7 * q <= y - j < 7 * q + 7;
    assert -7 < x - y < 7;
    assert (x - y) % 7 == 0;
  }

  lemma EpochIsThursday()
    ensures DaysFromCivil(1970, 1, 1) == 0 && WeekdayOf(0) == Thu && YearOf(0) == 1970
  {
    EpochDay();
    EpochWeekday();
    EpochYear();
  }

  lemma EpochDay() ensures DaysFromCivil(1970, 1, 1) == 0 {}
  lemma EpochWeekday() ensures WeekdayOf(0) == Thu {}
  lemma EpochYear() ensures YearOf(0) == 1970 {}
}
