/** What `Streak::calculate_current_streak` computes, stated as functions on the
    habit's completion dates: where each frequency's backward walk starts, how
    far it goes, and what it counts. The loops that compute the same values are
    in module Streaks; the lemmas here say what those values mean. */
module StreakWalks {
  import opened Calendar
  import opened Types

  // Positioning the cursor before the walk.

  /** The cursor after `while weekend(c) { c -= 1 }`: the latest weekday on or before `c`. */
  function BackToWeekday(c: Date): (r: Date)
    ensures !IsWeekend(r) && c - 2 <= r <= c
    ensures forall x :: r < x <= c ==> IsWeekend(x)
  {
    if WeekdayOf(c) == Sat then c - 1 else if WeekdayOf(c) == Sun then c - 2 else c
  }

  /** The cursor after `while !weekend(c) { c -= 1 }`: the latest weekend day on or before `c`. */
  function BackToWeekend(c: Date): (r: Date)
    ensures IsWeekend(r) && c - 5 <= r <= c
    ensures forall x :: r < x <= c ==> !IsWeekend(x)
  {
    if IsWeekend(c) then c else c - NumDaysFromMonday(WeekdayOf(c)) - 1
  }

  /** The cursor after `for _ in 0..fuel { if days.contains(c.weekday()) { break } c -= 1 }`. */
  function SeekDayBack(days: seq<Weekday>, c: Date, fuel: nat): (r: Date)
    ensures c - fuel <= r <= c
    ensures r > c - fuel ==> WeekdayOf(r) in days
    ensures forall x :: r < x <= c ==> WeekdayOf(x) !in days
    decreases fuel
  {
    if fuel == 0 || WeekdayOf(c) in days then c else SeekDayBack(days, c - 1, fuel - 1)
  }

  /** The cursor after `for _ in 0..fuel { if logged(c) { break } c -= 1 }`. */
  function SeekLoggedBack(dates: seq<Date>, c: Date, fuel: nat): (r: Date)
    ensures c - fuel <= r <= c
    ensures r > c - fuel ==> r in dates
    ensures forall x :: r < x <= c ==> x !in dates
    decreases fuel
  {
    if fuel == 0 || c in dates then c else SeekLoggedBack(dates, c - 1, fuel - 1)
  }

  /** Daily: today, or yesterday when today is not logged. */
  function DailyStart(dates: seq<Date>, today: Date): Date {
    if today in dates then today else today - 1
  }

  /** Weekdays: the latest weekday, stepping past today when today is an unlogged weekday. */
  function WeekdaysStart(dates: seq<Date>, today: Date): Date {
    var c := BackToWeekday(today);
    if !IsWeekend(today) && today !in dates then BackToWeekday(c - 1) else c
  }

  /** Weekends: the latest weekend day, stepping past today when today is an unlogged weekend day. */
  function WeekendsStart(dates: seq<Date>, today: Date): Date {
    var c := BackToWeekend(today);
    if IsWeekend(today) && today !in dates then BackToWeekend(c - 1) else c
  }

  /** Custom: the latest target day within the week, stepping past today when
      today is an unlogged target day. */
  function CustomStart(dates: seq<Date>, days: seq<Weekday>, today: Date): Date {
    if WeekdayOf(today) !in days then SeekDayBack(days, today - 1, 6)
    else if today !in dates then SeekDayBack(days, today - 1, 7)
    else today
  }

  /** Interval: `today - n` when the latest entry lies a whole number of intervals
      before today and today is not logged; otherwise the latest logged day among
      the last n days (or `today - n` if none). `latest` is the first entry of the
      newest-first list. */
  function IntervalStart(dates: seq<Date>, latest: Date, n: nat, today: Date): Date
    requires n >= 1
  {
    if (today - latest) % n == 0 && today !in dates then today - n
    else SeekLoggedBack(dates, today, n)
  }

  // The walks.

  /** `for _ in 0..fuel`: a day the frequency does not schedule is skipped, a
      scheduled logged day is counted, and the first scheduled day with no entry
      ends the walk. Every iteration moves one day back. */
  function Walk(dates: seq<Date>, f: Frequency, d: Date, fuel: nat): (n: nat)
    ensures n <= fuel
    decreases fuel
  {
    if fuel == 0 then 0
    else if !IsScheduledForDate(f, d) then Walk(dates, f, d - 1, fuel - 1)
    else if d in dates then 1 + Walk(dates, f, d - 1, fuel - 1)
    else 0
  }

  /** Number of days in `lo..=hi` the frequency schedules. */
  function ScheduledIn(f: Frequency, lo: Date, hi: Date): nat
    decreases hi - lo
  {
    if hi < lo then 0 else (if IsScheduledForDate(f, hi) then 1 else 0) + ScheduledIn(f, lo, hi - 1)
  }

  /** Every day is scheduled under a daily frequency. */
  lemma {:induction false} ScheduledInDaily(lo: Date, hi: Date)
    requires lo <= hi + 1
    ensures ScheduledIn(Daily, lo, hi) == hi - lo + 1
    decreases hi - lo
  {
    if lo <= hi {
      ScheduledInDaily(lo, hi - 1);
    }
  }

  /** The walk from `d` covers the `m` days `d - m + 1 ..= d`: it counts exactly the
      scheduled days among them, all of which are logged, and unless it used up
      its budget it stopped at the scheduled, unlogged day `d - m`. */
  lemma {:induction false} WalkWindow(dates: seq<Date>, f: Frequency, d: Date, fuel: nat) returns (m: nat)
    ensures m <= fuel
    ensures Walk(dates, f, d, fuel) == ScheduledIn(f, d - m + 1, d)
    ensures forall x :: d - m < x <= d && IsScheduledForDate(f, x) ==> x in dates
    ensures m < fuel ==> IsScheduledForDate(f, d - m) && d - m !in dates
    decreases fuel
  {
    if fuel == 0 {
      m := 0;
    } else if !IsScheduledForDate(f, d) || d in dates {
      var k := WalkWindow(dates, f, d - 1, fuel - 1);
      m := k + 1;
      assert d - m + 1 == (d - 1) - k + 1;
    } else {
      m := 0;
    }
  }

  /** An entry on a day the frequency does not schedule does not change the walk. */
  lemma {:induction false} WalkIgnoresUnscheduled(dates: seq<Date>, f: Frequency, d: Date, fuel: nat, x: Date)
    requires !IsScheduledForDate(f, x)
    ensures Walk(dates + [x], f, d, fuel) == Walk(dates, f, d, fuel)
    decreases fuel
  {
    if fuel > 0 {
      WalkIgnoresUnscheduled(dates, f, d - 1, fuel - 1, x);
    }
  }

  /** With no entries the walk counts nothing. */
  lemma {:induction false} WalkEmpty(f: Frequency, d: Date, fuel: nat)
    ensures Walk([], f, d, fuel) == 0
    decreases fuel
  {
    if fuel > 0 {
      WalkEmpty(f, d - 1, fuel - 1);
    }
  }

  /** `d - k * n`: the k-th interval step back from `d`. */
  function StepBack(d: Date, n: nat, k: nat): Date {
    d - k * n
  }

  /** The interval walk: each logged day counts and moves the cursor back `n` days. */
  function IntervalRun(dates: seq<Date>, c: Date, n: nat, fuel: nat): (r: nat)
    ensures r <= fuel
    decreases fuel
  {
    if fuel == 0 || c !in dates then 0 else 1 + IntervalRun(dates, c - n, n, fuel - 1)
  }

  /** The interval walk counts the run `c, c - n, c - 2n, ...` of logged days. */
  lemma {:induction false} IntervalRunSteps(dates: seq<Date>, c: Date, n: nat, fuel: nat)
    ensures var r := IntervalRun(dates, c, n, fuel);
            (forall k: nat :: k < r ==> StepBack(c, n, k) in dates)
            && (r < fuel ==> StepBack(c, n, r) !in dates)
    decreases fuel
  {
    if fuel > 0 && c in dates {
      IntervalRunSteps(dates, c - n, n, fuel - 1);
      var r := IntervalRun(dates, c, n, fuel);
      forall k: nat | k < r
        ensures StepBack(c, n, k) in dates
      {
        if k > 0 {
          StepBackShift(c, n, k);
        }
      }
      StepBackShift(c, n, r);
    }
  }

  /** Stepping `k` back from `c` is stepping `k - 1` back from `c - n`. */
  lemma StepBackShift(c: Date, n: nat, k: nat)
    requires k > 0
    ensures StepBack(c, n, k) == StepBack(c - n, n, k - 1)
  {
    assert k * n == (k - 1) * n + n;
  }

  /** Number of entries dated within `lo..=hi` (the weekly `filter(..).count()`). */
  function CountInRange(dates: seq<Date>, lo: Date, hi: Date): (k: nat)
    ensures k <= |dates|
  {
    if dates == [] then 0
    else (if lo <= dates[0] <= hi then 1 else 0) + CountInRange(dates[1..], lo, hi)
  }

  /** `week_start - Duration::weeks(w)`. */
  function WeekBack(ws: Date, w: nat): Date {
    ws - 7 * w
  }

  /** The weekly walk: consecutive Monday-aligned weeks, newest first, each holding
      at least `t` entries. */
  function WeeksBack(dates: seq<Date>, t: nat, ws: Date, fuel: nat): (r: nat)
    ensures r <= fuel
    decreases fuel
  {
    if fuel == 0 || CountInRange(dates, ws, ws + 6) < t then 0
    else 1 + WeeksBack(dates, t, ws - 7, fuel - 1)
  }

  /** The weekly walk counts the weeks back from `ws` that each hold `t` entries,
      and stops at the first week that does not. */
  lemma {:induction false} WeeksBackSteps(dates: seq<Date>, t: nat, ws: Date, fuel: nat)
    ensures var r := WeeksBack(dates, t, ws, fuel);
            (forall w: nat :: w < r ==> CountInRange(dates, WeekBack(ws, w), WeekBack(ws, w) + 6) >= t)
            && (r < fuel ==> CountInRange(dates, WeekBack(ws, r), WeekBack(ws, r) + 6) < t)
    decreases fuel
  {
    if fuel > 0 && CountInRange(dates, ws, ws + 6) >= t {
      WeeksBackSteps(dates, t, ws - 7, fuel - 1);
      var k := WeeksBack(dates, t, ws - 7, fuel - 1);
      var r := WeeksBack(dates, t, ws, fuel);
      assert r == k + 1;
      forall w: nat | w < r
        ensures CountInRange(dates, WeekBack(ws, w), WeekBack(ws, w) + 6) >= t
      {
        if w > 0 {
          assert WeekBack(ws, w) == WeekBack(ws - 7, w - 1);
          assert CountInRange(dates, WeekBack(ws - 7, w - 1), WeekBack(ws - 7, w - 1) + 6) >= t;
        } else {
          assert WeekBack(ws, w) == ws;
        }
      }
      assert WeekBack(ws, r) == WeekBack(ws - 7, k);
    }
  }

  /** The current streak of the dates `newest` (newest first) as of `today`.
      An interval of 0 days would divide by zero in the source, which panics. */
  function CurrentStreakOf(newest: seq<Date>, f: Frequency, today: Date): (n: nat)
    requires f.Interval? ==> f.every >= 1
    ensures f.Weekly? ==> n <= 52
    ensures !f.Weekly? ==> n <= 365
  {
    if newest == [] then 0
    else match f
      case Daily => Walk(newest, f, DailyStart(newest, today), 365)
      case Weekly(t) => WeeksBack(newest, t, WeekStart(today), 52)
      case Weekdays => Walk(newest, f, WeekdaysStart(newest, today), 365)
      case Weekends => Walk(newest, f, WeekendsStart(newest, today), 365)
      case Custom(days) => Walk(newest, f, CustomStart(newest, days, today), 365)
      case Interval(n) => IntervalRun(newest, IntervalStart(newest, newest[0], n, today), n, 365)
  }

  /** Daily: the streak is the run of consecutive logged days ending today, or
      ending yesterday when today is not logged, capped at 365 days. */
  lemma DailyCurrentStreak(dates: seq<Date>, today: Date)
    requires dates != []
    ensures var n, s := CurrentStreakOf(dates, Daily, today), DailyStart(dates, today);
            n <= 365
            && (forall x :: s - n < x <= s ==> x in dates)
            && (n < 365 ==> s - n !in dates)
            && (s == today <==> today in dates)
  {
    var s := DailyStart(dates, today);
    var m := WalkWindow(dates, Daily, s, 365);
    ScheduledInDaily(s - m + 1, s);
  }

  /** Weekly(t): the streak counts consecutive Monday-aligned weeks back from the
      current week that each hold at least `t` entries, up to 52; it is 0 when the
      current week holds fewer than `t`. */
  lemma WeeklyCurrentStreak(dates: seq<Date>, t: u8, today: Date)
    requires dates != []
    ensures var n, ws := CurrentStreakOf(dates, Weekly(t), today), WeekStart(today);
            n <= 52
            && (forall w: nat :: w < n ==> CountInRange(dates, WeekBack(ws, w), WeekBack(ws, w) + 6) >= t)
            && (n < 52 ==> CountInRange(dates, WeekBack(ws, n), WeekBack(ws, n) + 6) < t)
            && (CountInRange(dates, ws, ws + 6) < t ==> n == 0)
  {
    WeeksBackSteps(dates, t, WeekStart(today), 52);
  }

  /** Weekdays, weekends and custom days: the walk visits only the days the
      frequency schedules, counts exactly those it covers, all of them logged,
      and stops at the first scheduled day with no entry. */
  lemma {:induction false} ScheduledCurrentStreak(dates: seq<Date>, f: Frequency, today: Date) returns (m: nat)
    requires dates != [] && (f.Weekdays? || f.Weekends? || f.Custom?)
    ensures m <= 365
    ensures CurrentStreakOf(dates, f, today) == ScheduledIn(f, ScheduledStart(dates, f, today) - m + 1, ScheduledStart(dates, f, today))
    ensures var s := ScheduledStart(dates, f, today);
            forall x :: s - m < x <= s && IsScheduledForDate(f, x) ==> x in dates
    ensures var s := ScheduledStart(dates, f, today);
            m < 365 ==> IsScheduledForDate(f, s - m) && s - m !in dates
  {
    m := WalkWindow(dates, f, ScheduledStart(dates, f, today), 365);
    ScheduledCount(dates, f, today, m);
  }

  /** The current streak is the count of the walk from the scheduled start. */
  lemma ScheduledCount(dates: seq<Date>, f: Frequency, today: Date, m: nat)
    requires dates != [] && (f.Weekdays? || f.Weekends? || f.Custom?)
    requires Walk(dates, f, ScheduledStart(dates, f, today), 365)
             == ScheduledIn(f, ScheduledStart(dates, f, today) - m + 1, ScheduledStart(dates, f, today))
    ensures CurrentStreakOf(dates, f, today)
            == ScheduledIn(f, ScheduledStart(dates, f, today) - m + 1, ScheduledStart(dates, f, today))
  {
    ScheduledIsWalk(dates, f, today);
  }

  /** The day the walk of a weekday, weekend or custom frequency starts from. */
  function ScheduledStart(dates: seq<Date>, f: Frequency, today: Date): Date {
    match f
    case Weekdays => WeekdaysStart(dates, today)
    case Weekends => WeekendsStart(dates, today)
    case Custom(days) => CustomStart(dates, days, today)
    case _ => today
  }

  lemma ScheduledIsWalk(dates: seq<Date>, f: Frequency, today: Date)
    requires dates != [] && (f.Weekdays? || f.Weekends? || f.Custom?)
    ensures CurrentStreakOf(dates, f, today) == Walk(dates, f, ScheduledStart(dates, f, today), 365)
  {
  }

  lemma WeekdaysStartIs(dates: seq<Date>, today: Date)
    ensures var s := WeekdaysStart(dates, today);
            !IsWeekend(s) && s <= today
            && (!IsWeekend(today) && today in dates ==> s == today)
            && (IsWeekend(today) || today !in dates ==> s < today && forall x :: s < x < today ==> IsWeekend(x))
  {
  }

  /** Where the weekends walk starts: today when it is a logged weekend day,
      otherwise the latest weekend day before today. */
  lemma WeekendsStartIs(dates: seq<Date>, today: Date)
    ensures var s := WeekendsStart(dates, today);
            IsWeekend(s) && s <= today
            && (IsWeekend(today) && today in dates ==> s == today)
            && (!IsWeekend(today) || today !in dates ==> s < today && forall x :: s < x < today ==> !IsWeekend(x))
  {
  }

  /** Where the custom walk starts, for a non-empty set of days: today when it is a
      logged target day, otherwise the latest target day before today. */
  lemma CustomStartIs(dates: seq<Date>, days: seq<Weekday>, today: Date)
    requires days != []
    ensures var s := CustomStart(dates, days, today);
            WeekdayOf(s) in days && today - 7 <= s <= today
            && (WeekdayOf(today) in days && today in dates ==> s == today)
            && (WeekdayOf(today) !in days || today !in dates ==>
                  s < today && forall x :: s < x < today ==> WeekdayOf(x) !in days)
  {
    var k := ScheduleRecurs(Frequency.Custom(days), today - 1);
    if WeekdayOf(today) in days {
      WeekdayPeriodic(today - 7, 1);
      assert WeekdayOf(today - 7) in days;
    }
  }

  /** An entry on a day the frequency does not schedule never changes the current streak. */
  lemma UnscheduledEntryIgnored(dates: seq<Date>, f: Frequency, today: Date, x: Date)
    requires !IsScheduledForDate(f, x)
    ensures CurrentStreakOf(dates + [x], f, today) == CurrentStreakOf(dates, f, today)
  {
    var s := ScheduledStart(dates, f, today);
    if f.Weekdays? {
      assert WeekdaysStart(dates + [x], today) == s;
    } else if f.Weekends? {
      assert WeekendsStart(dates + [x], today) == s;
    } else if f.Custom? {
      assert CustomStart(dates + [x], f.days, today) == s;
    }
    WalkIgnoresUnscheduled(dates, f, s, 365, x);
    if dates == [] {
      WalkEmpty(f, s, 365);
    }
  }

  /** Interval(n): entries today, n days ago and 2n days ago give a streak of 3. */
  lemma IntervalExample(today: Date, n: u32)
    requires n >= 1
    ensures CurrentStreakOf([today, today - n, today - 2 * n], Interval(n), today) == 3
  {
    var dates := [today, today - n, today - 2 * n];
    assert SeekLoggedBack(dates, today, n) == today;
    assert today - 3 * n !in dates;
  }

  /** Interval(n): from where it starts, the walk counts the logged days
      `s, s - n, s - 2n, ...` and stops at the first such day with no entry. The
      start is today or an earlier day within the last n days. */
  lemma IntervalCurrentStreak(newest: seq<Date>, n: u32, today: Date)
    requires newest != [] && n >= 1
    ensures var s, r := IntervalStart(newest, newest[0], n, today), CurrentStreakOf(newest, Interval(n), today);
            today - n <= s <= today
            && (forall k: nat :: k < r ==> StepBack(s, n, k) in newest)
            && (r < 365 ==> StepBack(s, n, r) !in newest)
  {
    IntervalRunSteps(newest, IntervalStart(newest, newest[0], n, today), n, 365);
  }

  /** The interval streak reads the first entry as the latest one, so the order of
      the entries matters: the same three dates give 1 newest-first and 2 when the
      first two are swapped (3-day interval, entries 2, 3 and 6 days ago). */
  lemma IntervalOrderMatters(today: Date)
    ensures CurrentStreakOf([today - 2, today - 3, today - 6], Interval(3), today) == 1
    ensures CurrentStreakOf([today - 3, today - 2, today - 6], Interval(3), today) == 2
  {
    var a := [today - 2, today - 3, today - 6];
    var b := [today - 3, today - 2, today - 6];
    assert SeekLoggedBack(a, today, 3) == today - 2;
    assert IntervalRun(a, today - 5, 3, 364) == 0;
    assert IntervalStart(b, today - 3, 3, today) == today - 3;
    assert IntervalRun(b, today - 9, 3, 363) == 0;
  }
}
