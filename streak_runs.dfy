/** What `Streak::calculate_longest_streak` computes for the non-weekly
    frequencies: the oldest-first dates are cut into runs, a date extending the
    run exactly when it is the next date the frequency expects after the
    previous one, and the longest run is the result. */
module StreakRuns {
  import opened Calendar
  import opened Types

  /** The first weekday on or after `d` (`while weekend(e) { e += 1 }`). */
  function ForwardToWeekday(d: Date): (r: Date)
    ensures !IsWeekend(r) && d <= r <= d + 2
    ensures forall x :: d <= x < r ==> IsWeekend(x)
  {
    if WeekdayOf(d) == Sat then d + 2 else if WeekdayOf(d) == Sun then d + 1 else d
  }

  /** The first weekend day on or after `d` (`while !weekend(e) { e += 1 }`). */
  function ForwardToWeekend(d: Date): (r: Date)
    ensures IsWeekend(r) && d <= r <= d + 5
    ensures forall x :: d <= x < r ==> !IsWeekend(x)
  {
    if IsWeekend(d) then d else d + 5 - NumDaysFromMonday(WeekdayOf(d))
  }

  /** The custom scan from `e` on: stop at a target day, or once the cursor is
      more than 7 days past `last`. */
  function CustomScan(days: seq<Weekday>, last: Date, e: Date): (r: Date)
    requires last < e <= last + 8
    ensures e <= r <= last + 8
    ensures r <= last + 7 ==> WeekdayOf(r) in days
    ensures forall x :: e <= x < r ==> WeekdayOf(x) !in days
    decreases last + 8 - e
  {
    if e == last + 8 || WeekdayOf(e) in days then e
    else CustomScan(days, last, e + 1)
  }

  /** The date the frequency expects after `last` for the run to go on. */
  function NextExpected(f: Frequency, last: Date): Date
    requires !f.Weekly?
  {
    match f
    case Daily => last + 1
    case Weekdays => ForwardToWeekday(last + 1)
    case Weekends => ForwardToWeekend(last + 1)
    case Custom(days) => CustomScan(days, last, last + 1)
    case Interval(n) => last + n
  }

  /** The expected next date is the next day the frequency schedules (for a
      custom frequency with at least one day), or `n` days on for an interval. */
  lemma NextExpectedIsNextScheduled(f: Frequency, last: Date)
    requires !f.Weekly? && !f.Interval? && (f.Custom? ==> f.days != [])
    ensures var e := NextExpected(f, last);
            last < e && IsScheduledForDate(f, e) && forall x :: last < x < e ==> !IsScheduledForDate(f, x)
  {
    if f.Custom? {
      var k := ScheduleRecurs(f, last + 7);
      assert WeekdayOf(last + 7 - k) in f.days;
    }
  }

  /** Whether `b` extends a run ending at `a`. */
  predicate Extends(f: Frequency, a: Date, b: Date)
    requires !f.Weekly?
  {
    b == NextExpected(f, a)
  }

  /** Length of the run that ends at `s[i]`. */
  function RunLen(s: seq<Date>, f: Frequency, i: nat): (n: nat)
    requires !f.Weekly? && i < |s|
    ensures 1 <= n <= i + 1
  {
    if i == 0 then 1
    else if Extends(f, s[i - 1], s[i]) then RunLen(s, f, i - 1) + 1
    else 1
  }

  /** The longest run ending at or before `s[i]`. */
  function MaxRun(s: seq<Date>, f: Frequency, i: nat): (n: nat)
    requires !f.Weekly? && i < |s|
    ensures 1 <= n <= i + 1
  {
    if i == 0 then RunLen(s, f, 0)
    else
      var m := MaxRun(s, f, i - 1);
      var r := RunLen(s, f, i);
      if m > r then m else r
  }

  /** The longest run of the oldest-first dates `s`. */
  function LongestRun(s: seq<Date>, f: Frequency): (n: nat)
    requires !f.Weekly?
    ensures s != [] ==> 1 <= n <= |s|
    ensures s == [] ==> n == 0
  {
    if s == [] then 0 else MaxRun(s, f, |s| - 1)
  }

  /** `s[a..=b]` is a run: each date after the first extends the one before. */
  ghost predicate IsRun(s: seq<Date>, f: Frequency, a: nat, b: nat)
    requires !f.Weekly?
  {
    a <= b < |s| && forall k :: a < k <= b ==> Extends(f, s[k - 1], s[k])
  }

  /** The run ending at `s[i]` is a run, and no run ending at `s[i]` is longer. */
  lemma {:induction false} RunLenIsMaximal(s: seq<Date>, f: Frequency, i: nat)
    requires !f.Weekly? && i < |s|
    ensures IsRun(s, f, i + 1 - RunLen(s, f, i), i)
    ensures forall a :: 0 <= a <= i && IsRun(s, f, a, i) ==> i + 1 - a <= RunLen(s, f, i)
  {
    if i > 0 {
      RunLenIsMaximal(s, f, i - 1);
      forall a | 0 <= a <= i && IsRun(s, f, a, i)
        ensures i + 1 - a <= RunLen(s, f, i)
      {
        if a < i {
          assert Extends(f, s[i - 1], s[i]);
          assert IsRun(s, f, a, i - 1);
        }
      }
    }
  }

  /** `MaxRun(s, f, i)` is the length of a run within `s[..i + 1]`, and every run
      within it is at most that long. */
  lemma {:induction false} MaxRunIsLongest(s: seq<Date>, f: Frequency, i: nat) returns (a: nat, b: nat)
    requires !f.Weekly? && i < |s|
    ensures b <= i && IsRun(s, f, a, b) && b + 1 - a == MaxRun(s, f, i)
    ensures forall a', b' :: 0 <= a' <= b' <= i && IsRun(s, f, a', b') ==> b' + 1 - a' <= MaxRun(s, f, i)
  {
    RunLenIsMaximal(s, f, i);
    if i == 0 {
      a, b := 0, 0;
    } else {
      a, b := MaxRunIsLongest(s, f, i - 1);
      if MaxRun(s, f, i - 1) <= RunLen(s, f, i) {
        a, b := i + 1 - RunLen(s, f, i), i;
      }
      forall a', b' | 0 <= a' <= b' <= i && IsRun(s, f, a', b')
        ensures b' + 1 - a' <= MaxRun(s, f, i)
      {
        if b' == i {
          assert i + 1 - a' <= RunLen(s, f, i);
        }
      }
    }
  }

  /** The longest run is the length of some run of `s`, and no run of `s` is longer. */
  lemma LongestRunIsLongest(s: seq<Date>, f: Frequency) returns (a: nat, b: nat)
    requires !f.Weekly? && s != []
    ensures IsRun(s, f, a, b) && b + 1 - a == LongestRun(s, f)
    ensures forall a', b' :: 0 <= a' <= b' < |s| && IsRun(s, f, a', b') ==> b' + 1 - a' <= LongestRun(s, f)
  {
    a, b := MaxRunIsLongest(s, f, |s| - 1);
  }

  /** Daily: a date logged twice breaks the run (the day difference is 0), so
      `d, d+1, d+1, d+2` gives 2 rather than 3. */
  lemma DailyDuplicateBreaksRun(d: Date)
    ensures LongestRun([d, d + 1, d + 1, d + 2], Daily) == 2
  {
    var s := [d, d + 1, d + 1, d + 2];
    assert RunLen(s, Daily, 1) == 2;
    assert RunLen(s, Daily, 2) == 1;
    assert RunLen(s, Daily, 3) == 2;
    assert MaxRun(s, Daily, 1) == 2;
    assert MaxRun(s, Daily, 2) == 2;
    assert MaxRun(s, Daily, 3) == 2;
  }
}
