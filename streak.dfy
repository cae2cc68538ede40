/** The streak engine (`Streak` in `src/domain/streak.rs`): the loops that walk
    a habit's completion dates, each proved to compute the specification
    function of module StreakWalks, StreakRuns or WeeklyBuckets, and the record
    `calculate_from_entries` assembles from them. "Today" is a parameter. */
module Streaks {
  import opened Wrappers
  import opened Calendar
  import opened Types
  import opened Text
  import Entries
  import Sorting
  import opened StreakWalks
  import opened StreakRuns
  import opened WeeklyBuckets

  /** The calculated streak record of one habit. */
  datatype Streak = Streak(
    habitId: HabitId,
    currentStreak: nat,
    longestStreak: nat,
    lastCompleted: Option<Date>,
    totalCompletions: nat,
    completionRate: real)

  /** The record of a habit that was never completed. */
  function NewStreak(habitId: HabitId): (s: Streak)
    ensures s.habitId == habitId && s.lastCompleted.None?
    ensures s.currentStreak == 0 && s.longestStreak == 0 && s.totalCompletions == 0 && s.completionRate == 0.0
  {
    Streak(habitId, 0, 0, None, 0, 0.0)
  }

  function CompletionDates(entries: seq<Entries.HabitEntry>): (ds: seq<Date>)
    ensures |ds| == |entries|
    ensures forall i :: 0 <= i < |entries| ==> ds[i] == entries[i].completedAt
  {
    if entries == [] then [] else [entries[0].completedAt] + CompletionDates(entries[1..])
  }

  // Positioning loops of the current streak.

  /** `while weekend(c) { c -= 1 }` */
  method BackToWeekdayLoop(c0: Date) returns (c: Date)
    ensures c == BackToWeekday(c0)
  {
    c := c0;
    while IsWeekend(c)
      invariant BackToWeekday(c0) <= c <= c0
      invariant forall x :: c < x <= c0 ==> IsWeekend(x)
      decreases c - BackToWeekday(c0)
    {
      c := c - 1;
    }
  }

  /** `while !weekend(c) { c -= 1 }` */
  method BackToWeekendLoop(c0: Date) returns (c: Date)
    ensures c == BackToWeekend(c0)
  {
    c := c0;
    while !IsWeekend(c)
      invariant BackToWeekend(c0) <= c <= c0
      invariant forall x :: c < x <= c0 ==> !IsWeekend(x)
      decreases c - BackToWeekend(c0)
    {
      c := c - 1;
    }
  }

  /** Where the weekdays walk starts (streak.rs lines 210-230). */
  method WeekdaysStartLoop(dates: seq<Date>, today: Date) returns (c: Date)
    ensures c == WeekdaysStart(dates, today)
  {
    c := today;
    if IsWeekend(c) {
      c := BackToWeekdayLoop(c);
    }
    if !IsWeekend(today) && today !in dates {
      c := BackToWeekdayLoop(c - 1);
    }
  }

  /** Where the weekends walk starts (streak.rs lines 250-270). */
  method WeekendsStartLoop(dates: seq<Date>, today: Date) returns (c: Date)
    ensures c == WeekendsStart(dates, today)
  {
    c := today;
    if !IsWeekend(c) {
      c := BackToWeekendLoop(c);
    }
    if IsWeekend(today) && today !in dates {
      c := BackToWeekendLoop(c - 1);
    }
  }

  /** Where the custom walk starts (streak.rs lines 290-315): two bounded searches back for
      a target day. */
  method CustomStartLoop(dates: seq<Date>, days: seq<Weekday>, today: Date) returns (c: Date)
    ensures c == CustomStart(dates, days, today)
  {
    c := today;
    if WeekdayOf(c) !in days {
      var i := 0;
      while i < 7
        invariant 0 <= i <= 7 && c == today - i
        invariant i > 0 ==> SeekDayBack(days, c, 7 - i) == SeekDayBack(days, today - 1, 6)
        invariant i == 0 ==> c == today
        invariant i > 0 ==> WeekdayOf(c) !in days
      {
        c := c - 1;
        i := i + 1;
        if WeekdayOf(c) in days {
          break;
        }
      }
    }
    if WeekdayOf(today) in days && today !in dates {
      c := c - 1;
      ghost var c1 := c;
      for i := 0 to 7
        invariant c == c1 - i
        invariant SeekDayBack(days, c, 7 - i) == SeekDayBack(days, c1, 7)
      {
        if WeekdayOf(c) in days {
          break;
        }
        c := c - 1;
      }
    }
  }

  /** Where the interval walk starts (streak.rs lines 335-354). */
  method IntervalStartLoop(dates: seq<Date>, latest: Date, n: nat, today: Date) returns (c: Date)
    requires n >= 1
    ensures c == IntervalStart(dates, latest, n, today)
  {
    if (today - latest) % n == 0 && today !in dates {
      c := today - n;
    } else {
      c := today;
      for i := 0 to n
        invariant c == today - i
        invariant SeekLoggedBack(dates, c, n - i) == SeekLoggedBack(dates, today, n)
      {
        if c in dates {
          break;
        }
        c := c - 1;
      }
    }
  }

  // The walks of the current streak.

  /** The day-by-day walk (streak.rs lines 177-184, 232-246, 272-286, 317-331): skip an
      unscheduled day, count a scheduled logged day, stop at a scheduled day with
      no entry; at most 365 iterations. */
  method WalkLoop(dates: seq<Date>, f: Frequency, start: Date) returns (n: nat)
    ensures n == Walk(dates, f, start, 365)
  {
    var c := start;
    var k: nat := 365;
    ghost var total := Walk(dates, f, c, k);
    n := 0;
    while k > 0
      invariant n + Walk(dates, f, c, k) == total
    {
      var scheduled := IsScheduledForDate(f, c);
      if scheduled && c !in dates {
        break;
      }
      if scheduled {
        WalkCounts(dates, f, c, k);
        n := n + 1;
      } else {
        WalkSkips(dates, f, c, k);
      }
      c := c - 1;
      k := k - 1;
    }
  }

  /** A scheduled date with an entry adds one to the walk. */
  lemma WalkCounts(dates: seq<Date>, f: Frequency, c: Date, k: nat)
    requires k > 0 && IsScheduledForDate(f, c) && c in dates
    ensures Walk(dates, f, c, k) == 1 + Walk(dates, f, c - 1, k - 1)
  {
  }

  /** An unscheduled date is stepped over. */
  lemma WalkSkips(dates: seq<Date>, f: Frequency, c: Date, k: nat)
    requires k > 0 && !IsScheduledForDate(f, c)
    ensures Walk(dates, f, c, k) == Walk(dates, f, c - 1, k - 1)
  {
  }

  /** The interval walk (streak.rs lines 357-364). */
  method IntervalWalkLoop(dates: seq<Date>, start: Date, n: nat) returns (r: nat)
    ensures r == IntervalRun(dates, start, n, 365)
  {
    var c := start;
    r := 0;
    for i := 0 to 365
      invariant r + IntervalRun(dates, c, n, 365 - i) == IntervalRun(dates, start, n, 365)
    {
      if c in dates {
        r := r + 1;
        c := c - n;
      } else {
        break;
      }
    }
  }

  /** The weekly walk (streak.rs lines 188-206): Monday-aligned weeks back from the current
      one, up to 52, while each holds at least `t` entries. */
  method WeeksBackLoop(dates: seq<Date>, t: nat, today: Date) returns (r: nat)
    ensures r == WeeksBack(dates, t, WeekStart(today), 52)
  {
    var current := WeekStart(today);
    r := 0;
    for w := 0 to 52
      invariant r + WeeksBack(dates, t, WeekBack(current, w), 52 - w) == WeeksBack(dates, t, current, 52)
    {
      var weekStart := WeekBack(current, w);
      var weekEnd := weekStart + 6;
      var completions := CountInRange(dates, weekStart, weekEnd);
      if completions >= t {
        r := r + 1;
      } else {
        break;
      }
      assert WeekBack(current, w + 1) == weekStart - 7;
    }
  }

  /** `calculate_current_streak` on the newest-first completion dates. */
  method CurrentStreak(newest: seq<Date>, f: Frequency, today: Date) returns (n: nat)
    requires f.Interval? ==> f.every >= 1
    ensures n == CurrentStreakOf(newest, f, today)
  {
    if newest == [] {
      return 0;
    }
    match f {
      case Daily =>
        var c := if today in newest then today else today - 1;
        n := WalkLoop(newest, f, c);
      case Weekly(t) =>
        n := WeeksBackLoop(newest, t, today);
      case Weekdays =>
        var c := WeekdaysStartLoop(newest, today);
        n := WalkLoop(newest, f, c);
      case Weekends =>
        var c := WeekendsStartLoop(newest, today);
        n := WalkLoop(newest, f, c);
      case Custom(days) =>
        var c := CustomStartLoop(newest, days, today);
        n := WalkLoop(newest, f, c);
      case Interval(every) =>
        var c := IntervalStartLoop(newest, newest[0], every, today);
        n := IntervalWalkLoop(newest, c, every);
    }
  }

  // The scans of the longest streak.

  /** The date the next entry must have to extend a run ending at `last`
      (streak.rs lines 454-459, 478-483, 502-511, 531). */
  method NextExpectedLoop(f: Frequency, last: Date) returns (e: Date)
    requires !f.Weekly?
    ensures e == NextExpected(f, last)
  {
    match f {
      case Daily =>
        e := last + 1;
      case Weekdays =>
        e := last + 1;
        while IsWeekend(e)
          invariant last + 1 <= e <= ForwardToWeekday(last + 1)
          decreases last + 4 - e
        {
          e := e + 1;
        }
      case Weekends =>
        e := last + 1;
        while !IsWeekend(e)
          invariant last + 1 <= e <= ForwardToWeekend(last + 1)
          decreases last + 7 - e
        {
          e := e + 1;
        }
      case Custom(days) =>
        e := last + 1;
        while WeekdayOf(e) !in days
          invariant last + 1 <= e <= last + 7
          invariant CustomScan(days, last, e) == CustomScan(days, last, last + 1)
          decreases last + 8 - e
        {
          e := e + 1;
          if e - last > 7 {
            break;
          }
        }
      case Interval(n) =>
        e := last + n;
    }
  }

  /** The run-length scan over the oldest-first dates (streak.rs lines 385-404 and their
      copies for the other non-weekly frequencies). */
  method LongestRunLoop(s: seq<Date>, f: Frequency) returns (longest: nat)
    requires !f.Weekly? && s != []
    ensures longest == LongestRun(s, f)
  {
    var current := 1;
    longest := 0;
    var last := s[0];
    for i := 1 to |s|
      invariant last == s[i - 1]
      invariant current == RunLen(s, f, i - 1)
      invariant Max(longest, current) == MaxRun(s, f, i - 1)
    {
      var expected := NextExpectedLoop(f, last);
      ghost var before := MaxRun(s, f, i - 1);
      if s[i] == expected {
        assert RunLen(s, f, i) == current + 1;
        current := current + 1;
      } else {
        assert RunLen(s, f, i) == 1;
        longest := Max(longest, current);
        current := 1;
      }
      assert MaxRun(s, f, i) == Max(before, current);
      last := s[i];
    }
    longest := Max(longest, current);
  }

  /** The week-count table (streak.rs lines 408-416): how many entries each week key has. */
  method CountWeeks(ks: seq<int>) returns (counts: map<int, nat>)
    ensures forall k :: k in counts <==> k in multiset(ks)
    ensures forall k :: k in counts ==> counts[k] == multiset(ks)[k]
  {
    counts := map[];
    for i := 0 to |ks|
      invariant forall k :: k in counts <==> k in multiset(ks[..i])
      invariant forall k :: k in counts ==> counts[k] == multiset(ks[..i])[k]
    {
      var key := ks[i];
      assert ks[..i + 1] == ks[..i] + [key];
      counts := counts[key := (if key in counts then counts[key] else 0) + 1];
    }
    assert ks[..|ks|] == ks;
  }

  /** The scan over the week counts in key order (streak.rs lines 422-447). */
  method WeeklyScanLoop(scheme: KeyScheme, t: nat, g: seq<WeekCount>) returns (longest: nat)
    ensures longest == ScanLongest(scheme, t, g)
  {
    var current := 0;
    longest := 0;
    var lastKey: Option<int> := None;
    for i := 0 to |g|
      invariant ScanFrom(scheme, t, ScanState(0, 0, None), g[..i]) == ScanState(current, longest, lastKey)
    {
      ScanSplit(scheme, t, ScanState(0, 0, None), g[..i], g[i]);
      assert g[..i + 1] == g[..i] + [g[i]];
      var w := g[i];
      if w.count >= t {
        if lastKey.Some? {
          if Adjacent(scheme, lastKey.value, w.key) {
            current := current + 1;
          } else {
            longest := Max(longest, current);
            current := 1;
          }
        } else {
          current := 1;
        }
        lastKey := Some(w.key);
      } else {
        longest := Max(longest, current);
        current := 0;
        lastKey := None;
      }
    }
    assert g[..|g|] == g;
    longest := Max(longest, current);
  }

  /** The longest streak of the completion dates (any order), with weeks keyed
      by `scheme`. */
  function LongestStreakOf(dates: seq<Date>, f: Frequency, scheme: KeyScheme): nat {
    if dates == [] then 0
    else if f.Weekly? then WeeklyLongest(scheme, f.times, Sorting.SortAsc(dates))
    else LongestRun(Sorting.SortAsc(dates), f)
  }

  /** `calculate_longest_streak`, with weeks keyed by `scheme`. */
  method LongestStreak(dates: seq<Date>, f: Frequency, scheme: KeyScheme) returns (n: nat)
    ensures n == LongestStreakOf(dates, f, scheme)
  {
    if dates == [] {
      return 0;
    }
    var sorted := Sorting.SortAsc(dates);
    if f.Weekly? {
      var keys := Keys(scheme, sorted);
      var counts := CountWeeks(keys);
      var weeks := Group(Sorting.SortAsc(keys));
      WeekCountsAgree(keys, counts);
      n := WeeklyScanLoop(scheme, f.times, weeks);
    } else {
      n := LongestRunLoop(sorted, f);
    }
  }

  /** The histogram in key order holds exactly the table's entries. */
  lemma WeekCountsAgree(ks: seq<int>, counts: map<int, nat>)
    requires forall k :: k in counts <==> k in multiset(ks)
    requires forall k :: k in counts ==> counts[k] == multiset(ks)[k]
    ensures var g := Group(Sorting.SortAsc(ks));
            StrictlyIncreasing(g)
            && (forall i :: 0 <= i < |g| ==> g[i].key in counts && g[i].count == counts[g[i].key])
            && (forall k :: k in counts ==> exists i :: 0 <= i < |g| && g[i].key == k)
  {
    var sorted := Sorting.SortAsc(ks);
    GroupIncreasing(sorted);
    GroupKeys(sorted);
    GroupCounts(sorted);
    assert forall k :: k in sorted <==> k in multiset(ks) by {
      forall k
        ensures k in sorted <==> k in multiset(ks)
      {
        assert k in sorted <==> k in multiset(sorted);
      }
    }
  }

  // Completion rate.

  /** How many completions the frequency expects from the creation day through
      today, both included (streak.rs lines 561-580). */
  function ExpectedCompletions(f: Frequency, createdAt: Date, today: Date): real {
    var days := (today - createdAt + 1) as real;
    match f
    case Daily => days
    case Weekly(times) => days / 7.0 * times as real
    case Weekdays => days / 7.0 * 5.0
    case Weekends => days / 7.0 * 2.0
    case _ => days
  }

  function MinReal(a: real, b: real): real {
    if a <= b then a else b
  }

  /** `calculate_completion_rate` for `count` entries: 0 with no entries or
      nothing expected, otherwise completions over expectations, at most 1. */
  function CompletionRate(count: nat, f: Frequency, createdAt: Date, today: Date): (r: real)
    ensures 0.0 <= r <= 1.0
    ensures count == 0 || ExpectedCompletions(f, createdAt, today) <= 0.0 ==> r == 0.0
    ensures (count > 0 && ExpectedCompletions(f, createdAt, today) > 0.0 ==>
               r == MinReal(count as real / ExpectedCompletions(f, createdAt, today), 1.0))
  {
    if count == 0 then 0.0
    else
      var expected := ExpectedCompletions(f, createdAt, today);
      if expected <= 0.0 then 0.0 else MinReal(count as real / expected, 1.0)
  }

  /** The rate reaches 1 exactly when the completions meet the expectation, and
      below that it is their exact ratio. */
  lemma CompletionRateMeaning(count: nat, f: Frequency, createdAt: Date, today: Date)
    requires ExpectedCompletions(f, createdAt, today) > 0.0
    ensures var e, r := ExpectedCompletions(f, createdAt, today), CompletionRate(count, f, createdAt, today);
            (r == 1.0 <==> count as real >= e) && (count as real <= e ==> r * e == count as real)
  {
    var e := ExpectedCompletions(f, createdAt, today);
    if count > 0 {
      RatioFacts(count as real, e);
    }
  }

  /** The ratio of two reals, the divisor positive: it undoes the division and
      is at least 1 exactly when the dividend is at least the divisor. */
  lemma RatioFacts(c: real, e: real)
    requires e > 0.0
    ensures (c / e) * e == c
    ensures c / e >= 1.0 <==> c >= e
  {
    var q := c / e;
    assert q * e == c;
    if q >= 1.0 {
      assert q * e >= 1.0 * e;
    } else {
      assert q * e < 1.0 * e;
    }
  }

  /** Dividing by a positive real keeps the order. */
  lemma RatioMonotone(a: real, b: real, e: real)
    requires e > 0.0 && a <= b
    ensures a / e <= b / e
  {
    RatioFacts(a, e);
    RatioFacts(b, e);
    var qa, qb := a / e, b / e;
    if qa > qb {
      assert qa * e > qb * e;
    }
  }

  /** More completions never lower the rate. */
  lemma CompletionRateMonotone(c1: nat, c2: nat, f: Frequency, createdAt: Date, today: Date)
    requires c1 <= c2
    ensures CompletionRate(c1, f, createdAt, today) <= CompletionRate(c2, f, createdAt, today)
  {
    var e := ExpectedCompletions(f, createdAt, today);
    if c1 > 0 && e > 0.0 {
      RatioMonotone(c1 as real, c2 as real, e);
    }
  }

  /** A daily habit created ten days ago (today included) with five entries is at 50%. */
  lemma CompletionRateExample(today: Date)
    ensures CompletionRate(5, Daily, today - 9, today) == 0.5
  {
  }

  // Being on track.

  /** How many days may pass since the last completion for the habit to be on
      track (streak.rs lines 116-137). */
  function OnTrackWindow(f: Frequency): nat {
    match f
    case Daily => 1
    case Weekdays => 3
    case Weekly(_) => 7
    case _ => 3
  }

  /** `is_on_track`: never on track before the first completion, otherwise on
      track while no more than the frequency's window of days has passed. */
  function IsOnTrack(s: Streak, f: Frequency, today: Date): (b: bool)
    ensures s.lastCompleted.None? ==> !b
    ensures s.lastCompleted.Some? && s.lastCompleted.value >= today ==> b
  {
    match s.lastCompleted
    case None => false
    case Some(last) => today - last <= OnTrackWindow(f)
  }

  /** Daily is the strictest test and weekly the most lenient: on track daily
      means on track for every frequency, and on track for any frequency means on
      track weekly. Completing yesterday keeps every frequency on track; a gap of
      eight days keeps none. */
  lemma OnTrackOrder(s: Streak, f: Frequency, times: u8, today: Date)
    ensures IsOnTrack(s, Daily, today) ==> IsOnTrack(s, f, today)
    ensures IsOnTrack(s, f, today) ==> IsOnTrack(s, Weekly(times), today)
    ensures s.lastCompleted == Some(today - 1) ==> IsOnTrack(s, f, today)
    ensures s.lastCompleted.Some? && today - s.lastCompleted.value >= 8 ==> !IsOnTrack(s, f, today)
  {
  }

  // Motivational messages.

  /** A message quoting the number `n` between fixed text. */
  function Quoted(opening: string, n: nat, closing: string): (m: string)
    ensures |m| == |opening| + |Decimal(n)| + |closing|
    ensures StartsWith(m, opening) && forall i :: 0 <= i < |opening| ==> m[i] == opening[i]
    ensures m[|opening|..|opening| + |Decimal(n)|] == Decimal(n)
    ensures m[|opening| + |Decimal(n)|..] == closing
  {
    opening + Decimal(n) + closing
  }

  /** A fixed message. */
  function Plain(opening: string, closing: string): (m: string)
    ensures StartsWith(m, opening) && forall i :: 0 <= i < |opening| ==> m[i] == opening[i]
  {
    opening + closing
  }

  /** `motivational_message`: one message per band of the current streak, the
      longer bands quoting the number of days (streak.rs lines 144-152). */
  function MotivationalMessage(n: nat): (m: string)
    ensures n == 0 ==> StartsWith(m, "Ready to start")
    ensures n == 1 ==> StartsWith(m, "Great start!")
    ensures 2 <= n <= 6 ==> StartsWith(m, "Nice work! ")
    ensures 7 <= n <= 13 ==> StartsWith(m, "Excellent! ")
    ensures 14 <= n <= 29 ==> StartsWith(m, "Amazing! ")
    ensures 30 <= n <= 99 ==> StartsWith(m, "Incredible! ")
    ensures n >= 100 ==> StartsWith(m, "Legendary! ")
  {
    if n == 0 then Plain("Ready to start", Closing(0))
    else if n == 1 then Plain("Great start!", Closing(1))
    else if n <= 6 then Quoted("Nice work! ", n, Closing(2))
    else if n <= 13 then Quoted("Excellent! ", n, Closing(3))
    else if n <= 29 then Quoted("Amazing! ", n, Closing(4))
    else if n <= 99 then Quoted("Incredible! ", n, Closing(5))
    else Quoted("Legendary! ", n, Closing(6))
  }

  /** The text that closes each band's message. */
  function Closing(band: nat): string {
    if band == 0 then " your streak! Every journey begins with a single step."
    else if band == 1 then " One day down, keep the momentum going."
    else if band == 2 then " days in a row. You're building a strong habit."
    else if band == 3 then " days strong. You're in the groove now!"
    else if band == 4 then " days straight. This is becoming second nature."
    else if band == 5 then " days of consistency. You're a habit master!"
    else " days of unwavering commitment. You're an inspiration!"
  }

  /** The same text quoting two numbers quotes the same number. */
  lemma QuotedInjective(opening: string, a: nat, b: nat, closing: string)
    requires Quoted(opening, a, closing) == Quoted(opening, b, closing)
    ensures a == b
  {
    var m := Quoted(opening, a, closing);
    assert |Decimal(a)| == |Decimal(b)|;
    assert Decimal(a) == m[|opening|..|opening| + |Decimal(a)|] == Decimal(b);
    DecimalInjective(a, b);
  }

  /** The band of a streak: 0, 1, 2-6, 7-13, 14-29, 30-99, 100 and up. */
  function Band(n: nat): (b: nat)
    ensures b < 7
  {
    if n == 0 then 0 else if n == 1 then 1 else if n <= 6 then 2 else if n <= 13 then 3
    else if n <= 29 then 4 else if n <= 99 then 5 else 6
  }

  /** Each band's message opens with its own letter. */
  lemma MessageOpening(n: nat)
    ensures MotivationalMessage(n) != [] && MotivationalMessage(n)[0] == BandLetter(Band(n))
  {
    if n <= 1 {
      LowOpening(n);
    } else if n <= 13 {
      MiddleOpening(n);
    } else {
      HighOpening(n);
    }
  }

  lemma LowOpening(n: nat)
    requires n <= 1
    ensures MotivationalMessage(n) != [] && MotivationalMessage(n)[0] == BandLetter(Band(n))
  {
    if n == 0 {
      OpeningLetter(MotivationalMessage(n), "Ready to start");
    } else {
      OpeningLetter(MotivationalMessage(n), "Great start!");
    }
  }

  lemma MiddleOpening(n: nat)
    requires 2 <= n <= 13
    ensures MotivationalMessage(n) != [] && MotivationalMessage(n)[0] == BandLetter(Band(n))
  {
    if n <= 6 {
      OpeningLetter(MotivationalMessage(n), "Nice work! ");
    } else {
      OpeningLetter(MotivationalMessage(n), "Excellent! ");
    }
  }

  lemma HighOpening(n: nat)
    requires n >= 14
    ensures MotivationalMessage(n) != [] && MotivationalMessage(n)[0] == BandLetter(Band(n))
  {
    if n <= 29 {
      OpeningLetter(MotivationalMessage(n), "Amazing! ");
    } else if n <= 99 {
      OpeningLetter(MotivationalMessage(n), "Incredible! ");
    } else {
      OpeningLetter(MotivationalMessage(n), "Legendary! ");
    }
  }

  lemma OpeningLetter(m: string, opening: string)
    requires opening != [] && StartsWith(m, opening)
    ensures m != [] && m[0] == opening[0]
  {
    assert m[..|opening|][0] == opening[0];
  }

  /** The first letter of each band's message. */
  function BandLetter(b: nat): char {
    if b == 0 then 'R' else if b == 1 then 'G' else if b == 2 then 'N' else if b == 3 then 'E'
    else if b == 4 then 'A' else if b == 5 then 'I' else 'L'
  }

  lemma SameOpeningSameBand(a: nat, b: nat)
    requires MotivationalMessage(a) == MotivationalMessage(b)
    ensures Band(a) == Band(b)
  {
    MessageOpening(a);
    MessageOpening(b);
    BandLetterInjective(Band(a), Band(b));
  }

  /** The seven band letters are different. */
  lemma BandLetterInjective(i: nat, j: nat)
    requires i < 7 && j < 7 && BandLetter(i) == BandLetter(j)
    ensures i == j
  {
  }

  /** Different streaks get different messages: the message tells the streak. */
  lemma MotivationalMessageInjective(a: nat, b: nat)
    requires MotivationalMessage(a) == MotivationalMessage(b)
    ensures a == b
  {
    SameOpeningSameBand(a, b);
    if Band(a) <= 3 {
      LowerBandsInjective(a, b);
    } else {
      UpperBandsInjective(a, b);
    }
  }

  lemma LowerBandsInjective(a: nat, b: nat)
    requires MotivationalMessage(a) == MotivationalMessage(b) && Band(a) == Band(b) <= 3
    ensures a == b
  {
    if Band(a) == 2 {
      QuotedInjective("Nice work! ", a, b, " days in a row. You're building a strong habit.");
    } else if Band(a) == 3 {
      QuotedInjective("Excellent! ", a, b, " days strong. You're in the groove now!");
    }
  }

  lemma UpperBandsInjective(a: nat, b: nat)
    requires MotivationalMessage(a) == MotivationalMessage(b) && 4 <= Band(a) == Band(b)
    ensures a == b
  {
    if Band(a) == 4 {
      QuotedInjective("Amazing! ", a, b, " days straight. This is becoming second nature.");
    } else if Band(a) == 5 {
      QuotedInjective("Incredible! ", a, b, " days of consistency. You're a habit master!");
    } else {
      QuotedInjective("Legendary! ", a, b, " days of unwavering commitment. You're an inspiration!");
    }
  }

  // The record.

  /** The record `calculate_from_entries` builds from the completion dates of a
      habit's entries, in any order. `scheme` says how weekly habits' weeks are
      keyed: `AsWritten` is the source's `year * 100 + iso_week` key, `Corrected`
      the Monday of the week. */
  function StreakOf(habitId: HabitId, dates: seq<Date>, f: Frequency, createdAt: Date, today: Date,
                    scheme: KeyScheme): (s: Streak)
    requires f.Interval? ==> f.every >= 1
    ensures s.habitId == habitId && s.totalCompletions == |dates|
    ensures s.longestStreak >= s.currentStreak
    ensures 0.0 <= s.completionRate <= 1.0
    ensures dates == [] ==> s == NewStreak(habitId)
  {
    if dates == [] then NewStreak(habitId)
    else
      var newest := Sorting.SortDesc(dates);
      var current := CurrentStreakOf(newest, f, today);
      var longest := LongestStreakOf(dates, f, scheme);
      Streak(habitId, current, Max(longest, current), Some(newest[0]), |dates|,
             CompletionRate(|newest|, f, createdAt, today))
  }

  /** `calculate_from_entries`: sort the entries newest first, then assemble the
      current streak, the longest streak (never below the current one), the
      latest completion, the count and the rate. */
  method CalculateFromEntries(habitId: HabitId, entries: seq<Entries.HabitEntry>, f: Frequency,
                              createdAt: Date, today: Date, scheme: KeyScheme) returns (s: Streak)
    requires f.Interval? ==> f.every >= 1
    ensures s == StreakOf(habitId, CompletionDates(entries), f, createdAt, today, scheme)
  {
    var dates := CompletionDates(entries);
    if entries == [] {
      return NewStreak(habitId);
    }
    var newest := Sorting.SortDesc(dates);
    var total := |entries|;
    var last := Some(newest[0]);
    var current := CurrentStreak(newest, f, today);
    var longest := LongestStreak(newest, f, scheme);
    SortedLongest(dates, newest, f, scheme);
    var rate := CompletionRate(|newest|, f, createdAt, today);
    s := Streak(habitId, current, Max(longest, current), last, total, rate);
  }

  /** The record at the year boundary: a weekly habit logged on 2024-12-23 and
      2025-01-01, seen on 2025-01-20 when its current week is empty, has a
      longest streak of 1 with the source's keys and 2 with Monday keys. */
  lemma RecordAtYearBoundary(habitId: HabitId, dec23: Date, jan1: Date, today: Date)
    requires dec23 == 20080 && jan1 == 20089 && today == 20108
    ensures StreakOf(habitId, [dec23, jan1], Weekly(1), dec23, today, AsWritten).longestStreak == 1
    ensures StreakOf(habitId, [dec23, jan1], Weekly(1), dec23, today, Corrected).longestStreak == 2
  {
    var dates := [dec23, jan1];
    SortTwo(dec23, jan1);
    NoCurrentWeek(dates, 1, today);
    WeeklyBuckets.AsWrittenYearBoundary(dec23, jan1);
    WeeklyBuckets.CorrectedYearBoundary(dec23, jan1);
  }

  lemma SortTwo(a: Date, b: Date)
    requires a < b
    ensures Sorting.SortAsc([a, b]) == [a, b]
  {
    var r := Sorting.SortAsc([a, b]);
    assert r[0] in multiset([a, b]) && r[1] in multiset([a, b]);
  }

  /** A weekly habit with no entry since the start of the current week has a
      current streak of 0. */
  lemma NoCurrentWeek(dates: seq<Date>, t: u8, today: Date)
    requires dates != [] && 1 <= t
    requires forall i :: 0 <= i < |dates| ==> dates[i] < today - 6
    ensures CurrentStreakOf(Sorting.SortDesc(dates), Weekly(t), today) == 0
  {
    var newest := Sorting.SortDesc(dates);
    forall i | 0 <= i < |newest|
      ensures newest[i] < WeekStart(today)
    {
      assert newest[i] in multiset(dates);
    }
    NoneInRange(newest, WeekStart(today), WeekStart(today) + 6);
    WeeklyCurrentStreak(newest, t, today);
  }

  lemma {:induction false} NoneInRange(dates: seq<Date>, lo: Date, hi: Date)
    requires forall i :: 0 <= i < |dates| ==> dates[i] < lo
    ensures CountInRange(dates, lo, hi) == 0
  {
    if dates != [] {
      NoneInRange(dates[1..], lo, hi);
    }
  }

  /** The longest streak does not depend on the order of the dates. */
  lemma SortedLongest(dates: seq<Date>, other: seq<Date>, f: Frequency, scheme: KeyScheme)
    requires multiset(other) == multiset(dates)
    ensures LongestStreakOf(other, f, scheme) == LongestStreakOf(dates, f, scheme)
  {
    SortAscUnique(Sorting.SortAsc(other), Sorting.SortAsc(dates));
  }

  /** Two sorted sequences with the same elements are equal. */
  lemma {:induction false} SortAscUnique(a: seq<int>, b: seq<int>)
    requires Sorting.IsSortedAsc(a) && Sorting.IsSortedAsc(b) && multiset(a) == multiset(b)
    ensures a == b
    decreases |a|
  {
    if a != [] {
      SortedHeads(a, b);
      TailMultiset(a);
      TailMultiset(b);
      SortAscUnique(a[1..], b[1..]);
      assert a == [a[0]] + a[1..] && b == [b[0]] + b[1..];
    } else {
      assert |multiset(b)| == 0;
    }
  }

  /** ... starting with the same, smallest, element. */
  lemma SortedHeads(a: seq<int>, b: seq<int>)
    requires Sorting.IsSortedAsc(a) && Sorting.IsSortedAsc(b) && multiset(a) == multiset(b) && a != []
    ensures b != [] && a[0] == b[0]
  {
    assert a[0] in multiset(b);
    var i :| 0 <= i < |b| && b[i] == a[0];
    assert b[0] in multiset(a);
    var j :| 0 <= j < |a| && a[j] == b[0];
    assert a[0] <= a[j] && b[0] <= b[i];
  }

  lemma TailMultiset(a: seq<int>)
    requires a != []
    ensures multiset(a[1..]) == multiset(a) - multiset{a[0]}
  {
    assert a == [a[0]] + a[1..];
  }

  /** The latest completion is the latest of the completion dates, and the
      current streak is that of the newest-first order. */
  lemma StreakOfFields(habitId: HabitId, dates: seq<Date>, f: Frequency, createdAt: Date, today: Date,
                       scheme: KeyScheme)
    requires f.Interval? ==> f.every >= 1
    requires dates != []
    ensures var s := StreakOf(habitId, dates, f, createdAt, today, scheme);
            s.lastCompleted.Some? && s.lastCompleted.value in dates
            && (forall d :: d in dates ==> d <= s.lastCompleted.value)
            && s.currentStreak == CurrentStreakOf(Sorting.SortDesc(dates), f, today)
            && s.completionRate == CompletionRate(|dates|, f, createdAt, today)
  {
    Sorting.FirstIsLatest(dates);
  }

  /** For non-weekly frequencies the longest streak of a non-empty history lies
      between 1 and the number of entries. */
  lemma LongestBounds(dates: seq<Date>, f: Frequency, scheme: KeyScheme)
    requires dates != [] && !f.Weekly?
    ensures 1 <= LongestStreakOf(dates, f, scheme) <= |dates|
  {
  }
}
