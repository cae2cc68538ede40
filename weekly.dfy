/** The weekly longest streak (`Frequency::Weekly(t)` in
    `calculate_longest_streak`): entries are counted per week, the weeks are
    sorted by key, and the longest run of consecutive weeks holding at least `t`
    entries each is the result.

    Two keyings of a week are modelled. `AsWritten` is the source's
    `year() * 100 + iso_week().week()` with its adjacency test "next key, or a
    key more than 50 and less than 60 above". `Corrected` keys a week by its
    Monday, so the next week's key is 7 more. The streak engine uses
    `Corrected`; the lemmas at the end show where the two differ. */
module WeeklyBuckets {
  import opened Calendar
  import opened Wrappers
  import Sorting

  datatype KeyScheme = AsWritten | Corrected

  /** The key of the week `d` falls in. */
  function WeekKey(scheme: KeyScheme, d: Date): int {
    match scheme
    case AsWritten => YearOf(d) * 100 + IsoWeekNumber(d)
    case Corrected => WeekStart(d)
  }

  /** Whether week key `k` comes right after week key `last`. */
  predicate Adjacent(scheme: KeyScheme, last: int, k: int) {
    match scheme
    case AsWritten => k == last + 1 || (k > last + 50 && k < last + 60)
    case Corrected => k == last + 7
  }

  function Keys(scheme: KeyScheme, dates: seq<Date>): (ks: seq<int>)
    ensures |ks| == |dates|
    ensures forall i :: 0 <= i < |dates| ==> ks[i] == WeekKey(scheme, dates[i])
  {
    if dates == [] then [] else [WeekKey(scheme, dates[0])] + Keys(scheme, dates[1..])
  }

  /** A week and the number of entries in it. */
  datatype WeekCount = WeekCount(key: int, count: nat)

  predicate StrictlyIncreasing(g: seq<WeekCount>) {
    forall i, j :: 0 <= i < j < |g| ==> g[i].key < g[j].key
  }

  /** The histogram of sorted keys: one element per distinct key, in key order,
      with the number of times the key occurs (the `HashMap` of week counts,
      collected and sorted by key). */
  function Group(s: seq<int>): (g: seq<WeekCount>)
    ensures |g| <= |s|
    ensures s != [] ==> g != [] && g[0].key == s[0]
  {
    if s == [] then []
    else
      var rest := Group(s[1..]);
      if rest != [] && rest[0].key == s[0] then
        [WeekCount(s[0], rest[0].count + 1)] + rest[1..]
      else
        [WeekCount(s[0], 1)] + rest
  }

  /** Every key of the histogram occurs in `s`, and every key of `s` has an
      element. */
  lemma {:induction false} GroupKeys(s: seq<int>)
    ensures forall i :: 0 <= i < |Group(s)| ==> Group(s)[i].key in s
    ensures forall x :: x in s ==> exists i :: 0 <= i < |Group(s)| && Group(s)[i].key == x
  {
    if s != [] {
      GroupKeys(s[1..]);
      var rest := Group(s[1..]);
      var g := Group(s);
      forall i | 0 <= i < |g|
        ensures g[i].key in s
      {
        if i > 0 {
          if rest[0].key == s[0] {
            assert g[i] == rest[i];
          } else {
            assert g[i] == rest[i - 1];
          }
        }
      }
      forall x | x in s
        ensures exists i :: 0 <= i < |g| && g[i].key == x
      {
        if x != s[0] {
          assert x in s[1..];
          var k :| 0 <= k < |rest| && rest[k].key == x;
          if rest[0].key == s[0] {
            assert k > 0 && g[k] == rest[k];
          } else {
            assert g[k + 1] == rest[k];
          }
        } else {
          assert g[0].key == x;
        }
      }
    }
  }

  /** For sorted keys the histogram's keys strictly increase. */
  lemma {:induction false} GroupIncreasing(s: seq<int>)
    requires Sorting.IsSortedAsc(s)
    ensures StrictlyIncreasing(Group(s))
  {
    if s != [] && s[1..] != [] {
      var rest := Group(s[1..]);
      GroupIncreasing(s[1..]);
      assert rest[0].key == s[1] >= s[0];
      var g := Group(s);
      if rest[0].key == s[0] {
        assert g == [WeekCount(s[0], rest[0].count + 1)] + rest[1..];
        forall i, j | 0 <= i < j < |g|
          ensures g[i].key < g[j].key
        {
          assert g[j] == rest[j];
          if i > 0 {
            assert g[i] == rest[i];
          }
        }
      } else {
        assert g == [WeekCount(s[0], 1)] + rest;
        forall i, j | 0 <= i < j < |g|
          ensures g[i].key < g[j].key
        {
          assert g[j] == rest[j - 1];
          assert rest[0].key <= rest[j - 1].key;
          if i > 0 {
            assert g[i] == rest[i - 1];
          }
        }
      }
    }
  }

  /** Past its head, the histogram of sorted keys is the histogram of the tail
      with the head's key left out. */
  lemma {:induction false} GroupTail(s: seq<int>, i: nat) returns (j: nat)
    requires Sorting.IsSortedAsc(s) && s != [] && 0 < i < |Group(s)|
    ensures j < |Group(s[1..])| && Group(s)[i] == Group(s[1..])[j] && Group(s)[i].key != s[0]
  {
    var rest := Group(s[1..]);
    GroupIncreasing(s[1..]);
    var merged := rest != [] && rest[0].key == s[0];
    j := if merged then i else i - 1;
    assert Group(s)[i] == rest[j];
    if merged {
      assert rest[0].key < rest[j].key;
    } else {
      assert rest[0].key == s[1] >= s[0];
      assert rest[0].key <= rest[j].key;
    }
  }

  /** The head element of the histogram counts the head key. */
  lemma {:induction false} GroupHead(s: seq<int>)
    requires Sorting.IsSortedAsc(s) && s != []
    requires forall i :: 0 <= i < |Group(s[1..])| ==> Group(s[1..])[i].count == multiset(s[1..])[Group(s[1..])[i].key]
    ensures Group(s)[0].count == multiset(s)[s[0]]
  {
    var rest := Group(s[1..]);
    assert s == [s[0]] + s[1..];
    assert multiset(s)[s[0]] == multiset(s[1..])[s[0]] + 1;
    if rest != [] && rest[0].key == s[0] {
      assert Group(s)[0].count == rest[0].count + 1;
    } else {
      // The tail's smallest key is not the head, so no later key is.
      assert forall k :: 1 <= k < |s| ==> s[0] < s[1] <= s[k];
      assert s[0] !in s[1..];
    }
  }

  /** For sorted keys each element of the histogram counts its key's
      occurrences. */
  lemma {:induction false} GroupCounts(s: seq<int>)
    requires Sorting.IsSortedAsc(s)
    ensures forall i :: 0 <= i < |Group(s)| ==> Group(s)[i].count == multiset(s)[Group(s)[i].key]
  {
    if s != [] {
      GroupCounts(s[1..]);
      GroupHead(s);
      var rest := Group(s[1..]);
      var g := Group(s);
      forall i | 0 < i < |g|
        ensures g[i].count == multiset(s)[g[i].key]
      {
        var j := GroupTail(s, i);
        assert s == [s[0]] + s[1..];
        assert multiset(s)[g[i].key] == multiset(s[1..])[g[i].key];
      }
    }
  }

  /** The cursor of the scan: the current run of qualifying weeks, the longest
      run closed so far, and the key of the previous week if it qualified. */
  datatype ScanState = ScanState(current: nat, longest: nat, lastKey: Option<int>)

  function Max(a: nat, b: nat): nat {
    if a >= b then a else b
  }

  /** One iteration of the scan over the sorted week counts. */
  function Step(scheme: KeyScheme, t: nat, st: ScanState, w: WeekCount): ScanState {
    if w.count >= t then
      if st.lastKey.Some? then
        if Adjacent(scheme, st.lastKey.value, w.key) then ScanState(st.current + 1, st.longest, Some(w.key))
        else ScanState(1, Max(st.longest, st.current), Some(w.key))
      else ScanState(1, st.longest, Some(w.key))
    else ScanState(0, Max(st.longest, st.current), None)
  }

  function ScanFrom(scheme: KeyScheme, t: nat, st: ScanState, g: seq<WeekCount>): ScanState
    decreases |g|
  {
    if g == [] then st else ScanFrom(scheme, t, Step(scheme, t, st, g[0]), g[1..])
  }

  /** The longest weekly streak of the given counts. */
  function ScanLongest(scheme: KeyScheme, t: nat, g: seq<WeekCount>): nat {
    var st := ScanFrom(scheme, t, ScanState(0, 0, None), g);
    Max(st.longest, st.current)
  }

  /** The longest weekly streak of the week keys of all entries. */
  function LongestOfKeys(scheme: KeyScheme, t: nat, ks: seq<int>): nat {
    ScanLongest(scheme, t, Group(Sorting.SortAsc(ks)))
  }

  /** The longest weekly streak of the completion dates. */
  function WeeklyLongest(scheme: KeyScheme, t: nat, dates: seq<Date>): nat {
    LongestOfKeys(scheme, t, Keys(scheme, dates))
  }

  // What the scan computes.

  /** The number of consecutive qualifying weeks ending at `g[i]` (0 when `g[i]`
      does not qualify). */
  function RunAt(scheme: KeyScheme, t: nat, g: seq<WeekCount>, i: nat): (n: nat)
    requires i < |g|
    ensures n <= i + 1
    ensures n > 0 <==> g[i].count >= t
  {
    if g[i].count < t then 0
    else if i > 0 && g[i - 1].count >= t && Adjacent(scheme, g[i - 1].key, g[i].key) then RunAt(scheme, t, g, i - 1) + 1
    else 1
  }

  /** The longest run ending at or before `g[i]`. */
  function BestUpTo(scheme: KeyScheme, t: nat, g: seq<WeekCount>, i: nat): (n: nat)
    requires i < |g|
    ensures n <= i + 1
  {
    if i == 0 then RunAt(scheme, t, g, 0) else Max(BestUpTo(scheme, t, g, i - 1), RunAt(scheme, t, g, i))
  }

  /** After `i` week counts the scan holds the run ending at the last of them, and
      the longest run so far is the larger of its two counters. */
  lemma {:induction false} ScanPrefix(scheme: KeyScheme, t: nat, g: seq<WeekCount>, i: nat)
    requires 0 < i <= |g|
    ensures var st := ScanFrom(scheme, t, ScanState(0, 0, None), g[..i]);
            st.current == RunAt(scheme, t, g, i - 1)
            && st.lastKey == (if g[i - 1].count >= t then Some(g[i - 1].key) else None)
            && Max(st.longest, st.current) == BestUpTo(scheme, t, g, i - 1)
  {
    ScanSplit(scheme, t, ScanState(0, 0, None), g[..i - 1], g[i - 1]);
    assert g[..i] == g[..i - 1] + [g[i - 1]];
    if i > 1 {
      ScanPrefix(scheme, t, g, i - 1);
    }
  }

  /** Scanning one more week count is one more step. */
  lemma {:induction false} ScanSplit(scheme: KeyScheme, t: nat, st: ScanState, g: seq<WeekCount>, w: WeekCount)
    ensures ScanFrom(scheme, t, st, g + [w]) == Step(scheme, t, ScanFrom(scheme, t, st, g), w)
    decreases |g|
  {
    if g != [] {
      assert (g + [w])[1..] == g[1..] + [w];
      ScanSplit(scheme, t, Step(scheme, t, st, g[0]), g[1..], w);
    }
  }

  /** The scan's result is the longest run of consecutive qualifying weeks. */
  lemma ScanLongestIsBest(scheme: KeyScheme, t: nat, g: seq<WeekCount>)
    requires g != []
    ensures ScanLongest(scheme, t, g) == BestUpTo(scheme, t, g, |g| - 1)
  {
    ScanPrefix(scheme, t, g, |g|);
    assert g[..|g|] == g;
  }

  /** `g[a..=b]` is a run of consecutive qualifying weeks. */
  ghost predicate IsWeekRun(scheme: KeyScheme, t: nat, g: seq<WeekCount>, a: nat, b: nat) {
    a <= b < |g| && (forall k :: a <= k <= b ==> g[k].count >= t)
    && (forall k :: a < k <= b ==> Adjacent(scheme, g[k - 1].key, g[k].key))
  }

  lemma {:induction false} RunAtIsMaximal(scheme: KeyScheme, t: nat, g: seq<WeekCount>, i: nat)
    requires i < |g|
    ensures g[i].count >= t ==> IsWeekRun(scheme, t, g, i + 1 - RunAt(scheme, t, g, i), i)
    ensures forall a :: 0 <= a <= i && IsWeekRun(scheme, t, g, a, i) ==> i + 1 - a <= RunAt(scheme, t, g, i)
  {
    if i > 0 {
      RunAtIsMaximal(scheme, t, g, i - 1);
      forall a | 0 <= a <= i && IsWeekRun(scheme, t, g, a, i)
        ensures i + 1 - a <= RunAt(scheme, t, g, i)
      {
        if a < i {
          assert IsWeekRun(scheme, t, g, a, i - 1);
        }
      }
    }
  }

  /** The longest weekly streak is the length of a run of consecutive qualifying
      weeks (or 0 when no week qualifies), and no such run is longer. */
  lemma {:induction false} BestIsLongestWeekRun(scheme: KeyScheme, t: nat, g: seq<WeekCount>, i: nat)
    requires i < |g|
    ensures forall a, b :: 0 <= a <= b <= i && IsWeekRun(scheme, t, g, a, b) ==> b + 1 - a <= BestUpTo(scheme, t, g, i)
    ensures BestUpTo(scheme, t, g, i) > 0 ==>
              exists b :: 0 <= b <= i && BestUpTo(scheme, t, g, i) == RunAt(scheme, t, g, b)
                          && IsWeekRun(scheme, t, g, b + 1 - RunAt(scheme, t, g, b), b)
    ensures BestUpTo(scheme, t, g, i) == 0 <==> forall k :: 0 <= k <= i ==> g[k].count < t
  {
    RunAtIsMaximal(scheme, t, g, i);
    if i > 0 {
      BestIsLongestWeekRun(scheme, t, g, i - 1);
      forall a, b | 0 <= a <= b <= i && IsWeekRun(scheme, t, g, a, b)
        ensures b + 1 - a <= BestUpTo(scheme, t, g, i)
      {
        if b == i {
          assert i + 1 - a <= RunAt(scheme, t, g, i);
        }
      }
      if BestUpTo(scheme, t, g, i) > 0 && BestUpTo(scheme, t, g, i) == RunAt(scheme, t, g, i) {
        assert IsWeekRun(scheme, t, g, i + 1 - RunAt(scheme, t, g, i), i);
      }
    }
  }

  // Where the source's keying goes wrong.

  // Single calendar facts, one per lemma so each stays small.

  lemma Dec23IsMonday() ensures WeekdayOf(20080) == Mon {}
  lemma Jan1IsWednesday() ensures WeekdayOf(20089) == Wed {}
  lemma Dec30IsMonday() ensures WeekdayOf(20087) == Mon {}
  lemma YearOfDec23() ensures YearOf(20080) == 2024 {}
  lemma YearOfDec26() ensures YearOf(20083) == 2024 {}
  lemma YearOfDec30() ensures YearOf(20087) == 2024 {}
  lemma YearOfJan1() ensures YearOf(20089) == 2025 {}
  lemma YearOfJan2() ensures YearOf(20090) == 2025 {}
  lemma NewYear2024() ensures DaysFromCivil(2024, 1, 1) == 19723 {}
  lemma NewYear2025() ensures DaysFromCivil(2025, 1, 1) == 20089 {}

  /** 2024-12-23 (day 20080) lies in ISO week 52 of 2024, key 202452. */
  lemma KeyOfDec23(d: Date)
    requires d == 20080
    ensures WeekStart(d) == d && WeekKey(AsWritten, d) == 202452
  {
    Dec23IsMonday();
    YearOfDec23();
    YearOfDec26();
    NewYear2024();
  }

  /** 2025-01-01 (day 20089) lies in ISO week 1 of 2025, key 202501. */
  lemma KeyOfJan1(d: Date)
    requires d == 20089
    ensures WeekStart(d) == d - 2 && WeekKey(AsWritten, d) == 202501
  {
    Jan1IsWednesday();
    YearOfJan1();
    YearOfJan2();
    NewYear2025();
  }

  /** 2024-12-30 (day 20087), a Monday of ISO week 1 of 2025, gets the key 202401
      from its calendar year: it sorts before every other week of 2024. */
  lemma KeyOfDec30(d: Date)
    requires d == 20087
    ensures WeekStart(d) == d && WeekKey(AsWritten, d) == 202401
  {
    Dec30IsMonday();
    YearOfDec30();
    YearOfJan2();
    NewYear2025();
  }

  /** Two entries in different weeks: a streak of 2 when the weeks are
      adjacent, else 1. */
  lemma TwoWeeks(scheme: KeyScheme, ka: int, kb: int)
    requires ka < kb
    ensures LongestOfKeys(scheme, 1, [ka, kb]) == if Adjacent(scheme, ka, kb) then 2 else 1
  {
    assert Sorting.SortAsc([kb]) == [kb];
    assert Sorting.SortAsc([ka, kb]) == [ka, kb];
    assert Group([kb]) == [WeekCount(kb, 1)];
    var g := [WeekCount(ka, 1), WeekCount(kb, 1)];
    assert Group([ka, kb]) == g;
    var st1 := ScanState(1, 0, Some(ka));
    assert Step(scheme, 1, ScanState(0, 0, None), g[0]) == st1;
    assert g[1..] == [g[1]] && g[1..][1..] == [];
    var st2 := Step(scheme, 1, st1, g[1]);
    assert ScanFrom(scheme, 1, st2, []) == st2;
    assert ScanFrom(scheme, 1, st1, [g[1]]) == st2;
    assert ScanFrom(scheme, 1, ScanState(0, 0, None), g) == st2;
  }

  lemma KeysOfTwo(scheme: KeyScheme, a: Date, b: Date)
    ensures Keys(scheme, [a, b]) == [WeekKey(scheme, a), WeekKey(scheme, b)]
  {
    assert [a, b][1..] == [b];
  }

  /** As written, week 52 of 2024 and week 1 of 2025 are not adjacent: the keys
      differ by 49, outside both tests, so two weeks in a row count as 1. */
  lemma AsWrittenYearBoundary(dec23: Date, jan1: Date)
    requires dec23 == 20080 && jan1 == 20089
    ensures WeekStart(jan1) == WeekStart(dec23) + 7
    ensures !Adjacent(AsWritten, WeekKey(AsWritten, dec23), WeekKey(AsWritten, jan1))
    ensures WeeklyLongest(AsWritten, 1, [dec23, jan1]) == 1
  {
    KeyOfDec23(dec23);
    KeyOfJan1(jan1);
    KeysOfTwo(AsWritten, dec23, jan1);
    TwoWeeks(AsWritten, 202452, 202501);
  }

  /** As written, a later day can get a smaller key than an earlier one. */
  lemma AsWrittenKeyOutOfOrder(dec23: Date, dec30: Date)
    requires dec23 == 20080 && dec30 == 20087
    ensures dec23 < dec30 && WeekKey(AsWritten, dec30) < WeekKey(AsWritten, dec23)
  {
    KeyOfDec23(dec23);
    KeyOfDec30(dec30);
  }

  /** Keyed by their Mondays, the same two weeks are adjacent and form a
      two-week streak. */
  lemma CorrectedYearBoundary(dec23: Date, jan1: Date)
    requires dec23 == 20080 && jan1 == 20089
    ensures Adjacent(Corrected, WeekKey(Corrected, dec23), WeekKey(Corrected, jan1))
    ensures WeeklyLongest(Corrected, 1, [dec23, jan1]) == 2
  {
    KeyOfDec23(dec23);
    KeyOfJan1(jan1);
    KeysOfTwo(Corrected, dec23, jan1);
    TwoWeeks(Corrected, dec23, dec23 + 7);
  }

  /** Keyed by their Mondays, keys follow the calendar, and two weeks are adjacent
      exactly when the second is the week after the first. */
  lemma CorrectedKeys(a: Date, b: Date)
    ensures a <= b ==> WeekKey(Corrected, a) <= WeekKey(Corrected, b)
    ensures Adjacent(Corrected, WeekKey(Corrected, a), WeekKey(Corrected, b)) <==> WeekStart(b) == WeekStart(a + 7)
  {
    WeekStartNext(a);
    if a <= b {
      WeekStartIff(b, WeekStart(b));
      if WeekStart(b) < WeekStart(a) {
        WeekStartIff(a, WeekStart(b));
      }
    }
  }
}
