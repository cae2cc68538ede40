/** The `habit_log` tool: checks the request, records a completion entry and
    then updates the habit's stored streak with the tool's own incremental rule
    (which counts logs rather than recomputing the streak from the entries). */
module LogTool {
  import opened Wrappers
  import opened Calendar
  import opened Types
  import opened Text
  import opened Entries
  import opened Habits
  import opened Storage
  import opened HabitStore
  import opened Streaks
  import Sorting
  import WeeklyBuckets
  import StreakRuns

  datatype LogHabitParams = LogHabitParams(
    habitId: string,
    completedAt: Option<string>,
    value: Option<u32>,
    intensity: Option<u8>,
    notes: Option<string>)

  datatype LogHabitResponse = LogHabitResponse(success: bool, message: string, currentStreak: Option<nat>)

  /** `calculate_habit_streak` on a stored streak row: the current streak is
      started or extended by one whatever the date, the longest streak follows
      it, one more completion is counted and the rate is the placeholder 0.8. */
  function AfterLog(s: Streak, date: Date): (r: Streak)
    ensures r.habitId == s.habitId && r.lastCompleted == Some(date)
    ensures r.currentStreak == (if s.currentStreak == 0 then 1 else s.currentStreak + 1)
    ensures r.longestStreak == (if r.currentStreak > s.longestStreak then r.currentStreak else s.longestStreak)
    ensures r.longestStreak >= r.currentStreak >= 1 && r.longestStreak >= s.longestStreak
    ensures r.totalCompletions == s.totalCompletions + 1 && r.completionRate == 0.8
  {
    var current := s.currentStreak + 1;
    Streak(s.habitId, current, if current > s.longestStreak then current else s.longestStreak,
           Some(date), s.totalCompletions + 1, 0.8)
  }

  /** The streak row after logging each of `dates` in turn. */
  function LogAll(s: Streak, dates: seq<Date>): Streak
    decreases |dates|
  {
    if dates == [] then s else LogAll(AfterLog(s, dates[0]), dates[1..])
  }

  /** Starting from no streak row, the incremental rule only counts: after any
      `k` logs, whatever their dates, the current streak, the longest streak and
      the total are all `k`. */
  lemma {:induction false} LogAllCounts(s: Streak, dates: seq<Date>)
    requires s.currentStreak == s.longestStreak == s.totalCompletions
    ensures var r := LogAll(s, dates);
            r.habitId == s.habitId
            && r.currentStreak == r.longestStreak == r.totalCompletions == s.totalCompletions + |dates|
            && (dates != [] ==> r.lastCompleted == Some(dates[|dates| - 1]))
    decreases |dates|
  {
    if dates != [] {
      LogAllCounts(AfterLog(s, dates[0]), dates[1..]);
      if |dates| > 1 {
        assert dates[1..][|dates[1..]| - 1] == dates[|dates| - 1];
      }
    }
  }

  /** The count differs from the streak the engine computes from the entries:
      two daily logs five days apart count as a streak of 2, while the engine
      gives a longest run of 1. */
  lemma LogCountIsNotTheStreak(habitId: HabitId, d: Date)
    ensures LogAll(NewStreak(habitId), [d, d + 5]).currentStreak == 2
    ensures LongestStreakOf([d, d + 5], Daily, WeeklyBuckets.Corrected) == 1
  {
    LogAllCounts(NewStreak(habitId), [d, d + 5]);
    var s := [d, d + 5];
    SortAscUnique(Sorting.SortAsc(s), s);
    assert StreakRuns.RunLen(s, Daily, 1) == 1;
  }

  /** `calculate_habit_streak`: reads the stored row (or a new one) and updates
      it field by field. */
  method CalculateHabitStreak(store: Store, habitId: HabitId, latestEntryDate: Date) returns (s: Streak)
    ensures s == AfterLog(store.StreakRow(habitId), latestEntryDate)
  {
    s := store.GetStreak(habitId);
    s := s.(lastCompleted := Some(latestEntryDate));
    if s.currentStreak == 0 {
      s := s.(currentStreak := 1);
    } else {
      s := s.(currentStreak := s.currentStreak + 1);
    }
    if s.currentStreak > s.longestStreak {
      s := s.(longestStreak := s.currentStreak);
    }
    s := s.(totalCompletions := s.totalCompletions + 1);
    s := s.(completionRate := if s.totalCompletions > 0 then 0.8 else 0.0);
  }

  const EmptyIdMessage := "Habit ID cannot be empty"
  const BadIdMessage := "Invalid habit ID format"
  const BadDateMessage := "Invalid date format"
  const IntensityMessage := "Intensity must be between 1 and 10"
  const ValueMessage := "Value too large (max 999,999)"
  const NotesMessage := "Notes too long (max 500 characters)"

  /** The completion date: the parsed date when one was sent (`parsedDate` is
      None when it is not a `%Y-%m-%d` date), otherwise today. */
  function CompletionDate(completedAt: Option<string>, parsedDate: Option<Date>, today: Date): (r: Result<Date, StorageError>)
    ensures completedAt.None? ==> r == Success(today)
    ensures completedAt.Some? && parsedDate.None? ==> r == Failure(Query(BadDateMessage))
    ensures completedAt.Some? && parsedDate.Some? ==> r == Success(parsedDate.value)
  {
    if completedAt.None? then Success(today)
    else if parsedDate.None? then Failure(Query(BadDateMessage))
    else Success(parsedDate.value)
  }

  /** The tool's own checks on the optional fields, in the order intensity,
      value, notes. */
  function CheckFields(value: Option<u32>, intensity: Option<u8>, notes: Option<string>): (r: Outcome<StorageError>)
    ensures r.Pass? <==> ((intensity.Some? ==> 1 <= intensity.value <= 10)
                          && (value.Some? ==> value.value <= 999999)
                          && (notes.Some? ==> ByteLen(notes.value) <= 500))
    ensures intensity.Some? && !(1 <= intensity.value <= 10) ==> r == Fail(Query(IntensityMessage))
    ensures (intensity.Some? ==> 1 <= intensity.value <= 10) && value.Some? && value.value > 999999 ==>
              r == Fail(Query(ValueMessage))
    ensures ((intensity.Some? ==> 1 <= intensity.value <= 10) && (value.Some? ==> value.value <= 999999)
             && notes.Some? && ByteLen(notes.value) > 500) ==> r == Fail(Query(NotesMessage))
  {
    if intensity.Some? && (intensity.value < 1 || intensity.value > 10) then Fail(Query(IntensityMessage))
    else if value.Some? && value.value > 999999 then Fail(Query(ValueMessage))
    else if notes.Some? && ByteLen(notes.value) > 500 then Fail(Query(NotesMessage))
    else Pass
  }

  /** `log_habit` up to the entry it would store: `parsedId` is the result of
      parsing the id text, `habits` the stored habits; `today`, the entry id and
      the logging time are supplied by the caller. */
  function PlanLog(p: LogHabitParams, parsedId: Option<HabitId>, parsedDate: Option<Date>,
                   habits: map<HabitId, HabitState>, today: Date, entryId: EntryId, loggedAt: Timestamp)
    : (r: Result<HabitEntry, StorageError>)
    ensures Trim(p.habitId) == [] ==> r == Failure(Query(EmptyIdMessage))
    ensures Trim(p.habitId) != [] && parsedId.None? ==> r == Failure(Query(BadIdMessage))
    ensures Trim(p.habitId) != [] && parsedId.Some? && parsedId.value !in habits ==> r == Failure(HabitNotFound(p.habitId))
    ensures r.Success? <==> (Trim(p.habitId) != [] && parsedId.Some? && parsedId.value in habits
                             && CompletionDate(p.completedAt, parsedDate, today).Success?
                             && CheckFields(p.value, p.intensity, p.notes).Pass?
                             && NewEntry(parsedId.value, CompletionDate(p.completedAt, parsedDate, today).value,
                                         p.value, p.intensity, p.notes, today, entryId, loggedAt).Success?)
    ensures r.Success? ==> r.value == NewEntry(parsedId.value, CompletionDate(p.completedAt, parsedDate, today).value,
                                               p.value, p.intensity, p.notes, today, entryId, loggedAt).value
    ensures (Trim(p.habitId) != [] && parsedId.Some? && parsedId.value in habits
             && p.completedAt.Some? && parsedDate.None?) ==> r == Failure(Query(BadDateMessage))
    ensures var date, fields := CompletionDate(p.completedAt, parsedDate, today), CheckFields(p.value, p.intensity, p.notes);
            Trim(p.habitId) != [] && parsedId.Some? && parsedId.value in habits && date.Success? && fields.Fail? ==>
              r == Failure(fields.error)
    ensures var date, fields := CompletionDate(p.completedAt, parsedDate, today), CheckFields(p.value, p.intensity, p.notes);
            Trim(p.habitId) != [] && parsedId.Some? && parsedId.value in habits && date.Success? && fields.Pass? ==>
              var entry := NewEntry(parsedId.value, date.value, p.value, p.intensity, p.notes, today, entryId, loggedAt);
              entry.Failure? ==> r == Failure(Query(DomainErrorText(entry.error)))
  {
    if Trim(p.habitId) == [] then Failure(Query(EmptyIdMessage))
    else if parsedId.None? then Failure(Query(BadIdMessage))
    else if parsedId.value !in habits then Failure(HabitNotFound(p.habitId))
    else
      var date := CompletionDate(p.completedAt, parsedDate, today);
      if date.Failure? then Failure(date.error)
      else
        var fields := CheckFields(p.value, p.intensity, p.notes);
        if fields.Fail? then Failure(fields.error)
        else
          var entry := NewEntry(parsedId.value, date.value, p.value, p.intensity, p.notes, today, entryId, loggedAt);
          if entry.Failure? then Failure(Query(DomainErrorText(entry.error))) else Success(entry.value)
  }

  /** A logged entry is for a known habit, on a date in the last year, with the
      given value, intensity and notes, each within its bounds. */
  lemma PlanLogEntry(p: LogHabitParams, parsedId: Option<HabitId>, parsedDate: Option<Date>,
                     habits: map<HabitId, HabitState>, today: Date, entryId: EntryId, loggedAt: Timestamp)
    requires PlanLog(p, parsedId, parsedDate, habits, today, entryId, loggedAt).Success?
    ensures var e := PlanLog(p, parsedId, parsedDate, habits, today, entryId, loggedAt).value;
            parsedId.Some? && e.habitId == parsedId.value && e.habitId in habits
            && e.completedAt == (if p.completedAt.Some? then parsedDate.value else today)
            && today - 365 <= e.completedAt <= today
            && e.value == p.value && e.intensity == p.intensity && e.notes == p.notes && e.id == entryId
            && (e.value.Some? ==> e.value.value <= 100000)
            && (e.intensity.Some? ==> 1 <= e.intensity.value <= 10)
            && (e.notes.Some? ==> ByteLen(e.notes.value) <= 500)
  {
  }

  /** The tool's field checks never decide whether a log succeeds, only which
      message a rejected one gets: `HabitEntry::new` rejects everything they
      reject. */
  lemma FieldChecksSubsumed(value: Option<u32>, intensity: Option<u8>, notes: Option<string>,
                            habitId: HabitId, date: Date, today: Date, entryId: EntryId, loggedAt: Timestamp)
    ensures NewEntry(habitId, date, value, intensity, notes, today, entryId, loggedAt).Success?
            ==> CheckFields(value, intensity, notes).Pass?
  {
  }

  /** The tool's value bound (999,999) is looser than the entry's (100,000): a
      value in between passes the tool's check and is then refused by
      `HabitEntry::new` with the entry's own message. */
  lemma ValueBetweenBounds(p: LogHabitParams, parsedId: Option<HabitId>, parsedDate: Option<Date>,
                           habits: map<HabitId, HabitState>, today: Date, entryId: EntryId, loggedAt: Timestamp)
    requires Trim(p.habitId) != [] && parsedId.Some? && parsedId.value in habits
    requires p.completedAt.None? && p.intensity.None? && p.notes.None?
    requires p.value.Some? && 100000 < p.value.value <= 999999
    ensures PlanLog(p, parsedId, parsedDate, habits, today, entryId, loggedAt)
            == Failure(Query(DomainErrorText(InvalidValue("Value cannot exceed 100000"))))
  {
    assert CompletionDate(p.completedAt, parsedDate, today) == Success(today);
    assert CheckFields(p.value, p.intensity, p.notes).Pass?;
    assert ValidateCompletedAt(today, today).Pass?;
    assert ValidateValue(p.value) == Fail(InvalidValue("Value cannot exceed 100000"));
    var entry := NewEntry(parsedId.value, today, p.value, p.intensity, p.notes, today, entryId, loggedAt);
    assert entry == Failure(InvalidValue("Value cannot exceed 100000"));
  }

  const LoggedOpening := "\U{00F0}\U{0178}\U{201D}\U{00A5} Logged habit completion! Current streak: "

  /** The success message: the streak and "day" or "days". The leading
      characters are the fire emoji's UTF-8 bytes re-read as Windows-1252, as
      the source text holds them. */
  function LoggedMessage(n: nat): (m: string)
    ensures |m| == |LoggedOpening| + |Decimal(n)| + (if n == 1 then 4 else 5)
    ensures m[..|LoggedOpening|] == LoggedOpening
    ensures m[|LoggedOpening|..|LoggedOpening| + |Decimal(n)|] == Decimal(n)
    ensures m[|m| - 1] == (if n == 1 then 'y' else 's')
  {
    LoggedOpening + Decimal(n) + (if n == 1 then " day" else " days")
  }

  /** Different streaks give different messages. */
  lemma LoggedMessageInjective(m: nat, n: nat)
    requires LoggedMessage(m) == LoggedMessage(n)
    ensures m == n
  {
    var dm, dn := Decimal(m), Decimal(n);
    var tm := dm + (if m == 1 then " day" else " days");
    var tn := dn + (if n == 1 then " day" else " days");
    assert LoggedMessage(m) == LoggedOpening + tm && LoggedMessage(n) == LoggedOpening + tn;
    assert tm == LoggedMessage(m)[|LoggedOpening|..] == tn;
    assert |dm| == |dn| by {
      assert tm[|dm|] == ' ' && tn[|dn|] == ' ';
    }
    assert dm == tm[..|dm|] == tn[..|dn|] == dn;
    DecimalInjective(m, n);
  }

  /** `log_habit`: when a check fails nothing is stored. Otherwise the entry is
      stored first (the unique index refuses a second entry for the same habit
      and date, and then the streak is not touched), then the streak row is
      updated and the response carries its new current streak. */
  method LogHabit(store: Store, p: LogHabitParams, parsedId: Option<HabitId>, parsedDate: Option<Date>,
                  today: Date, entryId: EntryId, loggedAt: Timestamp)
    returns (r: Result<LogHabitResponse, StorageError>)
    requires store.Valid()
    modifies store
    ensures store.Valid() && store.habits == old(store.habits)
    ensures var plan := PlanLog(p, parsedId, parsedDate, old(store.habits), today, entryId, loggedAt);
            (plan.Failure? ==> r == Failure(plan.error)
                               && store.entries == old(store.entries) && store.streaks == old(store.streaks))
            && (plan.Success? && Logged(old(store.entries), plan.value.habitId, plan.value.completedAt) ==>
                  r == Failure(Query(DuplicateEntryMessage))
                  && store.entries == old(store.entries) && store.streaks == old(store.streaks))
            && (plan.Success? && !Logged(old(store.entries), plan.value.habitId, plan.value.completedAt) ==>
                  var s := AfterLog(old(store.StreakRow(plan.value.habitId)), plan.value.completedAt);
                  store.entries == old(store.entries) + [plan.value]
                  && store.streaks == old(store.streaks)[plan.value.habitId := s]
                  && r == Success(LogHabitResponse(true, LoggedMessage(s.currentStreak), Some(s.currentStreak))))
  {
    ghost var plan := PlanLog(p, parsedId, parsedDate, store.habits, today, entryId, loggedAt);
    if Trim(p.habitId) == [] {
      assert plan == Failure(Query(EmptyIdMessage));
      return Failure(Query(EmptyIdMessage));
    }
    if parsedId.None? {
      assert plan == Failure(Query(BadIdMessage));
      return Failure(Query(BadIdMessage));
    }
    var habitId := parsedId.value;
    var found := store.GetHabit(habitId);
    if found.Failure? {
      assert plan == Failure(HabitNotFound(p.habitId));
      return Failure(HabitNotFound(p.habitId));
    }
    var date := CompletionDate(p.completedAt, parsedDate, today);
    if date.Failure? {
      assert plan == Failure(date.error);
      return Failure(date.error);
    }
    var fields := CheckFields(p.value, p.intensity, p.notes);
    if fields.Fail? {
      assert plan == Failure(fields.error);
      return Failure(fields.error);
    }
    var entry := NewEntry(habitId, date.value, p.value, p.intensity, p.notes, today, entryId, loggedAt);
    if entry.Failure? {
      assert plan == Failure(Query(DomainErrorText(entry.error)));
      return Failure(Query(DomainErrorText(entry.error)));
    }
    assert plan == Success(entry.value);
    ghost var row := store.StreakRow(habitId);
    var stored := store.CreateEntry(entry.value);
    if stored.Fail? {
      return Failure(stored.error);
    }
    assert store.StreakRow(habitId) == row;
    var updated := CalculateHabitStreak(store, habitId, date.value);
    store.UpdateStreak(updated);
    return Success(LogHabitResponse(true, LoggedMessage(updated.currentStreak), Some(updated.currentStreak)));
  }
}
