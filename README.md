# HabitTracker streak engine, domain and tools in Dafny

This project models the core of HabitTracker, an MCP server that records
habits, completion entries and streaks. The core covers:

- the domain types: categories, frequencies and their schedules, habits and
  habit entries, with the rules each one checks;
- the streak engine, which computes a habit's streak record from its entries:
  - the current streak, walked back from today under each frequency;
  - the longest streak, scanned over the entries sorted oldest first, with
    weekly habits counted per week;
  - the completion rate, the on-track test and the motivational message;
- the three tools that change data:
  - `habit_create` checks the request, builds the habit and stores it;
  - `habit_update` finds the habit, changes it and writes it back;
  - `habit_log` checks the request, records the entry and updates the stored
    streak row;
- the analytics engine, which produces insights for one habit or for all of
  them, and the insights report;
- the text codec that stores categories in SQLite;
- the JSON-RPC response objects, the tool-call result and the mapping from
  storage errors to error codes.

**Representation**

- A date is a whole number of days since 1970-01-01 (`Calendar`). Weekdays,
  the calendar year and the ISO 8601 week number are computed from it.
- Integers are unbounded, and `f64` is `real`.
- Strings are sequences of characters:
  - a byte length is the UTF-8 width of those characters;
  - trimming uses the Unicode White_Space property;
  - lower-casing covers the ASCII letters only.
- A habit is a class because `Habit::update` changes it in place.
- Entries and streak records are values.
- The storage the tools write through is a `Store` class. It holds a map of
  habits, a sequence of entries and a map of streak rows, and keeps the
  schema's guarantees:
  - the habit id is a primary key;
  - an entry is unique per habit and completion date;
  - there is one streak row per habit.

**Inputs passed in as parameters**

The clock, UUID generation and parsing, date parsing and the storage's row
timestamps are parameters of the operations:

- `today`, a fresh id and a creation time are passed in;
- a parsed id or parsed date is passed as an `Option` that is `None` when the
  text did not parse.

**Specification functions and the methods proved against them**

Each loop of the streak engine is a method proved equal to a specification
function. Lemmas then characterise each function:

- the current walks are the runs of logged scheduled days (`StreakWalks`);
- the longest runs are maximal runs (`StreakRuns`);
- the weekly scan is the longest run of consecutive qualifying weeks
  (`WeeklyBuckets`).

Each tool is a pure plan, the first failing check or the new state, and a
method over the `Store` that is proved to perform exactly that plan.

**The source's behaviour and its corrections**

Two defects are listed under "## Findings". The members they affect take a
parameter that selects either the source's behaviour or the corrected one:

- `Streaks.StreakOf`, `Streaks.CalculateFromEntries` and
  `Analytics.HabitStreak` take a `KeyScheme`:
  - `AsWritten` keys weekly habits' weeks by `year() * 100 + iso_week()`, as
    the source does;
  - `Corrected` keys them by the Monday of the week.
- `Analytics.Kept`, `Analytics.Report`, `Analytics.PlanInsights` and
  `Analytics.HabitInsights` take a `TypeSelection`:
  - `RawTypes` compares `insight_type` with the insights' own types, as the
    source does;
  - `SchemaNames` first maps the schema's names through `WantedType`.

A caller that passes `AsWritten` and `RawTypes` gets exactly the source's
behaviour. `Streaks.RecordAtYearBoundary` and the raw-type clauses of `Report`
and `PlanInsights` state where the two choices differ.

## Model

| member | source | states |
|---|---|---|
| Calendar.WeekdayOf | src/domain/types.rs:161-188 | the weekday of a day number; 1970-01-01 is a Thursday, and the Monday-based index is `(d + 3) % 7` |
| Calendar.WeekdayPeriodic | src/domain/types.rs:161-188 | weekdays repeat every seven days |
| Calendar.WeekStart | src/domain/streak.rs:188-190 | the Monday on or before a date, at most six days earlier |
| Calendar.WeekStartIff | src/domain/streak.rs:188-206 | a date lies in the Monday-aligned week starting at `m` exactly when `m <= d <= m + 6` |
| Calendar.WeekStartNext | src/domain/streak.rs:188-206 | the week after a date's week is the week of the date seven days later |
| Calendar.IsoWeekIdentifiesWeek | src/domain/streak.rs:413 | two dates have the same ISO year and ISO week number exactly when they share a Monday-aligned week |
| Calendar.EpochIsThursday | src/domain/types.rs:161-188 | day 0 is 1970-01-01, a Thursday, in the year 1970 |
| Types.DisplayNames | src/domain/types.rs:85-101 | a custom category displays as its own name; the eight fixed categories display under eight different names |
| Types.DomainErrorText | src/domain/mod.rs:22-36 | every domain error has a non-empty message |
| Types.Validate | src/domain/types.rs:122-158 | Weekly(t) is valid iff 1 <= t <= 7; Custom(days) iff it has 1 to 7 days; Interval(n) iff 1 <= n <= 365; Daily, Weekdays and Weekends always; a failure is an InvalidFrequency error |
| Types.ScheduleByVariant | src/domain/types.rs:161-188 | daily, weekly and interval habits are scheduled every day; every date is scheduled under exactly one of weekdays and weekends; a custom habit is scheduled on the weekdays it lists |
| Types.ScheduleWeeklyPeriodic | src/domain/types.rs:161-188 | every schedule repeats with the week |
| Types.ScheduleRecurs | src/domain/types.rs:161-188 | except for a custom frequency with no days, some day within the last seven is scheduled |
| Habits.ValidateName | src/domain/habit.rs:167-184 | a name passes iff its trimmed text is non-empty and at most 100 bytes; a failure is InvalidHabitName |
| Habits.ValidateDescription | src/domain/habit.rs:186-196 | a description passes iff it is absent or at most 500 bytes, untrimmed |
| Habits.ValidateTargetAndUnit | src/domain/habit.rs:198-235 | a target must be in 1..=10000 and a unit must be non-blank and at most 20 bytes once trimmed; a target of 0 gets its own message |
| Habits.CheckNew | src/domain/habit.rs:41-70 | `Habit::new` passes iff all four checks pass; otherwise the error is the name's error, else the description's, else the frequency's, else the target and unit's |
| Habits.CheckUpdate | src/domain/habit.rs:100-125 | `Habit::update`'s checks pass iff every supplied field is valid and the merged target and unit are valid; a failure is the first failing check in the order name, description, frequency, target and unit |
| Habits.ApplyUpdate | src/domain/habit.rs:100-149 | succeeds iff the checks pass; keeps id, category and creation time; takes every supplied field and keeps every absent one; a valid habit stays valid |
| Habits.TargetText | src/domain/habit.rs:156-165 | "v u" with a unit, "v" without one, nothing without a target |
| Habits.TargetTextInjective | src/domain/habit.rs:156-165 | the target display determines both the target and the unit |
| Habits.Habit.FromExisting | src/domain/habit.rs:72-98 | the habit holds exactly the stored fields, unvalidated |
| Habits.Habit.New | src/domain/habit.rs:41-70 | a fresh active habit with the given fields exactly when CheckNew passes, otherwise CheckNew's error; a created habit is valid |
| Habits.Habit.Update | src/domain/habit.rs:100-149 | the new state is ApplyUpdate of the old one on success; on failure the habit is unchanged and the error is returned |
| Habits.NewHabitExamples | src/domain/habit.rs:241-287 | the source's unit tests expect that an empty name is refused, a target of 0 is refused, and 30 minutes displays as "30 minutes" |
| Habits.MorningRunAccepted | src/domain/habit.rs:241-259 | the source's unit test expects that "Morning Run", with its description, daily and 30 minutes, passes `Habit::new` |
| Entries.ValidateCompletedAt | src/domain/entry.rs:104-123 | a completion day passes iff it is within the 365 days up to and including today; future and too-old dates get their own messages |
| Entries.ValidateValue | src/domain/entry.rs:125-135 | a value passes iff it is absent or at most 100000 |
| Entries.ValidateIntensity | src/domain/entry.rs:137-147 | an intensity passes iff it is absent or in 1..=10 |
| Entries.ValidateNotes | src/domain/entry.rs:149-160 | notes pass iff they are absent or at most 500 bytes |
| Entries.NewEntry | src/domain/entry.rs:38-64 | succeeds iff all four checks pass, keeping every field as given; otherwise the error is the first failing check in the order date, value, intensity, notes |
| Entries.HasNotesIff | src/domain/entry.rs:97-100 | an entry has notes iff its notes contain a non-whitespace character |
| Entries.ValidEntryToday | src/domain/entry.rs:167-204 | the source's unit tests expect that an entry for today with value 30, intensity 8 and notes "Felt great today!" is accepted with those fields and has all three, and that an entry for tomorrow is refused |
| Sorting.SortAsc | src/domain/streak.rs:377-378 | the dates oldest first: sorted and a permutation |
| Sorting.SortDesc | src/domain/streak.rs:79-81 | the dates newest first: sorted descending and a permutation |
| Sorting.FirstIsLatest | src/domain/streak.rs:84 | the first date of the newest-first order is the latest date |
| StreakWalks.BackToWeekday | src/domain/streak.rs:215-217 | the latest weekday on or before the cursor, at most two days back, with only weekend days skipped |
| StreakWalks.BackToWeekend | src/domain/streak.rs:255-257 | the latest weekend day on or before the cursor, at most five days back, with only weekdays skipped |
| StreakWalks.SeekDayBack | src/domain/streak.rs:294-305 | the bounded search back stops at the first day in the custom set, or after the fuel runs out |
| StreakWalks.SeekLoggedBack | src/domain/streak.rs:308-315 | the bounded search back stops at the first logged day, or after the fuel runs out |
| StreakWalks.WalkWindow | src/domain/streak.rs:177-184 | the day-by-day walk covers a window ending at its start: every scheduled day in the window is logged, and the walk stops at a scheduled, unlogged day or when the fuel is spent |
| StreakWalks.WalkIgnoresUnscheduled | src/domain/streak.rs:232-246 | an entry on an unscheduled day does not change the walk |
| StreakWalks.WalkEmpty | src/domain/streak.rs:177-184 | with no entries the walk counts nothing |
| StreakWalks.IntervalRunSteps | src/domain/streak.rs:357-364 | the interval walk counts the logged run `c, c - n, c - 2n, ...` and stops at the first unlogged step |
| StreakWalks.WeeksBackSteps | src/domain/streak.rs:191-206 | the weekly walk counts the consecutive weeks back that each hold at least `t` entries, and stops at the first week that holds fewer |
| StreakWalks.CurrentStreakOf | src/domain/streak.rs:158-370 | the current streak for each frequency: at most 52 for weekly, at most 365 otherwise |
| StreakWalks.DailyCurrentStreak | src/domain/streak.rs:167-185 | the daily streak is the run of consecutive logged days ending today, or yesterday when today is not logged |
| StreakWalks.WeeklyCurrentStreak | src/domain/streak.rs:186-207 | the weekly streak counts the weeks back from this week's Monday that hold `t` entries; it is 0 when this week holds fewer |
| StreakWalks.ScheduledCurrentStreak | src/domain/streak.rs:208-332 | weekdays, weekends and custom: the streak is the number of scheduled days in a window in which every scheduled day is logged, and the window is maximal |
| StreakWalks.WeekdaysStartIs | src/domain/streak.rs:210-230 | the weekday walk starts today when today is a logged weekday, otherwise at an earlier weekday with only weekend days between |
| StreakWalks.WeekendsStartIs | src/domain/streak.rs:250-270 | the weekend walk starts today when today is a logged weekend day, otherwise at an earlier weekend day with only weekdays between |
| StreakWalks.CustomStartIs | src/domain/streak.rs:290-315 | the custom walk starts on a listed day within the last week, today when today is listed and logged |
| StreakWalks.UnscheduledEntryIgnored | src/domain/streak.rs:208-332 | an entry on a day the frequency does not schedule never changes the current streak |
| StreakWalks.IntervalExample | src/domain/streak.rs:333-369 | entries today, `n` and `2n` days ago give an interval streak of 3 |
| StreakWalks.IntervalCurrentStreak | src/domain/streak.rs:333-369 | the interval walk starts within the last `n` days and counts the logged days `n` apart from there |
| StreakWalks.IntervalOrderMatters | src/domain/streak.rs:338-342 | the interval streak reads the first entry given as the latest, so the order of the entries changes the result |
| StreakRuns.ForwardToWeekday | src/domain/streak.rs:449-472 | the first weekday on or after a date, at most two days later |
| StreakRuns.ForwardToWeekend | src/domain/streak.rs:473-496 | the first weekend day on or after a date, at most five days later |
| StreakRuns.CustomScan | src/domain/streak.rs:497-524 | the scan forward stops at the first listed day, or one day past the week |
| StreakRuns.NextExpectedIsNextScheduled | src/domain/streak.rs:449-524 | for daily, weekdays, weekends and non-empty custom, the expected next date is the next scheduled day after the last one |
| StreakRuns.RunLenIsMaximal | src/domain/streak.rs:384-404 | the run ending at an entry is a run, and no run ending there is longer |
| StreakRuns.MaxRunIsLongest | src/domain/streak.rs:384-404 | the running maximum is the length of some run of the prefix, and no run of the prefix is longer |
| StreakRuns.LongestRunIsLongest | src/domain/streak.rs:372-549 | the longest streak of non-weekly frequencies is the length of a run, and no run is longer |
| StreakRuns.DailyDuplicateBreaksRun | src/domain/streak.rs:392-399 | a day logged twice breaks a daily run: d, d+1, d+1, d+2 gives 2 |
| WeeklyBuckets.Keys | src/domain/streak.rs:410-416 | one week key per date, in order |
| WeeklyBuckets.GroupKeys | src/domain/streak.rs:408-420 | the histogram's keys are exactly the keys that occur |
| WeeklyBuckets.GroupIncreasing | src/domain/streak.rs:419-420 | for sorted keys, the histogram's keys strictly increase |
| WeeklyBuckets.GroupCounts | src/domain/streak.rs:408-416 | for sorted keys, each histogram element counts its key's occurrences |
| WeeklyBuckets.ScanLongestIsBest | src/domain/streak.rs:422-447 | the scan's result is the best run ending at or before the last week |
| WeeklyBuckets.RunAtIsMaximal | src/domain/streak.rs:425-445 | the run ending at a week is a run of adjacent qualifying weeks, and none ending there is longer |
| WeeklyBuckets.BestIsLongestWeekRun | src/domain/streak.rs:406-448 | the weekly longest streak is the length of a run of adjacent weeks that each hold at least `t` entries, and no such run is longer; it is 0 iff no week qualifies |
| WeeklyBuckets.TwoWeeks | src/domain/streak.rs:425-447 | two entries in different weeks give 2 when the weeks are adjacent and 1 otherwise |
| WeeklyBuckets.KeyOfDec23 | src/domain/streak.rs:413 | 2024-12-23 gets the key 202452 |
| WeeklyBuckets.KeyOfJan1 | src/domain/streak.rs:413 | 2025-01-01 gets the key 202501 |
| WeeklyBuckets.KeyOfDec30 | src/domain/streak.rs:413 | 2024-12-30 gets the key 202401 |
| WeeklyBuckets.AsWrittenYearBoundary | src/domain/streak.rs:413-434 | as written, weeks 52 of 2024 and 1 of 2025 are consecutive, yet their keys are not adjacent, so they count as 1 |
| WeeklyBuckets.AsWrittenKeyOutOfOrder | src/domain/streak.rs:413 | as written, a later day can get a smaller key |
| WeeklyBuckets.CorrectedYearBoundary | src/domain/streak.rs:406-448 | keyed by Monday, the same two weeks are adjacent and give 2 |
| WeeklyBuckets.CorrectedKeys | src/domain/streak.rs:406-448 | keyed by Monday, keys follow the calendar, and two keys are adjacent iff the second week follows the first |
| Streaks.NewStreak | src/domain/streak.rs:35-45 | a new record has zero streaks, zero completions, rate 0 and no last completion |
| Streaks.CompletionDates | src/domain/streak.rs:69-108 | one completion date per entry, in order |
| Streaks.BackToWeekdayLoop | src/domain/streak.rs:215-217 | the loop computes BackToWeekday |
| Streaks.BackToWeekendLoop | src/domain/streak.rs:255-257 | the loop computes BackToWeekend |
| Streaks.WeekdaysStartLoop | src/domain/streak.rs:210-230 | the loops compute where the weekdays walk starts |
| Streaks.WeekendsStartLoop | src/domain/streak.rs:250-270 | the loops compute where the weekends walk starts |
| Streaks.CustomStartLoop | src/domain/streak.rs:290-315 | the two bounded searches compute where the custom walk starts |
| Streaks.IntervalStartLoop | src/domain/streak.rs:335-354 | the loop computes where the interval walk starts |
| Streaks.WalkLoop | src/domain/streak.rs:177-184 | the day-by-day walk of at most 365 days computes Walk |
| Streaks.IntervalWalkLoop | src/domain/streak.rs:357-364 | the interval walk of at most 365 steps computes IntervalRun |
| Streaks.WeeksBackLoop | src/domain/streak.rs:191-206 | the walk of at most 52 weeks computes WeeksBack from this week's Monday |
| Streaks.CurrentStreak | src/domain/streak.rs:158-370 | `calculate_current_streak` computes CurrentStreakOf |
| Streaks.NextExpectedLoop | src/domain/streak.rs:449-524 | the loops compute the next expected date of a run |
| Streaks.LongestRunLoop | src/domain/streak.rs:384-404 | the run-length scan computes LongestRun |
| Streaks.CountWeeks | src/domain/streak.rs:408-416 | the week-count table holds exactly the keys that occur, each with its number of occurrences |
| Streaks.WeeklyScanLoop | src/domain/streak.rs:422-447 | the scan over the sorted week counts computes ScanLongest |
| Streaks.LongestStreak | src/domain/streak.rs:372-549 | `calculate_longest_streak` computes LongestStreakOf |
| Streaks.WeekCountsAgree | src/domain/streak.rs:408-420 | the sorted histogram holds exactly the table's entries |
| Streaks.CompletionRate | src/domain/streak.rs:551-594 | the rate is between 0 and 1; it is 0 with no entries or nothing expected, otherwise completions over expected completions, capped at 1 |
| Streaks.CompletionRateMeaning | src/domain/streak.rs:581-586 | the rate is 1 iff the completions meet the expectation, and below it the rate times the expectation gives the count |
| Streaks.CompletionRateMonotone | src/domain/streak.rs:551-594 | more completions never lower the rate |
| Streaks.CompletionRateExample | src/domain/streak.rs:551-594 | five entries for a daily habit created ten days ago give 0.5 |
| Streaks.IsOnTrack | src/domain/streak.rs:110-140 | never on track without a completion; always on track when the last completion is today or later |
| Streaks.OnTrackOrder | src/domain/streak.rs:110-140 | on track daily implies on track under any frequency, which implies on track weekly; a completion yesterday is on track everywhere and one 8 or more days ago is on track nowhere |
| Streaks.MotivationalMessage | src/domain/streak.rs:143-153 | the message for each band of the current streak opens with that band's text |
| Streaks.MotivationalMessageInjective | src/domain/streak.rs:143-153 | different streaks get different messages |
| Streaks.StreakOf | src/domain/streak.rs:69-108 | the record keeps the habit id, counts every entry, has longest >= current and a rate in 0..=1; with no entries it is the new record; weekly weeks are keyed by the chosen scheme, `AsWritten` being the source's |
| Streaks.CalculateFromEntries | src/domain/streak.rs:69-108 | sorting newest first and running the three calculations builds StreakOf under the same key scheme |
| Streaks.RecordAtYearBoundary | src/domain/streak.rs:406-448 | a weekly habit logged on 2024-12-23 and 2025-01-01 and seen on 2025-01-20 has a longest streak of 1 with the source's week keys and 2 with Monday keys |
| Streaks.SortedLongest | src/domain/streak.rs:376-378 | the longest streak does not depend on the order of the entries |
| Streaks.StreakOfFields | src/domain/streak.rs:83-97 | the last completion is the latest date, the current streak is computed on the newest-first dates, and the rate is the completion rate of all entries |
| Streaks.LongestBounds | src/domain/streak.rs:372-549 | for non-weekly frequencies and a non-empty history, the longest streak is between 1 and the number of entries |
| Storage.CategoryToString | src/storage/sqlite.rs:46-58 | each fixed category is its lower-case word, and a custom category is `custom:` followed by its name |
| Storage.StringToCategory | src/storage/sqlite.rs:61-80 | exactly the eight words and `custom:`-prefixed text decode; anything else is the Query error "Invalid category" |
| Storage.CategoryRoundTrip | src/storage/sqlite.rs:46-80 | every category decodes back to itself |
| Storage.CategoryToStringInjective | src/storage/sqlite.rs:46-58 | different categories are written differently |
| Storage.StringToCategoryExact | src/storage/sqlite.rs:61-80 | a text decodes iff it is the encoding of some category, and then to that category |
| Storage.StringToCategoryCustom | src/storage/sqlite.rs:73-75 | any text after `custom:` is a custom name |
| Storage.StringToCategoryRejects | src/storage/sqlite.rs:61-80 | the decoder is case-sensitive: "Health" does not decode |
| Storage.CustomPrefixOnce | src/storage/sqlite.rs:73-75 | the prefix is removed once: a name that itself starts with `custom:` keeps it |
| HabitStore.Store.constructor | src/storage/sqlite.rs:29-44 | an empty, valid database |
| HabitStore.Store.StreakRow | src/storage/sqlite.rs:444-474 | the stored row of a habit, or a new streak when there is none |
| HabitStore.Store.CreateHabit | src/storage/sqlite.rs:85-110 | inserts a habit under a new id; an existing id is refused with the primary-key error and nothing changes |
| HabitStore.Store.GetHabit | src/storage/sqlite.rs:113-165 | the stored habit, or HabitNotFound with the id |
| HabitStore.Store.UpdateHabit | src/storage/sqlite.rs:167-202 | replaces a stored habit; an unknown id gives HabitNotFound and nothing changes |
| HabitStore.Store.ListHabits | src/storage/sqlite.rs:221-278 | each stored habit exactly once (only active ones when asked) |
| HabitStore.Store.CreateEntry | src/storage/sqlite.rs:280-299 | appends an entry unless the habit is already logged for that date, which the unique index refuses with nothing changed |
| HabitStore.Store.GetStreak | src/storage/sqlite.rs:444-474 | returns StreakRow |
| HabitStore.Store.UpdateStreak | src/storage/sqlite.rs:420-442 | inserts or replaces the habit's streak row and changes nothing else |
| ToolParsing.NormalizeIdempotent | src/tools/create.rs:47 | trimming and lower-casing a second time changes nothing |
| ToolParsing.FrequencyTableBijective | src/tools/update.rs:79-100 | the frequency table is a bijection between five words and five frequencies |
| ToolParsing.ParseFrequency | src/tools/update.rs:79-100 | parsing succeeds with the table's frequency iff the normalized text is one of the five words; otherwise the message names the text |
| ToolParsing.ParseFrequencyTable | src/tools/create.rs:76-90 | a text parses to `f` iff it normalizes to the word for `f` |
| ToolParsing.ParseFrequencyWord | src/tools/create.rs:76-90 | each word parses to the frequency it names |
| ToolParsing.ParseFrequencyNormalized | src/tools/update.rs:79-100 | parsing ignores case and surrounding whitespace |
| ToolParsing.ParseFrequencyRejectsColon | src/tools/create.rs:76-90 | no frequency text with a colon parses |
| ToolParsing.CategoryOfWord | src/tools/create.rs:47-73 | the eight words give their categories, `custom:` with a non-blank name gives that trimmed name, and anything else is unknown |
| ToolParsing.ParseCategory | src/tools/create.rs:47-73 | the table applied to the trimmed, lower-cased text, with the empty-name and invalid-category messages |
| ToolParsing.ParseCustom | src/tools/create.rs:56-64 | `custom:` and a name parse to a custom category iff the name is not blank, and the name is trimmed and lower-cased |
| ToolParsing.ParseCategoryNamed | src/tools/create.rs:48-55 | the eight categories are accepted in any case and with surrounding whitespace |
| ToolParsing.ParseCategoryUnknown | src/tools/create.rs:65-71 | a text is an unknown category iff the storage codec would also refuse its normalized form |
| ToolParsing.ParseCategoryStored | src/tools/create.rs:47-73 | each category parses back from its stored text, when a custom name is canonical |
| ToolParsing.ParseCategoryByTable | src/tools/create.rs:47 | parsing succeeds iff the table has the trimmed, lower-cased word, and then gives the table's category |
| ToolParsing.ParseCategoryNormalized | src/tools/create.rs:47 | category parsing ignores case and surrounding whitespace |
| CreateTool.CheckName | src/tools/create.rs:34-44 | passes iff the name is not blank and at most 100 bytes, whitespace included |
| CreateTool.CheckNameImpliesValidName | src/tools/create.rs:34-44 | a name the tool accepts also passes `Habit::new`'s rule |
| CreateTool.CheckNameStricter | src/tools/create.rs:40-44 | the converse fails: a space and 100 letters is refused by the tool but valid for the domain |
| CreateTool.PlanCreate | src/tools/create.rs:30-113 | succeeds iff every check passes, with the new active habit; otherwise the first failing check is the error: the name, category or frequency error, else `Habit::new`'s error as Query text; always a Query error |
| CreateTool.PlanCreateDomainErrors | src/tools/create.rs:92-102 | after the tool's checks, `Habit::new` can refuse only the description, target or unit |
| CreateTool.CreatedMessageInjective | src/tools/create.rs:112 | the success message names the habit |
| CreateTool.CreateHabit | src/tools/create.rs:30-113 | on a failed check nothing is stored; otherwise the habit is inserted under its id and the id is returned, unless the id is already taken |
| UpdateTool.NewFrequency | src/tools/update.rs:42-48 | no frequency means no change; otherwise the parsed frequency or its error |
| UpdateTool.PlanUpdate | src/tools/update.rs:30-76 | an unparsable or unknown id is HabitNotFound; a bad frequency is its parse error; otherwise the outcome of `Habit::update` |
| UpdateTool.PlanUpdateFields | src/tools/update.rs:49-60 | a successful update keeps id, category and creation time, takes each supplied field (a supplied frequency as parsed) and keeps each absent one, and keeps a valid habit valid |
| UpdateTool.AnnouncementOf | src/tools/update.rs:64-70 | paused iff is_active is false, reactivated iff true, updated iff absent |
| UpdateTool.UpdateMessageInjective | src/tools/update.rs:64-70 | the message tells the three outcomes apart and names the habit |
| UpdateTool.UpdateHabit | src/tools/update.rs:30-76 | the habit is replaced by the updated one exactly when every step succeeds; on any failure nothing changes |
| LogTool.AfterLog | src/tools/log.rs:30-67 | the current streak starts at 1 or grows by one, the longest follows it, one more completion is counted, and the rate is 0.8 |
| LogTool.LogAllCounts | src/tools/log.rs:30-67 | from a new row, repeated logs make current streak, longest streak and total all equal the number of logs |
| LogTool.LogCountIsNotTheStreak | src/tools/log.rs:44-52 | the tool's count differs from the engine's streak: two logs five days apart give 2, while the engine's longest daily streak is 1 |
| LogTool.CalculateHabitStreak | src/tools/log.rs:30-67 | the stored row, or a new one, updated by AfterLog |
| LogTool.CompletionDate | src/tools/log.rs:93-100 | today when no date is given, the parsed date when it parses, otherwise the invalid-date error |
| LogTool.CheckFields | src/tools/log.rs:103-126 | passes iff the intensity is in 1..=10, the value at most 999999 and the notes at most 500 bytes; a failure is the intensity, value or notes message, checked in that order |
| LogTool.PlanLog | src/tools/log.rs:70-139 | the empty-id, bad-id, unknown-habit, bad-date, field and `HabitEntry::new` errors, each stated as the result in source order; success iff all checks pass, with that entry |
| LogTool.PlanLogEntry | src/tools/log.rs:70-139 | a planned entry is for a known habit, on the given date or today, within the last year, with every field in the domain's bounds |
| LogTool.FieldChecksSubsumed | src/tools/log.rs:103-139 | the tool's field checks never decide whether a log succeeds, only which message is given |
| LogTool.ValueBetweenBounds | src/tools/log.rs:111-117 | a value between 100001 and 999999 passes the tool and is refused by the entry |
| LogTool.LoggedMessageInjective | src/tools/log.rs:149-151 | the success message tells the streak |
| LogTool.LogHabit | src/tools/log.rs:70-153 | on a failed check nothing changes; a date already logged gives the unique-index error and nothing changes; otherwise the entry is appended and the streak row updated by AfterLog |
| Analytics.StreakMilestone | src/analytics/mod.rs:441-452 | the eight bands of a streak length, each iff its range |
| Analytics.MilestoneMonotone | src/analytics/mod.rs:441-452 | a longer streak never falls in a lower band |
| Analytics.MilestoneNameInjective | src/analytics/mod.rs:441-452 | the eight bands have eight different names |
| Analytics.InsightEmoji | src/analytics/mod.rs:430-438 | one symbol per known insight type, and the bar chart for any other type |
| Analytics.StreakInsight | src/analytics/mod.rs:222-248 | "Great Consistency!" iff current >= 7; "Time to Restart" iff current is 0 and longest > 0; nothing otherwise |
| Analytics.RateInsight | src/analytics/mod.rs:250-287 | present iff rate >= 0.6 or any completion; excellent iff >= 0.8, good iff in [0.6, 0.8), otherwise needs improvement; a success iff excellent |
| Analytics.SingleHabitInsights | src/analytics/mod.rs:214-289 | at most one streak insight and at most one rate insight, all successes or recommendations |
| Analytics.NoRowNoInsights | src/analytics/mod.rs:222-223 | a habit with no streak row gets no insights |
| Analytics.ActiveDays | src/analytics/mod.rs:321-326 | every active streak is at least a day long, and there are no active days iff there are no active streaks |
| Analytics.CategoryCountsSize | src/analytics/mod.rs:333-345 | there are no more category names than habits |
| Analytics.CategoryCountsMeaning | src/analytics/mod.rs:333-345 | the counts hold exactly the category names in use, each with its number of habits |
| Analytics.PerformingMean | src/analytics/mod.rs:393-395 | the average rule fires iff there are rates and their mean is at least 0.7 |
| Analytics.Overall | src/analytics/mod.rs:291-428 | at most four insights, all successes or recommendations; with no active habits, just "Get Started" |
| Analytics.OverallTitles | src/analytics/mod.rs:348-426 | the titles produced are exactly those of the rules that fired |
| Analytics.RuleTitlesMeaning | src/analytics/mod.rs:348-426 | each portfolio rule fires exactly when its condition holds, and "Well-Rounded" and "Consider Diversifying" never both fire |
| Analytics.OverallFocus | src/analytics/mod.rs:410-411 | "Focus Strategy" iff more than five habits and fewer than half with active streaks |
| Analytics.RowsAt | src/analytics/mod.rs:321-322 | the i-th row is the streak row of the i-th habit |
| Analytics.OverallInsights | src/analytics/mod.rs:291-428 | the one pass over the habits computes Overall |
| Analytics.TotalsMessageInjective | src/analytics/mod.rs:146-149 | both counts can be read back from the message |
| Analytics.LegacyInsights | src/analytics/mod.rs:133-154 | exactly one line: the start line with no habits, the logging line with habits and no entries, the totals otherwise |
| Analytics.LegacyInsightsCases | src/analytics/mod.rs:133-154 | the line tells which of the three cases applied |
| Analytics.Retain | src/analytics/mod.rs:179-181 | the loop keeps exactly the insights of the type, in order |
| Analytics.OfType | src/analytics/mod.rs:179-181 | every insight of the type is kept and only those |
| Analytics.SummaryCountsBounded | src/analytics/mod.rs:186-187 | successes plus recommendations never exceed the insights |
| Analytics.FilteredCounts | src/analytics/mod.rs:179-187 | after filtering by a type, every insight is of that type |
| Analytics.Summary | src/analytics/mod.rs:183-191 | the fixed text iff there are no insights, otherwise the counts |
| Analytics.AsWrittenAdvertisedFilter | src/analytics/mod.rs:179-181 | as written, each insight type the schema offers removes every insight the engine makes |
| Analytics.WantedType | src/analytics/mod.rs:179-181 | the schema's three names select the types they describe; any other text selects itself |
| Analytics.CorrectedAdvertisedFilter | src/analytics/mod.rs:179-181 | with the mapping, "performance" keeps exactly the successes and "recommendations" exactly the recommendations |
| Analytics.Kept | src/analytics/mod.rs:178-181 | "all" keeps every insight; any other kind keeps exactly the insights of the type it selects, which with `RawTypes` is the kind itself; with `RawTypes` an advertised kind keeps none of the engine's insights |
| Analytics.Report | src/analytics/mod.rs:157-211 | the report holds the kept insights, their summary and the period (default "month"); with `RawTypes` an advertised kind gives an empty report with the "no insights" summary; with `SchemaNames` "performance" keeps every success |
| Analytics.PlanInsights | src/analytics/mod.rs:157-211 | fails iff a habit id was given and does not parse, with HabitNotFound naming it; one habit gets at most two insights; no habits gives "Get Started"; with `RawTypes` an advertised kind gives an empty report |
| Analytics.HabitInsights | src/analytics/mod.rs:157-211 | over the store, with the active habits listed once each, computes PlanInsights under the same type selection |
| Analytics.HabitStreak | src/analytics/mod.rs:114-127 | the engine's record for the habit's entries under the chosen key scheme: every entry counted, longest >= current |
| Protocol.SuccessResponse | src/mcp/protocol.rs:197-205 | a well-formed response, version "2.0", with the result and no error |
| Protocol.ErrorResponse | src/mcp/protocol.rs:207-218 | a well-formed response with the error and no result |
| Protocol.SuccessIsNotError | src/mcp/protocol.rs:197-218 | a success and an error response are never equal |
| Protocol.ToolSuccess | src/mcp/protocol.rs:223-232 | one text item carrying the text, not an error |
| Protocol.ToolError | src/mcp/protocol.rs:234-243 | one text item starting "Error: ", marked as an error |
| Protocol.ToolErrorMessage | src/mcp/protocol.rs:234-243 | the message can be read back from the error result |
| Protocol.StorageErrorCode | src/mcp/protocol.rs:247-258 | not-found errors give -32001, duplicates -32002, serialization -32603, and query, connection and migration errors -32004, each iff |
| Protocol.StorageErrorCodeRange | src/mcp/protocol.rs:184-192 | every storage error but serialization maps to the server-error range of section 5.1 of the JSON-RPC 2.0 Specification; the four application codes are distinct and not pre-defined |

## Left out

- Integer widths: counts, streaks and values are unbounded. The `u32` fields of streak records and the `usize` counters of the analytics (`total_streak_days`, for example) cannot overflow in the model.
- Floating point: `f64` is `real`, so the completion rate and the mean of rates are exact and no rounding is modelled. The whole-percent renderings of rates in insight messages are not modelled.
- Lower-casing covers only the ASCII letters. Rust's `to_lowercase` also maps other Unicode letters, and can change the length of a text.
- The clock, UUID generation and parsing, chrono date parsing and the row timestamps are parameters, not modelled.
- The SQL layer is an in-memory store:
  - only the category codec is modelled as text;
  - connection and query failures other than the two constraint violations are not modelled;
  - the `if let Ok` around `get_streak` in the portfolio analysis therefore always succeeds.
- HabitStore.Store.ListHabits: does not promise the `ORDER BY created_at DESC` order, only that each habit appears exactly once.
- The tool success messages are modelled; the prose of insight messages, the report's rendering and emoji glyph text are not. `generated_at` comes from the clock and is not modelled.
- Streaks.MotivationalMessage: states only each band's opening text, because the closing texts are fixed prose.
- The server loop, request dispatch and the `habit_status`, `habit_list` and `habit_insights` tool wrappers (`src/mcp/server.rs`, `src/tools/status.rs`, `src/tools/list.rs`, `src/tools/insights.rs`) are not part of this model. Only the filter's advertised argument names are taken from the server's schema.
- Streaks.CurrentStreak: requires `Interval(n)` to have `n >= 1`; the source divides by `n` and panics on 0, and a validated frequency never has 0.
- Streaks.CountWeeks: the `HashMap` of week counts is a `map`; its iteration order plays no part because the source sorts the keys.
- Storage.StringToCategory: tests the `custom:` prefix before the eight words. The source tests it last, but none of the eight words starts with `custom:`, so the result is the same.
- ToolParsing.CategoryOfWord: tests the `custom:` prefix before the eight words, for the same reason and with the same result.
- Database migrations, `delete_habit`, `get_entries_for_habit`, `get_entries_by_date_range` and `get_all_streaks` are not used by the modelled core and are left out.

## Findings

| source | as written | input that shows it | evidently intended | confidence | as-written member | corrected member |
|---|---|---|---|---|---|---|
| src/domain/streak.rs:413-434 | weeks are keyed `year() * 100 + iso_week()` and adjacent when the next key is 1 more, or between 51 and 59 more | entries on 2024-12-23 (ISO week 52 of 2024, key 202452) and 2025-01-01 (ISO week 1 of 2025, key 202501) differ by 49, so two consecutive weeks count as a streak of 1 | consecutive weeks are adjacent across a year boundary; keying each week by its Monday gives a streak of 2 | not executed | WeeklyBuckets.AsWrittenYearBoundary | WeeklyBuckets.CorrectedYearBoundary |
| src/domain/streak.rs:413 | the calendar year is combined with the ISO week number | 2024-12-30 is in ISO week 1 of 2025 but gets key 202401, smaller than the key 202452 of the week before, so sorting by key misorders the weeks | week keys follow the calendar | not executed | WeeklyBuckets.AsWrittenKeyOutOfOrder | WeeklyBuckets.CorrectedKeys |
| src/analytics/mod.rs:179-181 | `insight_type` is compared with the insights' own types ("success", "recommendation", ...), while the tool schema at src/mcp/server.rs:207 offers "performance", "recommendations" and "patterns" | `insight_type: "performance"` removes every insight the engine makes, and the summary reports none | each advertised name selects the insights it describes | not executed | Analytics.AsWrittenAdvertisedFilter | Analytics.CorrectedAdvertisedFilter |
