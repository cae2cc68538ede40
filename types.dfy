/** The domain's value types: identifiers, categories, frequencies (with their
    validation and schedule predicate) and the domain error enum. */
module Types {
  import opened Wrappers
  import opened Calendar
  import Text

  type u8 = x: int | 0 <= x < 0x100
  type u32 = x: int | 0 <= x < 0x1_0000_0000

  /** A habit's UUID, kept as its text form; generating and parsing UUIDs is outside the model. */
  datatype HabitId = HabitId(uuid: string)

  datatype EntryId = EntryId(uuid: string)

  /** Time stamps (`DateTime<Utc>`), as an opaque instant supplied by the caller. */
  type Timestamp = int

  /** Life areas a habit belongs to; `Custom` carries a user-chosen name. */
  datatype Category =
    | Health | Productivity | Social | Creative | Mindfulness | Financial | Household | Personal
    | Custom(name: string)

  /** `Category::display_name`. */
  function DisplayName(c: Category): string {
    match c
    case Health => "Health"
    case Productivity => "Productivity"
    case Social => "Social"
    case Creative => "Creative"
    case Mindfulness => "Mindfulness"
    case Financial => "Financial"
    case Household => "Household"
    case Personal => "Personal"
    case Custom(name) => name
  }

  /** A custom category displays as its own name, and the eight fixed categories
      display under eight different names. */
  lemma DisplayNames(c: Category, d: Category)
    ensures c.Custom? ==> DisplayName(c) == c.name
    ensures !c.Custom? && !d.Custom? && DisplayName(c) == DisplayName(d) ==> c == d
  {
  }

  /** How often a habit is meant to be done. */
  datatype Frequency =
    | Daily
    | Weekly(times: u8)
    | Weekdays
    | Weekends
    | Custom(days: seq<Weekday>)
    | Interval(every: u32)

  /** Errors raised by the domain validators. */
  datatype DomainError =
    | Validation(message: string)
    | InvalidHabitName(reason: string)
    | InvalidFrequency(reason: string)
    | InvalidDate(reason: string)
    | InvalidValue(message: string)

  /** The `Display` text of a domain error. */
  function DomainErrorText(e: DomainError): (t: string)
    ensures t != []
  {
    match e
    case Validation(m) => "Validation error: " + m
    case InvalidHabitName(m) => "Invalid habit name: " + m
    case InvalidFrequency(m) => "Invalid frequency: " + m
    case InvalidDate(m) => "Invalid date: " + m
    case InvalidValue(m) => "Invalid value: " + m
  }

  /** `Frequency::validate`: the parameter of each variant must lie in its range. */
  function Validate(f: Frequency): (r: Outcome<DomainError>)
    ensures f.Weekly? ==> (r.Pass? <==> 1 <= f.times <= 7)
    ensures f.Custom? ==> (r.Pass? <==> 1 <= |f.days| <= 7)
    ensures f.Interval? ==> (r.Pass? <==> 1 <= f.every <= 365)
    ensures f.Daily? || f.Weekdays? || f.Weekends? ==> r.Pass?
    ensures r.Fail? ==> r.error.InvalidFrequency?
  {
    match f
    case Weekly(times) =>
      if times == 0 || times > 7 then
        Fail(InvalidFrequency("Weekly frequency must be 1-7, got " + Text.Decimal(times)))
      else Pass
    case Custom(days) =>
      if |days| == 0 then Fail(InvalidFrequency("Custom frequency must specify at least one day"))
      else if |days| > 7 then Fail(InvalidFrequency("Custom frequency cannot have more than 7 days"))
      else Pass
    case Interval(n) =>
      if n == 0 then Fail(InvalidFrequency("Interval must be at least 1 day"))
      else if n > 365 then Fail(InvalidFrequency("Interval cannot be longer than 365 days"))
      else Pass
    case _ => Pass
  }

  /** `Frequency::is_scheduled_for_date`. */
  predicate IsScheduledForDate(f: Frequency, d: Date) {
    match f
    case Daily => true
    case Weekdays => !IsWeekend(d)
    case Weekends => IsWeekend(d)
    case Custom(days) => WeekdayOf(d) in days
    case Weekly(_) => true
    case Interval(_) => true
  }

  /** Daily, weekly and interval habits are scheduled on every date; on any date
      exactly one of weekdays and weekends is scheduled; a custom schedule holds on
      the days of the week it lists. */
  lemma ScheduleByVariant(f: Frequency, d: Date)
    ensures f.Daily? || f.Weekly? || f.Interval? ==> IsScheduledForDate(f, d)
    ensures IsScheduledForDate(Weekdays, d) != IsScheduledForDate(Weekends, d)
    ensures f.Custom? ==> (IsScheduledForDate(f, d) <==> WeekdayOf(d) in f.days)
  {
  }

  /** Every schedule repeats with the week. */
  lemma ScheduleWeeklyPeriodic(f: Frequency, d: Date, k: int)
    ensures IsScheduledForDate(f, d + 7 * k) == IsScheduledForDate(f, d)
  {
    WeekdayPeriodic(d, k);
  }

  /** Unless it is a custom frequency with no days (which does not validate),
      every week holds a scheduled day: among any seven consecutive days ending
      at `d` one is scheduled. */
  lemma ScheduleRecurs(f: Frequency, d: Date) returns (k: nat)
    requires f.Custom? ==> f.days != []
    ensures k < 7 && IsScheduledForDate(f, d - k)
  {
    match f {
      case Custom(days) =>
        var wanted := NumDaysFromMonday(days[0]);
        var here := NumDaysFromMonday(WeekdayOf(d));
        assert wanted < 7;
        k := if here >= wanted then here - wanted else here + 7 - wanted;
        WeekdayBack(d, k);
        WeekdayIndexInjective(WeekdayOf(d - k), days[0]);
      case Weekdays =>
        k := if WeekdayOf(d) == Sat then 1 else if WeekdayOf(d) == Sun then 2 else 0;
        WeekdayBack(d, k);
      case Weekends =>
        k := if IsWeekend(d) then 0 else NumDaysFromMonday(WeekdayOf(d)) + 1;
        WeekdayBack(d, k);
      case _ =>
        k := 0;
    }
  }
}
