/** The `habit_update` tool: finds the habit, parses a new frequency if one is
    given, applies the changes through `Habit::update` and writes the habit
    back. Nothing is written unless every step before succeeded. */
module UpdateTool {
  import opened Wrappers
  import opened Types
  import opened Text
  import opened Habits
  import opened Storage
  import opened ToolParsing
  import opened HabitStore

  datatype UpdateHabitParams = UpdateHabitParams(
    habitId: string,
    name: Option<string>,
    description: Option<string>,
    frequency: Option<string>,
    targetValue: Option<u32>,
    unit: Option<string>,
    isActive: Option<bool>)

  datatype UpdateHabitResponse = UpdateHabitResponse(success: bool, message: string)

  /** An absent field leaves the value alone; a present one replaces it
      (`Option::map(Some)`): the tool can set a description, target or unit but
      never clear one. */
  function Wrap<T>(o: Option<T>): (r: Option<Option<T>>)
    ensures o.None? <==> r.None?
    ensures o.Some? ==> r.value.Some? && r.value.value == o.value
  {
    if o.Some? then Some(Some(o.value)) else None
  }

  /** The frequency to apply, when one was given. */
  function NewFrequency(frequency: Option<string>): (r: Result<Option<Frequency>, StorageError>)
    ensures frequency.None? ==> r == Success(None)
    ensures frequency.Some? && ParseFrequency(frequency.value).Failure? ==> r == Failure(ParseFrequency(frequency.value).error)
    ensures frequency.Some? && ParseFrequency(frequency.value).Success? ==> r == Success(Some(ParseFrequency(frequency.value).value))
  {
    if frequency.None? then Success(None)
    else
      var f := ParseFrequency(frequency.value);
      if f.Failure? then Failure(f.error) else Success(Some(f.value))
  }

  /** `Habit::update` with the tool's arguments. */
  function Applied(p: UpdateHabitParams, h: HabitState, frequency: Option<Frequency>): Result<HabitState, DomainError> {
    ApplyUpdate(h, p.name, Wrap(p.description), frequency, Wrap(p.targetValue), Wrap(p.unit), p.isActive)
  }

  /** `update_habit` without the store: `parsedId` is the result of parsing the
      id text (None when it is not a UUID), `habits` the stored habits. */
  function PlanUpdate(p: UpdateHabitParams, parsedId: Option<HabitId>, habits: map<HabitId, HabitState>)
    : (r: Result<HabitState, StorageError>)
    ensures parsedId.None? ==> r == Failure(HabitNotFound(p.habitId))
    ensures parsedId.Some? && parsedId.value !in habits ==> r == Failure(HabitNotFound(parsedId.value.uuid))
    ensures parsedId.Some? && parsedId.value in habits && NewFrequency(p.frequency).Failure?
            ==> r == Failure(NewFrequency(p.frequency).error)
    ensures parsedId.Some? && parsedId.value in habits && NewFrequency(p.frequency).Success? ==>
              var u := Applied(p, habits[parsedId.value], NewFrequency(p.frequency).value);
              (u.Success? ==> r == Success(u.value)) && (u.Failure? ==> r == Failure(Query(DomainErrorText(u.error))))
  {
    if parsedId.None? then Failure(HabitNotFound(p.habitId))
    else if parsedId.value !in habits then Failure(HabitNotFound(parsedId.value.uuid))
    else
      var frequency := NewFrequency(p.frequency);
      if frequency.Failure? then Failure(frequency.error)
      else
        var u := Applied(p, habits[parsedId.value], frequency.value);
        if u.Failure? then Failure(Query(DomainErrorText(u.error))) else Success(u.value)
  }

  /** A successful update keeps the habit's id, category and creation time,
      takes every field that was given and keeps every field that was not;
      a valid stored habit stays valid. */
  lemma PlanUpdateFields(p: UpdateHabitParams, parsedId: Option<HabitId>, habits: map<HabitId, HabitState>)
    requires PlanUpdate(p, parsedId, habits).Success?
    ensures parsedId.Some? && parsedId.value in habits
    ensures var old_ := habits[parsedId.value];
            var h := PlanUpdate(p, parsedId, habits).value;
            h.id == old_.id && h.category == old_.category && h.createdAt == old_.createdAt
            && h.name == (if p.name.Some? then p.name.value else old_.name)
            && h.description == (if p.description.Some? then p.description else old_.description)
            && h.targetValue == (if p.targetValue.Some? then p.targetValue else old_.targetValue)
            && h.unit == (if p.unit.Some? then p.unit else old_.unit)
            && h.isActive == (if p.isActive.Some? then p.isActive.value else old_.isActive)
            && (p.frequency.None? ==> h.frequency == old_.frequency)
            && (p.frequency.Some? ==> ParseFrequency(p.frequency.value).Success?
                                      && h.frequency == ParseFrequency(p.frequency.value).value)
            && (ValidHabitState(old_) ==> ValidHabitState(h))
  {
  }

  /** What the success message announces. */
  datatype Announcement = Paused | Reactivated | Updated

  function AnnouncementOf(isActive: Option<bool>): (a: Announcement)
    ensures a == Paused <==> isActive == Some(false)
    ensures a == Reactivated <==> isActive == Some(true)
    ensures a == Updated <==> isActive.None?
  {
    match isActive
    case Some(active) => if active then Reactivated else Paused
    case None => Updated
  }

  /** The leading symbol of each message: pause, play and check-mark. */
  function Symbol(a: Announcement): char {
    match a
    case Paused => '\U{23F8}'
    case Reactivated => '\U{25B6}'
    case Updated => '\U{2705}'
  }

  /** The text between the symbol and the habit's name. */
  function Verb(a: Announcement): string {
    match a
    case Paused => "\U{FE0F} Paused habit '"
    case Reactivated => "\U{FE0F} Reactivated habit '"
    case Updated => " Updated habit '"
  }

  function UpdateMessage(isActive: Option<bool>, name: string): (m: string)
    ensures m != [] && m[0] == Symbol(AnnouncementOf(isActive))
    ensures m[1..] == Verb(AnnouncementOf(isActive)) + name + "'"
  {
    var a := AnnouncementOf(isActive);
    [Symbol(a)] + Verb(a) + name + "'"
  }

  /** The message tells the three outcomes apart and names the habit: the
      announcement and the name can both be read back from it. */
  lemma UpdateMessageInjective(a1: Option<bool>, n1: string, a2: Option<bool>, n2: string)
    requires UpdateMessage(a1, n1) == UpdateMessage(a2, n2)
    ensures AnnouncementOf(a1) == AnnouncementOf(a2) && n1 == n2
  {
    var m := UpdateMessage(a1, n1);
    var v := Verb(AnnouncementOf(a1));
    assert Symbol(AnnouncementOf(a1)) == m[0] == Symbol(AnnouncementOf(a2));
    assert m[1..] == v + n1 + "'" == v + n2 + "'";
    assert n1 == (v + n1 + "'")[|v|..|v| + |n1|];
  }

  /** `update_habit`: the stored habit is replaced by the updated one exactly
      when every step succeeds; on any failure the store is unchanged. */
  method UpdateHabit(store: Store, p: UpdateHabitParams, parsedId: Option<HabitId>)
    returns (r: Result<UpdateHabitResponse, StorageError>)
    requires store.Valid()
    modifies store
    ensures store.Valid()
    ensures var plan := PlanUpdate(p, parsedId, old(store.habits));
            (plan.Failure? ==> r == Failure(plan.error) && store.habits == old(store.habits))
            && (plan.Success? ==> r == Success(UpdateHabitResponse(true, UpdateMessage(p.isActive, plan.value.name)))
                                  && store.habits == old(store.habits)[parsedId.value := plan.value])
    ensures store.entries == old(store.entries) && store.streaks == old(store.streaks)
  {
    if parsedId.None? {
      return Failure(HabitNotFound(p.habitId));
    }
    var habitId := parsedId.value;
    var found := store.GetHabit(habitId);
    if found.Failure? {
      return Failure(found.error);
    }
    var frequency := NewFrequency(p.frequency);
    if frequency.Failure? {
      return Failure(frequency.error);
    }
    var habit := new Habit.FromExisting(found.value);
    var updated := habit.Update(p.name, Wrap(p.description), frequency.value, Wrap(p.targetValue), Wrap(p.unit), p.isActive);
    if updated.Fail? {
      return Failure(Query(DomainErrorText(updated.error)));
    }
    // The habit was read under this id a moment ago, so the write finds its row.
    var saved := store.UpdateHabit(habit.State());
    assert saved.Pass?;
    return Success(UpdateHabitResponse(true, UpdateMessage(p.isActive, habit.name)));
  }
}
