/** The `habit_create` tool: checks the name, parses the category and the
    frequency, builds the habit with `Habit::new` and stores it. Every check
    runs before the store is written. */
module CreateTool {
  import opened Wrappers
  import opened Types
  import opened Text
  import opened Habits
  import opened Storage
  import opened ToolParsing
  import opened HabitStore

  datatype CreateHabitParams = CreateHabitParams(
    name: string,
    description: Option<string>,
    category: string,
    frequency: string,
    targetValue: Option<u32>,
    unit: Option<string>)

  datatype CreateHabitResponse = CreateHabitResponse(success: bool, habitId: Option<string>, message: string)

  const EmptyNameMessage := "Habit name cannot be empty"
  const LongNameMessage := "Habit name too long (max 100 characters)"

  /** The tool's own name checks: not blank, then at most 100 bytes counting
      any surrounding whitespace. */
  function CheckName(name: string): (r: Outcome<StorageError>)
    ensures r.Pass? <==> Trim(name) != [] && ByteLen(name) <= 100
    ensures Trim(name) == [] ==> r == Fail(Query(EmptyNameMessage))
    ensures Trim(name) != [] && ByteLen(name) > 100 ==> r == Fail(Query(LongNameMessage))
  {
    if Trim(name) == [] then Fail(Query(EmptyNameMessage))
    else if ByteLen(name) > 100 then Fail(Query(LongNameMessage))
    else Pass
  }

  /** A name the tool accepts also meets the rule of `Habit::new`, so a habit
      name is never rejected by the domain after the tool let it through. */
  lemma CheckNameImpliesValidName(name: string)
    requires CheckName(name).Pass?
    ensures ValidateName(name).Pass?
  {
    ByteLenTrim(name);
  }

  /** The converse fails: the tool counts the whitespace that `Habit::new` trims
      away, so a space followed by 100 letters is refused by the tool although
      the domain would accept it. */
  lemma CheckNameStricter(name: string)
    requires name == [' '] + seq(100, _ => 'a')
    ensures CheckName(name).Fail? && ValidateName(name).Pass?
  {
    var letters := seq(100, _ => 'a');
    ByteLenAscii(name);
    assert TrimStart(name) == letters by {
      assert name[1..] == letters;
    }
    assert TrimEnd(letters) == letters;
    ByteLenAscii(letters);
  }

  /** `habit_create` without the store: the first failing check, or the state
      of the new habit. The fresh id and the creation time are supplied by the
      caller. */
  function PlanCreate(p: CreateHabitParams, id: HabitId, createdAt: Timestamp): (r: Result<HabitState, StorageError>)
    ensures r.Success? <==> (CheckName(p.name).Pass? && ParseCategory(p.category).Success?
                             && ParseFrequency(p.frequency).Success?
                             && CheckNew(p.name, p.description, ParseFrequency(p.frequency).value, p.targetValue, p.unit).Pass?)
    ensures CheckName(p.name).Fail? ==> r == Failure(CheckName(p.name).error)
    ensures CheckName(p.name).Pass? && ParseCategory(p.category).Failure? ==> r == Failure(ParseCategory(p.category).error)
    ensures CheckName(p.name).Pass? && ParseCategory(p.category).Success? && ParseFrequency(p.frequency).Failure?
            ==> r == Failure(ParseFrequency(p.frequency).error)
    ensures r.Success? ==> ValidHabitState(r.value)
    ensures r.Success? ==> r.value == HabitState(id, p.name, p.description, ParseCategory(p.category).value,
                                                ParseFrequency(p.frequency).value, p.targetValue, p.unit, createdAt, true)
    ensures CheckName(p.name).Pass? && ParseCategory(p.category).Success? && ParseFrequency(p.frequency).Success? ==>
              var check := CheckNew(p.name, p.description, ParseFrequency(p.frequency).value, p.targetValue, p.unit);
              check.Fail? ==> r == Failure(Query(DomainErrorText(check.error)))
    ensures r.Failure? ==> r.error.Query?
  {
    var nameCheck := CheckName(p.name);
    if nameCheck.Fail? then Failure(nameCheck.error)
    else
      var category := ParseCategory(p.category);
      if category.Failure? then Failure(category.error)
      else
        var frequency := ParseFrequency(p.frequency);
        if frequency.Failure? then Failure(frequency.error)
        else
          var check := CheckNew(p.name, p.description, frequency.value, p.targetValue, p.unit);
          if check.Fail? then Failure(Query(DomainErrorText(check.error)))
          else Success(HabitState(id, p.name, p.description, category.value, frequency.value, p.targetValue, p.unit, createdAt, true))
  }

  /** When the tool's checks pass, `Habit::new` can only object to the target
      or the unit, or to an over-long description: never to the name or the
      frequency. */
  lemma PlanCreateDomainErrors(p: CreateHabitParams, id: HabitId, createdAt: Timestamp)
    requires CheckName(p.name).Pass? && ParseCategory(p.category).Success? && ParseFrequency(p.frequency).Success?
    ensures ValidateName(p.name).Pass? && Validate(ParseFrequency(p.frequency).value).Pass?
    ensures PlanCreate(p, id, createdAt).Failure? ==>
              ValidateDescription(p.description).Fail? || ValidateTargetAndUnit(p.targetValue, p.unit).Fail?
  {
    CheckNameImpliesValidName(p.name);
  }

  const CreatedOpening := "\U{00E2}\U{0153}\U{2026} Created habit '"
  const CreatedClosing := "'! Ready to start your streak!"

  /** The success message. The leading "emoji" is the three characters the
      source text holds where the check-mark's UTF-8 bytes were re-read as
      Windows-1252. */
  function CreatedMessage(name: string): (m: string)
    ensures |m| == |CreatedOpening| + |name| + |CreatedClosing|
    ensures m[|CreatedOpening|..|CreatedOpening| + |name|] == name
  {
    CreatedOpening + name + CreatedClosing
  }

  /** The message names the habit: different names give different messages. */
  lemma CreatedMessageInjective(a: string, b: string)
    requires CreatedMessage(a) == CreatedMessage(b)
    ensures a == b
  {
  }

  /** `create_habit`: on any failed check nothing is stored; otherwise the new
      habit is inserted under its id and its id is returned. */
  method CreateHabit(store: Store, p: CreateHabitParams, id: HabitId, createdAt: Timestamp)
    returns (r: Result<CreateHabitResponse, StorageError>)
    requires store.Valid()
    modifies store
    ensures store.Valid()
    ensures var plan := PlanCreate(p, id, createdAt);
            (plan.Failure? ==> r == Failure(plan.error) && store.habits == old(store.habits))
            && (plan.Success? && id in old(store.habits) ==>
                  r == Failure(Query(DuplicateHabitMessage)) && store.habits == old(store.habits))
            && (plan.Success? && id !in old(store.habits) ==>
                  r == Success(CreateHabitResponse(true, Some(id.uuid), CreatedMessage(p.name)))
                  && store.habits == old(store.habits)[id := plan.value])
    ensures store.entries == old(store.entries) && store.streaks == old(store.streaks)
  {
    var nameCheck := CheckName(p.name);
    if nameCheck.Fail? {
      return Failure(nameCheck.error);
    }
    var category := ParseCategory(p.category);
    if category.Failure? {
      return Failure(category.error);
    }
    var frequency := ParseFrequency(p.frequency);
    if frequency.Failure? {
      return Failure(frequency.error);
    }
    var created := Habit.New(p.name, p.description, category.value, frequency.value, p.targetValue, p.unit, id, createdAt);
    if created.Failure? {
      return Failure(Query(DomainErrorText(created.error)));
    }
    var stored := store.CreateHabit(created.value.State());
    if stored.Fail? {
      return Failure(stored.error);
    }
    return Success(CreateHabitResponse(true, Some(id.uuid), CreatedMessage(p.name)));
  }
}
