/** The habit entity: its validation rules, creation, in-place update and the
    display of its target. */
module Habits {
  import opened Wrappers
  import opened Types
  import Text

  /** `validate_name`: the trimmed name must be non-empty and at most 100 bytes. */
  function ValidateName(name: string): (r: Outcome<DomainError>)
    ensures r.Pass? <==> Text.Trim(name) != [] && Text.ByteLen(Text.Trim(name)) <= 100
    ensures r.Fail? ==> r.error.InvalidHabitName?
  {
    var trimmed := Text.Trim(name);
    if trimmed == [] then Fail(InvalidHabitName("Habit name cannot be empty"))
    else if Text.ByteLen(trimmed) > 100 then Fail(InvalidHabitName("Habit name cannot be longer than 100 characters"))
    else Pass
  }

  /** `validate_description`: at most 500 bytes (not trimmed). */
  function ValidateDescription(description: Option<string>): (r: Outcome<DomainError>)
    ensures r.Pass? <==> (description.Some? ==> Text.ByteLen(description.value) <= 500)
    ensures r.Fail? ==> r.error.Validation?
  {
    if description.Some? && Text.ByteLen(description.value) > 500 then
      Fail(Validation("Description cannot be longer than 500 characters"))
    else Pass
  }

  /** `validate_target_and_unit`: a target lies in 1..=10000; a unit is non-blank
      and at most 20 bytes once trimmed. The target is checked first. */
  function ValidateTargetAndUnit(target: Option<u32>, unit: Option<string>): (r: Outcome<DomainError>)
    ensures r.Pass? <==> ((target.Some? ==> 1 <= target.value <= 10000)
                          && (unit.Some? ==> Text.Trim(unit.value) != [] && Text.ByteLen(Text.Trim(unit.value)) <= 20))
    ensures r.Fail? ==> r.error.InvalidValue?
    ensures target.Some? && target.value == 0 ==> r == Fail(InvalidValue("Target value must be greater than 0"))
  {
    if target.Some? && target.value == 0 then Fail(InvalidValue("Target value must be greater than 0"))
    else if target.Some? && target.value > 10000 then Fail(InvalidValue("Target value cannot exceed 10000"))
    else if unit.Some? && Text.Trim(unit.value) == [] then Fail(InvalidValue("Unit cannot be empty if specified"))
    else if unit.Some? && Text.ByteLen(Text.Trim(unit.value)) > 20 then
      Fail(InvalidValue("Unit cannot be longer than 20 characters"))
    else Pass
  }

  /** The value of a habit's fields. */
  datatype HabitState = HabitState(
    id: HabitId,
    name: string,
    description: Option<string>,
    category: Category,
    frequency: Frequency,
    targetValue: Option<u32>,
    unit: Option<string>,
    createdAt: Timestamp,
    isActive: bool)

  /** Every field of the habit meets the rules `Habit::new` enforces. */
  predicate ValidHabitState(s: HabitState) {
    ValidateName(s.name).Pass? && ValidateDescription(s.description).Pass?
    && Validate(s.frequency).Pass? && ValidateTargetAndUnit(s.targetValue, s.unit).Pass?
  }

  /** The checks of `Habit::new`, in the order name, description, frequency,
      target and unit; the first failure is the result. */
  function CheckNew(name: string, description: Option<string>, frequency: Frequency,
                    target: Option<u32>, unit: Option<string>): (r: Outcome<DomainError>)
    ensures r.Pass? <==> (ValidateName(name).Pass? && ValidateDescription(description).Pass?
                          && Validate(frequency).Pass? && ValidateTargetAndUnit(target, unit).Pass?)
    ensures ValidateName(name).Fail? ==> r == ValidateName(name)
    ensures Validate(frequency).Fail? ==> r.Fail?
    ensures ValidateName(name).Pass? && ValidateDescription(description).Fail? ==> r == ValidateDescription(description)
    ensures (ValidateName(name).Pass? && ValidateDescription(description).Pass?
             && Validate(frequency).Fail?) ==> r == Validate(frequency)
    ensures (ValidateName(name).Pass? && ValidateDescription(description).Pass?
             && Validate(frequency).Pass?) ==> r == ValidateTargetAndUnit(target, unit)
  {
    if ValidateName(name).Fail? then ValidateName(name)
    else if ValidateDescription(description).Fail? then ValidateDescription(description)
    else if Validate(frequency).Fail? then Validate(frequency)
    else ValidateTargetAndUnit(target, unit)
  }

  /** The checks of `Habit::update`, run before anything is assigned: each
      supplied field in the order name, description, frequency, then the target
      and unit merged with the habit's current ones. */
  function CheckUpdate(name: Option<string>, description: Option<Option<string>>,
                       frequency: Option<Frequency>, mergedTarget: Option<u32>, mergedUnit: Option<string>)
    : (r: Outcome<DomainError>)
    ensures r.Pass? <==> ((name.Some? ==> ValidateName(name.value).Pass?)
                          && (description.Some? ==> ValidateDescription(description.value).Pass?)
                          && (frequency.Some? ==> Validate(frequency.value).Pass?)
                          && ValidateTargetAndUnit(mergedTarget, mergedUnit).Pass?)
    ensures name.Some? && ValidateName(name.value).Fail? ==> r == ValidateName(name.value)
    ensures frequency.Some? && Validate(frequency.value).Fail? ==> r.Fail?
    ensures ((name.Some? ==> ValidateName(name.value).Pass?) && description.Some?
             && ValidateDescription(description.value).Fail?) ==> r == ValidateDescription(description.value)
    ensures ((name.Some? ==> ValidateName(name.value).Pass?)
             && (description.Some? ==> ValidateDescription(description.value).Pass?)
             && (frequency.Some? ==> Validate(frequency.value).Pass?)) ==> r == ValidateTargetAndUnit(mergedTarget, mergedUnit)
  {
    if name.Some? && ValidateName(name.value).Fail? then ValidateName(name.value)
    else if description.Some? && ValidateDescription(description.value).Fail? then
      ValidateDescription(description.value)
    else if frequency.Some? && Validate(frequency.value).Fail? then Validate(frequency.value)
    else ValidateTargetAndUnit(mergedTarget, mergedUnit)
  }

  /** `Habit::update` on values. `None` leaves a field as it is; `Some(None)`
      clears an optional field. A successful update keeps the habit valid and
      never touches its id, category or creation time. */
  function ApplyUpdate(s: HabitState, name: Option<string>, description: Option<Option<string>>,
                       frequency: Option<Frequency>, target: Option<Option<u32>>,
                       unit: Option<Option<string>>, isActive: Option<bool>)
    : (r: Result<HabitState, DomainError>)
    ensures r.Success? <==> ((name.Some? ==> ValidateName(name.value).Pass?)
                             && (description.Some? ==> ValidateDescription(description.value).Pass?)
                             && (frequency.Some? ==> Validate(frequency.value).Pass?)
                             && ValidateTargetAndUnit(if target.Some? then target.value else s.targetValue,
                                                      if unit.Some? then unit.value else s.unit).Pass?)
    ensures r.Success? ==> r.value.id == s.id && r.value.category == s.category && r.value.createdAt == s.createdAt
    ensures r.Success? ==> ((name.None? ==> r.value.name == s.name)
                            && (description.None? ==> r.value.description == s.description)
                            && (frequency.None? ==> r.value.frequency == s.frequency)
                            && (target.None? ==> r.value.targetValue == s.targetValue)
                            && (unit.None? ==> r.value.unit == s.unit)
                            && (isActive.None? ==> r.value.isActive == s.isActive))
    ensures r.Success? ==> ((name.Some? ==> r.value.name == name.value)
                            && (description.Some? ==> r.value.description == description.value)
                            && (frequency.Some? ==> r.value.frequency == frequency.value)
                            && (target.Some? ==> r.value.targetValue == target.value)
                            && (unit.Some? ==> r.value.unit == unit.value)
                            && (isActive.Some? ==> r.value.isActive == isActive.value))
    ensures ValidHabitState(s) && r.Success? ==> ValidHabitState(r.value)
  {
    var newTarget := if target.Some? then target.value else s.targetValue;
    var newUnit := if unit.Some? then unit.value else s.unit;
    var check := CheckUpdate(name, description, frequency, newTarget, newUnit);
    if check.Fail? then Failure(check.error)
    else Success(s.(
      name := if name.Some? then name.value else s.name,
      description := if description.Some? then description.value else s.description,
      frequency := if frequency.Some? then frequency.value else s.frequency,
      targetValue := newTarget,
      unit := newUnit,
      isActive := if isActive.Some? then isActive.value else s.isActive))
  }

  /** `target_display`: "v u" with a unit, "v" without one, nothing without a target. */
  function TargetText(target: Option<u32>, unit: Option<string>): (r: Option<string>)
    ensures r.Some? <==> target.Some?
    ensures target.Some? && unit.Some? ==> r == Some(Text.Decimal(target.value) + " " + unit.value)
    ensures target.Some? && unit.None? ==> r == Some(Text.Decimal(target.value))
  {
    match target
    case Some(v) => if unit.Some? then Some(Text.Decimal(v) + " " + unit.value) else Some(Text.Decimal(v))
    case None => None
  }

  /** The target display determines the target and the unit it shows. */
  lemma TargetTextInjective(t1: Option<u32>, u1: Option<string>, t2: Option<u32>, u2: Option<string>)
    requires t1.Some? && t2.Some?
    requires TargetText(t1, u1) == TargetText(t2, u2)
    ensures t1 == t2 && u1 == u2
  {
    var s1, s2 := TargetText(t1, u1).value, TargetText(t2, u2).value;
    var d1, d2 := Text.Decimal(t1.value), Text.Decimal(t2.value);
    // The rendering of the target is the part before the first space.
    assert forall i :: 0 <= i < |d1| ==> s1[i] != ' ';
    assert forall i :: 0 <= i < |d2| ==> s2[i] != ' ';
    assert u1.Some? ==> s1[|d1|] == ' ';
    assert u2.Some? ==> s2[|d2|] == ' ';
    assert |d1| == |d2|;
    assert d1 == s1[..|d1|] == s2[..|d2|] == d2;
    Text.DecimalInjective(t1.value, t2.value);
    if u1.Some? {
      assert u1.value == s1[|d1| + 1..] == s2[|d2| + 1..];
    }
  }

  /** A habit: a user's recurring intention, updated in place. */
  class Habit {
    var id: HabitId
    var name: string
    var description: Option<string>
    var category: Category
    var frequency: Frequency
    var targetValue: Option<u32>
    var unit: Option<string>
    var createdAt: Timestamp
    var isActive: bool

    function State(): HabitState
      reads this
    {
      HabitState(id, name, description, category, frequency, targetValue, unit, createdAt, isActive)
    }

    /** `Habit::from_existing`: loads stored fields without validating them. */
    constructor FromExisting(s: HabitState)
      ensures State() == s
    {
      id, name, description, category := s.id, s.name, s.description, s.category;
      frequency, targetValue, unit := s.frequency, s.targetValue, s.unit;
      createdAt, isActive := s.createdAt, s.isActive;
    }

    /** `Habit::new`: validates every field and creates an active habit; the id
        and creation time are supplied by the caller. */
    static method New(name: string, description: Option<string>, category: Category, frequency: Frequency,
                      target: Option<u32>, unit: Option<string>, id: HabitId, createdAt: Timestamp)
      returns (r: Result<Habit, DomainError>)
      ensures r.Success? <==> CheckNew(name, description, frequency, target, unit).Pass?
      ensures r.Failure? ==> r.error == CheckNew(name, description, frequency, target, unit).error
      ensures r.Success? ==> (fresh(r.value)
                              && r.value.State() == HabitState(id, name, description, category, frequency, target, unit, createdAt, true)
                              && ValidHabitState(r.value.State()))
    {
      var check := CheckNew(name, description, frequency, target, unit);
      if check.Fail? {
        return Failure(check.error);
      }
      var h := new Habit.FromExisting(HabitState(id, name, description, category, frequency, target, unit, createdAt, true));
      return Success(h);
    }

    /** `Habit::update`: all checks run before any field is assigned, so a
        failed update leaves the habit as it was. */
    method Update(newName: Option<string>, newDescription: Option<Option<string>>,
                  newFrequency: Option<Frequency>, newTarget: Option<Option<u32>>,
                  newUnit: Option<Option<string>>, newIsActive: Option<bool>)
      returns (r: Outcome<DomainError>)
      modifies this
      ensures var u := ApplyUpdate(old(State()), newName, newDescription, newFrequency, newTarget, newUnit, newIsActive);
              (r.Pass? <==> u.Success?)
              && (u.Success? ==> State() == u.value)
              && (u.Failure? ==> State() == old(State()) && r.error == u.error)
    {
      var mergedTarget := if newTarget.Some? then newTarget.value else targetValue;
      var mergedUnit := if newUnit.Some? then newUnit.value else unit;
      var check := CheckUpdate(newName, newDescription, newFrequency, mergedTarget, mergedUnit);
      ghost var u := ApplyUpdate(State(), newName, newDescription, newFrequency, newTarget, newUnit, newIsActive);
      if check.Fail? {
        assert u == Failure(check.error);
        return check;
      }
      assert u.Success?;
      Assign(newName, newDescription, newFrequency, newTarget, newUnit, newIsActive);
      return Pass;
    }

    /** The assignments of `Habit::update`: each supplied field takes its new value. */
    method Assign(newName: Option<string>, newDescription: Option<Option<string>>,
                  newFrequency: Option<Frequency>, newTarget: Option<Option<u32>>,
                  newUnit: Option<Option<string>>, newIsActive: Option<bool>)
      modifies this
      ensures State() == old(State()).(
        name := if newName.Some? then newName.value else old(name),
        description := if newDescription.Some? then newDescription.value else old(description),
        frequency := if newFrequency.Some? then newFrequency.value else old(frequency),
        targetValue := if newTarget.Some? then newTarget.value else old(targetValue),
        unit := if newUnit.Some? then newUnit.value else old(unit),
        isActive := if newIsActive.Some? then newIsActive.value else old(isActive))
    {
      if newName.Some? {
        name := newName.value;
      }
      if newDescription.Some? {
        description := newDescription.value;
      }
      if newFrequency.Some? {
        frequency := newFrequency.value;
      }
      if newTarget.Some? {
        targetValue := newTarget.value;
      }
      if newUnit.Some? {
        unit := newUnit.value;
      }
      if newIsActive.Some? {
        isActive := newIsActive.value;
      }
    }

    predicate HasTarget()
      reads this
    {
      targetValue.Some?
    }

    function TargetDisplay(): Option<string>
      reads this
    {
      TargetText(targetValue, unit)
    }
  }

  /** An empty name is rejected, a target of 30 minutes displays as
      "30 minutes", and a target of 0 is rejected. */
  lemma NewHabitExamples()
    ensures CheckNew("", None, Daily, None, None).Fail?
    ensures TargetText(Some(30), Some("minutes")) == Some("30 minutes")
    ensures CheckNew("Test Habit", None, Daily, Some(0), Some("minutes")).Fail?
  {
    assert Text.Trim("") == [];
    assert Text.Decimal(30) == "30";
    assert "30" + " " + "minutes" == "30 minutes";
  }

  /** "Morning Run", described as a 30-minute jog, daily, with a target of 30
      minutes, passes every check of `Habit::new`. */
  lemma MorningRunAccepted(name: string, description: string, unit: string)
    requires name == "Morning Run" && unit == "minutes"
    requires description == "30-minute jog around the neighborhood"
    ensures CheckNew(name, Some(description), Daily, Some(30), Some(unit)).Pass?
  {
    Text.TrimEmptyIff(name);
    assert !Text.IsWhitespace(name[0]);
    Text.ByteLenTrim(name);
    Text.TrimEmptyIff(unit);
    assert !Text.IsWhitespace(unit[0]);
    Text.ByteLenTrim(unit);
    Text.ByteLenAscii(unit);
  }
}
