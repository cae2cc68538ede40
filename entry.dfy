/** A habit entry: one completion of a habit on a given day, with its optional
    value, intensity and notes, and the validation that guards its creation. */
module Entries {
  import opened Wrappers
  import opened Calendar
  import opened Types
  import Text

  datatype HabitEntry = HabitEntry(
    id: EntryId,
    habitId: HabitId,
    loggedAt: Timestamp,
    completedAt: Date,
    value: Option<u32>,
    intensity: Option<u8>,
    notes: Option<string>)

  /** The completion day must lie in the year up to and including today. */
  function ValidateCompletedAt(date: Date, today: Date): (r: Outcome<DomainError>)
    ensures r.Pass? <==> today - 365 <= date <= today
    ensures date > today ==> r == Fail(InvalidDate("Cannot log habits for future dates"))
    ensures date < today - 365 ==> r == Fail(InvalidDate("Cannot log habits more than 1 year in the past"))
  {
    if date > today then Fail(InvalidDate("Cannot log habits for future dates"))
    else if date < today - 365 then Fail(InvalidDate("Cannot log habits more than 1 year in the past"))
    else Pass
  }

  function ValidateValue(value: Option<u32>): (r: Outcome<DomainError>)
    ensures r.Pass? <==> (value.Some? ==> value.value <= 100000)
    ensures r.Fail? ==> r.error.InvalidValue?
  {
    if value.Some? && value.value > 100000 then Fail(InvalidValue("Value cannot exceed 100000"))
    else Pass
  }

  function ValidateIntensity(intensity: Option<u8>): (r: Outcome<DomainError>)
    ensures r.Pass? <==> (intensity.Some? ==> 1 <= intensity.value <= 10)
    ensures r.Fail? ==> r.error.InvalidValue?
  {
    if intensity.Some? && (intensity.value < 1 || intensity.value > 10) then
      Fail(InvalidValue("Intensity must be between 1 and 10"))
    else Pass
  }

  /** Notes are limited to 500 bytes of UTF-8. */
  function ValidateNotes(notes: Option<string>): (r: Outcome<DomainError>)
    ensures r.Pass? <==> (notes.Some? ==> Text.ByteLen(notes.value) <= 500)
    ensures r.Fail? ==> r.error.InvalidValue?
  {
    if notes.Some? && Text.ByteLen(notes.value) > 500 then
      Fail(InvalidValue("Notes cannot be longer than 500 characters"))
    else Pass
  }

  /** `HabitEntry::new`: the four checks run in the order date, value, intensity,
      notes, and the first failure is the result. `today`, the fresh id and the
      logging time are supplied by the caller. */
  function NewEntry(habitId: HabitId, completedAt: Date, value: Option<u32>, intensity: Option<u8>,
                    notes: Option<string>, today: Date, id: EntryId, loggedAt: Timestamp)
    : (r: Result<HabitEntry, DomainError>)
    ensures r.Success? <==> (today - 365 <= completedAt <= today
                             && (value.Some? ==> value.value <= 100000)
                             && (intensity.Some? ==> 1 <= intensity.value <= 10)
                             && (notes.Some? ==> Text.ByteLen(notes.value) <= 500))
    ensures r.Success? ==> (r.value.habitId == habitId && r.value.completedAt == completedAt
                            && r.value.value == value && r.value.intensity == intensity
                            && r.value.notes == notes && r.value.id == id)
    ensures ValidateCompletedAt(completedAt, today).Fail? ==> r == Failure(ValidateCompletedAt(completedAt, today).error)
    ensures ValidateCompletedAt(completedAt, today).Pass? && ValidateValue(value).Fail?
            ==> r == Failure(ValidateValue(value).error)
    ensures (ValidateCompletedAt(completedAt, today).Pass? && ValidateValue(value).Pass?
             && ValidateIntensity(intensity).Fail?) ==> r == Failure(ValidateIntensity(intensity).error)
    ensures (ValidateCompletedAt(completedAt, today).Pass? && ValidateValue(value).Pass?
             && ValidateIntensity(intensity).Pass? && ValidateNotes(notes).Fail?)
            ==> r == Failure(ValidateNotes(notes).error)
  {
    var dateCheck := ValidateCompletedAt(completedAt, today);
    if dateCheck.Fail? then Failure(dateCheck.error)
    else
      var valueCheck := ValidateValue(value);
      if valueCheck.Fail? then Failure(valueCheck.error)
      else
        var intensityCheck := ValidateIntensity(intensity);
        if intensityCheck.Fail? then Failure(intensityCheck.error)
        else
          var notesCheck := ValidateNotes(notes);
          if notesCheck.Fail? then Failure(notesCheck.error)
          else Success(HabitEntry(id, habitId, loggedAt, completedAt, value, intensity, notes))
  }

  predicate HasValue(e: HabitEntry) {
    e.value.Some?
  }

  predicate HasIntensity(e: HabitEntry) {
    e.intensity.Some?
  }

  /** `has_notes`: notes are present and not blank. */
  predicate HasNotes(e: HabitEntry) {
    e.notes.Some? && Text.Trim(e.notes.value) != []
  }

  /** An entry has notes exactly when its notes hold a character that is not whitespace. */
  lemma HasNotesIff(e: HabitEntry)
    ensures HasNotes(e) <==> e.notes.Some? && exists i :: 0 <= i < |e.notes.value| && !Text.IsWhitespace(e.notes.value[i])
  {
    if e.notes.Some? {
      Text.TrimEmptyIff(e.notes.value);
    }
  }

  /** An entry for today with value 30, intensity 8 and the notes "Felt great
      today!" is accepted with those fields, and has a value, an intensity and
      notes; an entry for tomorrow is refused. */
  lemma ValidEntryToday(habitId: HabitId, today: Date, id: EntryId, loggedAt: Timestamp, notes: string)
    requires notes == "Felt great today!"
    ensures var r := NewEntry(habitId, today, Some(30), Some(8), Some(notes), today, id, loggedAt);
            r.Success? && r.value.habitId == habitId && r.value.completedAt == today
            && r.value.value == Some(30) && r.value.intensity == Some(8)
            && HasValue(r.value) && HasIntensity(r.value) && HasNotes(r.value)
    ensures NewEntry(habitId, today + 1, None, None, None, today, id, loggedAt).Failure?
  {
    assert |notes| <= 125;
    Text.TrimEmptyIff(notes);
    assert !Text.IsWhitespace(notes[0]);
  }
}
