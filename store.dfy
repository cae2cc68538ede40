/** The storage the tools write through (`HabitStorage`), as an in-memory store
    of habits, entries and streak rows. It keeps the guarantees the SQLite schema
    gives: a habit id is a primary key, an entry is unique per habit and
    completion date, and at most one streak row exists per habit. */
module HabitStore {
  import opened Wrappers
  import opened Calendar
  import opened Types
  import opened Entries
  import opened Habits
  import opened Storage
  import Streaks

  /** The SQLite error text for the unique index on `(habit_id, completed_at)`. */
  const DuplicateEntryMessage := "UNIQUE constraint failed: habit_entries.habit_id, habit_entries.completed_at"

  /** The SQLite error text for the primary key of `habits`. */
  const DuplicateHabitMessage := "UNIQUE constraint failed: habits.id"

  /** Whether some entry of `entries` is for `habitId` on `date`. */
  predicate Logged(entries: seq<HabitEntry>, habitId: HabitId, date: Date) {
    exists i :: 0 <= i < |entries| && entries[i].habitId == habitId && entries[i].completedAt == date
  }

  /** No two entries share a habit and a completion date. */
  predicate UniqueEntries(entries: seq<HabitEntry>) {
    forall i, j :: 0 <= i < j < |entries| ==>
      !(entries[i].habitId == entries[j].habitId && entries[i].completedAt == entries[j].completedAt)
  }

  class Store {
    var habits: map<HabitId, HabitState>
    var entries: seq<HabitEntry>
    var streaks: map<HabitId, Streaks.Streak>

    /** Every habit is stored under its own id, every streak row under its
        habit's id, and entries are unique per habit and date. */
    predicate Valid()
      reads this
    {
      (forall id :: id in habits ==> habits[id].id == id)
      && (forall id :: id in streaks ==> streaks[id].habitId == id)
      && UniqueEntries(entries)
    }

    /** An empty database. */
    constructor ()
      ensures Valid()
      ensures habits == map[] && entries == [] && streaks == map[]
    {
      habits, entries, streaks := map[], [], map[];
    }

    /** The streak row of a habit, or a new empty streak when there is none
        (`get_streak` turns "no rows" into `Streak::new`). */
    function StreakRow(habitId: HabitId): (s: Streaks.Streak)
      reads this
      ensures Valid() ==> s.habitId == habitId
      ensures habitId !in streaks ==> s == Streaks.NewStreak(habitId)
    {
      if habitId in streaks then streaks[habitId] else Streaks.NewStreak(habitId)
    }

    /** `create_habit`: inserts the habit; an id already present violates the
        primary key and changes nothing. */
    method CreateHabit(h: HabitState) returns (r: Outcome<StorageError>)
      requires Valid()
      modifies this
      ensures Valid()
      ensures h.id !in old(habits) ==> r.Pass? && habits == old(habits)[h.id := h]
      ensures h.id in old(habits) ==> r == Fail(Query(DuplicateHabitMessage)) && habits == old(habits)
      ensures entries == old(entries) && streaks == old(streaks)
    {
      if h.id in habits {
        return Fail(Query(DuplicateHabitMessage));
      }
      habits := habits[h.id := h];
      return Pass;
    }

    /** `get_habit`: the stored habit, or `HabitNotFound` with the id's text. */
    method GetHabit(habitId: HabitId) returns (r: Result<HabitState, StorageError>)
      ensures habitId in habits ==> r == Success(habits[habitId])
      ensures habitId !in habits ==> r == Failure(HabitNotFound(habitId.uuid))
    {
      if habitId in habits {
        return Success(habits[habitId]);
      }
      return Failure(HabitNotFound(habitId.uuid));
    }

    /** `update_habit`: overwrites the row of the habit's id; when no row is
        affected the result is `HabitNotFound` and nothing changes. */
    method UpdateHabit(h: HabitState) returns (r: Outcome<StorageError>)
      requires Valid()
      modifies this
      ensures Valid()
      ensures h.id in old(habits) ==> r.Pass? && habits == old(habits)[h.id := h]
      ensures h.id !in old(habits) ==> r == Fail(HabitNotFound(h.id.uuid)) && habits == old(habits)
      ensures entries == old(entries) && streaks == old(streaks)
    {
      if h.id !in habits {
        return Fail(HabitNotFound(h.id.uuid));
      }
      habits := habits[h.id := h];
      return Pass;
    }

    /** `list_habits(None, active_only)`: every stored habit, or only the active
        ones, each once. */
    method ListHabits(activeOnly: bool) returns (hs: seq<HabitState>)
      requires Valid()
      ensures forall h :: h in hs <==> h in habits.Values && (activeOnly ==> h.isActive)
      ensures forall i, j :: 0 <= i < j < |hs| ==> hs[i].id != hs[j].id
    {
      hs := [];
      var rest := habits.Keys;
      while rest != {}
        invariant rest <= habits.Keys
        invariant forall i :: 0 <= i < |hs| ==>
                    hs[i].id in habits && habits[hs[i].id] == hs[i] && hs[i].id !in rest && (activeOnly ==> hs[i].isActive)
        invariant forall id :: id in habits && id !in rest && (activeOnly ==> habits[id].isActive) ==> habits[id] in hs
        invariant forall i, j :: 0 <= i < j < |hs| ==> hs[i].id != hs[j].id
        decreases rest
      {
        var id :| id in rest;
        if !activeOnly || habits[id].isActive {
          hs := hs + [habits[id]];
        }
        rest := rest - {id};
      }
      forall h | h in habits.Values && (activeOnly ==> h.isActive)
        ensures h in hs
      {
        var id :| id in habits && habits[id] == h;
      }
    }

    /** `create_entry`: appends the entry unless the habit is already logged for
        that date, which the unique index rejects. */
    method CreateEntry(e: HabitEntry) returns (r: Outcome<StorageError>)
      requires Valid()
      modifies this
      ensures Valid()
      ensures !Logged(old(entries), e.habitId, e.completedAt) ==> r.Pass? && entries == old(entries) + [e]
      ensures Logged(old(entries), e.habitId, e.completedAt) ==>
                r == Fail(Query(DuplicateEntryMessage)) && entries == old(entries)
      ensures habits == old(habits) && streaks == old(streaks)
    {
      var i := 0;
      while i < |entries|
        invariant 0 <= i <= |entries|
        invariant forall k :: 0 <= k < i ==> !(entries[k].habitId == e.habitId && entries[k].completedAt == e.completedAt)
      {
        if entries[i].habitId == e.habitId && entries[i].completedAt == e.completedAt {
          return Fail(Query(DuplicateEntryMessage));
        }
        i := i + 1;
      }
      entries := entries + [e];
      return Pass;
    }

    /** `get_streak`. */
    method GetStreak(habitId: HabitId) returns (s: Streaks.Streak)
      ensures s == StreakRow(habitId)
    {
      if habitId in streaks {
        return streaks[habitId];
      }
      return Streaks.NewStreak(habitId);
    }

    /** `update_streak`: `INSERT OR REPLACE` keyed by the habit id. */
    method UpdateStreak(s: Streaks.Streak)
      requires Valid()
      modifies this
      ensures Valid()
      ensures streaks == old(streaks)[s.habitId := s]
      ensures habits == old(habits) && entries == old(entries)
    {
      streaks := streaks[s.habitId := s];
    }
  }
}
