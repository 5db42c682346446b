/** The habit list (src/app/components/HabitTracker.tsx): which habits show
    as completed today, the set-up prompt for a user without habits, and
    the default habits it creates. The inserts themselves are backend
    calls; the model gives the rows they send, in order. */
module HabitTracker {
  import opened Types
  import FitnessData

  /** `logs.some(l => l.habit_id === habitId)`. */
  predicate IsCompleted(logs: seq<HabitLog>, habitId: string) {
    exists i :: 0 <= i < |logs| && logs[i].habit_id == habitId
  }

  /** The view and the toggle agree on what "has a log" means. */
  lemma CompletedIffLogFound(logs: seq<HabitLog>, habitId: string)
    ensures IsCompleted(logs, habitId) <==> FitnessData.FindByHabit(logs, habitId).Some?
  {
  }

  /** Removing the log at `i` un-completes its habit (logs unique per
      habit) and no other. */
  lemma RemoveAtCompletion(logs: seq<HabitLog>, i: nat)
    requires FitnessData.UniquePerHabit(logs) && i < |logs|
    ensures !IsCompleted(logs[..i] + logs[i + 1..], logs[i].habit_id)
    ensures forall other :: other != logs[i].habit_id ==>
      (IsCompleted(logs[..i] + logs[i + 1..], other) <==> IsCompleted(logs, other))
  {
    var after := logs[..i] + logs[i + 1..];
    forall j | 0 <= j < |after| ensures after[j] == logs[if j < i then j else j + 1] {
    }
    forall other | other != logs[i].habit_id
      ensures IsCompleted(after, other) <==> IsCompleted(logs, other)
    {
      if IsCompleted(logs, other) {
        var k :| 0 <= k < |logs| && logs[k].habit_id == other;
        assert after[if k < i then k else k - 1] == logs[k];
      }
    }
  }

  /** Appending a log completes its habit and no other. */
  lemma AppendCompletion(logs: seq<HabitLog>, l: HabitLog)
    ensures IsCompleted(logs + [l], l.habit_id)
    ensures forall other :: other != l.habit_id ==>
      (IsCompleted(logs + [l], other) <==> IsCompleted(logs, other))
  {
    var after := logs + [l];
    assert after[|logs|] == l;
    forall other | other != l.habit_id
      ensures IsCompleted(after, other) <==> IsCompleted(logs, other)
    {
      if IsCompleted(after, other) {
        var k :| 0 <= k < |after| && after[k].habit_id == other;
        assert k < |logs| && logs[k] == after[k];
      }
      if IsCompleted(logs, other) {
        var k :| 0 <= k < |logs| && logs[k].habit_id == other;
        assert after[k] == logs[k];
      }
    }
  }

  /** With logs unique per habit, a toggle flips the habit's completion
      (to completed only when the insert returned a row) and leaves the
      completion of every other habit as it was. */
  lemma {:induction false} ToggleFlipsCompletion(logs: seq<HabitLog>, habitId: string, inserted: Option<HabitLog>)
    requires FitnessData.UniquePerHabit(logs) && FitnessData.UniqueIds(logs)
    requires FitnessData.FreshLogFor(logs, habitId, inserted)
    ensures IsCompleted(logs, habitId) ==>
      !IsCompleted(FitnessData.ToggledLogs(logs, habitId, inserted), habitId)
    ensures !IsCompleted(logs, habitId) ==>
      (IsCompleted(FitnessData.ToggledLogs(logs, habitId, inserted), habitId) <==> inserted.Some?)
    ensures forall other :: other != habitId ==>
      (IsCompleted(FitnessData.ToggledLogs(logs, habitId, inserted), other) <==> IsCompleted(logs, other))
  {
    if IsCompleted(logs, habitId) {
      var i :| 0 <= i < |logs| && logs[i].habit_id == habitId;
      FitnessData.ToggleRemovesExistingLog(logs, habitId, inserted, i);
      RemoveAtCompletion(logs, i);
    } else {
      FitnessData.ToggleAppendsNewLog(logs, habitId, inserted);
      if inserted.Some? {
        AppendCompletion(logs, inserted.value);
      }
    }
  }

  // ---------------------------------------------------------------------------
  // What the component shows
  // ---------------------------------------------------------------------------

  /** One habit row; its button calls `onToggle(habitId)`. */
  datatype HabitRow = HabitRow(habitId: string, title: string, completed: bool)

  datatype TrackerView = SetupPrompt | DailyHabits(rows: seq<HabitRow>)

  /** The set-up prompt when there are no habits; otherwise one row per
      habit, in order, marked completed when a log of today names it. */
  function Render(habits: seq<Habit>, logs: seq<HabitLog>): (v: TrackerView)
    ensures v.SetupPrompt? <==> |habits| == 0
    ensures v.DailyHabits? ==> |v.rows| == |habits|
    ensures v.DailyHabits? ==> forall i :: 0 <= i < |habits| ==>
      v.rows[i].habitId == habits[i].id && v.rows[i].title == habits[i].title
      && (v.rows[i].completed <==> IsCompleted(logs, habits[i].id))
  {
    if |habits| == 0 then SetupPrompt
    else DailyHabits(seq(|habits|, i requires 0 <= i < |habits| =>
      HabitRow(habits[i].id, habits[i].title, IsCompleted(logs, habits[i].id))))
  }

  /** Pressing the button of row `k` toggles that row's habit: its mark
      flips (on only when the insert returned a row) and the mark of every
      row for another habit stays as it was. */
  lemma PressRowFlipsOnlyThatRow(habits: seq<Habit>, logs: seq<HabitLog>, k: nat, inserted: Option<HabitLog>)
    requires k < |habits|
    requires FitnessData.UniquePerHabit(logs) && FitnessData.UniqueIds(logs)
    requires FitnessData.FreshLogFor(logs, Render(habits, logs).rows[k].habitId, inserted)
    ensures var before := Render(habits, logs).rows;
      var after := Render(habits, FitnessData.ToggledLogs(logs, before[k].habitId, inserted)).rows;
      && (before[k].completed ==> !after[k].completed)
      && (!before[k].completed ==> (after[k].completed <==> inserted.Some?))
      && forall i :: 0 <= i < |habits| && habits[i].id != habits[k].id ==> after[i].completed == before[i].completed
  {
    ToggleFlipsCompletion(logs, habits[k].id, inserted);
  }

  // ---------------------------------------------------------------------------
  // Default habits
  // ---------------------------------------------------------------------------

  /** A habit row to insert (the backend assigns its id). */
  datatype NewHabit = NewHabit(user_id: string, title: string, icon: string, target_count: int)

  const DEFAULT_TITLES: seq<string> := ["Gym Visit", "Drink 3L Water", "Clean Diet", "Journal"]
  const DEFAULT_ICONS: seq<string> := ["dumbbell", "droplet", "utensils", "book"]

  /** The inserts `handleCreateDefaults` sends, in order: none without a
      user; otherwise the four default habits, each with a target of 1. */
  function DefaultHabitInserts(userId: Option<string>): (r: seq<NewHabit>)
    ensures !SignedIn(userId) ==> r == []
    ensures SignedIn(userId) ==> |r| == 4
    ensures forall i :: 0 <= i < |r| ==>
      r[i].user_id == userId.value && r[i].target_count == 1 && r[i].title == DEFAULT_TITLES[i]
  {
    if !SignedIn(userId) then []
    else seq(4, i requires 0 <= i < 4 => NewHabit(userId.value, DEFAULT_TITLES[i], DEFAULT_ICONS[i], 1))
  }
}
