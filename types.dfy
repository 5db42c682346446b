/** Record shapes shared by the dashboard (src/types/index.ts) and the
    small helpers for JavaScript "truthiness" that the components rely on. */
module Types {

  datatype Option<+T> = None | Some(value: T)

  /** A profile row as the backend returns it. Numeric columns may be
      missing (null) in a row, which the components replace by defaults. */
  datatype Profile = Profile(
    id: string,
    email: string,
    username: string,
    xp: Option<int>,
    level: Option<int>,
    current_streak: Option<int>,
    last_activity_date: string)

  datatype Habit = Habit(id: string, user_id: string, title: string, icon: string, target_count: int)

  /** One row per (habit, day) that was checked off. */
  datatype HabitLog = HabitLog(id: string, habit_id: string, user_id: string, completed_at: string, date_logged: string)

  /** `!userId` is false exactly for a present, non-empty id. */
  predicate SignedIn(userId: Option<string>) {
    userId.Some? && userId.value != ""
  }

  /** `n || d` on a possibly missing number: null and 0 both give `d`. */
  function OrDefault(n: Option<int>, d: int): (r: int)
    ensures n.None? ==> r == d
    ensures n.Some? && n.value != 0 ==> r == n.value
    ensures n == Some(0) ==> r == d
  {
    match n
    case None => d
    case Some(v) => if v == 0 then d else v
  }
}
