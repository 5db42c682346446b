/** The dashboard shell (src/app/App.tsx): the XP award for a finished
    workout, the overlay flag, and the header figures derived from the
    cached profile. The current hour is a parameter instead of a clock read. */
module App {
  import opened Types
  import FitnessData
  import WorkoutMode

  /** `Math.max(10, Math.floor(duration / 60))`: one XP per full minute,
      never fewer than 10. */
  function WorkoutAward(duration: nat): (xp: nat)
    ensures xp >= 10
    ensures duration >= 600 ==> xp * 60 <= duration < (xp + 1) * 60
    ensures duration < 600 ==> xp == 10
  {
    var minutes := duration / 60;
    if minutes > 10 then minutes else 10
  }

  /** The award is the number of full minutes exactly from ten minutes on. */
  lemma AwardIsMinutesIffTenMinutes(duration: nat)
    ensures WorkoutAward(duration) == duration / 60 <==> duration >= 600
  {
  }

  /** A longer workout never earns less. */
  lemma AwardMonotone(d1: nat, d2: nat)
    requires d1 <= d2
    ensures WorkoutAward(d1) <= WorkoutAward(d2)
  {
  }

  lemma AwardExamples()
    ensures WorkoutAward(45) == 10 && WorkoutAward(185) == 10 && WorkoutAward(720) == 12
  {
  }

  /** JavaScript's `a % 100`: the remainder takes the sign of the dividend. */
  function JsRemainder100(a: int): (r: int)
    ensures -100 < r < 100
    ensures a >= 0 ==> r >= 0
    ensures a <= 0 ==> r <= 0
    ensures (a - r) % 100 == 0
  {
    if a >= 0 then a % 100 else -((-a) % 100)
  }

  /** Width of the progress bar, in percent: `(profile?.xp || 0) % 100`. */
  function ProgressPercent(profile: Option<Profile>): (pct: int)
    ensures profile.None? ==> pct == 0
    ensures -100 < pct < 100
  {
    JsRemainder100(if profile.Some? then OrDefault(profile.value.xp, 0) else 0)
  }

  /** For a well-formed profile the bar shows the progress within the
      current level: level, bar and XP fit together as 100 * (level - 1) + bar == xp. */
  lemma ProgressWithinLevel(p: Profile)
    requires FitnessData.LevelConsistent(p)
    ensures 0 <= ProgressPercent(Some(p)) < 100
    ensures 100 * (p.level.value - 1) + ProgressPercent(Some(p)) == OrDefault(p.xp, 0)
  {
  }

  datatype Greeting = Morning | Afternoon | Evening

  /** The header greeting for the hour of the day. */
  function GreetingFor(hour: int): (g: Greeting)
    ensures g == Morning <==> hour < 12
    ensures g == Afternoon <==> 12 <= hour < 18
    ensures g == Evening <==> hour >= 18
  {
    if hour < 12 then Morning else if hour < 18 then Afternoon else Evening
  }

  /** The figures in the header and stats bar. */
  datatype HeaderStats = HeaderStats(name: string, level: int, xp: int, streak: int)

  /** `profile?.username || 'Athlete'`, `profile?.level || 1`,
      `profile?.xp || 0` and `profile?.current_streak || 0`. */
  function Header(profile: Option<Profile>): (hs: HeaderStats)
    ensures profile.None? ==> hs == HeaderStats("Athlete", 1, 0, 0)
    ensures hs.level != 0 && hs.name != ""
    ensures profile.Some? && profile.value.username != "" ==> hs.name == profile.value.username
    ensures profile.Some? && FitnessData.LevelConsistent(profile.value) ==>
      hs.level == profile.value.level.value && hs.xp == OrDefault(profile.value.xp, 0) >= 0
  {
    match profile
    case None => HeaderStats("Athlete", 1, 0, 0)
    case Some(p) =>
      HeaderStats(if p.username == "" then "Athlete" else p.username,
                  OrDefault(p.level, 1), OrDefault(p.xp, 0), OrDefault(p.current_streak, 0))
  }

  /** A saved workout raises the XP by at least 10. */
  lemma FinishedWorkoutRaisesXp(userId: Option<string>, p: Profile, duration: nat)
    ensures SignedIn(userId) ==>
      var q := FitnessData.AfterAddXp(userId, Some(p), WorkoutAward(duration), true);
      q.Some? && OrDefault(q.value.xp, 0) >= OrDefault(p.xp, 0) + 10
  {
  }

  /** A finish timeout that has been set and has not fired: the count it
      will report, and the profile cached in the render that set it, which
      its `handleWorkoutFinish` (and so its `addXp`) still reads. */
  datatype PendingReport = PendingReport(duration: nat, seen: Option<Profile>)

  /** The shell's own state: the overlay flag, beside the data hook, and
      the finish timeouts (src/app/components/WorkoutMode.tsx:58-60) that
      have been set but have not fired yet, oldest first. Nothing clears
      those timeouts: closing the overlay leaves them pending. */
  class Dashboard {
    const data: FitnessData.FitnessStore
    var workoutMode: bool
    var pendingReports: seq<PendingReport>

    constructor (data: FitnessData.FitnessStore)
      ensures this.data == data && !workoutMode && pendingReports == []
    {
      this.data := data;
      workoutMode := false;
      pendingReports := [];
    }

    /** The "Start Session" button opens the overlay. */
    method StartSession()
      modifies this`workoutMode
      ensures workoutMode
    {
      workoutMode := true;
    }

    /** The overlay's Finish button, shown only while the overlay is open:
        the session stops, and a timeout is set that will report the count
        held at this moment against the profile cached at this moment. */
    method PressFinish(session: WorkoutMode.WorkoutSession)
      requires workoutMode
      modifies session`isActive, session`showConfetti, this`pendingReports
      ensures !session.isActive && session.showConfetti
      ensures pendingReports == old(pendingReports) + [PendingReport(session.seconds, data.profile)]
    {
      var reported := session.Finish();
      pendingReports := pendingReports + [PendingReport(reported, data.profile)];
    }

    /** `handleWorkoutFinish(duration)` of a render whose cached profile was
        `seen`: award XP for the duration through that render's `addXp`,
        then close the overlay (the follow-up refetch is not modelled). */
    method FinishWorkout(duration: nat, seen: Option<Profile>, saved: bool) returns (levelUp: Option<bool>)
      modifies this`workoutMode, data`profile
      ensures data.profile == if SignedIn(data.userId) && seen.Some? && saved
                              then FitnessData.AfterAddXp(data.userId, seen, WorkoutAward(duration), true)
                              else old(data.profile)
      ensures !workoutMode
    {
      levelUp := data.AddXpAsSeen(seen, WorkoutAward(duration), saved);
      workoutMode := false;
    }

    /** The oldest pending finish timeout fires and hands its count to the
        `handleWorkoutFinish` it captured, whether or not the overlay is
        still open. With none pending nothing happens. */
    method FinishTimerFired(saved: bool) returns (levelUp: Option<bool>)
      modifies this`workoutMode, this`pendingReports, data`profile
      ensures old(pendingReports) == [] ==>
        levelUp.None? && pendingReports == [] && workoutMode == old(workoutMode) && data.profile == old(data.profile)
      ensures old(pendingReports) != [] ==>
        var r := old(pendingReports)[0];
        pendingReports == old(pendingReports)[1..] && !workoutMode &&
        data.profile == if SignedIn(data.userId) && r.seen.Some? && saved
                        then FitnessData.AfterAddXp(data.userId, r.seen, WorkoutAward(r.duration), true)
                        else old(data.profile)
    {
      if pendingReports == [] {
        return None;
      }
      var r := pendingReports[0];
      levelUp := FinishWorkout(r.duration, r.seen, saved);
      pendingReports := pendingReports[1..];
    }

    /** The overlay's cancel button: close it and award nothing now. A
        finish timeout already set stays pending. */
    method CancelWorkout()
      modifies this`workoutMode
      ensures !workoutMode && data.profile == old(data.profile) && pendingReports == old(pendingReports)
    {
      workoutMode := false;
    }
  }

  /** Cancelling a running session, before Finish is pressed, awards
      nothing, now or when a timer fires later. */
  method CancelRunningSession(d: Dashboard, picks: seq<nat>, saved: bool)
    requires forall i :: 0 <= i < |picks| ==> picks[i] < |WorkoutMode.MOTIVATIONS|
    requires d.pendingReports == []
    modifies d, d.data
    ensures d.data.profile == old(d.data.profile) && !d.workoutMode && d.pendingReports == []
  {
    d.StartSession();
    var session := new WorkoutMode.WorkoutSession();
    var _, _ := session.Elapse(picks);
    d.CancelWorkout();
    var _ := d.FinishTimerFired(saved);
  }

  /** Cancelling within the 3 s after Finish does not stop the award: the
      timeout still reports the session's count. */
  method CancelAfterFinish(d: Dashboard, picks: seq<nat>, saved: bool)
    requires forall i :: 0 <= i < |picks| ==> picks[i] < |WorkoutMode.MOTIVATIONS|
    requires d.pendingReports == []
    modifies d, d.data
    ensures d.data.profile == FitnessData.AfterAddXp(d.data.userId, old(d.data.profile), WorkoutAward(|picks|), saved)
    ensures !d.workoutMode && d.pendingReports == []
  {
    d.StartSession();
    var session := new WorkoutMode.WorkoutSession();
    var _, _ := session.Elapse(picks);
    d.PressFinish(session);
    d.CancelWorkout();
    var _ := d.FinishTimerFired(saved);
  }

  /** Finish pressed twice in one overlay sets two timeouts, and both read
      the profile cached before either fired: the XP ends at that profile's
      XP plus one award, not two. */
  method FinishTwice(d: Dashboard, picks: seq<nat>)
    requires forall i :: 0 <= i < |picks| ==> picks[i] < |WorkoutMode.MOTIVATIONS|
    requires d.pendingReports == []
    modifies d, d.data
    ensures d.data.profile == FitnessData.AfterAddXp(d.data.userId, old(d.data.profile), WorkoutAward(|picks|), true)
    ensures SignedIn(d.data.userId) && old(d.data.profile).Some? ==>
      OrDefault(d.data.profile.value.xp, 0) == OrDefault(old(d.data.profile).value.xp, 0) + WorkoutAward(|picks|)
    ensures !d.workoutMode && d.pendingReports == []
  {
    d.StartSession();
    var session := new WorkoutMode.WorkoutSession();
    var _, _ := session.Elapse(picks);
    d.PressFinish(session);
    d.PressFinish(session);
    var _ := d.FinishTimerFired(true);
    var _ := d.FinishTimerFired(true);
  }

  /** A habit completed within the 3 s after Finish loses its 10 XP when the
      timeout fires: the award is written over the profile cached when
      Finish was pressed. */
  method ToggleDuringDelay(d: Dashboard, picks: seq<nat>, habitId: string, inserted: Option<HabitLog>, saved: bool)
    requires forall i :: 0 <= i < |picks| ==> picks[i] < |WorkoutMode.MOTIVATIONS|
    requires d.pendingReports == []
    requires FitnessData.FreshLogFor(d.data.habitLogs, habitId, inserted)
    modifies d, d.data
    ensures SignedIn(d.data.userId) && old(d.data.profile).Some? ==>
      d.data.profile == FitnessData.AfterAddXp(d.data.userId, old(d.data.profile), WorkoutAward(|picks|), true)
    ensures !d.workoutMode && d.pendingReports == []
  {
    d.StartSession();
    var session := new WorkoutMode.WorkoutSession();
    var _, _ := session.Elapse(picks);
    d.PressFinish(session);
    d.data.ToggleHabit(habitId, inserted, saved);
    var _ := d.FinishTimerFired(true);
  }

  /** A session started within the 3 s after an earlier one was finished
      and cancelled is closed when the earlier timeout fires. */
  method RestartWithinDelay(d: Dashboard, picks: seq<nat>, saved: bool)
    requires forall i :: 0 <= i < |picks| ==> picks[i] < |WorkoutMode.MOTIVATIONS|
    requires d.pendingReports == []
    modifies d, d.data
    ensures !d.workoutMode && d.pendingReports == []
  {
    d.StartSession();
    var session := new WorkoutMode.WorkoutSession();
    var _, _ := session.Elapse(picks);
    d.PressFinish(session);
    d.CancelWorkout();
    d.StartSession();
    assert d.workoutMode;
    var _ := d.FinishTimerFired(saved);
  }
}
