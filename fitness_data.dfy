/** The data hook of the dashboard (src/hooks/useFitnessData.ts): the cached
    profile with its XP/level accounting, and today's habit logs with the
    completion toggle. Backend calls are reduced to their outcomes, which the
    caller passes in: whether an update returned a row, and which row (if
    any) an insert returned. */
module FitnessData {
  import opened Types
  import Lists

  // ---------------------------------------------------------------------------
  // XP and levels
  // ---------------------------------------------------------------------------

  /** The level that goes with an XP total: level 1 below 100 XP, one more
      for every further hundred. (Dafny's `/` by a positive divisor rounds
      down, as `Math.floor` does, negative totals included.) */
  function LevelFor(xp: int): (level: int)
    ensures (level - 1) * 100 <= xp < level * 100
  {
    xp / 100 + 1
  }

  /** What `addXp` computes before it writes: the new total, the level that
      goes with it and whether that is above the cached level. */
  datatype XpOutcome = XpOutcome(newXp: int, newLevel: int, levelUp: bool)

  function AwardXp(p: Profile, amount: int): XpOutcome {
    var newXp := OrDefault(p.xp, 0) + amount;
    var newLevel := LevelFor(newXp);
    XpOutcome(newXp, newLevel, newLevel > OrDefault(p.level, 1))
  }

  /** A well-formed profile: non-negative XP and the level that goes with it. */
  predicate LevelConsistent(p: Profile) {
    OrDefault(p.xp, 0) >= 0 && p.level == Some(LevelFor(OrDefault(p.xp, 0)))
  }

  /** The cached profile after `addXp(amount)`: unchanged when nobody is
      signed in, no profile is loaded or the update returned no row;
      otherwise the returned row, i.e. the profile with XP and level replaced. */
  function AfterAddXp(userId: Option<string>, profile: Option<Profile>, amount: int, saved: bool): Option<Profile> {
    if !SignedIn(userId) || profile.None? || !saved then profile
    else
      var o := AwardXp(profile.value, amount);
      Some(profile.value.(xp := Some(o.newXp), level := Some(o.newLevel)))
  }

  /** The new total is the old one (0 when missing) plus the amount, and the
      level written with it is the one that goes with the new total. */
  lemma AwardAddsAmount(p: Profile, amount: int)
    ensures AwardXp(p, amount).newXp - amount == OrDefault(p.xp, 0)
    ensures (AwardXp(p, amount).newLevel - 1) * 100 <= OrDefault(p.xp, 0) + amount < AwardXp(p, amount).newLevel * 100
  {
  }

  /** A non-negative award never lowers the XP total nor the level. */
  lemma AwardMonotone(p: Profile, amount: int)
    requires amount >= 0
    ensures AwardXp(p, amount).newXp >= OrDefault(p.xp, 0)
    ensures AwardXp(p, amount).newLevel >= LevelFor(OrDefault(p.xp, 0))
    ensures LevelConsistent(p) ==> AwardXp(p, amount).newLevel >= p.level.value
  {
  }

  /** For a consistent profile and a non-negative award, the level-up flag is
      raised exactly when the new total reaches a multiple of 100 that the old
      total was below. */
  lemma LevelUpIffBoundaryCrossed(p: Profile, amount: int)
    requires LevelConsistent(p) && amount >= 0
    ensures AwardXp(p, amount).levelUp <==>
      exists m :: OrDefault(p.xp, 0) < 100 * m <= OrDefault(p.xp, 0) + amount
  {
    var x := OrDefault(p.xp, 0);
    var o := AwardXp(p, amount);
    var l0 := LevelFor(x);
    assert OrDefault(p.level, 1) == l0;
    if o.levelUp {
      var m := o.newLevel - 1;
      assert x < 100 * m <= x + amount;
    }
    if exists m :: x < 100 * m <= x + amount {
      var m :| x < 100 * m <= x + amount;
      assert l0 <= m < o.newLevel;
    }
  }

  /** Awarding nothing to a consistent profile changes neither XP nor level
      and raises no level-up flag. */
  lemma AwardZero(p: Profile)
    requires LevelConsistent(p)
    ensures AwardXp(p, 0) == XpOutcome(OrDefault(p.xp, 0), p.level.value, false)
  {
  }

  /** A profile at 95 XP on level 1 gaining 10 reaches 105 XP, level 2, with a level-up. */
  lemma AwardCrossesFirstHundred(p: Profile)
    requires p.xp == Some(95) && p.level == Some(1)
    ensures AwardXp(p, 10) == XpOutcome(105, 2, true)
  {
  }

  /** Whatever the cached profile held before, a successful `addXp` stores
      the level that goes with the new XP, which is the old XP plus exactly
      the amount, and touches no other field; in every other case the cached
      profile is untouched. */
  lemma AddXpResult(userId: Option<string>, profile: Option<Profile>, amount: int, saved: bool)
    ensures !SignedIn(userId) || profile.None? || !saved ==> AfterAddXp(userId, profile, amount, saved) == profile
    ensures SignedIn(userId) && profile.Some? && saved ==>
      var q := AfterAddXp(userId, profile, amount, saved);
      && q.Some? && q.value.level == Some(LevelFor(OrDefault(q.value.xp, 0)))
      && OrDefault(q.value.xp, 0) == OrDefault(profile.value.xp, 0) + amount
      && q.value.(xp := profile.value.xp, level := profile.value.level) == profile.value
  {
  }

  // ---------------------------------------------------------------------------
  // Today's habit logs
  // ---------------------------------------------------------------------------

  /** At most one log per habit. */
  predicate UniquePerHabit(logs: seq<HabitLog>) {
    forall i, j :: 0 <= i < j < |logs| ==> logs[i].habit_id != logs[j].habit_id
  }

  /** Log ids are distinct (the backend issues a fresh id per row). */
  predicate UniqueIds(logs: seq<HabitLog>) {
    forall i, j :: 0 <= i < j < |logs| ==> logs[i].id != logs[j].id
  }

  /** `habitLogs.find(log => log.habit_id === habitId)`: the first log of the habit. */
  function FindByHabit(logs: seq<HabitLog>, habitId: string): (r: Option<HabitLog>)
    ensures r.None? <==> forall i :: 0 <= i < |logs| ==> logs[i].habit_id != habitId
    ensures r.Some? ==> exists i :: 0 <= i < |logs| && logs[i] == r.value && r.value.habit_id == habitId
                                    && forall j :: 0 <= j < i ==> logs[j].habit_id != habitId
  {
    if logs == [] then None
    else if logs[0].habit_id == habitId then Some(logs[0])
    else
      var r := FindByHabit(logs[1..], habitId);
      assert r.Some? ==> exists i :: 1 <= i < |logs| && logs[i] == r.value && r.value.habit_id == habitId
                                     && forall j :: 0 <= j < i ==> logs[j].habit_id != habitId by {
        if r.Some? {
          var i :| 0 <= i < |logs| - 1 && logs[1..][i] == r.value && r.value.habit_id == habitId
                   && forall j :: 0 <= j < i ==> logs[1..][j].habit_id != habitId;
          assert logs[i + 1] == r.value;
          forall j | 0 <= j < i + 1 ensures logs[j].habit_id != habitId {
            if j > 0 { assert logs[j] == logs[1..][j - 1]; }
          }
        }
      }
      r
  }

  function KeepOtherIds(id: string): HabitLog -> bool {
    (l: HabitLog) => l.id != id
  }

  /** `logs.filter(l => l.id !== id)`. */
  function RemoveLogById(logs: seq<HabitLog>, id: string): (r: seq<HabitLog>)
    ensures forall l :: l in r <==> l in logs && l.id != id
  {
    Lists.FilterMembers(logs, KeepOtherIds(id));
    Lists.Filter(logs, KeepOtherIds(id))
  }

  /** Today's logs after `toggleHabit(habitId)` for a signed-in user, where
      `inserted` is the row the backend insert returned, if any. */
  function ToggledLogs(logs: seq<HabitLog>, habitId: string, inserted: Option<HabitLog>): seq<HabitLog> {
    match FindByHabit(logs, habitId)
    case Some(existing) => RemoveLogById(logs, existing.id)
    case None => if inserted.Some? then logs + [inserted.value] else logs
  }

  /** Whether `toggleHabit` goes on to award XP: only a created log does. */
  predicate ToggleCreates(logs: seq<HabitLog>, habitId: string, inserted: Option<HabitLog>) {
    FindByHabit(logs, habitId).None? && inserted.Some?
  }

  /** What the backend insert is trusted to return: a row for this habit
      with an id no current log has. */
  predicate FreshLogFor(logs: seq<HabitLog>, habitId: string, inserted: Option<HabitLog>) {
    inserted.Some? ==>
      inserted.value.habit_id == habitId && forall i :: 0 <= i < |logs| ==> logs[i].id != inserted.value.id
  }

  /** With unique logs, toggling a habit that has a log removes exactly that
      log and keeps every other log in its order. */
  lemma {:induction false} ToggleRemovesExistingLog(logs: seq<HabitLog>, habitId: string, inserted: Option<HabitLog>, i: nat)
    requires UniquePerHabit(logs) && UniqueIds(logs)
    requires i < |logs| && logs[i].habit_id == habitId
    ensures ToggledLogs(logs, habitId, inserted) == logs[..i] + logs[i + 1..]
    ensures !ToggleCreates(logs, habitId, inserted)
  {
    var e := FindByHabit(logs, habitId);
    assert e == Some(logs[i]);
    Lists.FilterRemovesOne(logs, KeepOtherIds(logs[i].id), i);
  }

  /** Toggling a habit without a log appends the inserted row at the end,
      or leaves the logs alone when the insert returned nothing. */
  lemma ToggleAppendsNewLog(logs: seq<HabitLog>, habitId: string, inserted: Option<HabitLog>)
    requires forall i :: 0 <= i < |logs| ==> logs[i].habit_id != habitId
    ensures ToggledLogs(logs, habitId, inserted) == if inserted.Some? then logs + [inserted.value] else logs
    ensures ToggleCreates(logs, habitId, inserted) <==> inserted.Some?
  {
  }

  /** Removing one position keeps both uniqueness properties. */
  lemma RemoveAtKeepsUniqueness(logs: seq<HabitLog>, i: nat)
    requires UniquePerHabit(logs) && UniqueIds(logs) && i < |logs|
    ensures UniquePerHabit(logs[..i] + logs[i + 1..]) && UniqueIds(logs[..i] + logs[i + 1..])
  {
  }

  /** Toggling keeps logs unique per habit and by id. */
  lemma {:induction false} TogglePreservesUniqueness(logs: seq<HabitLog>, habitId: string, inserted: Option<HabitLog>)
    requires UniquePerHabit(logs) && UniqueIds(logs)
    requires FreshLogFor(logs, habitId, inserted)
    ensures UniquePerHabit(ToggledLogs(logs, habitId, inserted))
    ensures UniqueIds(ToggledLogs(logs, habitId, inserted))
  {
    var found := FindByHabit(logs, habitId);
    if found.Some? {
      var i :| 0 <= i < |logs| && logs[i] == found.value && found.value.habit_id == habitId;
      ToggleRemovesExistingLog(logs, habitId, inserted, i);
      RemoveAtKeepsUniqueness(logs, i);
    } else if inserted.Some? {
      var r := logs + [inserted.value];
      assert ToggledLogs(logs, habitId, inserted) == r;
      forall a, b | 0 <= a < b < |r|
        ensures r[a].habit_id != r[b].habit_id && r[a].id != r[b].id
      {
        if b < |logs| {
          assert r[a] == logs[a] && r[b] == logs[b];
        }
      }
    }
  }

  /** Toggling a habit that has no log twice, with the first insert
      returning a fresh row, gives back exactly the original logs. */
  lemma {:induction false} ToggleTwiceRestores(logs: seq<HabitLog>, habitId: string, l: HabitLog, second: Option<HabitLog>)
    requires forall i :: 0 <= i < |logs| ==> logs[i].habit_id != habitId
    requires FreshLogFor(logs, habitId, Some(l))
    ensures ToggledLogs(ToggledLogs(logs, habitId, Some(l)), habitId, second) == logs
  {
    var once := logs + [l];
    assert ToggledLogs(logs, habitId, Some(l)) == once;
    var found := FindByHabit(once, habitId);
    assert once[|logs|] == l;
    assert found.Some?;
    var k :| 0 <= k < |once| && once[k] == found.value && found.value.habit_id == habitId;
    assert k == |logs|;
    Lists.FilterAppend(logs, [l], KeepOtherIds(l.id));
    Lists.FilterKeepsAll(logs, KeepOtherIds(l.id));
    assert Lists.Filter([l], KeepOtherIds(l.id)) == [] by {
      assert [l][1..] == [];
    }
  }

  // ---------------------------------------------------------------------------
  // The hook's state
  // ---------------------------------------------------------------------------

  /** The state held by one use of the hook, once loaded. */
  class FitnessStore {
    const userId: Option<string>
    var profile: Option<Profile>
    var habits: seq<Habit>
    var habitLogs: seq<HabitLog>

    predicate Valid()
      reads this
    {
      UniquePerHabit(habitLogs) && UniqueIds(habitLogs)
    }

    /** The hook before its fetch has delivered anything: no profile, no
        habits, no logs. */
    constructor Initial(userId: Option<string>)
      ensures Valid()
      ensures this.userId == userId && profile.None? && habits == [] && habitLogs == []
    {
      this.userId := userId;
      profile := None;
      habits := [];
      habitLogs := [];
    }

    /** The hook after its fetch has delivered profile, habits and today's logs. */
    constructor (userId: Option<string>, profile: Option<Profile>, habits: seq<Habit>, habitLogs: seq<HabitLog>)
      ensures this.userId == userId && this.profile == profile
      ensures this.habits == habits && this.habitLogs == habitLogs
    {
      this.userId := userId;
      this.profile := profile;
      this.habits := habits;
      this.habitLogs := habitLogs;
    }

    /** `addXp(amount)`: nothing without a profile or a user; otherwise the
        level-up flag, computed against the cached level whether or not the
        update returned a row. */
    method AddXp(amount: int, saved: bool) returns (levelUp: Option<bool>)
      modifies this`profile
      ensures profile == AfterAddXp(userId, old(profile), amount, saved)
      ensures levelUp.None? <==> old(profile).None? || !SignedIn(userId)
      ensures levelUp.Some? ==> levelUp.value == AwardXp(old(profile).value, amount).levelUp
    {
      levelUp := AddXpAsSeen(profile, amount, saved);
    }

    /** The `addXp` of an earlier render, still held by a callback set up
        then: it reads the profile `seen` in that render, not the one
        cached now, and a returned row replaces the cached profile. */
    method AddXpAsSeen(seen: Option<Profile>, amount: int, saved: bool) returns (levelUp: Option<bool>)
      modifies this`profile
      ensures profile == if SignedIn(userId) && seen.Some? && saved
                         then AfterAddXp(userId, seen, amount, true) else old(profile)
      ensures levelUp.None? <==> seen.None? || !SignedIn(userId)
      ensures levelUp.Some? ==> levelUp.value == AwardXp(seen.value, amount).levelUp
    {
      if seen.None? || !SignedIn(userId) {
        return None;
      }
      var o := AwardXp(seen.value, amount);
      if saved {
        profile := Some(seen.value.(xp := Some(o.newXp), level := Some(o.newLevel)));
      }
      levelUp := Some(o.levelUp);
    }

    /** `toggleHabit(habitId)`: delete today's log of the habit if there is
        one, else keep the inserted row and award 10 XP for it. */
    method ToggleHabit(habitId: string, inserted: Option<HabitLog>, saved: bool)
      requires FreshLogFor(habitLogs, habitId, inserted)
      modifies this`habitLogs, this`profile
      ensures !SignedIn(userId) ==> habitLogs == old(habitLogs) && profile == old(profile)
      ensures SignedIn(userId) ==> habitLogs == ToggledLogs(old(habitLogs), habitId, inserted)
      ensures SignedIn(userId) ==>
        profile == if ToggleCreates(old(habitLogs), habitId, inserted)
                   then AfterAddXp(userId, old(profile), 10, saved) else old(profile)
      ensures old(Valid()) ==> Valid()
    {
      if !SignedIn(userId) {
        return;
      }
      if Valid() {
        TogglePreservesUniqueness(habitLogs, habitId, inserted);
      }
      var existing := FindByHabit(habitLogs, habitId);
      match existing {
        case Some(log) =>
          habitLogs := RemoveLogById(habitLogs, log.id);
        case None =>
          if inserted.Some? {
            habitLogs := habitLogs + [inserted.value];
            var _ := AddXp(10, saved);
          }
      }
    }
  }
}
