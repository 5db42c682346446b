# FitFlow dashboard — a Dafny model of its logic

FitFlow is a single-page fitness dashboard. Its backend holds the profiles,
habits and habit logs. This project models the few pieces of client logic
that can be stated exactly:

- **XP and levels.** `addXp` adds an amount to the cached profile's XP,
  stores level = ⌊xp/100⌋+1 and reports a level-up.
- **Habit toggle.** `toggleHabit` deletes today's log of a habit when there
  is one. Otherwise it keeps the row the backend inserted and awards 10 XP.
- **Workout overlay.** A seconds counter advances once a second while
  active. Every 300 s it rotates a motivational quote and every 900 s it
  raises a hydration reminder. Finishing stops the counter and, 3 s later,
  reports the count. `formatTime` shows the count as `[h:]mm:ss`.
- **Dashboard shell.** A finished workout earns max(10, ⌊duration/60⌋) XP.
  Cancelling closes the overlay at once. A finish report closes it when
  its timeout fires. Nothing clears that timeout, so a report still pending
  after a cancel awards XP and closes whatever overlay is open. The timeout
  keeps the callbacks of the render that set it. Its award is therefore
  computed from the profile cached at that moment and written over
  whatever is cached when it fires. The header shows a greeting
  for the hour, a progress bar at `xp % 100` and defaults when no profile
  is loaded.
- **Shortcut tiles.** The grid supports save (replace by id), delete
  (filter by id) and reset to the six defaults. A long-press state machine
  tells a tap, which opens the tile's URL, from a 600 ms hold, which opens
  the editor.
- **Habit list.** A habit is shown as completed when one of today's logs
  names it. With no habits the list shows a set-up prompt. The set-up
  button inserts four default habits.

Modules follow the source files: `Types` (src/types/index.ts), `Lists` (the
`filter` both the hook and the grid use), `FitnessData`
(src/hooks/useFitnessData.ts), `WorkoutMode`, `App`, `DeepLinkGrid` and
`HabitTracker`. State that the source changes step by step is held in
classes: `FitnessStore`, `WorkoutSession`, `Dashboard` and `TileGrid`.

The model stands in for the outside world as follows:

- **Backend replies are inputs.** "The insert returned this row or
  nothing" is an `Option<HabitLog>`. "The update returned a row" is a
  `bool`.
- **Timers are events.** The 1 s interval is `Tick`/`Elapse` and the
  600 ms long-press timer is `TimerFired`. The 3 s finish timeout is
  `FinishTimerFired`.
- **Randomness is an index.** `Math.random` becomes an index the caller
  picks.
- **Dialogs are values.** `confirm` answers are booleans. The hydration
  `alert` is a returned flag. A tile launch is a returned URL.
- **The clock is a parameter.** The hour of the day is passed in.

JavaScript truthiness is written out:

- an empty user id counts as signed out;
- `xp || 0` and `level || 1` treat a missing value and 0 alike;
- an empty URL does not launch.

Dafny's `/` by a positive constant rounds down like `Math.floor`. JavaScript's
`%` keeps the sign of the dividend, which `App.JsRemainder100` spells out.

In these places the model follows the code:

- `addXp` does not reject a negative amount.
- Finish and cancel have no guard against being used twice or outside a
  session.
- Pressing Finish twice sets two timeouts. Both award XP against the
  profile cached when Finish was pressed, so the second write repeats the
  first instead of adding to it.

The monotonicity lemmas therefore take the amount as non-negative.

## Model

| member | source | states |
|---|---|---|
| `Types.SignedIn` | src/hooks/useFitnessData.ts:71 | the `!userId` guards of `toggleHabit` (line 71), `addXp` (line 98) and the set-up button (src/app/components/HabitTracker.tsx:19) pass exactly when a user id is present and non-empty; used by the ensures of `FitnessStore.ToggleHabit`, `AddXp` and `DefaultHabitInserts` |
| `Types.OrDefault` | src/hooks/useFitnessData.ts:100-102 | the `or` default on a nullable number: null and 0 give the default, any other value is kept |
| `Lists.Filter` | src/hooks/useFitnessData.ts:80 | filtering never lengthens the list |
| `Lists.FilterMembers` | src/hooks/useFitnessData.ts:80 | the result holds exactly the input elements that pass the test |
| `Lists.FilterAppend` | src/hooks/useFitnessData.ts:80 | filtering distributes over concatenation, so kept elements keep their order |
| `Lists.FilterKeepsAll` | src/hooks/useFitnessData.ts:80 | a list whose elements all pass comes back unchanged |
| `Lists.FilterRemovesOne` | src/hooks/useFitnessData.ts:80 | when only position i fails, the result is the list without position i, others in order |
| `FitnessData.LevelFor` | src/hooks/useFitnessData.ts:101 | the level L for XP x satisfies 100(L-1) <= x < 100L, i.e. L = ⌊x/100⌋+1 |
| `FitnessData.AwardAddsAmount` | src/hooks/useFitnessData.ts:100-101 | new XP = old XP (0 if missing) + amount, and the new level brackets the new XP |
| `FitnessData.AwardMonotone` | src/hooks/useFitnessData.ts:100-102 | for amount >= 0 neither XP nor level decreases (also against a consistent stored level) |
| `FitnessData.LevelUpIffBoundaryCrossed` | src/hooks/useFitnessData.ts:101-102 | for a consistent profile and amount >= 0, the level-up flag is true exactly when a multiple of 100 lies in (old XP, new XP] |
| `FitnessData.AwardZero` | src/hooks/useFitnessData.ts:100-102 | awarding 0 to a consistent profile keeps XP and level and raises no level-up |
| `FitnessData.AwardCrossesFirstHundred` | src/hooks/useFitnessData.ts:100-102 | 95 XP on level 1 plus 10 gives 105 XP, level 2, level-up |
| `FitnessData.AwardXp` | src/hooks/useFitnessData.ts:100-102 | the XP outcome of an award; characterised by `AwardAddsAmount`, `AwardMonotone`, `LevelUpIffBoundaryCrossed`, `AwardZero` and `AwardCrossesFirstHundred` |
| `FitnessData.AfterAddXp` | src/hooks/useFitnessData.ts:97-111 | the cached profile after `addXp`; characterised by `AddXpResult` and the ensures of `FitnessStore.AddXp` |
| `FitnessData.AddXpResult` | src/hooks/useFitnessData.ts:97-111 | without user, profile or returned row the cached profile is unchanged; otherwise XP rises by exactly the amount, the stored level matches it, and no other field changes |
| `FitnessData.FindByHabit` | src/hooks/useFitnessData.ts:75 | finds nothing exactly when no log names the habit; otherwise returns the first log naming it |
| `FitnessData.RemoveLogById` | src/hooks/useFitnessData.ts:80 | the result holds exactly the logs whose id differs from the given id |
| `FitnessData.RemoveAtKeepsUniqueness` | src/hooks/useFitnessData.ts:80 | removing one position keeps logs unique per habit and by id |
| `FitnessData.ToggleRemovesExistingLog` | src/hooks/useFitnessData.ts:75-80 | with unique logs, toggling a habit that has a log removes exactly that log, keeps the others in order, awards nothing |
| `FitnessData.ToggleAppendsNewLog` | src/hooks/useFitnessData.ts:81-90 | toggling a habit without a log appends the inserted row (or changes nothing if none returned); XP is awarded exactly when a row came back |
| `FitnessData.TogglePreservesUniqueness` | src/hooks/useFitnessData.ts:75-90 | at most one log per habit and distinct ids are preserved by a toggle |
| `FitnessData.ToggleTwiceRestores` | src/hooks/useFitnessData.ts:75-90 | toggling a habit without a log twice gives back exactly the original logs |
| `FitnessData.ToggledLogs` | src/hooks/useFitnessData.ts:75-93 | today's logs after a toggle; characterised by `ToggleRemovesExistingLog`, `ToggleAppendsNewLog`, `TogglePreservesUniqueness` and `ToggleTwiceRestores` |
| `FitnessData.ToggleCreates` | src/hooks/useFitnessData.ts:75-93 | whether a toggle creates a log and so awards XP; `ToggleAppendsNewLog` states it holds exactly when no log names the habit and a row came back, `ToggleRemovesExistingLog` that it fails when one does |
| `FitnessData.FitnessStore.Initial` | src/hooks/useFitnessData.ts:7-9 | the state before the fetch: no profile, no habits, no logs, and the uniqueness invariant holds |
| `FitnessData.FitnessStore.constructor` | src/hooks/useFitnessData.ts:43-61 | the hook's state holds the fetched profile, habits and today's logs |
| `FitnessData.FitnessStore.AddXp` | src/hooks/useFitnessData.ts:97-114 | the profile becomes `AfterAddXp` of the old one; the result is absent exactly without profile or user, else the level-up flag |
| `FitnessData.FitnessStore.AddXpAsSeen` | src/hooks/useFitnessData.ts:97-114 | the `addXp` of an earlier render: nothing without a user or with no profile seen; otherwise the cached profile becomes `AfterAddXp` of the seen profile when a row came back and is kept when none did, and the flag is computed against the seen level |
| `FitnessData.FitnessStore.ToggleHabit` | src/hooks/useFitnessData.ts:71-95 | no-op when signed out; else logs become `ToggledLogs` of the old logs, 10 XP are added exactly when a log was created, and uniqueness is kept |
| `WorkoutMode.HydrationComesWithMotivation` | src/app/components/WorkoutMode.tsx:39-44 | whenever the hydration reminder fires the quote also changes (both fire at 900) |
| `WorkoutMode.FirstQuarterHour` | src/app/components/WorkoutMode.tsx:39-44 | over counts 1..900 the quote changes at {300, 600, 900} and hydration fires at {900} |
| `WorkoutMode.HydrationDue` | src/app/components/WorkoutMode.tsx:39 | the counts at which the hydration alert fires; characterised by `HydrationComesWithMotivation`, `FirstQuarterHour` and the ensures of `WorkoutSession.Tick` and `WorkoutSession.Elapse` |
| `WorkoutMode.MotivationDue` | src/app/components/WorkoutMode.tsx:43 | the counts at which the quote changes; characterised by `HydrationComesWithMotivation`, `FirstQuarterHour`, `QuoteAfterNoRotation` and `QuoteAfterLastRotation` |
| `WorkoutMode.Split` | src/app/components/WorkoutMode.tsx:49-51 | m < 60, s < 60 and 3600h + 60m + s = t |
| `WorkoutMode.Decimal` | src/app/components/WorkoutMode.tsx:52 | a number prints as a non-empty digit string, one digit exactly below 10 |
| `WorkoutMode.DecimalValue` | src/app/components/WorkoutMode.tsx:52 | reading a printed number's digits gives the number back |
| `WorkoutMode.TwoDigitsValue` | src/app/components/WorkoutMode.tsx:52 | a zero-padded field below 100 is two digits that read back as the value |
| `WorkoutMode.TwoDigits` | src/app/components/WorkoutMode.tsx:52 | a zero-padded minutes or seconds field; characterised by `TwoDigitsValue` and, through the displayed text, by `FormatTimeRoundTrip` |
| `WorkoutMode.FormatTime` | src/app/components/WorkoutMode.tsx:48-53 | the text is at least 5 characters, exactly 5 (no hours field) exactly when t < 3600 |
| `WorkoutMode.FormatTimeRoundTrip` | src/app/components/WorkoutMode.tsx:48-53 | parsing the displayed `[h:]mm:ss` text gives back t |
| `WorkoutMode.FormatTimeInjective` | src/app/components/WorkoutMode.tsx:48-53 | different counts never show the same text |
| `WorkoutMode.FormatTimeExamples` | src/app/components/WorkoutMode.tsx:48-53 | 59 shows as "00:59" and 3661 as "1:01:01" |
| `WorkoutMode.WorkoutSession.constructor` | src/app/components/WorkoutMode.tsx:20-23 | starts at 0 seconds, active, no confetti, first quote |
| `WorkoutMode.WorkoutSession.Tick` | src/app/components/WorkoutMode.tsx:25-46 | advances by exactly 1 only while active; hydration and quote change fire exactly at positive multiples of 900 and 300; the new quote is the picked entry of the list |
| `WorkoutMode.QuoteAfter` | src/app/components/WorkoutMode.tsx:42-45 | the quote shown after a run of ticks is always one of the fixed list (given a start in it) |
| `WorkoutMode.QuoteAfterNoRotation` | src/app/components/WorkoutMode.tsx:42-45 | when none of the counts reached is a multiple of 300 the quote stays as it was |
| `WorkoutMode.QuoteAfterLastRotation` | src/app/components/WorkoutMode.tsx:42-45 | otherwise the quote shown is the one picked at the last multiple of 300 reached |
| `WorkoutMode.WorkoutSession.Elapse` | src/app/components/WorkoutMode.tsx:25-46 | after n seconds the count rose by n if active and by 0 if paused; the reminders fired exactly at the due counts in between; the quote is `QuoteAfter` of the old count, the picks and the old quote when active, and unchanged when paused |
| `WorkoutMode.WorkoutSession.TogglePause` | src/app/components/WorkoutMode.tsx:81 | flips `isActive` and leaves the count alone |
| `WorkoutMode.WorkoutSession.Finish` | src/app/components/WorkoutMode.tsx:55-61 | stops the clock, shows confetti, and returns the count held at that moment for the finish timeout to report |
| `WorkoutMode.RunThenPause` | src/app/components/WorkoutMode.tsx:20-45 | from a fresh overlay, n running seconds then a pause and more seconds leave the count at n; under 300 s the first quote is still shown |
| `App.WorkoutAward` | src/app/App.tsx:52 | the award is at least 10; 10 below 600 s; the number of full minutes from 600 s on |
| `App.AwardIsMinutesIffTenMinutes` | src/app/App.tsx:52 | the award equals ⌊duration/60⌋ exactly when duration >= 600 |
| `App.AwardMonotone` | src/app/App.tsx:52 | a longer workout never earns less |
| `App.AwardExamples` | src/app/App.tsx:52 | 45 s and 185 s earn 10, 720 s earns 12 |
| `App.JsRemainder100` | src/app/App.tsx:124 | JavaScript `% 100`: magnitude below 100, sign of the dividend, differs from it by a multiple of 100 |
| `App.ProgressPercent` | src/app/App.tsx:124 | 0 without a profile; always strictly between -100 and 100 |
| `App.ProgressWithinLevel` | src/app/App.tsx:124 | for a consistent profile the bar is in [0,100) and 100(level-1) + bar = xp |
| `App.GreetingFor` | src/app/App.tsx:84 | Morning exactly before 12, Afternoon exactly from 12 to before 18, Evening exactly from 18 |
| `App.Header` | src/app/App.tsx:85-115 | without a profile: "Athlete", level 1, 0 XP, 0-day streak; shown level never 0 and name never empty; a consistent profile shows its level and XP |
| `App.FinishedWorkoutRaisesXp` | src/app/App.tsx:50-54 | a saved workout award raises the XP by at least 10 |
| `App.Dashboard.constructor` | src/app/App.tsx:17 | the overlay starts closed, with no finish timeout pending |
| `App.Dashboard.StartSession` | src/app/App.tsx:134 | opens the overlay |
| `App.Dashboard.PressFinish` | src/app/components/WorkoutMode.tsx:55-61 | only while the overlay is open: the session stops and a finish timeout carrying its current count and the currently cached profile is queued behind any still pending |
| `App.Dashboard.FinishWorkout` | src/app/App.tsx:50-58 | `handleWorkoutFinish` of a render that saw a given profile: awards `WorkoutAward(duration)` through that render's `addXp`, then closes the overlay |
| `App.Dashboard.FinishTimerFired` | src/app/components/WorkoutMode.tsx:58-60 | with none pending nothing changes; otherwise the oldest pending count is awarded against the profile captured with it and the result replaces the cached profile, and the overlay closes, whether or not it was still open |
| `App.Dashboard.CancelWorkout` | src/app/App.tsx:72 | closes the overlay, leaves the profile unchanged and leaves pending finish timeouts pending |
| `App.CancelRunningSession` | src/app/App.tsx:50-72 | cancelling before Finish is pressed awards nothing, now or at a later timer event |
| `App.CancelAfterFinish` | src/app/App.tsx:50-72 | cancelling within the delay after Finish still awards `WorkoutAward` of the session's count |
| `App.FinishTwice` | src/app/components/WorkoutMode.tsx:55-61 | Finish pressed twice: after both timeouts the XP is the old XP plus one award, not two |
| `App.ToggleDuringDelay` | src/app/App.tsx:50-53 | a habit completed between Finish and its timeout loses its 10 XP: the profile ends as the award applied to the profile cached at Finish |
| `App.RestartWithinDelay` | src/app/App.tsx:50-72 | a session started within the delay after an earlier Finish and cancel is closed when the earlier timeout fires |
| `DeepLinkGrid.DefaultApps` | src/app/components/DeepLinkGrid.tsx:28-35 | six default tiles with distinct ids "1".."6", each with a known icon |
| `DeepLinkGrid.IconFor` | src/app/components/DeepLinkGrid.tsx:108 | the value found is the link icon or the one whose table key is the name; it is an inherited `Object.prototype` member exactly for the names of those members, which therefore do not fall back to the link icon; any other unknown name falls back |
| `DeepLinkGrid.IconLookupRoundTrip` | src/app/components/DeepLinkGrid.tsx:10-18 | each icon is found again under its own table key |
| `DeepLinkGrid.IconName` | src/app/components/DeepLinkGrid.tsx:10-18 | the table key of each icon; characterised by `IconLookupRoundTrip` and the ensures of `IconFor` |
| `DeepLinkGrid.ReplaceById` | src/app/components/DeepLinkGrid.tsx:77 | length and every position's id are unchanged; each tile is either the edited one or the old one |
| `DeepLinkGrid.ReplaceByIdAt` | src/app/components/DeepLinkGrid.tsx:77 | position i holds the edited tile exactly when its id matched, else the old tile |
| `DeepLinkGrid.ReplaceByIdIdempotent` | src/app/components/DeepLinkGrid.tsx:77 | saving the same tile twice equals saving it once |
| `DeepLinkGrid.RemoveAppById` | src/app/components/DeepLinkGrid.tsx:85 | the result holds exactly the tiles whose id differs |
| `DeepLinkGrid.RemoveAppByIdExact` | src/app/components/DeepLinkGrid.tsx:85 | an absent id changes nothing; with distinct ids the one matching position is removed, others in order |
| `DeepLinkGrid.RemoveAppByIdKeepsUnique` | src/app/components/DeepLinkGrid.tsx:85 | deleting by id keeps tile ids distinct |
| `DeepLinkGrid.TileGrid.constructor` | src/app/components/DeepLinkGrid.tsx:38-46 | starts with the default tiles (distinct ids), no editor, no pending press |
| `DeepLinkGrid.TileGrid.StartPress` | src/app/components/DeepLinkGrid.tsx:52-59 | clears the long-press flag and arms the timer for the tile |
| `DeepLinkGrid.TileGrid.TimerFired` | src/app/components/DeepLinkGrid.tsx:54-58 | an armed timer marks a long press and opens the editor on its tile; otherwise nothing changes |
| `DeepLinkGrid.TileGrid.EndPress` | src/app/components/DeepLinkGrid.tsx:61-71 | always clears the timer; launches exactly when not a long press and the URL is non-empty |
| `DeepLinkGrid.TileGrid.LeavePress` | src/app/components/DeepLinkGrid.tsx:119-123 | leaving the tile clears the timer |
| `DeepLinkGrid.TileGrid.ContextMenu` | src/app/components/DeepLinkGrid.tsx:124-129 | right click opens the editor on the tile |
| `DeepLinkGrid.TileGrid.EditName` | src/app/components/DeepLinkGrid.tsx:162 | replaces only the edited tile's name |
| `DeepLinkGrid.TileGrid.EditUrl` | src/app/components/DeepLinkGrid.tsx:173 | replaces only the edited tile's URL |
| `DeepLinkGrid.TileGrid.SetDialogOpen` | src/app/components/DeepLinkGrid.tsx:146 | the dialog's open state follows the request |
| `DeepLinkGrid.TileGrid.Save` | src/app/components/DeepLinkGrid.tsx:73-80 | no-op without an edited tile; else tiles become `ReplaceById`, dialog closed, editor cleared; distinct ids stay distinct |
| `DeepLinkGrid.TileGrid.Delete` | src/app/components/DeepLinkGrid.tsx:82-89 | no-op without an edited tile or when declined; else tiles with its id are removed, dialog closed, editor cleared; with distinct ids exactly the matching position goes and the rest keep their order, and ids stay distinct |
| `DeepLinkGrid.TileGrid.ResetDefaults` | src/app/components/DeepLinkGrid.tsx:91-95 | a confirmed reset makes the list the defaults; a declined one changes nothing; distinct ids stay distinct |
| `DeepLinkGrid.PressTile` | src/app/components/DeepLinkGrid.tsx:52-71 | a quick tap launches the tile's URL if non-empty and leaves the editor and dialog as they were, with no long press marked; a press held until the timer fires launches nothing, marks a long press and opens the editor |
| `HabitTracker.IsCompleted` | src/app/components/HabitTracker.tsx:56 | the `some` that marks a habit done; characterised by `CompletedIffLogFound`, `RemoveAtCompletion`, `AppendCompletion` and `ToggleFlipsCompletion` |
| `HabitTracker.CompletedIffLogFound` | src/app/components/HabitTracker.tsx:56 | "completed" (`some`) agrees with the toggle's `find` finding a log |
| `HabitTracker.RemoveAtCompletion` | src/app/components/HabitTracker.tsx:56 | with logs unique per habit, removing a log un-completes its habit and no other |
| `HabitTracker.AppendCompletion` | src/app/components/HabitTracker.tsx:56 | appending a log completes its habit and no other |
| `HabitTracker.ToggleFlipsCompletion` | src/app/components/HabitTracker.tsx:56 | a toggle un-completes a completed habit, completes an open one exactly when the insert returned a row, and leaves every other habit's completion alone |
| `HabitTracker.Render` | src/app/components/HabitTracker.tsx:38-77 | the set-up prompt exactly when there are no habits; otherwise one row per habit in order, with its id and title, marked completed exactly when a log names it |
| `HabitTracker.PressRowFlipsOnlyThatRow` | src/app/components/HabitTracker.tsx:56-77 | pressing row k toggles that row's habit: its mark flips and rows of other habits keep theirs |
| `HabitTracker.DefaultHabitInserts` | src/app/components/HabitTracker.tsx:18-34 | nothing without a user; otherwise four inserts in listed order, each for the user with target 1 |

## Left out

- Backend I/O: every select, insert, update and delete is left out. This
  includes `fetchData` and the profile auto-create
  (src/hooks/useFitnessData.ts:22-69) and the refetches after a finished
  workout and after creating default habits. Their outcomes are inputs to
  the model. The delete's outcome is ignored, as in the source.
- FitnessData.FitnessStore.AddXp: the row the update returns is taken to be
  the cached profile with `xp` and `level` replaced. Other columns changed on
  the server are not modelled.
- FitnessData.FitnessStore.ToggleHabit: the backend is assumed to return an
  inserted row for the toggled habit with a fresh log id (`FreshLogFor`).
  The double-tap race between two concurrent toggles is not modelled.
  Calls run one after another, each seeing the state the previous one left.
- FitnessData.FitnessStore.constructor: takes the fetched state as the
  backend returned it. `Initial` is the state before the fetch; the fetch
  that moves one to the other is not modelled. The uniqueness invariant
  holds for fetched logs only when the backend returned at most one log
  per habit, with distinct ids.
- DeepLinkGrid.TileGrid.constructor: the tile list saved in localStorage
  and its JSON encoding (src/app/components/DeepLinkGrid.tsx:38-50) are
  not modelled. The grid starts from the defaults.
- DeepLinkGrid.TileGrid.StartPress: keeps one timer. A second press while
  a timer is armed overwrites the reference without clearing the earlier
  timer, which would still fire. The model does not capture that.
- App.Dashboard.FinishTimerFired: finish timeouts are events that fire in
  the order they were set. Their 3 s length is not modelled.
- The "Hydrate" button's alert (src/app/components/WorkoutMode.tsx:89) has
  no state, so it is not modelled.
- Dates: `today` and the date shown in the header are not modelled. The
  date is part of the inserted row.
- src/app/components/Auth.tsx and src/app/components/Journal.tsx are not
  part of this model. Auth wraps sign-in and sign-up. Journal is a single
  guarded insert.
- PWA manifest and service-worker registration (src/app/App.tsx:22-47) are
  not modelled. Neither is rendering, animation or confetti.
- `target_count` is carried on habits but, as in the source, completion
  ignores it.
