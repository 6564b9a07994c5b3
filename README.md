# Coach Leo: onboarding and progression engine

A Dafny model of the deterministic core of the Coach Leo habit-coaching chat
bot. It covers:

- the level table and `calculateLevel`;
- the onboarding step machine: `/start`, then four text answers, then an
  upsert into the profile store;
- the `done` and `skip` button handlers, which update points, streak, last
  action, daily completion and level;
- the scheduled daily run that reopens every profile for a new day;
- the stored profile schema with its defaults.

Modules follow the source files:

| module | file | form |
|---|---|---|
| `Levels` | levels.dfy | the table as a constant and the scan as a spec function (`LevelFor`). It is implemented by the looping method `CalculateLevel`. |
| `UserModel` | user_model.dfy | the profile record as a datatype with its defaults (`NewProfile`). The collection is a class `ProfileStore` with `records` (identity to profile) and `order` (the enumeration order of a full query). It has `Save` and `Upsert`. |
| `Progression` | progression.dfy | the `done` and `skip` transitions as spec functions (`CompleteTask`, `SkipTask`). The handlers `HandleDone` and `HandleSkip` mutate the loaded record field by field and save it. |
| `Onboarding` | onboarding.dfy | the in-memory session map as a class `SessionTable`. The step switch is the spec function `Advance` and the handler `HandleText`. |
| `DailyDispatch` | daily_dispatch.dfy | the per-profile loop `RunDailyDispatch` and its per-profile effect `StartDay`. |
| `Optional` | optional.dfy | `Option`, for schema fields without a default and for a lookup that finds nothing. |

The store invariant `ProfileStore.Valid()` says three things:
- the enumeration order lists each stored identity exactly once;
- each profile is stored under its own `telegramId`;
- each profile is `Consistent`.

`Consistent` means:
- points ≥ 0;
- streak ≥ 0;
- `level == LevelFor(points)`;
- a non-zero streak only when the last action was `done`.

Every state-changing method preserves the invariant. The freshly defaulted profile satisfies it.

The daily run has no same-day guard: every run sends to and stamps every
profile, in enumeration order, whatever its last task date (daily.js:47-58).
It has no per-user error handling either: an error in one iteration ends the
run.

## Model

| member | source | states |
|---|---|---|
| Levels.LastReached | index.js:13-18 | the entry found is one of the table's entries whose minimum the points reach; when none is found, no entry is reached |
| Levels.LevelFor | index.js:5-19 | the level lies in 1..5 and is 1 for any total below 50 (including 0 and negative totals) |
| Levels.CalculateLevel | index.js:13-19 | the loop that keeps the level of every reached entry returns exactly `LevelFor(points)`, the level of the last reached entry, or 1 |
| Levels.LevelsAscending | index.js:5-11 | the table is strictly ascending in both levels and minimums |
| Levels.LastReachedIsHighest | index.js:13-18 | in an ascending table any reached entry has a level at most that of the entry the scan keeps |
| Levels.LevelForIsHighestReached | index.js:5-19 | `LevelFor(p)` is the largest table level whose minimum is at most p: every reached level is ≤ it, and for p ≥ 0 it is itself a reached level |
| Levels.LevelForMonotone | index.js:5-19 | more points never give a lower level |
| Levels.LevelForThresholds | index.js:5-11 | the level equals the threshold chain 500→5, 250→4, 120→3, 50→2, else 1 |
| Levels.LevelForStep | index.js:5-11 | a rise of fewer than 50 points moves the level up by at most one |
| UserModel.NewProfile | models/User.js:3-23 | an inserted profile has points 0, level 1, streak 0, no last action, no task date, `taskCompletedToday` false and no answers, and satisfies the progression invariant (level 1 = `LevelFor(0)`) |
| UserModel.UpsertAnswers | index.js:82-92 | the upsert writes the four answers; over an existing profile every progression field is kept; otherwise the schema defaults apply; the invariant is preserved |
| UserModel.ProfilesInOrder | daily.js:45 | the listed profiles are the stored profiles, one per identity, in enumeration order |
| UserModel.ProfileStore.FindOne | index.js:151 | `findOne` by identity finds a profile exactly when one is stored under it, and returns that stored profile |
| UserModel.ProfileStore.FindAll | daily.js:45 | `find()` returns one profile per enumerated identity, in order |
| UserModel.ProfileStore.Save | index.js:178 | the saved profile replaces the stored one under its identity; nothing else changes and the invariant holds |
| UserModel.ProfileStore.Upsert | index.js:82-92 | the stored profile under the identity becomes `UpsertAnswers` of the old one; a new identity is appended to the enumeration order |
| Progression.CompleteTask | index.js:150-189 | `done` refuses a missing profile or one already completed today. Otherwise the streak grows by 1; the reward is 15 when the new streak is ≥ 3, else 10; the day is marked complete with today's date; the level is recomputed. Level-up is reported iff the new level exceeds the stored one; answers and identity are untouched; the invariant is preserved |
| Progression.SkipTask | index.js:192-220 | `skip` always applies to a found profile. The penalty is 20 iff the last action was a skip, else 10; points drop by the penalty, clamped at 0; the streak is 0 and the last action is skip; the level is recomputed. The drop is reported iff the level fell below the stored one; the completion flag and date are untouched; the invariant holds |
| Progression.CompletionRaisesStanding | index.js:165-186 | on a consistent profile a completion raises points and never lowers the level; level-up fires exactly when the level rises by one |
| Progression.SkipNeverRaisesLevel | index.js:200-217 | on a consistent profile a skip never raises points or level; the drop message fires exactly when the level falls by one |
| Progression.DoubleCompletionRefused | index.js:159-171 | a second `done` before a reset is refused and changes nothing |
| Progression.RepeatedSkipEscalates | index.js:200-204 | the second of two consecutive skips costs 20 |
| Progression.CompletionClearsSkipEscalation | index.js:165-204 | skip, done, skip: the third action costs 10 again |
| Progression.FreshProfileFirstActions | models/User.js:13-20 | a fresh profile accepts its first `done`; its first skip costs 10, not 20, and leaves 0 points |
| Progression.HandleDone | index.js:150-189 | the handler returns `CompleteTask` of the stored profile and saves its result only when completed; the store is otherwise unchanged |
| Progression.HandleSkip | index.js:192-220 | the handler returns `SkipTask` of the stored profile and saves its result when found; the store is otherwise unchanged |
| Onboarding.Advance | index.js:56-95 | steps 1, 2, 3 and 4 store the text verbatim as goal, deadline, daily time or style and move to 2, 3, 4 or 999. Any other step (999) is unchanged; well-formed sessions stay well-formed |
| Onboarding.FinishedIgnoresText | index.js:56-95 | any run of messages on a finished session leaves it as it is |
| Onboarding.OnboardingCollectsAnswers | index.js:41-92 | after `/start`, four messages become goal, deadline, time and style in order and finish the session; later messages change nothing |
| Onboarding.OnboardingInProgress | index.js:56-76 | after `/start` and fewer than four messages the session waits at the step after the last answer |
| Onboarding.StartSession | index.js:42 | a new session is at step 1 with none of the four answers, and is well formed |
| Onboarding.SessionTable.constructor | index.js:38-39 | the in-memory session map starts empty |
| Onboarding.SessionTable.Start | index.js:41-42 | `/start` replaces the identity's session with step 1 and no answers, discarding any earlier one |
| Onboarding.HandleText | index.js:50-96 | with no session, or at step 999, nothing changes and there is no reply. Otherwise the session advances. Steps 1, 2 and 3 ask for the deadline, the daily time and the style. At step 4 the four answers, all present, are upserted into the store; otherwise the store is unchanged |
| DailyDispatch.StartDay | daily.js:56-57 | the run clears `taskCompletedToday` and stamps today's date; points, level, streak, last action, answers and identity are unchanged; the invariant is preserved |
| DailyDispatch.RunDailyDispatch | daily.js:44-59 | every profile is visited once, in enumeration order, regardless of its task date. Afterwards each stored profile is `StartDay` of its old value, so none has `taskCompletedToday` set |
| DailyDispatch.RunReopensCompletion | daily.js:56-57 | a `done` refused because the day is already completed is accepted after the daily run |
| DailyDispatch.StreakBonusTrace | index.js:165-176 | from a fresh profile, four daily completions with a run between each give points 10, 20, 35, 50 and streaks 1 to 4; the fourth earns 15 and reaches level 2 with a level-up |

## Left out

- Chat transport: reply texts, keyboards, Markdown, `answerCbQuery`. Replies are reduced to which prompt or outcome is produced.
- Task generation through the language-model API, and sending its result. In the model the onboarding upsert is followed by a `TaskSent` reply, and the daily run reports the identities it sent to. The generated text is not modelled.
- The database connection, process exit and the HTTP health endpoint (index.js:223-238). These are infrastructure outside the engine.
- Clock values. `new Date()` is the `today` parameter, an opaque day stamp that is only ever assigned.
- Concurrency. Each handler is one atomic step. The gap between `findOne` and `save` across concurrent events is not modelled.
- Failures of the store, the language-model call or the chat send. In the source such an error propagates out of the handler or out of the daily loop and stops it; the model has no failing step.
- JavaScript number semantics. Points, level and streak are unbounded integers, so precision beyond 2^53 is not modelled.
- The string cast of the numeric chat id into the `telegramId` field. One `Id` type keys both sessions and profiles.
- Mongoose timestamps, and the `timezone` field beyond its default. The default is kept on the record but has no effect on behaviour.
- RunDailyDispatch: assumes the `User` schema is registered when daily.js runs. Read as text, daily.js:19 looks the model up with `mongoose.model('User')` but never loads models/User.js. That lookup would then throw before the loop at daily.js:44-59 runs, and `done` would stay refused after a profile's first completion. This was not executed. The model, and `RunReopensCompletion` with it, take the loop as running.
