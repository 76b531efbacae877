# Fitness stopwatch: a Dafny model of the workout state machine

The app is a two-timer interval-workout stopwatch written as one React
component (`src/App.js`) with two helper components. This project models the
parts of it that compute something:

- **`App` (app.dfy)**: the state of `App.js` as a class `WorkoutApp`. It holds
  the fixed list of two timer records (exercise, id 1; rest, id 2), the
  workout settings, the live calorie counter, the newest-first workout history
  and the rest-alert flag. Each handler is a method: the stopwatch's tick
  callback `handleTimeUpdate`, the two toggles, the two resets,
  `stopWorkout`, `deleteWorkout`, clear history, and the `onChange` handlers
  of the two settings sliders. An explicit `Tick` method stands for
  one 20 ms period of the stopwatch interval. Every method that changes the
  timers or the settings then runs the two effects in declaration order:
  first the calorie effect, then the exercise-to-rest auto-transition.
  `DeleteWorkout`, `ClearHistory` and `HideRestAlert` change only the history
  or the alert flag, which neither the calorie effect nor the auto-transition
  reads, so React does not rerun those two effects after them and neither
  does the model. (The storage effect on `workoutHistory` does rerun; it is
  left out.) The class invariant
  `Valid()` says five things. The list keeps its two-record shape. Exercise
  and rest never run at the same time. `rounds` and `exerciseTime` stay in
  the sliders' range 1..10. The round counters stay at their initial values
  (App.js never advances them, so `currentRound <= rounds` always holds).
  The state is *settled*: neither effect would change it again
  (`EffectsSettle`). So running both effects after every change gives the
  same states as React, which reruns an effect only when its dependencies
  change.
- **`Timers` (timers.dfy)**: the timer record and the `map` / `find` /
  `some` / `reduce` expressions that the handlers apply to the list.
- **`History` (history.dfy)**: the saved-workout record and the `filter`
  that deletes by id.
- **`StopwatchView` (stopwatch.dfy)**: `formatTime` (`HH:MM:SS.CC`),
  including `` `00${n}`.slice(-2) `` padding over the decimal rendering of
  `n`. App.js (src/App.js:257-263) and src/components/Stopwatch.js
  (lines 37-43) define `formatTime` with the same text, and the one function
  `FormatTime` models both. Also a class `Stopwatch` for the component in
  `src/components/Stopwatch.js`: a local time copy, overwritten by the `time`
  prop, that grows by 10 ms per tick only while `isRunning && isActive`.
- **`Calories` (calorie_calculator.dfy)**: the standalone calculator's
  formula `Math.round(w * d * (i / 100) * 0.8)`. It is computed exactly as
  `(2*w*d*i + 125) / 250` and proved equal to rounding the exact real value.
  The component is a class `CalorieCalculator` whose form changes one field
  at a time.

Behaviour modelled as the code has it:

- The two toggle handlers compute `isWorkoutActive` and `isPaused` from the
  `timers` captured by the handler, that is, from the list *before* the
  toggle. So starting exercise from idle leaves the workout inactive
  (`StartFromIdleStaysInactive`). In that state no calories are counted and
  no auto-transition fires. The workout becomes active first when a click
  pauses a running timer, and only `stopWorkout` makes it inactive again.
- `stopWorkout` builds its record from the values before the stop: timers,
  calories and `totalCompletedRounds`, which is always 0. It sets
  `isPaused` to true.
- Nothing in App.js advances `currentRound` or `totalCompletedRounds`
  (src/App.js:56-57). There is no round or phase progression, no pause or
  resume beyond the toggles, and no clamping of `currentRound` when `rounds`
  changes.
- The calorie effect floors each timer's seconds before summing them
  (src/App.js:197).
- The stopwatch inside App.js adds 20 ms per tick;
  src/components/Stopwatch.js adds 10 ms.

Arithmetic is on unbounded integers. Times are whole milliseconds (`nat`).
For every non-negative integer time below 2^53, JavaScript's floating-point
`Math.floor(time / 1000 % 60)` and the other field expressions equal the
integer forms used here. Two float expressions are replaced by exact forms:

- `Math.floor((totalSeconds / 60) * 8)` is `8 * totalSeconds / 60`. The
  exact quotient is either a whole number or at least 1/15 away from one
  (`WorkoutCaloriesMargin`).
- The calorie calculator's product cannot land on a rounding tie. Its
  distance to every half is at least 1/250 (`NoTie`), far above the
  floating-point error.

## Model

| member | source | states |
|---|---|---|
| `Timers.MapTimers` | src/App.js:78-80 | the mapped list has the same length and holds `f` of each record at the same position |
| `Timers.IndexOf` | src/App.js:87 | the position of the first record with the id, or -1 exactly when no record has it |
| `Timers.IsRunning` | src/App.js:108 | `some(t => t.id === id && t.isRunning)`; on the two-record list its two uses and the `anyRunning` test agree (`App.PausedFormulasAgree`), and under unique ids it agrees with `find` (`Timers.Find`) |
| `Timers.AnyRunning` | src/App.js:140 | `some(t => t.isRunning)` holds exactly when some id is running |
| `Timers.Find` | src/App.js:207 | `find` yields nothing exactly when the id is absent; with unique ids it yields the record with that id, and `some(id && isRunning)` agrees with it |
| `Timers.FindReturnsFirst` | src/App.js:207 | when some record has the id, `find` returns the first such record, even on a list with repeated ids |
| `Timers.WithTime` | src/App.js:76-82 | `handleTimeUpdate`'s updater sets `time` of the records with that id only; every other field and record is unchanged; an unknown id is a no-op |
| `Timers.WithRunning` | src/App.js:91-93 | sets `isRunning` of the named timer only; the running status of every other id is unchanged |
| `Timers.Reset` | src/App.js:151-166 | the named timer gets `time = 0` and `isRunning = false`; other records, and whether other ids run, are unchanged |
| `Timers.StopAll` | src/App.js:171-173 | every record is stopped and otherwise unchanged; nothing runs afterwards |
| `Timers.Advance` | src/App.js:244-250 | a tick adds exactly `step` ms to each running record and leaves stopped records frozen |
| `Timers.TotalTime` | src/App.js:182 | the `reduce` sum of the `time` fields; its bounds are stated by `Timers.TotalTimeBounds` |
| `Timers.TotalTimeBounds` | src/App.js:182 | no record's time exceeds the sum, and the sum is 0 exactly when every record is at 0 ms |
| `Timers.TotalSeconds` | src/App.js:197 | the sum of per-record whole seconds is `1000 * S <= total ms <= 1000 * S + 999 * (number of records)`: flooring per record loses less than a second per record |
| `Timers.TotalsDependOnTimesOnly` | src/App.js:197 | both `reduce` sums (total ms, total whole seconds) depend only on the `time` fields |
| `Timers.AdvanceGrowsTotals` | src/App.js:244-250 | a tick never decreases total elapsed time or total whole seconds |
| `History.DeleteById` | src/App.js:190-192 | no kept record has the id; a record is kept exactly when it was present and has another id; an absent id leaves the list unchanged |
| `History.DeleteDistributes` | src/App.js:191 | deletion works segment by segment over concatenation, so the kept records keep their original order |
| `History.DeleteCounts` | src/App.js:191 | every record with another id keeps its multiplicity; every record with the id is removed |
| `History.DeleteIdempotent` | src/App.js:191 | deleting an id twice equals deleting it once |
| `History.DeleteUndoesPrepend` | src/App.js:186-191 | deleting the record just prepended by a stop, when its id is new, restores the previous history |
| `App.ToggleExerciseTimers` | src/App.js:86-103 | exercise flips; rest keeps running only when exercise was running before (the click paused it); only running flags change; exercise and rest are never both running afterwards |
| `App.ToggleRestTimers` | src/App.js:119-136 | rest flips; exercise keeps running only when rest was running before; only running flags change; never both running afterwards |
| `App.ToggleExerciseSettings` | src/App.js:106-114 | never clears `isWorkoutActive`; sets it when exercise was running before the toggle; `isPaused` holds iff neither timer was running before; no other setting changes |
| `App.ToggleRestSettings` | src/App.js:139-147 | never clears `isWorkoutActive`; sets it when rest was running before the toggle; `isPaused` holds iff no timer was running before; no other setting changes |
| `App.PausedFormulasAgree` | src/App.js:107-112 | on the two-record list `some(t => t.isRunning)` means exercise or rest runs, so the `isPaused` of the two settings updaters (lines 112 and 145) is the same |
| `App.StartFromIdleStaysInactive` | src/App.js:105-114 | from an idle, inactive state, starting exercise runs the exercise timer but leaves the workout inactive and paused |
| `App.WorkoutCalories` | src/App.js:195-199 | the live calorie value is the floor of `(S / 60) * 8`, where `S` is the sum of each timer's whole seconds, as an exact real bound |
| `App.WorkoutCaloriesMargin` | src/App.js:197-198 | the exact `(S / 60) * 8` is a whole number or at least 1/15 away from one, so the floor of the float expression equals the integer result |
| `App.CaloriesAfter` | src/App.js:195-201 | while active, the counter becomes the floor of `(S / 60) * 8`; while inactive it keeps its value |
| `App.TransitionDue` | src/App.js:205-209 | firing implies an active workout with exercise running; with unique ids, `find` + checks holds exactly when some exercise record runs at or past `exerciseTime * 60000` ms |
| `App.PastLimit` | src/App.js:209 | the per-record test: a running exercise record at or past `exerciseTime * 60000` ms; `App.TransitionDue` is proved equal, on unique-id lists, to some record passing it |
| `App.RestTransition` | src/App.js:215-220 | the auto-transition starts rest and stops exercise; times, ids and titles are unchanged; afterwards the two are not both running |
| `App.TimersAfter` | src/App.js:204-223 | only running flags change; when due, exercise stops and an existing rest timer runs; when not due the list is unchanged; exclusion is kept |
| `App.EffectsSettle` | src/App.js:195-223 | one run of the calorie effect and then the auto-transition reaches a state that neither effect changes again |
| `App.TickIsTimeUpdate` | src/App.js:244-248 | on the two-timer list with at most one timer running, a tick equals `handleTimeUpdate(id, time + 20)` for the running timer, and changes nothing when none runs |
| `App.AutoTransitionOnTick` | src/App.js:204-223 | when a tick brings a running exercise timer of an active workout to `exerciseTime * 60000` ms, exercise stops at the time reached and rest runs |
| `App.TickTimes` | src/App.js:244-250 | after a tick and both effects, each record's time has grown by exactly 20 ms if it was running and is unchanged otherwise |
| `App.TickCalories` | src/App.js:195-201 | from a settled state of an active workout, a tick never lowers the calorie counter |
| `App.WorkoutApp.constructor` | src/App.js:48-67 | initial timers and settings, calories 0, history from storage or empty; the invariant holds |
| `App.WorkoutApp.RunEffects` | src/App.js:195-223 | the calorie effect recomputes calories only while active; the auto-transition fires only when due and raises the alert; the result is settled |
| `App.WorkoutApp.HandleTimeUpdate` | src/App.js:76-82 | the keyed time update followed by both effects; settings and history are unchanged; the invariant (shape, exclusion, settled) is kept |
| `App.WorkoutApp.Tick` | src/App.js:238-255 | each running timer gains exactly 20 ms and stopped ones are frozen; then both effects run; calories never decrease while the workout is active |
| `App.WorkoutApp.ToggleExerciseTimer` | src/App.js:85-115 | the new timers and settings are the two updaters applied to the pre-toggle state, followed by both effects; exclusion is kept |
| `App.WorkoutApp.ToggleRestTimer` | src/App.js:118-148 | the same for the rest timer |
| `App.WorkoutApp.ResetExerciseTimer` | src/App.js:151-157 | exercise becomes 0 ms and stopped; rest, settings and history are unchanged |
| `App.WorkoutApp.ResetRestTimer` | src/App.js:160-166 | rest becomes 0 ms and stopped; exercise, settings and history are unchanged |
| `App.WorkoutApp.StopWorkout` | src/App.js:169-187 | every timer stops; the workout is inactive and paused; exactly one record is prepended, holding the pre-stop rounds, calories, summed ms and timer list; calories are unchanged |
| `App.WorkoutApp.DeleteWorkout` | src/App.js:190-192 | the history becomes the filtered list; everything else is unchanged |
| `App.WorkoutApp.ClearHistory` | src/App.js:593 | the history becomes empty (so clearing twice gives the same list); everything else is unchanged |
| `App.WorkoutApp.SetRounds` | src/App.js:643 | only `rounds` changes; `currentRound` is not clamped |
| `App.WorkoutApp.SetExerciseTime` | src/App.js:656 | only `exerciseTime` changes, after which the auto-transition fires if the running exercise is now past the limit |
| `App.WorkoutApp.HideRestAlert` | src/App.js:212 | the delayed callback clears the alert and nothing else |
| `StopwatchView.Decimal` | src/components/Stopwatch.js:38 | the decimal rendering is a non-empty digit string with one digit exactly below 10 and no leading zero |
| `StopwatchView.DecimalRoundTrip` | src/components/Stopwatch.js:38 | reading the decimal rendering back gives the number |
| `StopwatchView.Pad2` | src/components/Stopwatch.js:38-41 | `` `00${n}`.slice(-2) `` is always two digit characters |
| `StopwatchView.Pad2Digits` | src/components/Stopwatch.js:38-41 | below 100, `` `00${n}`.slice(-2) `` is the tens digit followed by the units digit |
| `StopwatchView.Pad2Field` | src/components/Stopwatch.js:38-41 | below 100, the padded field reads back as `n` |
| `StopwatchView.Hours` | src/components/Stopwatch.js:41 | the hours field is below 24 |
| `StopwatchView.Minutes` | src/components/Stopwatch.js:40 | the minutes field is below 60 |
| `StopwatchView.Seconds` | src/components/Stopwatch.js:39 | the seconds field is below 60 |
| `StopwatchView.Hundredths` | src/components/Stopwatch.js:38 | the hundredths field is below 100 |
| `StopwatchView.FormatTime` | src/App.js:257-263 | the App.js `formatTime`, textually identical to src/components/Stopwatch.js:37-43: the rendering has 11 characters, with `:` at positions 2 and 5 and `.` at 8 |
| `StopwatchView.Layout` | src/components/Stopwatch.js:42 | the template `${getHours}:${getMinutes}:${getSeconds}.${getMilliseconds}` (the same text as src/App.js:262) on two-character fields is 11 characters, with `:` at 2 and 5, `.` at 8, and each field in its own slot |
| `StopwatchView.FormatTimeFields` | src/components/Stopwatch.js:38-42 | every other position is a digit; the fields read back as hours mod 24, minutes mod 60, seconds mod 60 and hundredths, each within its range |
| `StopwatchView.FormatTimeRoundTrip` | src/App.js:258-262 | for both identical `formatTime`s (also src/components/Stopwatch.js:38-42): `HH*3600000 + MM*60000 + SS*1000 + CC*10 == t mod 86400000 - t mod 10` |
| `StopwatchView.FormatTimeRecovers` | src/components/Stopwatch.js:37-43 | a whole-hundredths time within a day is recovered exactly from its rendering |
| `StopwatchView.FormatTimeInjective` | src/components/Stopwatch.js:37-43 | two whole-hundredths times within a day render differently |
| `StopwatchView.FormatTimeZero` | src/components/Stopwatch.js:37-43 | `formatTime(0) == "00:00:00.00"` |
| `StopwatchView.FormatTimePeriodic` | src/components/Stopwatch.js:41-42 | the rendering repeats every 86,400,000 ms |
| `StopwatchView.PeriodicFields` | src/components/Stopwatch.js:38-41 | each of the four fields has period 86,400,000 ms |
| `StopwatchView.Stopwatch.constructor` | src/components/Stopwatch.js:15 | the local time starts from the `time` prop |
| `StopwatchView.Stopwatch.SyncTime` | src/components/Stopwatch.js:17-19 | a new `time` prop overwrites the local time |
| `StopwatchView.Stopwatch.SetFlags` | src/components/Stopwatch.js:21-35 | changing `isRunning` / `isActive` keeps the local time |
| `StopwatchView.Stopwatch.Tick` | src/components/Stopwatch.js:21-35 | a tick happens exactly when `isRunning && isActive`; it adds exactly 10 ms and returns the new value for `onTimeUpdate`; otherwise nothing changes |
| `StopwatchView.Stopwatch.Display` | src/components/Stopwatch.js:76 | the displayed text has the `HH:MM:SS.CC` layout |
| `Calories.CaloriesBurned` | src/components/CalorieCalculator.js:15 | `(2*w*d*i + 125) / 250` equals `Math.round` (floor of value + 1/2) of the exact `w * d * (i / 100) * 0.8` |
| `Calories.ExactCalories` | src/components/CalorieCalculator.js:15 | the unrounded value of the expression over the reals, never negative |
| `Calories.Round` | src/components/CalorieCalculator.js:15 | `Math.round` gives an integer within `(x - 1/2, x + 1/2]` of `x` |
| `Calories.ExactIsProductOver125` | src/components/CalorieCalculator.js:15 | `w * d * (i / 100) * 0.8 == w * d * i / 125` |
| `Calories.NoTie` | src/components/CalorieCalculator.js:15 | the exact value is at least 1/250 away from every integer plus one half |
| `Calories.DefaultCalories` | src/components/CalorieCalculator.js:5-9 | the defaults 70 kg, 30 min, 50 % give 840 |
| `Calories.CaloriesMonotone` | src/components/CalorieCalculator.js:15 | the result is non-decreasing in weight, duration and intensity together and in each one separately |
| `Calories.CaloriesBounds` | src/components/CalorieCalculator.js:35-69 | within the slider ranges the result lies in [16, 21600] |
| `Calories.Set` | src/components/CalorieCalculator.js:19-24 | the named field gets the value; the other two keep theirs |
| `Calories.InSliderRange` | src/components/CalorieCalculator.js:35-69 | the values each slider can produce (weight 40..150 step 1, duration 5..180 step 5, intensity 10..100 step 5), required by `HandleInputChange` and giving the bounds of `Calories.CaloriesBounds` |
| `Calories.CalorieCalculator.constructor` | src/components/CalorieCalculator.js:5-11 | the default form (70, 30, 50) and a result of 0 |
| `Calories.CalorieCalculator.HandleInputChange` | src/components/CalorieCalculator.js:19-24 | only the named field of the form changes; the result is unchanged |
| `Calories.CalorieCalculator.CalculateCalories` | src/components/CalorieCalculator.js:13-16 | the result is the formula applied to the current form, within [16, 21600]; the form is unchanged |

## Left out

- JSX, MUI components, styling, the media query, the history dialog, the chips and the floating button are presentation. This includes the `StatsChart` bar heights (percentage floats) and the disabled total-time slider.
- `setInterval` / `clearInterval` scheduling: it is replaced by explicit `Tick` methods called by the environment. Starting and tearing down the interval is not modelled; only the ticks it produces are.
- The 3-second `setTimeout` that hides the rest alert is not modelled as time. Its callback is the method `HideRestAlert`, called by the environment.
- `localStorage` and `JSON.parse` / `JSON.stringify` persistence are I/O and a foreign serialiser. The saved list is a constructor parameter (`None` when nothing was stored), and writes to storage are not modelled.
- `Date.now()` and the `toLocaleDateString` / `toLocaleTimeString` labels come from the clock and the locale. `StopWorkout` takes the id and both labels as parameters.
- `WorkoutRecord.totalWorkoutMs` keeps the summed milliseconds. App.js stores that sum divided by 1000 as a floating-point number of seconds.
- React rendering and batching are not modelled. Each handler is applied as one step on the committed state, followed by the two effects.
- The stopwatch defined inside App.js keeps a `localTime` copy. App re-creates that component on every render, so the copy always equals the `time` prop. The model therefore advances the `time` fields directly.
- Both timers running at once would give two separate interval callbacks. The invariant rules that state out, so one `Tick` advances every running record at once.
- `src/components/Stopwatch.js` is not rendered by App.js, which uses its own inline stopwatch. It is modelled on its own. Its `onToggle` / `onReset` props only forward clicks and are not modelled.
- The copy of the calorie calculator inside App.js (src/App.js:381-464) is identical to the component file and is modelled once, from the component file.
- `App.ToggleExerciseTimers`: defined only on lists with unique ids that contain both ids. App.js builds only such lists. The `TypeError` that `find(...)` would throw on other lists is not modelled.
- `App.ToggleRestTimers`: the same restriction as `App.ToggleExerciseTimers`.
