/**
  The interval-workout state of App.js: two timer records (exercise, id 1, and
  rest, id 2), the workout settings, the live calorie counter and the
  newest-first history, updated by the click handlers and by the two effects
  that run after every change (calories first, then the exercise-to-rest
  auto-transition).
 */
module App {
  import opened Timers
  import opened History
  import StopwatchView

  const ExerciseId := 1
  const RestId := 2
  const ExerciseTitle := "Упражнение"
  const RestTitle := "Отдых"

  /** Simulated milliseconds the stopwatch rendered by App.js adds per tick. */
  const TickMs: nat := 20
  const MsPerMinute := StopwatchView.MsPerMinute

  /** `{ rounds, exerciseTime (minutes), currentRound, totalCompletedRounds, isWorkoutActive, isPaused }`. */
  datatype Settings = Settings(
    rounds: nat,
    exerciseTime: nat,
    currentRound: nat,
    totalCompletedRounds: nat,
    isWorkoutActive: bool,
    isPaused: bool)

  const InitialTimers: seq<Timer> :=
    [Timer(ExerciseId, 0, false, ExerciseTitle, true), Timer(RestId, 0, false, RestTitle, false)]
  const InitialSettings := Settings(3, 1, 1, 0, false, false)

  /** The fixed two-record list the app keeps: ids, titles and `isActive` never change. */
  predicate Shape(ts: seq<Timer>) {
    && |ts| == 2
    && ts[0].id == ExerciseId && ts[0].title == ExerciseTitle && ts[0].isActive
    && ts[1].id == RestId && ts[1].title == RestTitle && !ts[1].isActive
  }

  /** A list in which both handlers' `find` calls succeed and `find` agrees with `some`. */
  predicate HasBoth(ts: seq<Timer>) {
    UniqueIds(ts) && HasId(ts, ExerciseId) && HasId(ts, RestId)
  }

  /** The exercise and the rest timer are not both running. */
  predicate Exclusive(ts: seq<Timer>) {
    !(IsRunning(ts, ExerciseId) && IsRunning(ts, RestId))
  }

  /** Two lists that differ at most in the `isRunning` flags. */
  predicate SameButRunning(a: seq<Timer>, b: seq<Timer>) {
    |a| == |b| && forall i :: 0 <= i < |a| ==> b[i] == a[i].(isRunning := b[i].isRunning)
  }

  /** Changing running flags keeps every id and the uniqueness of ids. */
  lemma KeepsIds(a: seq<Timer>, b: seq<Timer>)
    requires SameButRunning(a, b) && HasBoth(a)
    ensures HasBoth(b)
  {
    var e := IndexOf(a, ExerciseId);
    var r := IndexOf(a, RestId);
    assert b[e].id == ExerciseId && b[r].id == RestId;
  }

  // ---------------------------------------------------------------------------
  // The timer updaters passed to `setTimers` by the two toggle handlers

  /** `toggleExerciseTimer`'s updater: flip exercise; when that starts it, stop a running rest timer. */
  function ToggleExerciseTimers(ts: seq<Timer>): (r: seq<Timer>)
    requires HasBoth(ts)
    ensures SameButRunning(ts, r)
    ensures forall i :: 0 <= i < |ts| && ts[i].id != ExerciseId && ts[i].id != RestId ==> r[i] == ts[i]
    ensures IsRunning(r, ExerciseId) <==> !IsRunning(ts, ExerciseId)
    ensures IsRunning(r, RestId) <==> IsRunning(ts, RestId) && IsRunning(ts, ExerciseId)
    ensures Exclusive(r)
  {
    var start := !Find(ts, ExerciseId).value.isRunning;
    var updated := WithRunning(ts, ExerciseId, start);
    KeepsIds(ts, updated);
    if start && Find(ts, RestId).value.isRunning then StopOther(ts, updated, ExerciseId, RestId) else updated
  }

  /** Timer `started` was just started: the other timer is stopped, the rest of the list is kept. */
  function StopOther(ts: seq<Timer>, updated: seq<Timer>, started: int, other: int): (r: seq<Timer>)
    requires started != other && HasId(updated, other)
    requires SameButRunning(ts, updated) && IsRunning(updated, started)
    ensures SameButRunning(ts, r)
    ensures forall i :: 0 <= i < |ts| && ts[i].id != other ==> r[i] == updated[i]
    ensures IsRunning(r, started) && !IsRunning(r, other)
  {
    WithRunning(updated, other, false)
  }

  /** `toggleRestTimer`'s updater: flip rest; when that starts it, stop the exercise timer. */
  function ToggleRestTimers(ts: seq<Timer>): (r: seq<Timer>)
    requires HasBoth(ts)
    ensures SameButRunning(ts, r)
    ensures forall i :: 0 <= i < |ts| && ts[i].id != ExerciseId && ts[i].id != RestId ==> r[i] == ts[i]
    ensures IsRunning(r, RestId) <==> !IsRunning(ts, RestId)
    ensures IsRunning(r, ExerciseId) <==> IsRunning(ts, ExerciseId) && IsRunning(ts, RestId)
    ensures Exclusive(r)
  {
    var start := !Find(ts, RestId).value.isRunning;
    var updated := WithRunning(ts, RestId, start);
    KeepsIds(ts, updated);
    if start then StopOther(ts, updated, RestId, ExerciseId) else updated
  }

  // ---------------------------------------------------------------------------
  // The settings updaters of the two toggle handlers. Both read `timers` from the
  // handler's closure, that is, the list as it was BEFORE the toggle.

  /** `toggleExerciseTimer`'s settings updater, given the pre-toggle list `pre`. */
  function ToggleExerciseSettings(pre: seq<Timer>, s: Settings): (r: Settings)
    ensures s.isWorkoutActive ==> r.isWorkoutActive
    ensures r.isWorkoutActive <==> s.isWorkoutActive || IsRunning(pre, ExerciseId)
    ensures r.isPaused <==> !IsRunning(pre, ExerciseId) && !IsRunning(pre, RestId)
    ensures r.(isWorkoutActive := s.isWorkoutActive, isPaused := s.isPaused) == s
  {
    var newActiveState := IsRunning(pre, ExerciseId);
    s.(isWorkoutActive := newActiveState || s.isWorkoutActive,
       isPaused := !newActiveState && !IsRunning(pre, RestId))
  }

  /** `toggleRestTimer`'s settings updater, given the pre-toggle list `pre`. */
  function ToggleRestSettings(pre: seq<Timer>, s: Settings): (r: Settings)
    ensures s.isWorkoutActive ==> r.isWorkoutActive
    ensures r.isWorkoutActive <==> s.isWorkoutActive || IsRunning(pre, RestId)
    ensures r.isPaused <==> !AnyRunning(pre)
    ensures r.(isWorkoutActive := s.isWorkoutActive, isPaused := s.isPaused) == s
  {
    var newActiveState := IsRunning(pre, RestId);
    s.(isWorkoutActive := newActiveState || s.isWorkoutActive, isPaused := !AnyRunning(pre))
  }

  /**
    On the app's two-record list "some timer runs" means exercise or rest runs,
    so the two handlers' `isPaused` formulas agree.
   */
  lemma PausedFormulasAgree(ts: seq<Timer>, s: Settings)
    requires Shape(ts)
    ensures AnyRunning(ts) <==> IsRunning(ts, ExerciseId) || IsRunning(ts, RestId)
    ensures ToggleExerciseSettings(ts, s).isPaused == ToggleRestSettings(ts, s).isPaused
  {
    assert AnyRunning(ts) ==> ts[0].isRunning || ts[1].isRunning;
  }

  /**
    Starting the exercise timer while nothing runs does not make an inactive
    workout active: the settings updater sees the pre-toggle list, in which
    exercise is stopped. Only a later click that pauses exercise sets
    `isWorkoutActive`.
   */
  lemma StartFromIdleStaysInactive(ts: seq<Timer>, s: Settings)
    requires Shape(ts) && !AnyRunning(ts) && !s.isWorkoutActive
    ensures HasBoth(ts)
    ensures IsRunning(ToggleExerciseTimers(ts), ExerciseId)
    ensures !ToggleExerciseSettings(ts, s).isWorkoutActive
    ensures ToggleExerciseSettings(ts, s).isPaused
  {
    ShapeHasBoth(ts);
  }

  // ---------------------------------------------------------------------------
  // The two effects

  /** The calorie effect's value: `Math.floor((totalSeconds / 60) * 8)` with whole seconds per timer. */
  function WorkoutCalories(ts: seq<Timer>): (c: nat)
    ensures c as real <= (TotalSeconds(ts) as real / 60.0) * 8.0 < c as real + 1.0
  {
    var total := TotalSeconds(ts);
    var c := total * 8 / 60;
    assert c * 60 <= total * 8 < c * 60 + 60;
    c
  }

  /**
    `(totalSeconds / 60) * 8` is either a whole number or at least 1/15 away
    from one, so the floating-point error of that expression cannot move its
    floor.
   */
  lemma WorkoutCaloriesMargin(ts: seq<Timer>)
    ensures var q := (TotalSeconds(ts) as real / 60.0) * 8.0;
      var c := WorkoutCalories(ts) as real;
      q == c || (c + 1.0 / 15.0 <= q && q <= c + 14.0 / 15.0)
  {
    var total := TotalSeconds(ts);
    var c := WorkoutCalories(ts);
    var k := 2 * total - 15 * c;
    assert 0 <= k < 15;
    assert (total as real / 60.0) * 8.0 == (c as real) + (k as real) / 15.0;
  }

  /** The calorie counter after the calorie effect: recomputed only while the workout is active. */
  function CaloriesAfter(ts: seq<Timer>, s: Settings, calories: nat): (r: nat)
    ensures s.isWorkoutActive ==> r as real <= (TotalSeconds(ts) as real / 60.0) * 8.0 < r as real + 1.0
    ensures !s.isWorkoutActive ==> r == calories
  {
    if s.isWorkoutActive then WorkoutCalories(ts) else calories
  }

  /**
    The auto-transition fires: active workout, exercise running and at or past
    `exerciseTime` minutes. On a list with unique ids this is the same as some
    exercise record being running and past the limit.
   */
  predicate TransitionDue(ts: seq<Timer>, s: Settings): (b: bool)
    ensures b ==> s.isWorkoutActive && IsRunning(ts, ExerciseId)
    ensures UniqueIds(ts) ==> (b <==> s.isWorkoutActive && exists i :: 0 <= i < |ts| && PastLimit(ts[i], s))
  {
    var exercise := Find(ts, ExerciseId);
    var b :=
      && s.isWorkoutActive
      && exercise.Some?
      && exercise.value.isRunning
      && exercise.value.time >= s.exerciseTime * MsPerMinute;
    assert b ==> IsRunning(ts, ExerciseId) by {
      if b {
        var k := IndexOf(ts, ExerciseId);
        assert ts[k] == exercise.value;
      }
    }
    b
  }

  /** A running exercise record at or past `exerciseTime` minutes. */
  predicate PastLimit(t: Timer, s: Settings) {
    t.id == ExerciseId && t.isRunning && t.time >= s.exerciseTime * MsPerMinute
  }

  /** The auto-transition's updater: rest starts, exercise stops, nothing else changes. */
  function RestTransition(ts: seq<Timer>): (r: seq<Timer>)
    ensures SameButRunning(ts, r)
    ensures forall i :: 0 <= i < |ts| ==>
      (r[i].isRunning <==> if ts[i].id == RestId then true else if ts[i].id == ExerciseId then false else ts[i].isRunning)
    ensures HasId(ts, RestId) ==> IsRunning(r, RestId)
    ensures !IsRunning(r, ExerciseId)
    ensures Exclusive(r)
  {
    MapTimers(ts, (t: Timer) =>
      if t.id == RestId then t.(isRunning := true)
      else if t.id == ExerciseId then t.(isRunning := false)
      else t)
  }

  /**
    The list after the auto-transition effect: only running flags change; when
    the transition fires, exercise stops and an existing rest timer runs; and
    exclusion is kept.
   */
  function TimersAfter(ts: seq<Timer>, s: Settings): (r: seq<Timer>)
    ensures SameButRunning(ts, r)
    ensures TransitionDue(ts, s) ==> !IsRunning(r, ExerciseId) && (HasId(ts, RestId) ==> IsRunning(r, RestId))
    ensures !TransitionDue(ts, s) ==> r == ts
    ensures Exclusive(ts) ==> Exclusive(r)
  {
    if TransitionDue(ts, s) then RestTransition(ts) else ts
  }

  /** A state that neither effect would change any more. */
  predicate Settled(ts: seq<Timer>, s: Settings, calories: nat) {
    (s.isWorkoutActive ==> calories == WorkoutCalories(ts)) && !TransitionDue(ts, s)
  }

  /** Running the calorie effect and then the auto-transition once reaches a state both leave alone. */
  lemma EffectsSettle(ts: seq<Timer>, s: Settings, calories: nat)
    ensures Settled(TimersAfter(ts, s), s, CaloriesAfter(ts, s, calories))
  {
    var r := TimersAfter(ts, s);
    TotalsDependOnTimesOnly(ts, r);
    if TransitionDue(ts, s) {
      var k := IndexOf(r, ExerciseId);
      assert k >= 0 ==> !r[k].isRunning;
    }
  }

  /**
    Under the two-record shape with at most one timer running, a tick is exactly
    the `handleTimeUpdate(id, time + 20)` call made by the running stopwatch.
   */
  lemma TickIsTimeUpdate(ts: seq<Timer>)
    requires Shape(ts) && Exclusive(ts)
    ensures ts[0].isRunning ==> Advance(ts, TickMs) == WithTime(ts, ExerciseId, ts[0].time + TickMs)
    ensures ts[1].isRunning ==> Advance(ts, TickMs) == WithTime(ts, RestId, ts[1].time + TickMs)
    ensures !AnyRunning(ts) ==> Advance(ts, TickMs) == ts
  {
    assert ts[0].isRunning ==> IsRunning(ts, ExerciseId);
    assert ts[1].isRunning ==> IsRunning(ts, RestId);
    assert !AnyRunning(ts) ==> !ts[0].isRunning && !ts[1].isRunning;
  }

  /**
    The tick that carries a running exercise timer of an active workout to its
    limit hands over to rest: exercise stops with the time it reached, rest runs,
    and the alert is raised.
   */
  lemma AutoTransitionOnTick(ts: seq<Timer>, s: Settings)
    requires Shape(ts) && Exclusive(ts)
    requires s.isWorkoutActive && ts[0].isRunning
    requires ts[0].time + TickMs >= s.exerciseTime * MsPerMinute
    ensures TransitionDue(Advance(ts, TickMs), s)
    ensures var r := TimersAfter(Advance(ts, TickMs), s);
      && |r| == 2
      && !r[0].isRunning && r[0].time == ts[0].time + TickMs
      && r[1].isRunning && r[1].time == ts[1].time
  {
    assert IsRunning(ts, ExerciseId);
    var a := Advance(ts, TickMs);
    ShapeHasBoth(a);
    assert Find(a, ExerciseId) == Some(a[0]);
  }

  /** A tick keeps the two-record shape and exclusion. */
  lemma TickPreservesShape(ts: seq<Timer>)
    requires Shape(ts) && Exclusive(ts)
    ensures Shape(Advance(ts, TickMs)) && Exclusive(Advance(ts, TickMs))
  {
    var a := Advance(ts, TickMs);
    assert IsRunning(a, ExerciseId) ==> IsRunning(ts, ExerciseId);
    assert IsRunning(a, RestId) ==> IsRunning(ts, RestId);
  }

  /** After a tick and the effects, each record's time has grown by 20 ms exactly when it was running. */
  lemma TickTimes(ts: seq<Timer>, s: Settings)
    requires |ts| == 2
    ensures var r := TimersAfter(Advance(ts, TickMs), s);
      |r| == 2 && forall i :: 0 <= i < 2 ==> r[i].time == ts[i].time + (if ts[i].isRunning then TickMs else 0)
  {
    var a := Advance(ts, TickMs);
    var r := TimersAfter(a, s);
    assert forall i :: 0 <= i < 2 ==> r[i].time == a[i].time;
  }

  /** While the workout is active, a tick never lowers the settled calorie count. */
  lemma TickCalories(ts: seq<Timer>, s: Settings, calories: nat)
    requires Settled(ts, s, calories)
    ensures s.isWorkoutActive ==> calories <= CaloriesAfter(Advance(ts, TickMs), s, calories)
  {
    AdvanceGrowsTotals(ts, TickMs);
  }

  lemma ShapeHasBoth(ts: seq<Timer>)
    requires Shape(ts)
    ensures HasBoth(ts)
  {
    assert ts[0].id == ExerciseId && ts[1].id == RestId;
  }

  // ---------------------------------------------------------------------------
  // The component state and its handlers

  class WorkoutApp {
    var timers: seq<Timer>
    var workoutSettings: Settings
    var calories: nat
    var workoutHistory: seq<WorkoutRecord>
    /** Set by the auto-transition; cleared by the 3-second timeout callback. */
    var showRestAlert: bool

    /** The invariant every handler keeps. The round counters are never advanced by App.js. */
    ghost predicate Valid()
      reads this
    {
      && Shape(timers)
      && Exclusive(timers)
      && 1 <= workoutSettings.rounds <= 10
      && 1 <= workoutSettings.exerciseTime <= 10
      && workoutSettings.currentRound == 1
      && workoutSettings.totalCompletedRounds == 0
      && Settled(timers, workoutSettings, calories)
    }

    /** Mount: the history is what was saved, or empty when nothing was. */
    constructor (savedHistory: Option<seq<WorkoutRecord>>)
      ensures Valid()
      ensures timers == InitialTimers && workoutSettings == InitialSettings && calories == 0
      ensures workoutHistory == (if savedHistory.Some? then savedHistory.value else [])
      ensures !showRestAlert
    {
      timers := InitialTimers;
      workoutSettings := InitialSettings;
      calories := 0;
      workoutHistory := if savedHistory.Some? then savedHistory.value else [];
      showRestAlert := false;
      new;
      assert !IsRunning(timers, ExerciseId) by {
        assert forall i :: 0 <= i < 2 ==> !timers[i].isRunning;
      }
    }

    /** The two effects, in declaration order, applied to the state just committed. */
    method RunEffects()
      requires Shape(timers) && Exclusive(timers)
      modifies this
      ensures Shape(timers) && Exclusive(timers)
      ensures timers == TimersAfter(old(timers), workoutSettings)
      ensures calories == CaloriesAfter(old(timers), workoutSettings, old(calories))
      ensures showRestAlert == (old(showRestAlert) || TransitionDue(old(timers), workoutSettings))
      ensures workoutSettings == old(workoutSettings) && workoutHistory == old(workoutHistory)
      ensures Settled(timers, workoutSettings, calories)
    {
      EffectsSettle(timers, workoutSettings, calories);
      if workoutSettings.isWorkoutActive {
        calories := WorkoutCalories(timers);
      }
      if TransitionDue(timers, workoutSettings) {
        showRestAlert := true;
        timers := RestTransition(timers);
      }
    }

    /** `handleTimeUpdate(timerId, newTime)`, followed by the effects. */
    method HandleTimeUpdate(timerId: int, newTime: nat)
      requires Valid()
      modifies this
      ensures Valid()
      ensures var updated := WithTime(old(timers), timerId, newTime);
        && timers == TimersAfter(updated, workoutSettings)
        && calories == CaloriesAfter(updated, workoutSettings, old(calories))
        && showRestAlert == (old(showRestAlert) || TransitionDue(updated, workoutSettings))
      ensures workoutSettings == old(workoutSettings) && workoutHistory == old(workoutHistory)
    {
      timers := WithTime(timers, timerId, newTime);
      assert IsRunning(timers, ExerciseId) ==> IsRunning(old(timers), ExerciseId);
      RunEffects();
    }

    /** One 20 ms tick of the stopwatch interval: every running timer advances, then the effects. */
    method Tick()
      requires Valid()
      modifies this
      ensures Valid()
      ensures var advanced := Advance(old(timers), TickMs);
        && timers == TimersAfter(advanced, workoutSettings)
        && calories == CaloriesAfter(advanced, workoutSettings, old(calories))
        && showRestAlert == (old(showRestAlert) || TransitionDue(advanced, workoutSettings))
      ensures workoutSettings == old(workoutSettings) && workoutHistory == old(workoutHistory)
      ensures forall i :: 0 <= i < 2 ==>
        timers[i].time == old(timers[i].time) + (if old(timers[i].isRunning) then TickMs else 0)
      ensures calories >= old(calories) || !workoutSettings.isWorkoutActive
    {
      TickPreservesShape(timers);
      TickTimes(timers, workoutSettings);
      TickCalories(timers, workoutSettings, calories);
      timers := Advance(timers, TickMs);
      RunEffects();
    }

    /** `toggleExerciseTimer`, followed by the effects. */
    method ToggleExerciseTimer()
      requires Valid()
      modifies this
      ensures Valid()
      ensures workoutSettings == ToggleExerciseSettings(old(timers), old(workoutSettings))
      ensures var toggled := ToggleExerciseTimers(old(timers));
        && timers == TimersAfter(toggled, workoutSettings)
        && calories == CaloriesAfter(toggled, workoutSettings, old(calories))
        && showRestAlert == (old(showRestAlert) || TransitionDue(toggled, workoutSettings))
      ensures workoutHistory == old(workoutHistory)
    {
      ShapeHasBoth(timers);
      var pre := timers;
      timers := ToggleExerciseTimers(pre);
      workoutSettings := ToggleExerciseSettings(pre, workoutSettings);
      RunEffects();
    }

    /** `toggleRestTimer`, followed by the effects. */
    method ToggleRestTimer()
      requires Valid()
      modifies this
      ensures Valid()
      ensures workoutSettings == ToggleRestSettings(old(timers), old(workoutSettings))
      ensures var toggled := ToggleRestTimers(old(timers));
        && timers == TimersAfter(toggled, workoutSettings)
        && calories == CaloriesAfter(toggled, workoutSettings, old(calories))
        && showRestAlert == (old(showRestAlert) || TransitionDue(toggled, workoutSettings))
      ensures workoutHistory == old(workoutHistory)
    {
      ShapeHasBoth(timers);
      var pre := timers;
      timers := ToggleRestTimers(pre);
      workoutSettings := ToggleRestSettings(pre, workoutSettings);
      RunEffects();
    }

    /** `resetExerciseTimer`: exercise back to 0 ms and stopped; rest untouched. */
    method ResetExerciseTimer()
      requires Valid()
      modifies this
      ensures Valid()
      ensures timers == Reset(old(timers), ExerciseId)
      ensures timers[0] == old(timers[0]).(time := 0, isRunning := false) && timers[1] == old(timers[1])
      ensures calories == CaloriesAfter(timers, workoutSettings, old(calories))
      ensures workoutSettings == old(workoutSettings) && workoutHistory == old(workoutHistory)
      ensures showRestAlert == old(showRestAlert)
    {
      timers := Reset(timers, ExerciseId);
      RunEffects();
    }

    /** `resetRestTimer`: rest back to 0 ms and stopped; exercise untouched. */
    method ResetRestTimer()
      requires Valid()
      modifies this
      ensures Valid()
      ensures timers == Reset(old(timers), RestId)
      ensures timers[1] == old(timers[1]).(time := 0, isRunning := false) && timers[0] == old(timers[0])
      ensures calories == CaloriesAfter(timers, workoutSettings, old(calories))
      ensures workoutSettings == old(workoutSettings) && workoutHistory == old(workoutHistory)
      ensures showRestAlert == old(showRestAlert)
    {
      ghost var before := timers;
      timers := Reset(timers, RestId);
      assert IsRunning(timers, ExerciseId) ==> IsRunning(before, ExerciseId);
      RunEffects();
    }

    /**
      `stopWorkout`: every timer stops, the workout is inactive and paused, and one
      record built from the PRE-stop timers, calories and completed rounds is
      prepended. `Date.now()` and the two locale strings are parameters.
     */
    method StopWorkout(recordId: int, date: string, time: string)
      requires Valid()
      modifies this
      ensures Valid()
      ensures workoutSettings == old(workoutSettings).(isWorkoutActive := false, isPaused := true)
      ensures timers == StopAll(old(timers)) && !AnyRunning(timers)
      ensures |workoutHistory| == |old(workoutHistory)| + 1
      ensures workoutHistory == [WorkoutRecord(recordId, date, time,
        old(workoutSettings.totalCompletedRounds), old(calories), TotalTime(old(timers)), old(timers))]
        + old(workoutHistory)
      ensures calories == old(calories) && showRestAlert == old(showRestAlert)
    {
      var record := WorkoutRecord(recordId, date, time,
        workoutSettings.totalCompletedRounds, calories, TotalTime(timers), timers);
      workoutSettings := workoutSettings.(isWorkoutActive := false, isPaused := true);
      timers := StopAll(timers);
      workoutHistory := [record] + workoutHistory;
      RunEffects();
    }

    /** `deleteWorkout(id)`: every record with that id goes, the rest keep their order. */
    method DeleteWorkout(id: int)
      requires Valid()
      modifies this
      ensures Valid()
      ensures workoutHistory == DeleteById(old(workoutHistory), id)
      ensures timers == old(timers) && workoutSettings == old(workoutSettings)
      ensures calories == old(calories) && showRestAlert == old(showRestAlert)
    {
      workoutHistory := DeleteById(workoutHistory, id);
    }

    /** The clear-history button. */
    method ClearHistory()
      requires Valid()
      modifies this
      ensures Valid()
      ensures workoutHistory == []
      ensures timers == old(timers) && workoutSettings == old(workoutSettings)
      ensures calories == old(calories) && showRestAlert == old(showRestAlert)
    {
      workoutHistory := [];
    }

    /** The rounds slider (1..10). `currentRound` is not clamped. */
    method SetRounds(value: nat)
      requires Valid()
      requires 1 <= value <= 10
      modifies this
      ensures Valid()
      ensures workoutSettings == old(workoutSettings).(rounds := value)
      ensures timers == old(timers) && calories == old(calories)
      ensures workoutHistory == old(workoutHistory) && showRestAlert == old(showRestAlert)
    {
      workoutSettings := workoutSettings.(rounds := value);
      RunEffects();
    }

    /** The exercise-minutes slider (1..10); a shorter limit can trigger the auto-transition at once. */
    method SetExerciseTime(value: nat)
      requires Valid()
      requires 1 <= value <= 10
      modifies this
      ensures Valid()
      ensures workoutSettings == old(workoutSettings).(exerciseTime := value)
      ensures timers == TimersAfter(old(timers), workoutSettings) && calories == old(calories)
      ensures showRestAlert == (old(showRestAlert) || TransitionDue(old(timers), workoutSettings))
      ensures workoutHistory == old(workoutHistory)
    {
      workoutSettings := workoutSettings.(exerciseTime := value);
      RunEffects();
    }

    /** The `setTimeout` callback that hides the rest alert. */
    method HideRestAlert()
      requires Valid()
      modifies this
      ensures Valid()
      ensures !showRestAlert
      ensures timers == old(timers) && workoutSettings == old(workoutSettings)
      ensures calories == old(calories) && workoutHistory == old(workoutHistory)
    {
      showRestAlert := false;
    }
  }
}
