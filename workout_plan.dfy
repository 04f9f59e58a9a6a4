/** The fixed weekly plan (src/data/workoutPlan.ts): seven schedule slots keyed 0 to 6. */
module WorkoutPlan {
  import opened Types

  function Reps(name: string, sets: int, reps: string): WorkoutExercise
  {
    WorkoutExercise(name, Some(sets), Some(reps), None)
  }

  function Timed(name: string, sets: int, duration: string): WorkoutExercise
  {
    WorkoutExercise(name, Some(sets), None, Some(duration))
  }

  /** Day 6 of the week (key 5). */
  const SaturdayRest: WorkoutDay := WorkoutDay(
    "Rest Day",
    "Give your body time to recover and rebuild.",
    [],
    Some([
      WorkoutActivity("Light Stretching", "10-15 minutes"),
      WorkoutActivity("Walking (optional)", "20-30 minutes")]))

  /** Day 7 of the week (key 6), written out on its own as the plan does. */
  const SundayRest: WorkoutDay := WorkoutDay(
    "Rest Day",
    "Give your body time to recover and rebuild.",
    [],
    Some([
      WorkoutActivity("Light Stretching", "10-15 minutes"),
      WorkoutActivity("Walking (optional)", "20-30 minutes")]))

  const UpperBody: WorkoutDay := WorkoutDay(
    "Upper Body Focus",
    "Focus on strengthening chest, shoulders, arms, and core.",
    [
      Reps("Standard Push-ups", 3, "12-15 reps"),
      Reps("Wide-grip Push-ups", 3, "10-12 reps"),
      Reps("Diamond Push-ups", 2, "8-10 reps"),
      Timed("Running Man", 3, "45 seconds"),
      Reps("Burpees", 3, "10 reps"),
      Timed("Punching Bag - Straight punches", 3, "30 seconds"),
      Timed("Punching Bag - Hooks/uppercuts", 3, "30 seconds"),
      Timed("Punching Bag - Combinations", 3, "30 seconds"),
      Timed("Punching Bag - Power shots", 3, "30 seconds")],
    None)

  const LowerBody: WorkoutDay := WorkoutDay(
    "Lower Body Focus",
    "Focus on strengthening legs and lower body.",
    [
      Reps("Bodyweight Squats", 3, "15-20 reps"),
      Reps("Dumbbell Squats", 3, "12-15 reps"),
      Reps("Lunges (each leg)", 3, "10-12 reps"),
      Timed("Running Man", 3, "45 seconds"),
      Timed("Cycling", 1, "15-20 minutes")],
    None)

  const LightActivity: WorkoutDay := WorkoutDay(
    "Rest or Light Activity",
    "Active recovery day to help your muscles recover.",
    [],
    Some([
      WorkoutActivity("Light Cycling (optional)", "20-30 minutes"),
      WorkoutActivity("Stretching/Mobility Work", "15-20 minutes")]))

  const FullBody: WorkoutDay := WorkoutDay(
    "Full Body",
    "Comprehensive workout targeting all major muscle groups.",
    [
      Reps("Push-ups (variation of choice)", 3, "12-15 reps"),
      Reps("Burpees", 4, "8-10 reps"),
      Reps("Dumbbell Squats", 3, "12-15 reps"),
      Reps("Lunges (each leg)", 3, "10 reps"),
      Timed("Running Man", 4, "30 seconds"),
      Timed("Punching Bag - Jab-cross combos", 3, "30 seconds"),
      Timed("Punching Bag - Body-head combinations", 3, "30 seconds"),
      Timed("Punching Bag - Speed work", 3, "30 seconds"),
      Timed("Punching Bag - Power combinations", 3, "30 seconds")],
    None)

  const ActiveRecovery: WorkoutDay := WorkoutDay(
    "Active Recovery",
    "Light exercise to promote recovery while maintaining activity.",
    [
      Timed("Cycling", 1, "25-30 minutes"),
      Reps("Light Bodyweight Squats", 2, "15 reps"),
      Timed("Light Punching Bag - Shadow boxing", 1, "1 minute"),
      Timed("Light Punching Bag - Technical punches", 1, "1 minute")],
    None)

  const Schedule: map<int, WorkoutDay> := map[
    0 := UpperBody,
    1 := LowerBody,
    2 := LightActivity,
    3 := FullBody,
    4 := ActiveRecovery,
    5 := SaturdayRest,
    6 := SundayRest]

  /** `(day.exercises?.length || 0) + (day.activities?.length || 0)`. */
  function TotalItems(day: WorkoutDay): nat
  {
    |day.exercises| + (if day.activities.Some? then |day.activities.value| else 0)
  }

  function ExerciseNames(day: WorkoutDay): seq<string>
  {
    seq(|day.exercises|, i requires 0 <= i < |day.exercises| => day.exercises[i].name)
  }

  function ActivityNames(day: WorkoutDay): seq<string>
  {
    if day.activities.None? then []
    else seq(|day.activities.value|, i requires 0 <= i < |day.activities.value| => day.activities.value[i].name)
  }

  lemma ScheduleKeys()
    ensures forall d :: d in Schedule <==> 0 <= d < 7
  {
  }

  lemma RestDayShapes()
    ensures forall d :: d in Schedule && |Schedule[d].exercises| == 0 <==> d == 2 || d == 5 || d == 6
    ensures forall d :: d == 2 || d == 5 || d == 6 ==>
      (Schedule[d].activities.Some? && |Schedule[d].activities.value| == 2)
  {
  }

  lemma ItemsPerDay()
    ensures forall d :: d in Schedule ==> TotalItems(Schedule[d]) > 0
    ensures seq(7, d requires 0 <= d < 7 => TotalItems(Schedule[d])) == [9, 5, 2, 9, 4, 2, 2]
  {
    ScheduleKeys();
    assert TotalItems(Schedule[0]) == 9 && TotalItems(Schedule[1]) == 5 && TotalItems(Schedule[2]) == 2;
    assert TotalItems(Schedule[3]) == 9 && TotalItems(Schedule[4]) == 4;
    assert TotalItems(Schedule[5]) == 2 && TotalItems(Schedule[6]) == 2;
  }

  lemma CyclingNames()
    ensures "Cycling" in ExerciseNames(Schedule[1]) && "Cycling" in ExerciseNames(Schedule[4])
    ensures "Light Cycling (optional)" in ActivityNames(Schedule[2])
  {
    assert ExerciseNames(Schedule[1])[4] == "Cycling";
    assert ExerciseNames(Schedule[4])[0] == "Cycling";
    assert ActivityNames(Schedule[2])[0] == "Light Cycling (optional)";
  }

  lemma WeekendIdentical()
    ensures Schedule[5] == Schedule[6]
  {
  }
}
