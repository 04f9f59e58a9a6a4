/** The records the stores keep and the views read (src/types/exercise.ts, src/types/workout.ts).
    Timestamps are milliseconds since the epoch; optional properties are `Option`s. */
module Types {

  datatype Option<+T> = None | Some(value: T)

  /** One logged exercise. */
  datatype Exercise = Exercise(
    id: string,
    name: string,
    count: int,
    timestamp: int,
    category: Option<string>,
    personName: Option<string>)

  /** The argument of `addExercise`: an exercise without its id (`Omit<Exercise, 'id'>`). */
  datatype ExerciseInput = ExerciseInput(
    name: string,
    count: int,
    timestamp: int,
    category: Option<string>,
    personName: Option<string>)

  /** A `Partial<Exercise>`. `None` means the property is absent from the object; for the optional
      properties `Some(None)` means it is present with the value `undefined`. */
  datatype ExercisePatch = ExercisePatch(
    id: Option<string>,
    name: Option<string>,
    count: Option<int>,
    timestamp: Option<int>,
    category: Option<Option<string>>,
    personName: Option<Option<string>>)

  datatype MostFrequent = MostFrequent(name: string, count: int)

  datatype ExerciseStats = ExerciseStats(
    totalExercises: int,
    totalCount: int,
    averagePerDay: real,
    mostFrequent: Option<MostFrequent>)

  datatype WorkoutExercise = WorkoutExercise(
    name: string,
    sets: Option<int>,
    reps: Option<string>,
    duration: Option<string>)

  datatype WorkoutActivity = WorkoutActivity(name: string, duration: string)

  datatype WorkoutDay = WorkoutDay(
    title: string,
    description: string,
    exercises: seq<WorkoutExercise>,
    activities: Option<seq<WorkoutActivity>>)

  /** Completion record of one calendar day; `date` is the day's index (see module Time). */
  datatype ProgressEntry = ProgressEntry(date: int, dayType: int, completedExercises: seq<string>)

  /** The sort key of the newest-first views, `new Date(e.timestamp).getTime()`. */
  function Timestamp(e: Exercise): int
  {
    e.timestamp
  }

  /** `exs.reduce((sum, e) => sum + e.count, 0)`. */
  function SumCounts(exs: seq<Exercise>): int
  {
    if exs == [] then 0 else SumCounts(exs[..|exs| - 1]) + exs[|exs| - 1].count
  }

  lemma {:induction false} SumCountsAppend(a: seq<Exercise>, b: seq<Exercise>)
    ensures SumCounts(a + b) == SumCounts(a) + SumCounts(b)
    decreases |b|
  {
    if b != [] {
      assert (a + b)[..|a + b| - 1] == a + b[..|b| - 1];
      SumCountsAppend(a, b[..|b| - 1]);
    } else {
      assert a + b == a;
    }
  }
}
