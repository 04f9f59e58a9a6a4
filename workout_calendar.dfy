/** The two derivations the workout calendar makes for each day cell
    (src/components/workout/WorkoutCalendar.tsx): which schedule slot a date shows, and how far
    that slot's items have been completed. */
module WorkoutCalendar {
  import opened Types
  import opened Time
  import opened WorkoutPlan

  /** JavaScript's `a % 7`: the remainder takes the sign of the dividend. */
  function JsRem7(a: int): (r: int)
    ensures a >= 0 ==> 0 <= r < 7
    ensures a < 0 ==> -7 < r <= 0
    ensures (a - r) % 7 == 0
  {
    if a >= 0 then a % 7 else -((-a) % 7)
  }

  /** `((todayDay + dayDiff) % 7 + 7) % 7`: the rotation shifted by `dayDiff` days, folded into
      0..6 also when the sum is negative. */
  function DayTypeFromDiff(todayDay: int, dayDiff: int): (r: int)
    ensures 0 <= r < 7
    ensures r == (todayDay + dayDiff) % 7
  {
    JsRem7(JsRem7(todayDay + dayDiff) + 7)
  }

  /** `getWorkoutDayType(date)` with the clock reading `now`: `dayDiff` is the time between the two
      instants in whole days, rounded down (`Math.floor`). */
  function GetWorkoutDayType(date: int, now: int): (r: int)
    ensures 0 <= r < 7
  {
    DayTypeFromDiff(Weekday(now), (date - now) / MsPerDay)
  }

  /** The rotation has period 7 and advances by one slot per day, for negative offsets too. */
  lemma DayTypeRotation(todayDay: int, dayDiff: int)
    ensures DayTypeFromDiff(todayDay, dayDiff + 7) == DayTypeFromDiff(todayDay, dayDiff)
    ensures DayTypeFromDiff(todayDay, dayDiff + 1) == (DayTypeFromDiff(todayDay, dayDiff) + 1) % 7
  {
    ModSevenStep(todayDay + dayDiff);
  }

  datatype CompletionStatus = RestDay | Completed | Partial | NotStarted

  /** The branching assignment to `completionStatus` in `dayRenderer`. */
  function Status(day: WorkoutDay, completed: seq<string>): (s: CompletionStatus)
    ensures s == RestDay <==> |day.exercises| == 0 && (day.activities.None? || |day.activities.value| == 0)
  {
    if |day.exercises| == 0 && (day.activities.None? || |day.activities.value| == 0) then
      RestDay
    else
      var totalItems := TotalItems(day);
      if totalItems > 0 && |completed| > 0 then
        (if |completed| >= totalItems then Completed else Partial)
      else
        NotStarted
  }

  /** Off rest days the status compares only how many names are completed with how many items
      the day has: all of them, some of them, or none. */
  lemma StatusByCount(day: WorkoutDay, completed: seq<string>)
    requires TotalItems(day) > 0
    ensures Status(day, completed) == Completed <==> |completed| >= TotalItems(day)
    ensures Status(day, completed) == Partial <==> 0 < |completed| < TotalItems(day)
    ensures Status(day, completed) == NotStarted <==> |completed| == 0
  {
  }

  /** Which names were completed does not matter, only how many: a list of unrelated names counts
      the same as the day's own items. */
  lemma StatusIgnoresNames(day: WorkoutDay, a: seq<string>, b: seq<string>)
    requires |a| == |b|
    ensures Status(day, a) == Status(day, b)
  {
  }

  /** Every slot of the shipped plan has items, so no cell is ever shown as a rest day. */
  lemma NoRestDayInPlan(dayType: int, completed: seq<string>)
    requires 0 <= dayType < 7
    ensures Status(Schedule[dayType], completed) != RestDay
  {
    ItemsPerDay();
  }
}
