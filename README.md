# Active Life Visuals — a verified model of the fitness tracker's client logic

Active Life Visuals is a browser fitness tracker. The user logs exercises (a name, a count, a
time, an optional category), by form or by voice. The app derives the dashboard views from that
log: a seven-day activity chart, the five most recent entries, a category pie chart, the five
names with the largest totals, a searchable history, a leaderboard, and summary statistics. It
also keeps a weekly workout plan on a seven-day rotation and a record of completed workout
items per calendar day.

This project models that client-side logic in Dafny and proves what each part promises:

- `types.dfy`: the records of the log and of the plan (`Exercise`, `ExerciseStats`,
  `WorkoutDay`, `ProgressEntry`, …) and the summed count of a list of entries.
- `time.dfy`: timestamps as integer milliseconds, calendar days, midnight and the weekday.
- `js_strings.dfy`: the JavaScript string operations the code relies on. These are `trim`
  with its exact white-space set, `toLowerCase`/`toUpperCase` on ASCII, `includes` and
  `parseInt(…, 10)` (with `None` standing for `NaN`).
- `seqs.dfy`: the stable sort used for every `sort` call (stability is `Seqs.SortDescStable`), `slice(0, n)`, `filter`, and sums
  over a sequence.
- `grouping.dfy`: the "dictionary filled in a loop, then `Object.entries`" pattern. Keys come
  out in first-insertion order, and each key carries the sum of its contributions.
- `name_totals.dfy`: the per-name totals shared by the stats panel and the leaderboard, and
  their ranking.
- `exercise_context.dfy`: the exercise log store (`addExercise`, `deleteExercise`,
  `updateExercise`) as a class, and `calculateStats` as a method with its loop.
- `exercise_form.dfy`: the add-exercise form as a class, with its submit guard and reset.
- `exercise_stats.dfy`, `leaderboard.dfy`, `exercise_list.dfy`, `recent_exercises.dfy`,
  `activity_chart.dfy`: the views derived from the log.
- `speech_recognition.dfy`: the voice-command parse. A hand-written recogniser follows the
  ECMAScript backtracking matcher for the hook's regular expression.
- `workout_plan.dfy`, `workout_calendar.dfy`, `workout_context.dfy`: the weekly schedule, the
  calendar's day-type rotation and completion status, and the workout progress store (a class).

The voice hook evidently means to accept a command said without a name: the name group
`(?:.*?my name is ([a-zA-Z\s]+))?` is optional, the hook turns a missing name into `''` with
`name ? name.trim() : ''` (src/hooks/useSpeechRecognition.tsx:30, 38). As written, though, the lookahead
`(?= my name is| $)` needs a space before the end of the transcript, so `"did 5 squats"` gives no
result (`SpeechRecognition.SquatsExample`; see Findings). When the pattern does not match, the
hook has no else branch (src/hooks/useSpeechRecognition.tsx:33-40), so an unmatched transcript
produces nothing at all (`SpeechRecognition.UnrelatedSpeechIgnored`).

Calendar days are uniform 86 400 000 ms days counted from the epoch. The day of a timestamp is
`t / 86400000`, rounded down, and day 0 (1970-01-01) is a Thursday, so the weekday is
`(day + 4) % 7`. This one day function stands for `format(…, 'yyyy-MM-dd')`, `toDateString`,
`startOfDay` and `getDay`.

## Model

| member | source | states |
|---|---|---|
| `Types.SumCountsAppend` | src/context/ExerciseContext.tsx:54 | The summed count of a concatenation is the sum of the two parts' summed counts. |
| `Time.StartOfDay` | src/components/dashboard/ActivityChart.tsx:23 | Midnight of a timestamp lies at or before it, less than one day earlier, on a whole-day boundary. |
| `Time.Weekday` | src/context/WorkoutContext.tsx:56 | `getDay` is always in 0..6. |
| `Time.DayIndexBounds` | src/components/dashboard/ActivityChart.tsx:23-28 | A timestamp falls on day `d` exactly when it lies between that day's midnight and its last millisecond, inclusive. |
| `Time.WeekdayStep` | src/components/dashboard/ActivityChart.tsx:14-17 | The weekday of the next calendar day is one further, mod 7. |
| `JsStrings.TrimIsSlice` | src/components/exercise/ExerciseForm.tsx:20 | `trim` returns a contiguous slice of its input with no white space at either end, and is empty exactly when the input is all white space. |
| `JsStrings.TrimUnpadded` | src/hooks/useSpeechRecognition.tsx:36 | `trim` leaves text that neither starts nor ends with white space unchanged. |
| `JsStrings.LowerUnchanged` | src/components/history/ExerciseList.tsx:31 | `toLowerCase` leaves text without upper-case letters unchanged. |
| `JsStrings.IncludesEmpty` | src/components/history/ExerciseList.tsx:31 | Every string includes the empty string. |
| `JsStrings.DecimalRoundTrip` | src/hooks/useSpeechRecognition.tsx:37 | Reading back the decimal spelling of a natural number gives that number. |
| `JsStrings.ParseIntDecimal` | src/components/exercise/ExerciseForm.tsx:26 | `parseInt` of a decimal spelling gives its value, whatever non-digit text follows it. |
| `JsStrings.ParseIntNegative` | src/components/exercise/ExerciseForm.tsx:26 | `parseInt` of `-` and a decimal spelling gives the negated value. |
| `JsStrings.ParseIntUnpadded` | src/components/exercise/ExerciseForm.tsx:26 | `parseInt` skips leading white space. |
| `Seqs.SortDesc` | src/pages/LeaderboardPage.tsx:29 | The comparator sort by a key, largest first: the result is sorted and is a permutation of the input. |
| `Seqs.SortDescStable` | src/pages/LeaderboardPage.tsx:29 | The sort is stable: the elements with any one key come out in the order they went in, so equal totals keep their first-logged order. |
| `Seqs.SortDescInjective` | src/pages/LeaderboardPage.tsx:27-29 | Sorting keeps distinct keys distinct. |
| `Seqs.SortDescSum` | src/pages/LeaderboardPage.tsx:29 | Sorting preserves every sum over the sequence. |
| `Seqs.Take` | src/components/dashboard/RecentExercises.tsx:26 | `slice(0, n)` has `min(n, length)` elements and is a prefix of its input. |
| `Seqs.TakeKeepsLargest` | src/components/stats/ExerciseStats.tsx:33-34 | The first `n` elements of a sorted sequence are sorted, and nothing cut off has a larger key than any element kept. |
| `Seqs.TakeDropped` | src/components/stats/ExerciseStats.tsx:31-34 | An element that a slice of a sorted sequence drops has a key no larger than any kept one. |
| `Seqs.FilterCount` | src/components/history/ExerciseList.tsx:30 | `filter` keeps every occurrence of the values that pass the test and no occurrence of the others. |
| `Seqs.FilterDisjointSum` | src/components/dashboard/ActivityChart.tsx:27-29 | Filters by two disjoint tests add up, in length and in sums, to the filter by their union. |
| `Grouping.Keys` | src/components/stats/ExerciseStats.tsx:18 | `Object.entries` keys are distinct, and are exactly the keys that received a contribution. |
| `Grouping.Entries` | src/components/stats/ExerciseStats.tsx:18 | One pair per key in insertion order, each holding the sum of that key's contributions. |
| `Grouping.Tally` | src/components/stats/ExerciseStats.tsx:12-16 | The `forEach` loop that fills the dictionary yields those keys, in that order, with those totals. |
| `Grouping.TotalOfAbsentKey` | src/components/stats/ExerciseStats.tsx:15 | A key with no contributions has total 0, the `or 0` default. |
| `Grouping.TotalOfPresentKey` | src/context/ExerciseContext.tsx:59 | With positive contributions, a key that occurs has a positive total. |
| `Grouping.EntriesSum` | src/pages/LeaderboardPage.tsx:20-24 | The totals of the entries add up to the sum of all contributions. |
| `NameTotals.CountByName` | src/pages/LeaderboardPage.tsx:20-28 | The `reduce` into `acc[name]` followed by `Object.entries` gives the name pairs of the log. |
| `NameTotals.TotalIsNameTotal` | src/pages/LeaderboardPage.tsx:22 | The dictionary value under a name is the summed count of that name's entries. |
| `NameTotals.NameEntriesDistinct` | src/pages/LeaderboardPage.tsx:20-28 | Each logged name appears in exactly one pair, and no pair names an unlogged exercise. |
| `NameTotals.NameEntriesValues` | src/components/stats/ExerciseStats.tsx:27-29 | Each pair's value is its name's summed count. |
| `NameTotals.NameEntriesEmpty` | src/pages/LeaderboardPage.tsx:42 | There are no pairs exactly when the log is empty. |
| `NameTotals.NameEntriesSum` | src/pages/LeaderboardPage.tsx:20-24 | The pair values add up to the summed count of the whole log. |
| `NameTotals.RankingRows` | src/pages/LeaderboardPage.tsx:20-29 | After sorting: one row per distinct logged name, each with its summed count. |
| `NameTotals.RankingOrder` | src/pages/LeaderboardPage.tsx:29 | The ranking is non-increasing, keeps the grand total, and is empty exactly when the log is. |
| `ExerciseStatsCharts.Label` | src/components/stats/ExerciseStats.tsx:19 | The fallback key reads `Uncategorized`; any other key keeps its length and every character but the first, which is upper-cased. |
| `ExerciseStatsCharts.CategoryData` | src/components/stats/ExerciseStats.tsx:11-22 | The loop and `map` produce the category slices. |
| `ExerciseStatsCharts.CategoryBuckets` | src/components/stats/ExerciseStats.tsx:13-19 | One slice per distinct category key (missing or empty means `uncategorized`), in first-seen order. Each slice is named by its label and valued by its number of entries. |
| `ExerciseStatsCharts.CategoryValuesSum` | src/components/stats/ExerciseStats.tsx:13-16 | The slice values add up to the number of entries. |
| `ExerciseStatsCharts.CategoryEmpty` | src/components/stats/ExerciseStats.tsx:46 | The pie chart has no slices exactly when the log is empty. |
| `ExerciseStatsCharts.ExerciseData` | src/components/stats/ExerciseStats.tsx:25-35 | The `forEach`, `map`, `sort` and `slice(0, 5)` give the top five of the name ranking. |
| `ExerciseStatsCharts.TopExercisesShape` | src/components/stats/ExerciseStats.tsx:33-34 | At most five rows, non-increasing by value, none exactly when the log is empty. |
| `ExerciseStatsCharts.TopExercisesValues` | src/components/stats/ExerciseStats.tsx:27-29 | Each row is a distinct logged name with the summed count of its entries. |
| `ExerciseStatsCharts.TopExercisesDropped` | src/components/stats/ExerciseStats.tsx:31-34 | A logged name that is not shown has a total no larger than any shown row's. |
| `ExerciseStatsCharts.RankedEntry` | src/components/stats/ExerciseStats.tsx:31-33 | Every logged name has a row in the full ranking, carrying its summed count. |
| `Leaderboard.SortedExercises` | src/pages/LeaderboardPage.tsx:20-29 | The reduction and the sort give the name ranking. |
| `Leaderboard.BoardEmpty` | src/pages/LeaderboardPage.tsx:42 | "No data to display" appears exactly when nothing is logged. |
| `Leaderboard.BoardRows` | src/pages/LeaderboardPage.tsx:20-28 | The rows have distinct names; a name is shown iff it is logged, with the summed count of its entries. |
| `Leaderboard.BoardOrder` | src/pages/LeaderboardPage.tsx:56-58 | Row `i` shows rank `i + 1`, and counts never increase down the table. |
| `Leaderboard.BoardSum` | src/pages/LeaderboardPage.tsx:20-24 | The row counts add up to the summed count of the whole log. |
| `Leaderboard.LeaderHasMost` | src/pages/LeaderboardPage.tsx:29 | When anything is logged, the first row has rank 1 and a count at least any logged name's total. |
| `ExerciseHistory.HistoryContents` | src/components/history/ExerciseList.tsx:29-34 | The history holds each entry of the log as often as the log does if it passes the search and category test, and not at all otherwise. |
| `ExerciseHistory.HistorySorted` | src/components/history/ExerciseList.tsx:34 | The history is newest first. |
| `ExerciseHistory.HistoryUnfiltered` | src/components/history/ExerciseList.tsx:31-32 | With no search term and no category, the history is a permutation of the whole log. |
| `ExerciseHistory.HistoryCategory` | src/components/history/ExerciseList.tsx:32 | With a category selected, every row has exactly that category. |
| `ExerciseHistory.SearchIgnoresCase` | src/components/history/ExerciseList.tsx:31 | Lower-casing the search term changes nothing. |
| `ExerciseHistory.LowerIdempotent` | src/components/history/ExerciseList.tsx:31 | Lower-casing twice is lower-casing once. |
| `RecentActivity.RecentShape` | src/components/dashboard/RecentExercises.tsx:24-26 | `min(5, n)` rows, newest first, none exactly when the log is empty. |
| `RecentActivity.RecentFromLog` | src/components/dashboard/RecentExercises.tsx:24 | Every row is an entry of the log, with no entry shown more often than it is logged. |
| `RecentActivity.RecentAreNewest` | src/components/dashboard/RecentExercises.tsx:24-26 | Every entry left out is no newer than any shown one. |
| `ActivityChart.DayStartIs` | src/components/dashboard/ActivityChart.tsx:14-23 | Bar `i` starts at midnight of the day `6 - i` days before today. |
| `ActivityChart.ChartDays` | src/components/dashboard/ActivityChart.tsx:13-23 | Seven bars on seven consecutive days whose last is today; each starts at midnight, and the weekday names step by one. |
| `ActivityChart.WithinDay` | src/components/dashboard/ActivityChart.tsx:24-28 | The inclusive interval from midnight to 23:59:59.999 holds exactly the timestamps of that day. |
| `ActivityChart.BucketContents` | src/components/dashboard/ActivityChart.tsx:27-29 | A bar's entries are exactly the log's entries on its day, each as often as logged. |
| `ActivityChart.OutsideIgnored` | src/components/dashboard/ActivityChart.tsx:22-29 | An entry from before the week or after today is in no bar. |
| `ActivityChart.BucketSplit` | src/components/dashboard/ActivityChart.tsx:22-29 | The bars' days are disjoint, and each bar extends the days covered before it by one. |
| `ActivityChart.ChartTotals` | src/components/dashboard/ActivityChart.tsx:32 | The bars' totals add up to the number of entries in the last seven days, and so to at most the log's length. |
| `ActivityChart.ChartCounts` | src/components/dashboard/ActivityChart.tsx:31 | The bars' counts add up to the summed count of the entries in the last seven days. |
| `ExerciseContext.FrequencyOfName` | src/context/ExerciseContext.tsx:57-60 | A logged name has a positive number of entries; any other name has none. |
| `ExerciseContext.DaysNonEmpty` | src/context/ExerciseContext.tsx:74-75 | A non-empty log covers at least one day, so the average's divisor is positive. |
| `ExerciseContext.ScanNames` | src/context/ExerciseContext.tsx:63-71 | The strict `>` scan ends with the largest frequency, at the first key in order that has it. |
| `ExerciseContext.ScanFindsMostFrequent` | src/context/ExerciseContext.tsx:66-71 | What the scan leaves describes the most frequent name, with first-key-wins tie-breaking. |
| `ExerciseContext.CalculateStats` | src/context/ExerciseContext.tsx:42-86 | Entry count, summed count, the average per day (exact ratio), and `mostFrequent` set exactly when the log is non-empty and naming a most frequent name; an empty log gives `{0, 0, 0, null}`. |
| `ExerciseContext.StatsDeterministic` | src/context/ExerciseContext.tsx:42-86 | The statistics of a log are unique. |
| `ExerciseContext.AverageExample` | src/context/ExerciseContext.tsx:74-75 | Five entries over two days average 2.5 per day. |
| `ExerciseContext.WithId` | src/context/ExerciseContext.tsx:88-92 | The new entry carries the fresh id and, apart from it, exactly the given name, count, timestamp, category and person name. |
| `ExerciseContext.WithIdOfEntry` | src/context/ExerciseContext.tsx:88-92 | Every entry is the fresh-id spread of its own properties without the id, so no property is lost or invented. |
| `ExerciseContext.DeletedContents` | src/context/ExerciseContext.tsx:98 | Deleting removes every entry with the id and keeps every other entry. |
| `ExerciseContext.DeletedAbsent` | src/context/ExerciseContext.tsx:98 | Deleting an absent id changes nothing. |
| `ExerciseContext.DeletedAppend` | src/context/ExerciseContext.tsx:98 | Deleting distributes over concatenation, so the survivors keep their order. |
| `ExerciseContext.Updated` | src/context/ExerciseContext.tsx:103-106 | Updating keeps the length of the log, merges the patch into every entry with the id and leaves every other entry as it was. |
| `ExerciseContext.MergeFields` | src/context/ExerciseContext.tsx:104 | In `{ ...e, ...patch }` a property present in the patch takes the patch's value and an absent one keeps the entry's. |
| `ExerciseContext.MergeAgreeing` | src/context/ExerciseContext.tsx:104 | A patch that agrees with the entry on every property it has leaves the entry unchanged. |
| `ExerciseContext.UpdatedAppend` | src/context/ExerciseContext.tsx:103-106 | Updating distributes over concatenation, so the log keeps its order. |
| `ExerciseContext.UpdatedFixpoints` | src/context/ExerciseContext.tsx:103-106 | Updating an absent id, or with an empty patch, changes nothing; applying the same patch twice is the same as once unless the patch changes the id. |
| `ExerciseContext.ExerciseStore.constructor` | src/context/ExerciseContext.tsx:25-35 | The store starts with the saved log and its statistics. |
| `ExerciseContext.ExerciseStore.AddExercise` | src/context/ExerciseContext.tsx:88-95 | Appends exactly the new entry with its id, recomputes the statistics, and keeps ids unique when the new id is fresh. |
| `ExerciseContext.ExerciseStore.DeleteExercise` | src/context/ExerciseContext.tsx:97-100 | Replaces the log by its deletion and recomputes the statistics. |
| `ExerciseContext.ExerciseStore.UpdateExercise` | src/context/ExerciseContext.tsx:102-109 | Replaces the log by the merged one and recomputes the statistics. |
| `ExerciseForm.Form.constructor` | src/components/exercise/ExerciseForm.tsx:13-15 | The three fields start empty. |
| `ExerciseForm.Form.HandleSubmit` | src/components/exercise/ExerciseForm.tsx:17-34 | A blank name or count sends nothing and changes nothing. Otherwise it sends the name as typed, `parseInt` of the count, the clock reading and the category (or none), then clears name and count and keeps the category. |
| `ExerciseForm.AcceptsUnlessBlank` | src/components/exercise/ExerciseForm.tsx:20 | The guard passes exactly when neither the name nor the count is all white space. |
| `ExerciseForm.ClearedFormRejects` | src/components/exercise/ExerciseForm.tsx:32-33 | After a successful submit, a second submit sends nothing. |
| `ExerciseForm.NameNotTrimmed` | src/components/exercise/ExerciseForm.tsx:25 | A name with surrounding spaces passes and is sent with them. |
| `ExerciseForm.NaNCountSent` | src/components/exercise/ExerciseForm.tsx:20-26 | The handler itself lets count text starting with a letter through its guard and sends it as `NaN`. |
| `ExerciseForm.NegativeCountSent` | src/components/exercise/ExerciseForm.tsx:20-26 | The handler itself does not check the sign: count text `-n` passes its guard and is sent as −n. |
| `ExerciseForm.TrailingTextIgnored` | src/components/exercise/ExerciseForm.tsx:26 | The handler's `parseInt` stops at the first non-digit, so count text `n reps` is sent as n. |
| `ExerciseForm.CategorySent` | src/components/exercise/ExerciseForm.tsx:28 | No category becomes `undefined`; any other is sent as it is. |
| `SpeechRecognition.LazyEnd` | src/hooks/useSpeechRecognition.tsx:30 | The lazy phrase ends at the first position from which the lookahead holds, and does not end where it fails. |
| `SpeechRecognition.NameStart` | src/hooks/useSpeechRecognition.tsx:30 | The lazy `.*?` stops at the first `my name is `, without crossing a line terminator. |
| `SpeechRecognition.PhraseStart` | src/hooks/useSpeechRecognition.tsx:30 | The greedy digit run ends at a space followed by a letter or space. |
| `SpeechRecognition.DigitsFrom` | src/hooks/useSpeechRecognition.tsx:30 | The greedy `\d+` takes every digit in a row and stops at the first character that is not one. |
| `SpeechRecognition.CapturesOf` | src/hooks/useSpeechRecognition.tsx:30-37 | The first capture group of every match is a non-empty run of digits. |
| `SpeechRecognition.Search` | src/hooks/useSpeechRecognition.tsx:31 | Every match found has its groups in place. |
| `SpeechRecognition.SearchIsLeftmost` | src/hooks/useSpeechRecognition.tsx:31 | `match` returns the match at the leftmost starting position that has one. |
| `SpeechRecognition.CommandCount` | src/hooks/useSpeechRecognition.tsx:37 | `count` is `parseInt` of the captured digits, a natural number and never `NaN`. |
| `SpeechRecognition.RecognizedShape` | src/hooks/useSpeechRecognition.tsx:34-38 | The exercise and the person name are trimmed runs of letters and white space, and the count is what `parseInt` reads from the captured digits. |
| `SpeechRecognition.MatchSteps` | src/hooks/useSpeechRecognition.tsx:30 | A match is verb, digits, space and the shortest phrase the lookahead accepts. |
| `SpeechRecognition.RecognizedNeedsVerbAndDigit` | src/hooks/useSpeechRecognition.tsx:30 | A recognised transcript contains `did ` followed by a digit. |
| `SpeechRecognition.RecognizedNeedsNameOrTrailingSpace` | src/hooks/useSpeechRecognition.tsx:30 | A recognised transcript contains ` my name is` or ends in a space. |
| `SpeechRecognition.NameNeedsClause` | src/hooks/useSpeechRecognition.tsx:30 | A non-empty person name needs a `my name is ` clause after the phrase. |
| `SpeechRecognition.NoDigitNoResult` | src/hooks/useSpeechRecognition.tsx:30-33 | A transcript without a digit is never recognised. |
| `SpeechRecognition.RecognizesNamedCommand` | src/hooks/useSpeechRecognition.tsx:29-39 | `just did N word my name is name` gives exactly `{word, N, name}`. |
| `SpeechRecognition.PushupsExample` | src/hooks/useSpeechRecognition.tsx:29-39 | `just did 10 pushups my name is john` gives `{pushups, 10, john}`. |
| `SpeechRecognition.AsWrittenMissesBareCommand` | src/hooks/useSpeechRecognition.tsx:30 | As written, `did N word` with nothing after it gives no result. |
| `SpeechRecognition.IntendedRecognizesBareCommand` | src/hooks/useSpeechRecognition.tsx:30 | With the lookahead `$`, `did N word` gives `{word, N, ""}`. |
| `SpeechRecognition.SquatsExample` | src/hooks/useSpeechRecognition.tsx:30-38 | `did 5 squats` gives nothing as written and `{squats, 5, ""}` with the intended lookahead. |
| `SpeechRecognition.SpelledCountIgnored` | src/hooks/useSpeechRecognition.tsx:31-40 | `did ten pushups` gives no result, so no callback runs. |
| `SpeechRecognition.UnrelatedSpeechIgnored` | src/hooks/useSpeechRecognition.tsx:31-40 | `hello world` gives no result, so no callback runs. |
| `WorkoutPlan.ScheduleKeys` | src/data/workoutPlan.ts:4-83 | The schedule defines exactly the days 0 to 6. |
| `WorkoutPlan.RestDayShapes` | src/data/workoutPlan.ts:31-82 | Days 2, 5 and 6, and no others, have no exercises, and each of them has two activities. |
| `WorkoutPlan.ItemsPerDay` | src/data/workoutPlan.ts:4-83 | Every day has at least one item, and the item counts are 9, 5, 2, 9, 4, 2, 2. |
| `WorkoutPlan.CyclingNames` | src/data/workoutPlan.ts:20-63 | `Cycling` is an exercise on days 1 and 4, and `Light Cycling (optional)` an activity on day 2. |
| `WorkoutPlan.WeekendIdentical` | src/data/workoutPlan.ts:65-82 | The two separately written rest days 5 and 6 have identical content. |
| `WorkoutCalendar.JsRem7` | src/components/workout/WorkoutCalendar.tsx:23 | JavaScript `%` by 7 truncates: the remainder has the dividend's sign and differs from it by a multiple of 7. |
| `WorkoutCalendar.DayTypeFromDiff` | src/components/workout/WorkoutCalendar.tsx:23 | `((today + diff) % 7 + 7) % 7` is the mathematical residue in 0..6, also for negative differences. |
| `WorkoutCalendar.GetWorkoutDayType` | src/components/workout/WorkoutCalendar.tsx:17-24 | The day type of any date is in 0..6. |
| `WorkoutCalendar.DayTypeRotation` | src/components/workout/WorkoutCalendar.tsx:23 | Seven more days give the same day type, and one more day the next. |
| `WorkoutCalendar.Status` | src/components/workout/WorkoutCalendar.tsx:33-35 | The status is `rest-day` exactly when the day has no exercises and no activities. |
| `WorkoutCalendar.StatusByCount` | src/components/workout/WorkoutCalendar.tsx:36-41 | On a day with items: `completed` iff at least as many completions as items, `partial` iff fewer but some, `not-started` iff none. |
| `WorkoutCalendar.StatusIgnoresNames` | src/components/workout/WorkoutCalendar.tsx:37-39 | The status depends only on the number of completions, not on the names. |
| `WorkoutCalendar.NoRestDayInPlan` | src/components/workout/WorkoutCalendar.tsx:28-35 | With the shipped plan no day is ever shown as a rest day. |
| `WorkoutContext.FindIndex` | src/context/WorkoutContext.tsx:60 | `findIndex` gives -1 or the first index whose record has the date. |
| `WorkoutContext.CompletedOn` | src/context/WorkoutContext.tsx:35-39 | The completions of the first record with the date, or none when there is no such record. |
| `WorkoutContext.RemoveAll` | src/context/WorkoutContext.tsx:68 | `filter(name => name !== x)` drops every occurrence of `x` and keeps every other. |
| `WorkoutContext.RemoveAllAppend` | src/context/WorkoutContext.tsx:68 | The filter works name by name, so the names that stay keep their order. |
| `WorkoutContext.ToggleIsLocal` | src/context/WorkoutContext.tsx:58-98 | A toggle changes only the date's record at its index, or appends `{date, weekday, [name]}` when there is none; no date or day type of an existing record changes. |
| `WorkoutContext.ToggleExistingNames` | src/context/WorkoutContext.tsx:64-69 | On an existing record the name is removed everywhere if present, or appended once if absent. |
| `WorkoutContext.ToggleLookup` | src/context/WorkoutContext.tsx:54-100 | After a toggle the name's completion on that date is flipped; other names and other dates read as before. |
| `WorkoutContext.ToggleWellFormed` | src/context/WorkoutContext.tsx:60-62 | A toggle keeps one record per date and no duplicate names within a record. |
| `WorkoutContext.ToggleTwice` | src/context/WorkoutContext.tsx:67-97 | Two toggles restore the name's membership; a record created by the first stays, with an empty list. |
| `WorkoutContext.ToggleTwiceCreated` | src/context/WorkoutContext.tsx:87-97 | Toggling twice on a new date leaves one more record, empty. |
| `WorkoutContext.EnsuredCompletes` | src/context/WorkoutContext.tsx:47-52 | After `addExerciseToWorkout` the name is completed; it never un-completes, and a completed name leaves the state unchanged. |
| `WorkoutContext.WorkoutStore.constructor` | src/context/WorkoutContext.tsx:26-29 | The store starts with the saved records. |
| `WorkoutContext.WorkoutStore.GetCompletedExercises` | src/context/WorkoutContext.tsx:35-39 | The completions recorded for the date's day. |
| `WorkoutContext.WorkoutStore.IsExerciseCompleted` | src/context/WorkoutContext.tsx:41-44 | Exact membership of the name in that list. |
| `WorkoutContext.WorkoutStore.ToggleExerciseCompletion` | src/context/WorkoutContext.tsx:54-100 | The records become the toggled records for the date's day and weekday; well-formedness is kept. |
| `WorkoutContext.WorkoutStore.AddExerciseToWorkout` | src/context/WorkoutContext.tsx:47-52 | Toggles only if the name is not yet completed; afterwards it is completed on the date. |

## Left out

- `localStorage` reads and writes and `JSON.parse`: the stores' constructors take the saved lists as parameters, taken as they are.
- The clock (`new Date()`), `crypto.randomUUID()` and the speech-recognition browser object: the time and the fresh id are parameters, and the lifecycle (`start`, `onerror`, `onend`, the listening flag) is not modelled.
- Toast notifications, React rendering, markup, charts and the `onChange` setters: these are presentation only.
- Time zones and daylight saving time: every day is 86 400 000 ms long and starts at a multiple of that from the epoch.
- The ISO timestamp string: an entry's `timestamp` is integer milliseconds, standing for `new Date(timestamp).getTime()`.
- The date labels (`'EEE'`, `'MMM d'`, `'MMM dd, yyyy'`): a bar keeps its midnight and weekday number, not the formatted text.
- `ExerciseContext.CalculateStats`: the average is the exact ratio of entries to days; the `toFixed(1)` rounding is not modelled.
- `ExerciseForm.Form.HandleSubmit`: a `NaN` count is carried up to the submission (`count == None`); the store's `Exercise.count` is an integer, so what a `NaN` entry does in the views is not modelled.
- Number precision: JavaScript numbers are IEEE doubles, while every count, summed count and `parseInt` result here is an unbounded integer. A summed count above 2^53 would round in the app, `parseInt` of a long digit run loses precision (`did 9007199254740993 pushups` reads 9007199254740992), and a run of more than about 309 digits reads `Infinity`; the model keeps all of these exact.
- The count field is `<Input type="number" min="1" required>` (src/components/exercise/ExerciseForm.tsx:56-63). The browser's value sanitisation (the value is `""` unless the text is a valid number) and its `required`/`min` constraint validation, which blocks the submit event, are not modelled. `ExerciseForm.NaNCountSent`, `ExerciseForm.NegativeCountSent` and `ExerciseForm.TrailingTextIgnored` state what the handler does with the text it holds; in a browser such text does not reach it.
- `Grouping.Tally`: the dictionaries of the source are plain `{}` objects, so a key that is an `Object.prototype` property (`__proto__`, `toString`, `constructor`, …) reads the inherited value; the model's map has no inherited properties, and such names are not modelled.
- `NameTotals.CountByName`: an exercise named after an `Object.prototype` property is not modelled. In the app, `__proto__` yields no pair at all, and `toString` gets a string total.
- `ExerciseStatsCharts.ExerciseData`: exercise names that are `Object.prototype` properties are not modelled; in the app such a row's value is a string and the comparator gives `NaN`.
- `Leaderboard.SortedExercises`: exercise names that are `Object.prototype` properties are not modelled; in the app `__proto__` is missing from the table and `toString` shows a string count.
- `ExerciseContext.CalculateStats`: exercise names that are `Object.prototype` properties are not modelled; in the app a log of only `__proto__` entries has `mostFrequent` `null`, so the proved "`mostFrequent` is absent exactly when the log is empty" holds only for other names.
- `toLowerCase`/`toUpperCase` map only ASCII letters; Unicode case mapping is not modelled.
- `Object.entries` puts integer-like keys (such as `"10"`) before the others; the model keeps plain insertion order for every key.
- The copy in `[...exercises]` before sorting: the model works on values, so the store's list is never reordered by a view.
- React batching and stale closures: `addExerciseToWorkout` reads the state and toggles it in one step.
- `getWorkoutDayType` in src/components/workout/WorkoutDayDetails.tsx duplicates the calendar's and is not part of this model; nor are the pages and layout files, which only render.

## Findings

| source | as written | input that shows it | evidently intended | confidence | as-written member | corrected member |
|---|---|---|---|---|---|---|
| src/hooks/useSpeechRecognition.tsx:30 | the lookahead's second alternative ` $` needs a space and then the end of the transcript after the exercise phrase | `did 5 squats` gives no result | a command with no name clause ending right after the phrase (`$`) is recognised as `{squats, 5, ""}` | not executed | `SpeechRecognition.AsWrittenMissesBareCommand` | `SpeechRecognition.IntendedRecognizesBareCommand` |
