# Fitness tracker: record store, statistics and dashboard aggregation

This project models the data side of a small fitness-tracking web application. The
application has two parts:

- an Express server that keeps an exercise catalog and a workout log in two JSON files,
  answers the CRUD routes on them and reports statistics (`server/server.js`);
- a browser dashboard that holds the workout list and computes its own figures from it:
  weekly chart series, the current streak, this week's workouts, the calorie total and
  the five most recent workouts (`public/js/app.js`).

The Dafny modules follow that split:

| module | file | what it holds |
|---|---|---|
| `Wrappers` | `wrappers.dfy` | `Option`, used for JavaScript's absent or falsy fields |
| `Calendar` | `calendar.dfy` | proleptic Gregorian dates, day numbers since 1970-01-01, `getDay` |
| `Text` | `text.dfy` | number rendering, `padStart`, the lexicographic string order and the default string sort |
| `Seqs` | `seqs.dfy` | `indexOf`, first-occurrence dedup, max/min/sum, a stable sort by key, `filter` |
| `Records` | `records.dfy` | the exercise, entry and workout records |
| `RecordStore` | `store.dfy` | the request validation of the routes and `class Store`, whose methods update the two collections in place |
| `Statistics` | `stats.dfy` | the `/api/stats` figures; the exercise tally is a loop, as in the source |
| `Weeks` | `weeks.dfy` | `getWeekKey`: week numbers, `YYYY-W##` keys, chart labels, key order |
| `Dashboard` | `dashboard.dfy` | the dashboard's aggregation and `class Tracker`, which holds `this.workouts` |

Design choices:

- **Dates.** A date is a year and a 0-based day of the year. Date arithmetic uses day
  numbers: days since 1970-01-01, the epoch of `Date`.
- **Parameters.** The clock is a parameter: `now` is the timestamp the server stamps, and
  `today` is the client's current day number.
- **JavaScript falsiness.** A request field that JavaScript treats as false or absent is
  `None`. For strings, `Truthy` also rejects `""`.
- **`calories`.** A workout's `calories` is an optional extra field. The server never
  writes it, but its spread on update keeps it; the dashboard reads it as `w.calories || 0`.
- **Averages.** The server's average is returned in hundredths: `Math.round(x * 100) / 100`
  becomes the rounded quotient of `100 * count` by the number of weeks.
- **The model follows the code.**
  - The empty-chart placeholder label is `"No data"`.
  - The week number is `ceil((dayOfYear + jan1Weekday + 1) / 7)`, not an ISO 8601 week.
  - The streak loop is modelled as written, and the dashboard's figures report that
    count. A corrected loop is modelled beside it, and the figures also carry its count;
    see "## Findings".

## Model

| member | source | states |
|---|---|---|
| `Calendar.Weekday` | public/js/app.js:333 | `getDay`: in 0..6, and congruent with the day number as 1970-01-01 being a Thursday fixes it |
| `Calendar.Jan1Weekday` | public/js/app.js:331-333 | `startOfYear.getDay()` is in 0..6; `Calendar.Jan1WeekdayNextYear` and `Calendar.Jan1st2024` pin its values |
| `Calendar.Jan1WeekdayNextYear` | public/js/app.js:331-333 | January 1st of the next year falls one weekday later after a common year and two after a leap year |
| `Calendar.YearLength` | public/js/app.js:331-332 | January 1st of the next year is exactly the year's length (365 or 366 days) later |
| `Calendar.NewYear` | public/js/app.js:331-332 | the day after December 31st is January 1st of the next year |
| `Calendar.DayNumberOrder` | public/js/app.js:173 | on valid dates, day numbers follow calendar order, also across years, so subtracting dates orders them |
| `Calendar.Jan1st2024` | public/js/app.js:331-333 | January 1st, 2024 is day 19723 and a Monday |
| `Text.NatToString` | public/js/app.js:334 | `week.toString()` is a non-empty string of decimal digits |
| `Text.ParseNatToString` | public/js/app.js:334 | reading the decimal rendering back gives the number |
| `Text.FourDigits` | public/js/app.js:330-334 | years 1000..9999 render in exactly four digits |
| `Text.PadStart` | public/js/app.js:334 | `padStart`: the length is the larger of the width and the string's length, the string is the suffix, and the fill character is everything before it |
| `Text.PadTwo` | public/js/app.js:334 | a week below 100, padded to two, is its tens digit then its units digit |
| `Text.LessIrreflexive` | public/js/app.js:321 | no key sorts before itself |
| `Text.LessTransitive` | public/js/app.js:321 | the string order is transitive |
| `Text.LessTotal` | public/js/app.js:321 | any two different strings are ordered one way or the other |
| `Text.LessCommonPrefix` | public/js/app.js:321-334 | a shared prefix such as `2024-W` does not change how two keys compare |
| `Text.InsertAsc` | public/js/app.js:321 | inserting into an ascending list keeps it ascending and adds exactly that element |
| `Text.SortStrings` | public/js/app.js:321 | `Object.keys(weeklyData).sort()`: ascending in the lexicographic order `Less` and a permutation of its input |
| `Text.SortDistinct` | public/js/app.js:321 | sorting distinct keys gives strictly ascending distinct keys |
| `Seqs.IndexOf` | public/js/app.js:424 | `indexOf`: -1 exactly when absent, otherwise a position holding the value with no earlier one |
| `Seqs.FirstOccurrences` | public/js/app.js:424 | `filter((x, i, arr) => arr.indexOf(x) === i)` as written; `Seqs.DedupIsFirstOccurrences` proves it equal to `Seqs.Dedup` |
| `Seqs.Dedup` | public/js/app.js:424 | the duplicate filter keeps exactly the elements of the input, each once, and empties only the empty list |
| `Seqs.DedupIsFirstOccurrences` | public/js/app.js:424 | the dedup is `filter((x, i, arr) => arr.indexOf(x) === i)`: it keeps exactly the elements at their first position |
| `Seqs.FirstAt` | public/js/app.js:424 | an element is at its first position exactly when it does not occur earlier |
| `Seqs.Max` | server/server.js:97 | `Math.max(...ids)`: an element of the list, not below any other |
| `Seqs.Min` | server/server.js:235-236 | the earliest of the dates: an element of the list, not above any other |
| `Seqs.InsertByKeyDesc` | public/js/app.js:173 | inserting into a list sorted by descending key keeps it sorted and adds exactly that element |
| `Seqs.ConsSorted` | public/js/app.js:173 | an element whose key is not below the head of a sorted list can be put in front of it |
| `Seqs.KeysBounded` | public/js/app.js:173 | an insertion brings in no key above a bound that every inserted key respects |
| `Seqs.SortByKeyDesc` | public/js/app.js:173 | sorting by `b - a` on dates gives descending keys, the same length and a permutation |
| `Seqs.Filter` | public/js/app.js:413-416 | every element the filter keeps passes its test |
| `Seqs.FilterCounts` | public/js/app.js:413-416 | every element that passes stays as often as it occurs, every other one goes |
| `Seqs.FilterInOrder` | public/js/app.js:413-416 | the filter keeps the order of the list |
| `Seqs.FilterAppend` | public/js/app.js:413-416 | filtering a concatenation is concatenating the filtered parts |
| `Seqs.SortedPrefix` | public/js/app.js:172-174 | `slice(0, n)` of a sorted list is sorted, is drawn from the list, and no key after it is larger |
| `RecordStore.NextId` | server/server.js:97 | a new id is above every existing id; it is 1 for an empty collection, otherwise one more than an existing id |
| `RecordStore.NewExercise` | server/server.js:87-101 | a 400 exactly when the name is falsy; otherwise the name, `category \|\| 'other'` and `equipment \|\| 'unknown'` (the fallback exactly when the field is absent or empty), and the id `NextId` of the catalog's ids: the largest plus one, or 1 for an empty catalog; never a 404 |
| `RecordStore.NewWorkout` | server/server.js:123-138 | a 400 exactly when the date is falsy or the exercises are not an array; otherwise the given date and exercises, `notes \|\| ''`, the creation stamp, no `updatedAt`, no calories, and the id `NextId` of the log's ids: the largest plus one, or 1 for an empty log |
| `RecordStore.FindIndex` | server/server.js:169 | `findIndex`: none exactly when no record has the id, otherwise the first position holding it |
| `RecordStore.Merged` | server/server.js:176-182 | the spread-and-override record of the PUT handler; `RecordStore.Store.UpdateWorkout` states each field, and the two lemmas below its idempotence and its empty-body case |
| `RecordStore.MergedIdempotent` | server/server.js:176-182 | merging the same body into an already merged record changes nothing, so repeating a PUT at the same time stamp is a no-op |
| `RecordStore.MergedOfNothing` | server/server.js:176-182 | a body without `date`, `exercises` and `notes` keeps every field and only stamps `updatedAt` |
| `RecordStore.Store.constructor` | server/server.js:55-63 | the store starts with the collections read from the two files |
| `RecordStore.Store.ListExercises` | server/server.js:77-80 | GET answers the exercise catalog unchanged |
| `RecordStore.Store.ListWorkouts` | server/server.js:113-116 | GET answers the workout log unchanged |
| `RecordStore.Store.AddExercise` | server/server.js:87-110 | the answer is `NewExercise` of the old catalog; only a valid exercise is appended; the workouts are untouched |
| `RecordStore.Store.AddWorkout` | server/server.js:123-147 | the answer is `NewWorkout` of the old log; only a valid workout is appended; the catalog is untouched; unique ids stay unique |
| `RecordStore.Store.GetWorkout` | server/server.js:150-163 | a 404 exactly when no workout has the id, otherwise the first workout with it; never a 400 |
| `RecordStore.Store.UpdateWorkout` | server/server.js:166-189 | a 404 with the log unchanged when the id is absent; otherwise only the first match is replaced, keeping its id, `createdAt` and calories, taking a truthy date and exercises and a defined `notes`, and stamping `updatedAt`; unique ids stay unique |
| `RecordStore.Store.DeleteWorkout` | server/server.js:192-208 | a 404 with the log unchanged when the id is absent; otherwise the first match is returned and spliced out, and nothing else is lost; unique ids stay unique |
| `RecordStore.Store.Stats` | server/server.js:211-223 | the count, the number of entries, the summed volume of all entries, the average, and a most frequent exercise that is missing exactly when no entry was logged |
| `RecordStore.FindAfterInsert` | server/server.js:133-140 | after an insert, a lookup of the new id finds the new record at the end |
| `RecordStore.InsertKeepsIdsUnique` | server/server.js:133-140 | an id above all others keeps the ids unique |
| `RecordStore.FindAfterUpdate` | server/server.js:169-182 | after an update the id is found at the same position, and ids stay as unique as before |
| `RecordStore.FindAfterDelete` | server/server.js:195-201 | with unique ids, a deleted id is no longer found, so a second delete answers 404 |
| `RecordStore.DeleteKeepsIdsUnique` | server/server.js:201 | removing a record keeps the remaining ids unique |
| `RecordStore.DeletedLargestIdIsReused` | server/server.js:133 | after the record holding the largest id is deleted, the next insert hands that id out again whenever the id just below it is still in the log |
| `RecordStore.IdTwoIsReused` | server/server.js:195-201 | for a log with ids 1 and 2, DELETE of id 2 followed by a POST gives the new workout id 2 |
| `Statistics.TotalExercises` | server/server.js:217 | the `reduce` over exercise-list lengths; `Statistics.TotalExercisesCountsEntries` proves it counts every entry once |
| `Statistics.TotalWeight` | server/server.js:218-220 | the nested `reduce` of `sets * reps * weight`; `Statistics.TotalWeightIsVolumeOfAllEntries` proves it is the volume of all entries |
| `Statistics.TotalExercisesCountsEntries` | server/server.js:217 | `totalExercises` counts every logged entry exactly once |
| `Statistics.VolumeAppend` | server/server.js:218-220 | the volume of two lists of entries is the sum of their volumes |
| `Statistics.TotalWeightIsVolumeOfAllEntries` | server/server.js:218-220 | the nested reduction equals the volume of all entries taken together |
| `Statistics.DaySpan` | server/server.js:235-238 | the span is the largest difference between two of the dates: no two differ by more, and two differ by exactly that much |
| `Statistics.WeeksSpanned` | server/server.js:238 | `Math.ceil(span / 7) \|\| 1`: at least 1, exactly 1 for a zero span, otherwise the smallest number of weeks covering the span |
| `Statistics.AverageWorkoutsPerWeek` | server/server.js:232-241 | 0 for no workouts; otherwise the count per spanned week in hundredths, rounded half up |
| `Statistics.RoundHalfUp` | server/server.js:240 | `Math.round(n / d)`: the nearest integer, with halves rounded up |
| `Statistics.TwoWorkoutsOneWeekApart` | server/server.js:232-241 | two workouts exactly one week apart average 2.00 per week |
| `Statistics.NamesAppend` | server/server.js:246-250 | the names of two lists of entries are the two lists of names joined |
| `Statistics.IndexOfDistinct` | server/server.js:252-253 | in a list without repeats, each element's first position is its own |
| `Statistics.TallyStep` | server/server.js:248 | one `exerciseCount[name] = (exerciseCount[name] \|\| 0) + 1` keeps the dictionary equal to the tally of the names seen, with its keys in first-seen order |
| `Statistics.Count` | server/server.js:248 | one increment of `exerciseCount`; `Statistics.TallyStep` proves it keeps the dictionary equal to the tally |
| `Statistics.NamesPrefix` | server/server.js:247 | one more entry adds its name to the visited names |
| `Statistics.TallyEntries` | server/server.js:247-249 | the inner loop tallies each entry's name once, on top of the tally it is given |
| `Statistics.Tally` | server/server.js:244-250 | the outer loop leaves each name's count at its number of occurrences, with keys in first-insertion order |
| `Statistics.FirstMax` | server/server.js:252-253 | the head of the stable sort by descending count: no key counts more, and every earlier key counts less |
| `Statistics.FirstMaxIsMostFrequent` | server/server.js:252-255 | that head, with its count, is the most frequent exercise |
| `Statistics.SquatsMostFrequent` | server/server.js:243-256 | for Squats, Squats, Push-ups the answer is Squats with 2, not Push-ups |
| `Statistics.MostFrequentExercise` | server/server.js:243-256 | null exactly when no entry was logged; otherwise a logged name with its count, no name counted higher, and every name first logged before it counted lower |
| `Weeks.WeekNumber` | public/js/app.js:333 | `Math.ceil((days + jan1Weekday + 1) / 7)` as bounds: the week is the smallest whose seven days reach that position |
| `Weeks.WeekOf` | public/js/app.js:330-333 | the week of a date within its own year; `Weeks.WeekOfRange` bounds it to 1..54 and `Weeks.WeekOfMonotone` shows later days never get earlier weeks |
| `Weeks.WeekOfRange` | public/js/app.js:329-335 | weeks of valid dates are numbered 1 to 54 |
| `Weeks.WeekOfMonotone` | public/js/app.js:329-335 | later in the same year never means an earlier week |
| `Weeks.KeyFor` | public/js/app.js:334 | the template string `${year}-W${padded week}`; `Weeks.KeyForFormat`, `Weeks.KeyOrderWithinYear` and the label lemmas state its format and order |
| `Weeks.WeekKey` | public/js/app.js:329-335 | `getWeekKey`; `Weeks.WeekKeyFormat`, `Weeks.WeekKeyOrderWithinYear` and `Weeks.JanuaryWeeks2024` state its format, order and sample keys |
| `Weeks.KeyForFormat` | public/js/app.js:334 | a key is the year, `-W` and two digits that read back as the week |
| `Weeks.ParseTwoDigits` | public/js/app.js:334 | two digit characters read back as their two-digit number |
| `Weeks.WeekKeyFormat` | public/js/app.js:329-335 | a valid date's key ends in its two-digit week, which reads back as the week |
| `Weeks.Label` | public/js/app.js:323 | `week.replace(/^\d{4}-W/, 'Week ')`; `Weeks.LabelOfKey`, `Weeks.LabelKeepsShortYears`, `Weeks.LabelKeepsLongYears` and `Weeks.LabelKeepsNegativeYears` state its result for every year |
| `Weeks.LabelOfKey` | public/js/app.js:323 | for four-digit years the regex replace turns a key into `Week ` and the two-digit week |
| `Weeks.LabelKeepsShortYears` | public/js/app.js:323 | keys of years below 1000 do not match `^\d{4}-W` and are kept whole |
| `Weeks.NoDigitNoPrefix` | public/js/app.js:323 | a non-digit among the first four characters rules the prefix out |
| `Weeks.LabelKeepsLongYears` | public/js/app.js:323 | keys of years with more than four digits do not match either and are kept whole |
| `Weeks.LabelKeepsNegativeYears` | public/js/app.js:323 | a key of a negative year starts with `-`, so it does not match `^\d{4}-W` and is its own label |
| `Weeks.ShortNumbers` | public/js/app.js:330-334 | numbers below 1000 render in at most three digits |
| `Weeks.LongNumbers` | public/js/app.js:330-334 | numbers from 10000 on render in at least five digits |
| `Weeks.TwoDigitLess` | public/js/app.js:321-334 | padded two-digit weeks compare as strings as the numbers do |
| `Weeks.KeyOrderWithinYear` | public/js/app.js:321-334 | within a year, the string order of keys is the order of weeks, both ways |
| `Weeks.WeekKeyOrderWithinYear` | public/js/app.js:321-335 | dates of one year sort by their keys in week order, both ways |
| `Weeks.WeekSamples2024` | public/js/app.js:329-335 | 2024-01-01 and 2024-01-03 fall in week 1 and 2024-01-10 in week 2 |
| `Weeks.JanuaryWeeks2024` | public/js/app.js:329-335 | 2024-01-01 and 2024-01-03 share a key; 2024-01-10's key is different and sorts later |
| `Dashboard.TotalOfOne` | public/js/app.js:317 | counting one per workout gives the number of workouts |
| `Dashboard.TotalCalories` | public/js/app.js:155 | `reduce((sum, w) => sum + (w.calories \|\| 0), 0)`; `Dashboard.TotalCaloriesSnoc` and `Dashboard.ChartSums` state what it adds up |
| `Dashboard.TotalCaloriesSnoc` | public/js/app.js:155 | one more workout adds its calories to the total, or nothing when it has none |
| `Dashboard.KeysSnoc` | public/js/app.js:312-313 | one more workout adds its key at the end |
| `Dashboard.GroupTotalSnoc` | public/js/app.js:317-318 | one more workout adds its value to its own group's sum only |
| `Dashboard.GroupCountIsMultiplicity` | public/js/app.js:317 | a week's workout count is the number of workouts with that key |
| `Dashboard.GroupTotals` | public/js/app.js:324-325 | one sum per listed week |
| `Dashboard.GroupTotalsAt` | public/js/app.js:324-325 | the sum at each position is that week's sum |
| `Dashboard.GroupTotalsOfNothing` | public/js/app.js:310 | with no workouts every week's sum is 0 |
| `Dashboard.GroupTotalsSnoc` | public/js/app.js:312-319 | one more workout adds its value to the total of distinct weeks exactly when its week is listed |
| `Dashboard.GroupTotalsSum` | public/js/app.js:317-325 | sums over distinct weeks that cover every workout add up to the overall sum |
| `Dashboard.SortedKeysFacts` | public/js/app.js:321 | the sorted weeks are exactly the workouts' week keys, each once, strictly ascending, and empty only for no workouts |
| `Dashboard.SortedKeys` | public/js/app.js:321 | `Object.keys(weeklyData).sort()` as the sorted distinct week keys; `Dashboard.SortedKeysFacts` states what they are |
| `Dashboard.Chart` | public/js/app.js:321-326 | the three series read from the sorted weeks, in closed form; `Dashboard.ChartSums` and `Dashboard.SeriesIsChart` state its sums and that the bucket loop computes it |
| `Dashboard.ChartSums` | public/js/app.js:321-326 | the three series have one entry per week; the counts add up to the number of workouts and the calories to the dashboard's calorie total |
| `Dashboard.BucketStep` | public/js/app.js:313-318 | one `forEach` step keeps `weeklyData` equal to the per-week sums of the workouts seen, with keys in first-seen order |
| `Dashboard.AddToBucket` | public/js/app.js:314-318 | one `forEach` step on `weeklyData`; `Dashboard.BucketStep` proves it keeps the buckets equal to the per-week sums |
| `Dashboard.GroupTotalAbsent` | public/js/app.js:314-315 | a week with no workout sums to 0, so a new bucket starts at `{ workouts: 0, calories: 0 }` |
| `Dashboard.BucketAll` | public/js/app.js:310-319 | the `forEach` leaves one bucket per week holding its workout count and calorie sum |
| `Dashboard.SeriesIsChart` | public/js/app.js:321-326 | reading the finished buckets in sorted week order gives the chart |
| `Dashboard.Series` | public/js/app.js:322-326 | the three `sortedWeeks.map(...)` columns; `Dashboard.SeriesColumns` ties the numeric columns to the buckets and `Dashboard.SeriesIsChart` proves the result is `Dashboard.Chart` |
| `Dashboard.SeriesColumns` | public/js/app.js:324-325 | buckets holding each week's sums give the two numeric columns |
| `Dashboard.StreakDays` | public/js/app.js:422-425 | the distinct workout days, latest first; `Dashboard.StreakDaysFacts` states that they are exactly the workout days, each once, strictly descending |
| `Dashboard.StreakDaysFacts` | public/js/app.js:422-425 | the streak scans the distinct workout days, strictly descending, as many as there are distinct days |
| `Dashboard.StreakDaysDistinct` | public/js/app.js:424-425 | the sorted dedup has no repeats and strictly descends |
| `Dashboard.ScanAsWritten` | public/js/app.js:427-445 | the loop as written counts the dates while each gap from the previous date is the streak or the streak plus one, and stops at the first that is neither |
| `Dashboard.ScanConsecutive` | public/js/app.js:427-445 | the corrected loop counts dates while the first is today or yesterday and each later one is the day before, and stops at the first that is not |
| `Dashboard.AsWrittenStreakUnique` | public/js/app.js:430-445 | the loop's test determines a single count |
| `Dashboard.StreakUnique` | public/js/app.js:430-445 | the corrected test determines a single count |
| `Dashboard.StreakIsRun` | public/js/app.js:434-442 | the corrected streak is a run of consecutive days whose latest is today or yesterday; on distinct descending days, the day before the run has no workout; with no run (0), the latest day is neither today nor yesterday |
| `Dashboard.RunStep` | public/js/app.js:434-442 | each counted date is one day before the one counted before it |
| `Dashboard.AsWrittenStreakStopsEarly` | public/js/app.js:434-442 | for days today, yesterday and the day before, the loop as written counts 2 and the intended count is 3 |
| `Dashboard.DedupOfDistinct` | public/js/app.js:424 | the duplicate filter leaves a list without repeats unchanged |
| `Dashboard.SortOfDescending` | public/js/app.js:425 | sorting an already strictly descending list leaves it unchanged |
| `Dashboard.StreakDaysOfDescending` | public/js/app.js:422-425 | days already distinct and descending reach the loop unchanged |
| `Dashboard.ThreeDayStreak` | public/js/app.js:419-446 | three workouts today, yesterday and the day before: the source's streak is 2 and the intended one is 3 |
| `Dashboard.WeekStart` | public/js/app.js:409-411 | the start of this week is a Sunday in the last seven days, today included |
| `Dashboard.ThisWeekWorkouts` | public/js/app.js:408-417 | every workout returned is dated on or after this week's Sunday |
| `Dashboard.ThisWeekCounts` | public/js/app.js:413-416 | each workout of this week is kept as often as it is listed, and every other one is dropped |
| `Dashboard.ThisWeekInOrder` | public/js/app.js:413-416 | this week's workouts keep the list order |
| `Dashboard.ThisWeekAppend` | public/js/app.js:413-416 | selecting this week's workouts of two lists joined is joining their selections |
| `Dashboard.RecentCount` | public/js/app.js:174 | `slice(0, 5)` takes five, or all of a shorter list |
| `Dashboard.RecentAreLatest` | public/js/app.js:172-174 | the recent workouts are at most five, sorted latest first, drawn from the list, and none left out is later |
| `Dashboard.FormIsAccepted` | public/js/app.js:109-121 | every body the form builds passes the server's validation; the stored workout has the form's date (today for an empty field), `notes \|\| ''`, no exercises, and adds nothing to the calorie total |
| `Dashboard.Tracker.constructor` | public/js/app.js:52-58 | the dashboard starts with the list the server answered |
| `Dashboard.Tracker.SubmitWorkout` | public/js/app.js:120-121 | the saved workout is appended to the list |
| `Dashboard.Tracker.AggregateProgressData` | public/js/app.js:301-327 | the `["No data"], [0], [0]` placeholder for no workouts; otherwise the chart of the weekly buckets, with one entry per week, counts that add up to the number of workouts and calories that add up to the calorie total |
| `Dashboard.Tracker.CalculateStreakAsWritten` | public/js/app.js:419-446 | 0 for no workouts; otherwise the count the loop as written produces on the distinct days, latest first; never more than the number of distinct days |
| `Dashboard.Tracker.CalculateStreak` | public/js/app.js:419-446 | 0 for no workouts; otherwise the corrected streak of consecutive days on the distinct days, latest first; never more than the number of distinct days |
| `Dashboard.Tracker.RenderRecentWorkouts` | public/js/app.js:163-191 | a non-empty list is sorted in place, latest first, as a permutation; an empty one is left alone; the first five (or fewer) are returned |
| `Dashboard.Tracker.UpdateDashboardStats` | public/js/app.js:141-161 | the workout count, this week's count, the calorie total, the streak the source displays (its loop as written) and, beside it, the corrected streak |

## Left out

- Persistence and HTTP are not modelled. This covers reading and writing the two JSON
  files, seeding the default catalog, routing, status codes beyond
  404/400/ok, and the 500 answers on file errors. The collections are the state of `Store`.
- Only the validation and merge in the route handlers are modelled; their request parsing
  is not. `parseInt(req.params.id)` is modelled as an already-parsed integer id, so a
  non-numeric id, which never matches, is not.
- The client's `apiCall`/`fetch` is not modelled. Neither is the case where the server
  answers `{ error }` and the client appends that object as a workout.
- Exercise entries and dates are taken as well formed. The model does not parse date
  strings, has no time zones or daylight saving, and does not model `toDateString` or
  `toLocaleDateString`. A date is its calendar day, and `today` is the client's current
  day.
- `Statistics.AverageWorkoutsPerWeek`: the source sorts `Date` objects with the default
  sort, which compares their string forms. The model takes the earliest and the latest
  day numbers instead. Those agree only when the string order is the date order.
- `Statistics.MostFrequentExercise`: `Object.entries` is taken to list keys in insertion
  order. JavaScript lists integer-like keys such as `"10"` first.
- `RecordStore.Merged`: `exercises || old` is modelled with `None` for a falsy value. A
  truthy non-array value, which the server would store, is not modelled. A `null`
  `notes` on update is not modelled either: it counts as defined and would be stored.
- Numbers are unbounded integers and floating point is not modelled. The average is in
  hundredths, `toLocaleString` formatting is left out, and `sets * reps * weight` never
  loses precision. A `parseInt` that fails is modelled as `None`, which the form turns
  into 0.
- `Statistics.AverageWorkoutsPerWeek`: the source computes `Math.round((n / w) * 100) / 100`
  in binary floating point, and the model rounds the exact quotient half up. The two can
  differ. For example, 23 workouts over 40 weeks give 0.57 in the source, because
  `0.575 * 100` is just below 57.5, while the model gives 58 hundredths.
- `RecordStore.Store.AddExercise`, `RecordStore.Store.AddWorkout`,
  `RecordStore.Store.UpdateWorkout` and `RecordStore.Store.DeleteWorkout` are each modelled
  as one atomic step. In the source each handler awaits the file read, changes the array
  and awaits the file write (server/server.js:94-104, 131-141, 168-184, 195-203), and Node
  can run another request at each `await`. Two concurrent POSTs can then read the same
  log, receive the same id, and the later write drops the other record. The ids stay
  unique only when requests run one at a time.
- `RecordStore.NextId`: an id is the largest existing id plus one, not a high-water mark.
  Deleting the record with the largest id frees that id for the next insert, so ids are
  not kept distinct from those of deleted records. `RecordStore.DeletedLargestIdIsReused`
  and `RecordStore.IdTwoIsReused` state this. The model promises only uniqueness among
  the records currently stored.
- `renderAllWorkouts`, `updateProgressCharts`, the chart widget, notifications,
  navigation, the goal form, `formatDate` and the other DOM code are not modelled.
- `Dashboard.Tracker.CalculateStreak`: like the source, it does not handle a workout dated
  after today. Such a date fails the first step and gives a streak of 0.
- `Seqs.SortByKeyDesc`: the sort is stable, like `Array.prototype.sort`, but no contract
  states stability.
- The form's `name`, `duration` and `calories` are sent, but the server stores none of
  them; `Dashboard.FormIsAccepted` states that the stored workout has no calories.
- `Weeks.WeekOf`: `new Date(year, 0, 1)` reads the years 0 to 99 as 1900 to 1999, so for
  dates in those years the source's `getWeekKey` counts days from another year's January
  1st. The model always uses the date's own year.
- `Statistics.MostFrequentExercise`: `exerciseCount` is a plain object. A name equal to
  `__proto__` is never counted, and a name such as `constructor` or `toString` reads an
  inherited function through `|| 0`, so its count becomes a string. The model counts
  every name as an ordinary key.
- `Dashboard.Tracker.RenderRecentWorkouts`: when the page has no recent-workouts container,
  the source returns before sorting `this.workouts`. The model always has the container,
  so it sorts a non-empty list.

## Findings

| source | as written | input that shows it | evidently intended | confidence | as-written member | corrected member |
|---|---|---|---|---|---|---|
| public/js/app.js:434-442 | `daysDiff` is measured from the previously counted date, but it is compared with the running `streak`, so from the third date on a gap of one day no longer matches | workouts today, yesterday and the day before: the loop counts 2 | a streak of consecutive days ending today or yesterday (3 here): the first gap 0 or 1, every later gap exactly 1 | not executed | `Dashboard.Tracker.CalculateStreakAsWritten`, `Dashboard.ThreeDayStreak` | `Dashboard.Tracker.CalculateStreak`, `Dashboard.StreakIsRun` |
