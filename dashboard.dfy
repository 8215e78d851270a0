/**
 * The data processing of the browser dashboard: the workout list it holds, the weekly
 * chart series, the streak, this week's workouts, the calorie total, the five most
 * recent workouts and the workout the form submits. "Today" is a day number passed in.
 */
module Dashboard {
  import opened Wrappers
  import opened Calendar
  import opened Records
  import opened Seqs
  import opened Text
  import opened Weeks
  import Statistics
  import RecordStore

  function WorkoutDay(w: Workout): int {
    DayNumber(w.date)
  }

  /** `w.calories || 0`: a workout without calories counts as none burnt. */
  function CaloriesOf(w: Workout): int {
    w.calories.GetOr(0)
  }

  /** Every workout counts once. */
  function One(w: Workout): int {
    1
  }

  /** `ws.reduce((sum, w) => sum + f(w), 0)`. */
  function Total(ws: seq<Workout>, f: Workout -> int): int {
    if ws == [] then 0 else Total(ws[..|ws| - 1], f) + f(ws[|ws| - 1])
  }

  /** Counting one per workout gives the number of workouts. */
  lemma {:induction false} TotalOfOne(ws: seq<Workout>)
    ensures Total(ws, One) == |ws|
  {
    if ws != [] { TotalOfOne(ws[..|ws| - 1]); }
  }

  /** The calorie total of `updateDashboardStats`. */
  function TotalCalories(ws: seq<Workout>): int {
    Total(ws, CaloriesOf)
  }

  /** One more workout adds its calories, or nothing when it has none, to the total. */
  lemma TotalCaloriesSnoc(ws: seq<Workout>, w: Workout)
    ensures TotalCalories(ws + [w]) == TotalCalories(ws) + (if w.calories.Some? then w.calories.value else 0)
  {
    assert (ws + [w])[..|ws|] == ws;
  }

  // ---------------------------------------------------------------------------------
  // Weekly buckets (`aggregateProgressData`)
  // ---------------------------------------------------------------------------------

  /** `getWeekKey(new Date(workout.date))`. */
  function WeekKeyOf(w: Workout): string {
    WeekKey(w.date)
  }

  /** The key of every workout, in list order. */
  function Keys(ws: seq<Workout>, keyOf: Workout -> string): (keys: seq<string>)
    ensures |keys| == |ws| && forall i :: 0 <= i < |ws| ==> keys[i] == keyOf(ws[i])
  {
    MapSeq(ws, keyOf)
  }

  lemma KeysSnoc(ws: seq<Workout>, w: Workout, keyOf: Workout -> string)
    ensures Keys(ws + [w], keyOf) == Keys(ws, keyOf) + [keyOf(w)]
  {
  }

  /** The sum of `f` over the workouts whose key is `key`. */
  function GroupTotal(ws: seq<Workout>, keyOf: Workout -> string, key: string, f: Workout -> int): int {
    if ws == [] then 0
    else GroupTotal(ws[..|ws| - 1], keyOf, key, f) + (if keyOf(ws[|ws| - 1]) == key then f(ws[|ws| - 1]) else 0)
  }

  lemma GroupTotalSnoc(ws: seq<Workout>, w: Workout, keyOf: Workout -> string, key: string, f: Workout -> int)
    ensures GroupTotal(ws + [w], keyOf, key, f) == GroupTotal(ws, keyOf, key, f) + (if keyOf(w) == key then f(w) else 0)
  {
    assert (ws + [w])[..|ws|] == ws;
  }

  /** A group's workout count is the number of workouts with that key. */
  lemma {:induction false} GroupCountIsMultiplicity(ws: seq<Workout>, keyOf: Workout -> string, key: string)
    ensures GroupTotal(ws, keyOf, key, One) == multiset(Keys(ws, keyOf))[key]
  {
    if ws != [] {
      var init := ws[..|ws| - 1];
      GroupCountIsMultiplicity(init, keyOf, key);
      assert ws == init + [ws[|ws| - 1]];
      KeysSnoc(init, ws[|ws| - 1], keyOf);
    }
  }

  /** The per-group sums of `f`, one per key. */
  function GroupTotals(ws: seq<Workout>, keyOf: Workout -> string, keys: seq<string>, f: Workout -> int): (totals: seq<int>)
    ensures |totals| == |keys|
  {
    if keys == [] then [] else [GroupTotal(ws, keyOf, keys[0], f)] + GroupTotals(ws, keyOf, keys[1..], f)
  }

  lemma {:induction false} GroupTotalsAt(ws: seq<Workout>, keyOf: Workout -> string, keys: seq<string>, f: Workout -> int, j: nat)
    requires j < |keys|
    ensures GroupTotals(ws, keyOf, keys, f)[j] == GroupTotal(ws, keyOf, keys[j], f)
  {
    if j > 0 { GroupTotalsAt(ws, keyOf, keys[1..], f, j - 1); }
  }

  lemma {:induction false} GroupTotalsOfNothing(keyOf: Workout -> string, keys: seq<string>, f: Workout -> int)
    ensures Sum(GroupTotals([], keyOf, keys, f)) == 0
  {
    if keys != [] { GroupTotalsOfNothing(keyOf, keys[1..], f); }
  }

  /** One more workout adds its value to the sum of its own group, if that is listed. */
  lemma {:induction false} GroupTotalsSnoc(ws: seq<Workout>, w: Workout, keyOf: Workout -> string, keys: seq<string>, f: Workout -> int)
    requires Distinct(keys)
    ensures Sum(GroupTotals(ws + [w], keyOf, keys, f))
         == Sum(GroupTotals(ws, keyOf, keys, f)) + (if keyOf(w) in keys then f(w) else 0)
  {
    if keys != [] {
      var rest := keys[1..];
      assert Distinct(rest);
      GroupTotalsSnoc(ws, w, keyOf, rest, f);
      GroupTotalSnoc(ws, w, keyOf, keys[0], f);
      assert keys == [keys[0]] + rest;
      assert keys[0] !in rest;
    }
  }

  /** Group sums over distinct keys that cover every workout add up to the overall sum. */
  lemma {:induction false} GroupTotalsSum(ws: seq<Workout>, keyOf: Workout -> string, keys: seq<string>, f: Workout -> int)
    requires Distinct(keys)
    requires forall i :: 0 <= i < |ws| ==> keyOf(ws[i]) in keys
    ensures Sum(GroupTotals(ws, keyOf, keys, f)) == Total(ws, f)
  {
    if ws == [] {
      GroupTotalsOfNothing(keyOf, keys, f);
    } else {
      var init, w := ws[..|ws| - 1], ws[|ws| - 1];
      GroupTotalsSum(init, keyOf, keys, f);
      assert ws == init + [w];
      GroupTotalsSnoc(init, w, keyOf, keys, f);
    }
  }

  /** `Object.keys(weeklyData).sort()`: each week key once, in ascending string order. */
  function SortedKeys(ws: seq<Workout>, keyOf: Workout -> string): seq<string> {
    SortStrings(Dedup(Keys(ws, keyOf)))
  }

  /** The sorted keys are exactly the workouts' week keys, each once and strictly ascending. */
  lemma SortedKeysFacts(ws: seq<Workout>, keyOf: Workout -> string)
    ensures Distinct(SortedKeys(ws, keyOf)) && StrictlyAscending(SortedKeys(ws, keyOf))
    ensures forall k :: k in SortedKeys(ws, keyOf) <==> k in Keys(ws, keyOf)
    ensures |SortedKeys(ws, keyOf)| == 0 <==> |ws| == 0
  {
    var d := Dedup(Keys(ws, keyOf));
    SortDistinct(d);
    assert forall k :: k in SortedKeys(ws, keyOf) <==> k in multiset(SortedKeys(ws, keyOf));
    assert forall k :: k in d <==> k in multiset(d);
  }

  datatype ChartData = ChartData(labels: seq<string>, workouts: seq<int>, calories: seq<int>)

  /** The three parallel series of the progress chart for a non-empty list. */
  function Chart(ws: seq<Workout>, keyOf: Workout -> string): ChartData {
    var weeks := SortedKeys(ws, keyOf);
    ChartData(
      seq(|weeks|, i requires 0 <= i < |weeks| => Label(weeks[i])),
      GroupTotals(ws, keyOf, weeks, One),
      GroupTotals(ws, keyOf, weeks, CaloriesOf))
  }

  /** The series sum to the number of workouts and to the dashboard's calorie total. */
  lemma ChartSums(ws: seq<Workout>, keyOf: Workout -> string)
    ensures |Chart(ws, keyOf).labels| == |Chart(ws, keyOf).workouts| == |Chart(ws, keyOf).calories| == |SortedKeys(ws, keyOf)|
    ensures Sum(Chart(ws, keyOf).workouts) == |ws|
    ensures Sum(Chart(ws, keyOf).calories) == TotalCalories(ws)
  {
    SortedKeysFacts(ws, keyOf);
    GroupTotalsSum(ws, keyOf, SortedKeys(ws, keyOf), One);
    GroupTotalsSum(ws, keyOf, SortedKeys(ws, keyOf), CaloriesOf);
    TotalOfOne(ws);
  }

  /** One entry of `weeklyData`. */
  datatype Bucket = Bucket(workouts: int, calories: int)

  /** `buckets` and `order` are `weeklyData` and its key order after visiting `seen`. */
  ghost predicate Bucketed(buckets: map<string, Bucket>, order: seq<string>, seen: seq<Workout>, keyOf: Workout -> string) {
    && (forall k :: k in buckets <==> k in Keys(seen, keyOf))
    && (forall k :: k in buckets ==>
          buckets[k] == Bucket(GroupTotal(seen, keyOf, k, One), GroupTotal(seen, keyOf, k, CaloriesOf)))
    && order == Dedup(Keys(seen, keyOf))
  }

  /** One `forEach` step: create the week's bucket when missing, then add the workout to it. */
  function AddToBucket(buckets: map<string, Bucket>, order: seq<string>, w: Workout, keyOf: Workout -> string): (map<string, Bucket>, seq<string>) {
    var week := keyOf(w);
    var b := if week in buckets then buckets[week] else Bucket(0, 0);
    (buckets[week := Bucket(b.workouts + 1, b.calories + CaloriesOf(w))],
     if week in buckets then order else order + [week])
  }

  lemma BucketStep(buckets: map<string, Bucket>, order: seq<string>, seen: seq<Workout>, w: Workout, keyOf: Workout -> string)
    requires Bucketed(buckets, order, seen, keyOf)
    ensures Bucketed(AddToBucket(buckets, order, w, keyOf).0, AddToBucket(buckets, order, w, keyOf).1, seen + [w], keyOf)
  {
    var (buckets', order') := AddToBucket(buckets, order, w, keyOf);
    var week := keyOf(w);
    var keys := Keys(seen, keyOf);
    KeysSnoc(seen, w, keyOf);
    assert (keys + [week])[..|seen|] == keys;
    assert order' == Dedup(keys + [week]);
    forall k | k in buckets'
      ensures buckets'[k] == Bucket(GroupTotal(seen + [w], keyOf, k, One), GroupTotal(seen + [w], keyOf, k, CaloriesOf))
    {
      GroupTotalSnoc(seen, w, keyOf, k, One);
      GroupTotalSnoc(seen, w, keyOf, k, CaloriesOf);
      if k != week {
        assert buckets'[k] == buckets[k];
      } else if week !in buckets {
        assert GroupTotal(seen, keyOf, k, One) == 0 by { GroupCountIsMultiplicity(seen, keyOf, k); }
        assert GroupTotal(seen, keyOf, k, CaloriesOf) == 0 by { GroupTotalAbsent(seen, keyOf, k, CaloriesOf); }
      }
    }
  }

  /** A key no workout has sums to nothing. */
  lemma {:induction false} GroupTotalAbsent(ws: seq<Workout>, keyOf: Workout -> string, key: string, f: Workout -> int)
    requires key !in Keys(ws, keyOf)
    ensures GroupTotal(ws, keyOf, key, f) == 0
  {
    if ws != [] {
      var init := ws[..|ws| - 1];
      assert Keys(ws, keyOf)[..|init|] == Keys(init, keyOf);
      GroupTotalAbsent(init, keyOf, key, f);
      assert Keys(ws, keyOf)[|init|] == keyOf(ws[|init|]);
    }
  }

  /** `data.forEach(...)`: visits the workouts in order, filling the buckets. */
  method BucketAll(ws: seq<Workout>, keyOf: Workout -> string) returns (buckets: map<string, Bucket>, order: seq<string>)
    ensures Bucketed(buckets, order, ws, keyOf)
  {
    buckets, order := map[], [];
    var i := 0;
    while i < |ws|
      invariant 0 <= i <= |ws|
      invariant Bucketed(buckets, order, ws[..i], keyOf)
    {
      BucketStep(buckets, order, ws[..i], ws[i], keyOf);
      buckets, order := AddToBucket(buckets, order, ws[i], keyOf).0, AddToBucket(buckets, order, ws[i], keyOf).1;
      assert ws[..i + 1] == ws[..i] + [ws[i]];
      i := i + 1;
    }
    assert ws[..i] == ws;
  }

  /** `sortedWeeks.map(...)`: the labels and the two columns read from the buckets. */
  function Series(buckets: map<string, Bucket>, weeks: seq<string>): ChartData {
    ChartData(
      seq(|weeks|, j requires 0 <= j < |weeks| => Label(weeks[j])),
      seq(|weeks|, j requires 0 <= j < |weeks| => if weeks[j] in buckets then buckets[weeks[j]].workouts else 0),
      seq(|weeks|, j requires 0 <= j < |weeks| => if weeks[j] in buckets then buckets[weeks[j]].calories else 0))
  }

  /** Reading the finished buckets in sorted order gives the chart. */
  lemma SeriesIsChart(buckets: map<string, Bucket>, order: seq<string>, ws: seq<Workout>, keyOf: Workout -> string)
    requires Bucketed(buckets, order, ws, keyOf)
    ensures Series(buckets, SortStrings(order)) == Chart(ws, keyOf)
  {
    var weeks := SortedKeys(ws, keyOf);
    assert SortStrings(order) == weeks;
    assert forall k :: k in weeks ==> k in Keys(ws, keyOf) by { SortedKeysFacts(ws, keyOf); }
    assert forall j :: 0 <= j < |weeks| ==> (weeks[j] in buckets
      && buckets[weeks[j]] == Bucket(GroupTotal(ws, keyOf, weeks[j], One), GroupTotal(ws, keyOf, weeks[j], CaloriesOf)));
    SeriesColumns(buckets, weeks, ws, keyOf);
  }

  /** Buckets that hold each listed key's group sums give the chart's two columns. */
  lemma SeriesColumns(buckets: map<string, Bucket>, weeks: seq<string>, ws: seq<Workout>, keyOf: Workout -> string)
    requires forall j :: 0 <= j < |weeks| ==> (weeks[j] in buckets
      && buckets[weeks[j]] == Bucket(GroupTotal(ws, keyOf, weeks[j], One), GroupTotal(ws, keyOf, weeks[j], CaloriesOf)))
    ensures Series(buckets, weeks).workouts == GroupTotals(ws, keyOf, weeks, One)
    ensures Series(buckets, weeks).calories == GroupTotals(ws, keyOf, weeks, CaloriesOf)
  {
    var s := Series(buckets, weeks);
    forall j | 0 <= j < |weeks|
      ensures s.workouts[j] == GroupTotals(ws, keyOf, weeks, One)[j]
      ensures s.calories[j] == GroupTotals(ws, keyOf, weeks, CaloriesOf)[j]
    {
      GroupTotalsAt(ws, keyOf, weeks, One, j);
      GroupTotalsAt(ws, keyOf, weeks, CaloriesOf, j);
    }
  }

  // ---------------------------------------------------------------------------------
  // Streak (`calculateStreak`)
  // ---------------------------------------------------------------------------------

  function Id(x: int): int {
    x
  }

  /** The workout days with duplicates removed, latest first. */
  function StreakDays(ws: seq<Workout>): seq<int> {
    SortByKeyDesc(Dedup(Statistics.DayNumbers(ws)), Id)
  }

  predicate StrictlyDescending(s: seq<int>) {
    forall i, j :: 0 <= i < j < |s| ==> s[i] > s[j]
  }

  /** The streak days are the distinct workout days, strictly descending. */
  lemma StreakDaysFacts(ws: seq<Workout>)
    ensures StrictlyDescending(StreakDays(ws))
    ensures forall d :: d in StreakDays(ws) <==> d in Statistics.DayNumbers(ws)
    ensures |StreakDays(ws)| == |set d | d in Statistics.DayNumbers(ws)|
  {
    var d := Dedup(Statistics.DayNumbers(ws));
    var s := StreakDays(ws);
    SameElements(s, d);
    StreakDaysDistinct(ws);
    assert (set x | x in s) == (set x | x in Statistics.DayNumbers(ws));
    DistinctCardinality(s);
  }

  lemma SameElements(s: seq<int>, d: seq<int>)
    requires multiset(s) == multiset(d)
    ensures forall x :: x in s <==> x in d
  {
    assert forall x :: x in s <==> x in multiset(s);
    assert forall x :: x in d <==> x in multiset(d);
  }

  lemma StreakDaysDistinct(ws: seq<Workout>)
    ensures Distinct(StreakDays(ws)) && StrictlyDescending(StreakDays(ws))
  {
    var d := Dedup(Statistics.DayNumbers(ws));
    var s := StreakDays(ws);
    forall x ensures multiset(s)[x] <= 1 { DistinctCountAtMostOne(d, x); }
    DistinctByCount(s);
    assert SortedByKeyDesc(s, Id);
    forall i, j | 0 <= i < j < |s| ensures s[i] > s[j] {
      assert Id(s[i]) >= Id(s[j]) && s[i] != s[j];
    }
  }

  /** `daysDiff` at step `k`: from now (step 0) or from the previous date to this one. */
  function Gap(today: int, days: seq<int>, k: nat): int
    requires k < |days|
  {
    (if k == 0 then today else days[k - 1]) - days[k]
  }

  /**
   * The test each iteration of the loop applies, with the streak equal to the number of
   * dates already counted: the gap equals the streak or the streak plus one.
   */
  predicate Extends(today: int, days: seq<int>, k: nat)
    requires k < |days|
  {
    Gap(today, days, k) == k || Gap(today, days, k) == k + 1
  }

  /** `n` is what the loop as written returns: the first `n` steps pass its test, step `n` fails. */
  predicate IsAsWrittenStreak(today: int, days: seq<int>, n: nat) {
    && n <= |days|
    && (forall k :: 0 <= k < n ==> Extends(today, days, k))
    && (n < |days| ==> !Extends(today, days, n))
  }

  /** A streak of consecutive days: the latest is today or yesterday, then one day at a time. */
  predicate Continues(today: int, days: seq<int>, k: nat)
    requires k < |days|
  {
    if k == 0 then Gap(today, days, k) == 0 || Gap(today, days, k) == 1
    else Gap(today, days, k) == 1
  }

  /** `n` is the intended streak: the first `n` dates are consecutive days ending today or yesterday. */
  predicate IsStreak(today: int, days: seq<int>, n: nat) {
    && n <= |days|
    && (forall k :: 0 <= k < n ==> Continues(today, days, k))
    && (n < |days| ==> !Continues(today, days, n))
  }

  /**
   * The `for` loop of `calculateStreak` as written: while the gap from the previous
   * date equals the streak or the streak plus one, count the date and move to it.
   */
  method ScanAsWritten(today: int, days: seq<int>) returns (streak: nat)
    ensures IsAsWrittenStreak(today, days, streak)
  {
    streak := 0;
    var current := today;
    var i := 0;
    while i < |days|
      invariant 0 <= i <= |days| && streak == i
      invariant current == if i == 0 then today else days[i - 1]
      invariant forall k :: 0 <= k < i ==> Extends(today, days, k)
    {
      var daysDiff := current - days[i];
      if daysDiff == streak {
        streak := streak + 1;
        current := days[i];
      } else if daysDiff == streak + 1 {
        streak := streak + 1;
        current := days[i];
      } else {
        break;
      }
      i := i + 1;
    }
  }

  /** The corrected loop: the first date may be today or yesterday, each later one the day before. */
  method ScanConsecutive(today: int, days: seq<int>) returns (streak: nat)
    ensures IsStreak(today, days, streak)
  {
    streak := 0;
    var current := today;
    var i := 0;
    while i < |days|
      invariant 0 <= i <= |days| && streak == i
      invariant current == if i == 0 then today else days[i - 1]
      invariant forall k :: 0 <= k < i ==> Continues(today, days, k)
    {
      var daysDiff := current - days[i];
      if daysDiff == 1 || (i == 0 && daysDiff == 0) {
        streak := streak + 1;
        current := days[i];
      } else {
        break;
      }
      i := i + 1;
    }
  }

  /** Each test admits one count only. */
  lemma AsWrittenStreakUnique(today: int, days: seq<int>, n: nat, m: nat)
    requires IsAsWrittenStreak(today, days, n) && IsAsWrittenStreak(today, days, m)
    ensures n == m
  {
  }

  lemma StreakUnique(today: int, days: seq<int>, n: nat, m: nat)
    requires IsStreak(today, days, n) && IsStreak(today, days, m)
    ensures n == m
  {
  }

  /**
   * The intended streak counts workouts on each of the `n` days up to its latest, which
   * is today or yesterday; on strictly descending days, the day before the run has none.
   */
  lemma {:induction false} StreakIsRun(today: int, days: seq<int>, n: nat)
    requires IsStreak(today, days, n)
    ensures n > 0 ==> days[0] == today || days[0] == today - 1
    ensures forall k :: 0 <= k < n ==> days[k] == days[0] - k
    ensures StrictlyDescending(days) && 0 < n < |days| ==> days[0] - n !in days
    ensures 0 == n < |days| ==> days[0] != today && days[0] != today - 1
  {
    if n > 0 {
      assert Continues(today, days, 0);
      forall k | 0 <= k < n ensures days[k] == days[0] - k {
        RunStep(today, days, n, k);
      }
      if StrictlyDescending(days) && n < |days| {
        assert !Continues(today, days, n);
        assert days[n] < days[n - 1] - 1;
        forall j | 0 <= j < |days| ensures days[j] != days[0] - n {
          if j > n { assert days[j] < days[n]; }
        }
      }
    } else if |days| > 0 {
      assert !Continues(today, days, 0);
    }
  }

  lemma {:induction false} RunStep(today: int, days: seq<int>, n: nat, k: nat)
    requires IsStreak(today, days, n) && k < n
    ensures days[k] == days[0] - k
  {
    if k > 0 {
      RunStep(today, days, n, k - 1);
      assert Continues(today, days, k);
    }
  }

  /** With workouts today, yesterday and the day before, as written counts 2, intended 3. */
  lemma AsWrittenStreakStopsEarly(t: int)
    ensures IsAsWrittenStreak(t, [t, t - 1, t - 2], 2)
    ensures IsStreak(t, [t, t - 1, t - 2], 3)
  {
    var days := [t, t - 1, t - 2];
    assert Gap(t, days, 0) == 0 && Gap(t, days, 1) == 1 && Gap(t, days, 2) == 1;
  }

  lemma DedupOfDistinct(s: seq<int>)
    requires Distinct(s)
    ensures Dedup(s) == s
  {
    if s != [] {
      DedupOfDistinct(s[..|s| - 1]);
      assert s[|s| - 1] !in s[..|s| - 1];
    }
  }

  lemma {:induction false} SortOfDescending(s: seq<int>)
    requires StrictlyDescending(s)
    ensures SortByKeyDesc(s, Id) == s
  {
    if s != [] {
      SortOfDescending(s[1..]);
      assert s == [s[0]] + s[1..];
    }
  }

  /** Days already distinct and descending reach the loop unchanged. */
  lemma StreakDaysOfDescending(ws: seq<Workout>)
    requires StrictlyDescending(Statistics.DayNumbers(ws))
    ensures StreakDays(ws) == Statistics.DayNumbers(ws)
  {
    var d := Statistics.DayNumbers(ws);
    DedupOfDistinct(d);
    SortOfDescending(d);
  }

  /** Three workouts today, yesterday and the day before: the source's loop reports 2. */
  lemma ThreeDayStreak(ws: seq<Workout>, t: int)
    requires |ws| == 3
    requires WorkoutDay(ws[0]) == t && WorkoutDay(ws[1]) == t - 1 && WorkoutDay(ws[2]) == t - 2
    ensures IsAsWrittenStreak(t, StreakDays(ws), 2)
    ensures IsStreak(t, StreakDays(ws), 3)
  {
    assert Statistics.DayNumbers(ws) == [t, t - 1, t - 2];
    StreakDaysOfDescending(ws);
    AsWrittenStreakStopsEarly(t);
  }

  // ---------------------------------------------------------------------------------
  // This week (`getThisWeekWorkouts`)
  // ---------------------------------------------------------------------------------

  /** The day number of the most recent Sunday, today included. */
  function WeekStart(today: int): (start: int)
    ensures Weekday(start) == 0
    ensures today - 6 <= start <= today
  {
    var s := today - Weekday(today);
    assert (today - Weekday(today)) % 7 == 3;
    s
  }

  predicate InThisWeek(w: Workout, today: int) {
    WorkoutDay(w) >= WeekStart(today)
  }

  /** The test of the filter: `new Date(workout.date) >= weekStart`. */
  function ThisWeekTest(today: int): Workout -> bool {
    w => InThisWeek(w, today)
  }

  /** `getThisWeekWorkouts`. */
  function ThisWeekWorkouts(ws: seq<Workout>, today: int): (r: seq<Workout>)
    ensures forall i :: 0 <= i < |r| ==> InThisWeek(r[i], today)
  {
    Filter(ws, ThisWeekTest(today))
  }

  /** Each workout of this week is kept as often as it is listed, every other one dropped. */
  lemma ThisWeekCounts(ws: seq<Workout>, today: int, w: Workout)
    ensures multiset(ThisWeekWorkouts(ws, today))[w] == if InThisWeek(w, today) then multiset(ws)[w] else 0
  {
    FilterCounts(ws, ThisWeekTest(today), w);
  }

  /** The filter keeps the list order. */
  lemma ThisWeekInOrder(ws: seq<Workout>, today: int)
    ensures IsSubsequence(ThisWeekWorkouts(ws, today), ws)
  {
    FilterInOrder(ws, ThisWeekTest(today));
  }

  /** The filter distributes over concatenation: a later workout never moves ahead. */
  lemma ThisWeekAppend(a: seq<Workout>, b: seq<Workout>, today: int)
    ensures ThisWeekWorkouts(a + b, today) == ThisWeekWorkouts(a, today) + ThisWeekWorkouts(b, today)
  {
    FilterAppend(a, b, ThisWeekTest(today));
  }

  // ---------------------------------------------------------------------------------
  // Recent workouts (`renderRecentWorkouts`)
  // ---------------------------------------------------------------------------------

  function RecentCount(n: nat): (k: nat)
    ensures k <= n && k <= 5 && (k == n || k == 5)
  {
    if n < 5 then n else 5
  }

  /** The first five of the list sorted by date, latest first, are the latest five. */
  lemma RecentAreLatest(ws: seq<Workout>)
    ensures var s := SortByKeyDesc(ws, WorkoutDay);
            var r := s[..RecentCount(|s|)];
            && |r| == RecentCount(|ws|)
            && SortedByKeyDesc(r, WorkoutDay)
            && multiset(r) <= multiset(ws)
            && (forall i, j :: 0 <= i < |r| <= j < |s| ==> WorkoutDay(r[i]) >= WorkoutDay(s[j]))
  {
    var s := SortByKeyDesc(ws, WorkoutDay);
    SortedPrefix(s, WorkoutDay, RecentCount(|s|));
  }

  // ---------------------------------------------------------------------------------
  // The workout form (`handleWorkoutSubmit`)
  // ---------------------------------------------------------------------------------

  /** The request body the form sends. Name, duration and calories are sent but not kept. */
  datatype WorkoutForm = WorkoutForm(
    date: Date, name: Option<string>, duration: int, calories: int, notes: string, exercises: seq<Entry>)

  /** `parseInt(field) || 0`, with None for a field that does not parse. */
  function NumberOrZero(parsed: Option<int>): (n: int)
    ensures parsed.Some? ==> n == parsed.value
    ensures parsed.None? ==> n == 0
  {
    parsed.GetOr(0)
  }

  /** The body `handleWorkoutSubmit` builds; an empty date field means today. */
  function BuildForm(dateField: Option<Date>, today: Date, name: Option<string>,
                     duration: Option<int>, calories: Option<int>, notes: Option<string>): (f: WorkoutForm)
    ensures f.date == dateField.GetOr(today)
    ensures f.duration == NumberOrZero(duration) && f.calories == NumberOrZero(calories)
    ensures f.notes == RecordStore.OrElse(notes, "")
    ensures f.exercises == []
  {
    WorkoutForm(dateField.GetOr(today), name, NumberOrZero(duration), NumberOrZero(calories),
                RecordStore.OrElse(notes, ""), [])
  }

  /**
   * Every body the form builds passes the server's validation. The stored workout has the
   * form's date (today when the field was empty), its notes (`''` when empty), no exercises
   * and no calories, so saving it adds nothing to the calorie total.
   */
  lemma FormIsAccepted(ws: seq<Workout>, dateField: Option<Date>, today: Date, name: Option<string>,
                       duration: Option<int>, calories: Option<int>, notes: Option<string>, now: Timestamp)
    ensures var f := BuildForm(dateField, today, name, duration, calories, notes);
            var r := RecordStore.NewWorkout(ws, Some(f.date), Some(f.exercises), Some(f.notes), now);
            && r.Ok?
            && r.value.date == dateField.GetOr(today)
            && r.value.notes == RecordStore.OrElse(notes, "")
            && r.value.exercises == []
            && TotalCalories(ws + [r.value]) == TotalCalories(ws)
  {
    var f := BuildForm(dateField, today, name, duration, calories, notes);
    var r := RecordStore.NewWorkout(ws, Some(f.date), Some(f.exercises), Some(f.notes), now);
    TotalCaloriesSnoc(ws, r.value);
  }

  // ---------------------------------------------------------------------------------
  // The dashboard object
  // ---------------------------------------------------------------------------------

  /**
   * The four figures of the dashboard. `streak` is the count the source displays, from its
   * loop as written; `intendedStreak` is the corrected count of consecutive days.
   */
  datatype DashboardStats = DashboardStats(
    totalWorkouts: nat, weekWorkouts: nat, streak: nat, intendedStreak: nat, totalCalories: int)

  /** The dashboard's workout list, `this.workouts`. */
  class Tracker {
    var workouts: seq<Workout>

    /** `loadWorkouts`: the list the server answered with. */
    constructor (loaded: seq<Workout>)
      ensures workouts == loaded
    {
      workouts := loaded;
    }

    /** `this.workouts.push(savedWorkout)`. */
    method SubmitWorkout(saved: Workout)
      modifies this
      ensures workouts == old(workouts) + [saved]
    {
      workouts := workouts + [saved];
    }

    /** `aggregateProgressData`: buckets the workouts by week key, then emits the sorted series. */
    method AggregateProgressData() returns (c: ChartData)
      ensures |workouts| == 0 ==> c == ChartData(["No data"], [0], [0])
      ensures |workouts| > 0 ==> c == Chart(workouts, WeekKeyOf)
      ensures |workouts| > 0 ==> |c.labels| == |c.workouts| == |c.calories| == |SortedKeys(workouts, WeekKeyOf)|
      ensures |workouts| > 0 ==> Sum(c.workouts) == |workouts| && Sum(c.calories) == TotalCalories(workouts)
    {
      if |workouts| == 0 {
        return ChartData(["No data"], [0], [0]);
      }
      var buckets, order := BucketAll(workouts, WeekKeyOf);
      SeriesIsChart(buckets, order, workouts, WeekKeyOf);
      ChartSums(workouts, WeekKeyOf);
      c := Series(buckets, SortStrings(order));
    }

    /** `calculateStreak` as written, over the distinct workout dates latest first. */
    method CalculateStreakAsWritten(today: int) returns (streak: nat)
      ensures |workouts| == 0 ==> streak == 0
      ensures IsAsWrittenStreak(today, StreakDays(workouts), streak)
      ensures streak <= |set d | d in Statistics.DayNumbers(workouts)|
    {
      StreakDaysFacts(workouts);
      if |workouts| == 0 {
        return 0;
      }
      streak := ScanAsWritten(today, SortByKeyDesc(Dedup(Statistics.DayNumbers(workouts)), Id));
    }

    /** The corrected streak of consecutive days, latest today or yesterday, shown beside the source's count. */
    method CalculateStreak(today: int) returns (streak: nat)
      ensures |workouts| == 0 ==> streak == 0
      ensures IsStreak(today, StreakDays(workouts), streak)
      ensures streak <= |set d | d in Statistics.DayNumbers(workouts)|
    {
      StreakDaysFacts(workouts);
      if |workouts| == 0 {
        return 0;
      }
      streak := ScanConsecutive(today, SortByKeyDesc(Dedup(Statistics.DayNumbers(workouts)), Id));
    }

    /** `this.workouts.sort(by date, latest first).slice(0, 5)`, sorting the list itself. */
    method RenderRecentWorkouts() returns (recent: seq<Workout>)
      modifies this
      ensures |old(workouts)| == 0 ==> workouts == old(workouts) && recent == []
      ensures |old(workouts)| > 0 ==> workouts == SortByKeyDesc(old(workouts), WorkoutDay)
      ensures multiset(workouts) == multiset(old(workouts))
      ensures recent == workouts[..RecentCount(|workouts|)]
    {
      if |workouts| == 0 {
        return [];
      }
      workouts := SortByKeyDesc(workouts, WorkoutDay);
      recent := workouts[..RecentCount(|workouts|)];
    }

    /** `updateDashboardStats`: the four figures of the dashboard. */
    method UpdateDashboardStats(today: int) returns (s: DashboardStats)
      ensures s.totalWorkouts == |workouts|
      ensures s.weekWorkouts == |ThisWeekWorkouts(workouts, today)|
      ensures s.totalCalories == TotalCalories(workouts)
      ensures IsAsWrittenStreak(today, StreakDays(workouts), s.streak)
      ensures IsStreak(today, StreakDays(workouts), s.intendedStreak)
    {
      var streak := CalculateStreakAsWritten(today);
      var intended := CalculateStreak(today);
      s := DashboardStats(|workouts|, |ThisWeekWorkouts(workouts, today)|, streak, intended, TotalCalories(workouts));
    }
  }
}
