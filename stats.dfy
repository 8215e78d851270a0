/** The statistics the server reports for the workout collection. */
module Statistics {
  import opened Wrappers
  import opened Calendar
  import opened Records
  import opened Seqs

  /** Every exercise entry of every workout, workout by workout. */
  function AllEntries(ws: seq<Workout>): seq<Entry> {
    if ws == [] then [] else AllEntries(ws[..|ws| - 1]) + ws[|ws| - 1].exercises
  }

  /** `workouts.reduce((sum, w) => sum + w.exercises.length, 0)` */
  function TotalExercises(ws: seq<Workout>): nat {
    if ws == [] then 0 else TotalExercises(ws[..|ws| - 1]) + |ws[|ws| - 1].exercises|
  }

  /** The total counts every logged entry exactly once. */
  lemma {:induction false} TotalExercisesCountsEntries(ws: seq<Workout>)
    ensures TotalExercises(ws) == |AllEntries(ws)|
  {
    if ws != [] { TotalExercisesCountsEntries(ws[..|ws| - 1]); }
  }

  function EntryVolume(e: Entry): nat {
    e.sets * e.reps * e.weight
  }

  /** `w.exercises.reduce((exerciseSum, e) => exerciseSum + e.sets * e.reps * e.weight, 0)` */
  function WorkoutVolume(entries: seq<Entry>): nat {
    if entries == [] then 0
    else WorkoutVolume(entries[..|entries| - 1]) + EntryVolume(entries[|entries| - 1])
  }

  /** The outer `reduce` over the workouts. */
  function TotalWeight(ws: seq<Workout>): nat {
    if ws == [] then 0 else TotalWeight(ws[..|ws| - 1]) + WorkoutVolume(ws[|ws| - 1].exercises)
  }

  lemma {:induction false} VolumeAppend(a: seq<Entry>, b: seq<Entry>)
    ensures WorkoutVolume(a + b) == WorkoutVolume(a) + WorkoutVolume(b)
    decreases |b|
  {
    if b == [] {
      assert a + b == a;
    } else {
      VolumeAppend(a, b[..|b| - 1]);
      assert (a + b)[..|a + b| - 1] == a + b[..|b| - 1];
    }
  }

  /** The nested reduction is the training volume of all entries taken together. */
  lemma {:induction false} TotalWeightIsVolumeOfAllEntries(ws: seq<Workout>)
    ensures TotalWeight(ws) == WorkoutVolume(AllEntries(ws))
  {
    if ws != [] {
      TotalWeightIsVolumeOfAllEntries(ws[..|ws| - 1]);
      VolumeAppend(AllEntries(ws[..|ws| - 1]), ws[|ws| - 1].exercises);
    }
  }

  function DayNumbers(ws: seq<Workout>): (days: seq<int>)
    ensures |days| == |ws| && forall i :: 0 <= i < |ws| ==> days[i] == DayNumber(ws[i].date)
  {
    seq(|ws|, i requires 0 <= i < |ws| => DayNumber(ws[i].date))
  }

  /** Days from the earliest to the latest of the dates: the largest difference of two of them. */
  function DaySpan(days: seq<int>): (span: nat)
    requires |days| > 0
    ensures forall i, j :: 0 <= i < |days| && 0 <= j < |days| ==> days[i] - days[j] <= span
    ensures exists i, j :: 0 <= i < |days| && 0 <= j < |days| && days[i] - days[j] == span
    ensures span == Max(days) - Min(days)
  {
    assert Min(days) <= days[0] <= Max(days);
    Max(days) - Min(days)
  }

  /** `Math.ceil(span / 7) || 1` for a span of whole days. */
  function WeeksSpanned(span: nat): (weeks: nat)
    ensures weeks >= 1
    ensures span == 0 ==> weeks == 1
    ensures span > 0 ==> 7 * (weeks - 1) < span <= 7 * weeks
  {
    if span == 0 then 1 else (span + 6) / 7
  }

  /**
   * `calculateAverageWorkoutsPerWeek`, in hundredths: the workout count divided by the
   * number of weeks between the earliest and the latest date, rounded half up to two
   * decimals as `Math.round(x * 100) / 100` does.
   */
  function AverageWorkoutsPerWeek(ws: seq<Workout>): (hundredths: nat)
    ensures |ws| == 0 ==> hundredths == 0
    ensures |ws| > 0 ==>
      IsRoundedQuotient(hundredths, 100 * |ws|, WeeksSpanned(DaySpan(DayNumbers(ws))))
  {
    if |ws| == 0 then 0
    else RoundHalfUp(100 * |ws|, WeeksSpanned(DaySpan(DayNumbers(ws))))
  }

  /** `r` is n / d rounded to the nearest integer, halves rounded up. */
  predicate IsRoundedQuotient(r: int, n: int, d: int) {
    2 * d * r <= 2 * n + d < 2 * d * (r + 1)
  }

  /** `Math.round(n / d)` for naturals. */
  function RoundHalfUp(n: nat, d: nat): (r: nat)
    requires d > 0
    ensures IsRoundedQuotient(r, n, d)
  {
    var q := (2 * n + d) / (2 * d);
    assert 2 * n + d == (2 * d) * q + (2 * n + d) % (2 * d);
    q
  }

  /** Workouts exactly one week apart average two per week. */
  lemma TwoWorkoutsOneWeekApart(a: Workout, b: Workout)
    requires DayNumber(b.date) == DayNumber(a.date) + 7
    ensures AverageWorkoutsPerWeek([a, b]) == 200
  {
    var days := DayNumbers([a, b]);
    assert days == [DayNumber(a.date), DayNumber(b.date)];
    assert DaySpan(days) == 7 by {
      assert Max(days) == DayNumber(b.date) && Min(days) == DayNumber(a.date);
    }
    assert WeeksSpanned(7) == 1;
    assert RoundHalfUp(200, 1) == 200;
  }

  /** A tally entry: an exercise name and how often it was logged. */
  datatype Frequency = Frequency(name: string, count: nat)

  function Names(entries: seq<Entry>): (names: seq<string>)
    ensures |names| == |entries|
  {
    if entries == [] then [] else Names(entries[..|entries| - 1]) + [entries[|entries| - 1].name]
  }

  lemma {:induction false} NamesAppend(a: seq<Entry>, b: seq<Entry>)
    ensures Names(a + b) == Names(a) + Names(b)
    decreases |b|
  {
    if b == [] {
      assert a + b == a;
    } else {
      NamesAppend(a, b[..|b| - 1]);
      assert (a + b)[..|a + b| - 1] == a + b[..|b| - 1];
    }
  }

  /** Exercise names of all entries, in the order the tally visits them. */
  function EntryNames(ws: seq<Workout>): seq<string> {
    Names(AllEntries(ws))
  }

  /**
   * `f` is what `getMostFrequentExercise` reports for `names`: a logged name with its
   * tally, no name tallied higher, and every name first logged before it tallied lower
   * (the stable descending sort keeps the first of equal tallies in front).
   */
  predicate IsMostFrequent(names: seq<string>, f: Frequency) {
    var order := Dedup(names);
    && f.name in names
    && f.count == multiset(names)[f.name]
    && (forall i :: 0 <= i < |names| ==> multiset(names)[names[i]] <= f.count)
    && (forall k :: 0 <= k < IndexOf(order, f.name) ==> multiset(names)[order[k]] < f.count)
  }

  lemma IndexOfDistinct<T>(s: seq<T>, k: nat)
    requires Distinct(s) && k < |s|
    ensures IndexOf(s, s[k]) == k
  {
    var j := IndexOf(s, s[k]);
    assert s[j] == s[k];
    assert forall i :: 0 <= i < j ==> s[..j][i] == s[i];
  }

  /** `counts` and `order` are the tally dictionary after visiting `seen`. */
  ghost predicate Tallied(counts: map<string, nat>, order: seq<string>, seen: seq<string>) {
    && (forall k :: k in counts <==> k in seen)
    && (forall k :: k in counts ==> counts[k] == multiset(seen)[k])
    && order == Dedup(seen)
  }

  /**
   * One tally step, `exerciseCount[name] = (exerciseCount[name] || 0) + 1`; a name seen
   * for the first time also becomes the dictionary's last key.
   */
  function Count(counts: map<string, nat>, order: seq<string>, name: string): (map<string, nat>, seq<string>) {
    if name in counts then (counts[name := counts[name] + 1], order)
    else (counts[name := 1], order + [name])
  }

  lemma TallyStep(counts: map<string, nat>, order: seq<string>, seen: seq<string>, name: string)
    requires Tallied(counts, order, seen)
    ensures Tallied(Count(counts, order, name).0, Count(counts, order, name).1, seen + [name])
  {
    var seen' := seen + [name];
    assert seen'[..|seen|] == seen;
    assert multiset(seen') == multiset(seen) + multiset{name};
  }

  lemma NamesPrefix(entries: seq<Entry>, j: nat)
    requires j < |entries|
    ensures Names(entries[..j + 1]) == Names(entries[..j]) + [entries[j].name]
  {
    assert entries[..j + 1][..j] == entries[..j];
  }

  /** The inner `forEach`: `exerciseCount[name] = (exerciseCount[name] || 0) + 1` per entry. */
  method TallyEntries(counts0: map<string, nat>, order0: seq<string>, ghost seen: seq<string>, entries: seq<Entry>)
    returns (counts: map<string, nat>, order: seq<string>)
    requires Tallied(counts0, order0, seen)
    ensures Tallied(counts, order, seen + Names(entries))
  {
    counts, order := counts0, order0;
    ghost var visited := seen;
    var j := 0;
    while j < |entries|
      invariant 0 <= j <= |entries|
      invariant visited == seen + Names(entries[..j])
      invariant Tallied(counts, order, visited)
    {
      var name := entries[j].name;
      TallyStep(counts, order, visited, name);
      counts, order := Count(counts, order, name).0, Count(counts, order, name).1;
      NamesPrefix(entries, j);
      visited := visited + [name];
      j := j + 1;
    }
    assert entries[..j] == entries;
  }

  /** The outer `forEach` over the workouts. */
  method Tally(ws: seq<Workout>) returns (counts: map<string, nat>, order: seq<string>)
    ensures Tallied(counts, order, EntryNames(ws))
  {
    counts, order := map[], [];
    var i := 0;
    while i < |ws|
      invariant 0 <= i <= |ws|
      invariant Tallied(counts, order, EntryNames(ws[..i]))
    {
      counts, order := TallyEntries(counts, order, EntryNames(ws[..i]), ws[i].exercises);
      assert ws[..i + 1][..i] == ws[..i];
      NamesAppend(AllEntries(ws[..i]), ws[i].exercises);
      i := i + 1;
    }
    assert ws[..i] == ws;
  }

  /**
   * The head of the stable sort by descending tally: the first position in `order`
   * whose tally no other reaches.
   */
  method FirstMax(counts: map<string, nat>, order: seq<string>) returns (bestAt: nat)
    requires |order| > 0 && forall k :: 0 <= k < |order| ==> order[k] in counts
    ensures bestAt < |order|
    ensures forall m :: 0 <= m < |order| ==> counts[order[m]] <= counts[order[bestAt]]
    ensures forall m :: 0 <= m < bestAt ==> counts[order[m]] < counts[order[bestAt]]
  {
    bestAt := 0;
    var k := 1;
    while k < |order|
      invariant 1 <= k <= |order| && bestAt < k
      invariant forall m :: 0 <= m < k ==> counts[order[m]] <= counts[order[bestAt]]
      invariant forall m :: 0 <= m < bestAt ==> counts[order[m]] < counts[order[bestAt]]
    {
      if counts[order[k]] > counts[order[bestAt]] {
        bestAt := k;
      }
      k := k + 1;
    }
  }

  /** The first maximum of a finished tally is the most frequent name. */
  lemma FirstMaxIsMostFrequent(counts: map<string, nat>, order: seq<string>, names: seq<string>, bestAt: nat)
    requires Tallied(counts, order, names) && bestAt < |order|
    requires forall m :: 0 <= m < |order| ==> counts[order[m]] <= counts[order[bestAt]]
    requires forall m :: 0 <= m < bestAt ==> counts[order[m]] < counts[order[bestAt]]
    ensures IsMostFrequent(names, Frequency(order[bestAt], counts[order[bestAt]]))
  {
    IndexOfDistinct(order, bestAt);
    forall n | 0 <= n < |names| ensures multiset(names)[names[n]] <= counts[order[bestAt]] {
      assert names[n] in order;
      var m :| 0 <= m < |order| && order[m] == names[n];
    }
  }

  /** Two squats and one push-up: squats, twice, is the most frequent. */
  lemma SquatsMostFrequent()
    ensures IsMostFrequent(["Squats", "Squats", "Push-ups"], Frequency("Squats", 2))
    ensures !IsMostFrequent(["Squats", "Squats", "Push-ups"], Frequency("Push-ups", 1))
  {
    var names := ["Squats", "Squats", "Push-ups"];
    assert "Squats" != "Push-ups" by { assert "Squats"[0] != "Push-ups"[0]; }
    assert multiset(names)["Squats"] == 2 && multiset(names)["Push-ups"] == 1;
    assert Dedup(names) == ["Squats", "Push-ups"] by {
      assert names[..2] == ["Squats", "Squats"] && names[..2][..1] == ["Squats"];
    }
  }

  /**
   * `getMostFrequentExercise`: tallies names in a dictionary (keys in first-insertion
   * order), then takes the first entry of the stable sort by descending tally.
   */
  method MostFrequentExercise(ws: seq<Workout>) returns (r: Option<Frequency>)
    ensures r.None? <==> |AllEntries(ws)| == 0
    ensures r.Some? ==> IsMostFrequent(EntryNames(ws), r.value)
  {
    var counts, order := Tally(ws);
    if |order| == 0 {
      r := None;
    } else {
      var bestAt := FirstMax(counts, order);
      FirstMaxIsMostFrequent(counts, order, EntryNames(ws), bestAt);
      r := Some(Frequency(order[bestAt], counts[order[bestAt]]));
    }
  }
}
