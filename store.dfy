/**
 * The server's record store: the exercise catalog and the workout log as in-memory
 * collections, with the read-modify-write each route handler performs on them.
 * Loading and saving the JSON files is not modelled: the collections are the state.
 */
module RecordStore {
  import opened Wrappers
  import opened Calendar
  import opened Records
  import opened Seqs
  import Statistics

  /** What a handler reports: the record, a 404, or a 400 with its message. */
  datatype Outcome<T> = Ok(value: T) | NotFound | Invalid(message: string)

  /** A request field that JavaScript treats as true: present and not the empty string. */
  predicate Truthy(field: Option<string>) {
    field.Some? && field.value != ""
  }

  /** `field || fallback` on a string field. */
  function OrElse(field: Option<string>, fallback: string): (r: string)
    ensures Truthy(field) ==> r == field.value
    ensures !Truthy(field) ==> r == fallback
  {
    if Truthy(field) then field.value else fallback
  }

  /** `items.length > 0 ? Math.max(...items.map(x => x.id)) + 1 : 1`: one more than the largest id. */
  function NextId(ids: seq<int>): (r: int)
    ensures forall i :: 0 <= i < |ids| ==> ids[i] < r
    ensures |ids| == 0 ==> r == 1
    ensures |ids| > 0 ==> r - 1 in ids
  {
    if |ids| > 0 then Max(ids) + 1 else 1
  }

  /** The exercise the POST /api/exercises handler builds, or the 400 it answers. */
  function NewExercise(es: seq<Exercise>, name: Option<string>, category: Option<string>, equipment: Option<string>)
    : (r: Outcome<Exercise>)
    ensures r.Invalid? <==> !Truthy(name)
    ensures !r.NotFound?
    ensures r.Ok? ==>
      && r.value.name == name.value
      && r.value.category == OrElse(category, "other")
      && r.value.equipment == OrElse(equipment, "unknown")
      && r.value.id == NextId(ExerciseIds(es))
      && (forall i :: 0 <= i < |es| ==> es[i].id < r.value.id)
  {
    if !Truthy(name) then Invalid("Exercise name is required")
    else Ok(Exercise(NextId(ExerciseIds(es)), name.value, OrElse(category, "other"), OrElse(equipment, "unknown")))
  }

  /**
   * The workout the POST /api/workouts handler builds, or the 400 it answers.
   * `date` is None when it is absent or empty; `exercises` is None when it is absent
   * or not an array; `notes` is None when it is absent.
   */
  function NewWorkout(ws: seq<Workout>, date: Option<Date>, exercises: Option<seq<Entry>>, notes: Option<string>, now: Timestamp)
    : (r: Outcome<Workout>)
    ensures r.Invalid? <==> date.None? || exercises.None?
    ensures !r.NotFound?
    ensures r.Ok? ==>
      && r.value.date == date.value
      && r.value.exercises == exercises.value
      && r.value.notes == OrElse(notes, "")
      && r.value.createdAt == now
      && r.value.updatedAt == None
      && r.value.calories == None
      && r.value.id == NextId(WorkoutIds(ws))
      && (forall i :: 0 <= i < |ws| ==> ws[i].id < r.value.id)
  {
    if date.None? || exercises.None? then Invalid("Date and exercises array are required")
    else Ok(Workout(NextId(WorkoutIds(ws)), date.value, exercises.value, OrElse(notes, ""), now, None, None))
  }

  /** `workouts.findIndex(w => w.id === id)`, with None for -1. */
  function FindIndex(ws: seq<Workout>, id: int): (r: Option<nat>)
    ensures r.None? <==> forall i :: 0 <= i < |ws| ==> ws[i].id != id
    ensures r.Some? ==> r.value < |ws| && ws[r.value].id == id
    ensures r.Some? ==> forall i :: 0 <= i < r.value ==> ws[i].id != id
  {
    if ws == [] then None
    else if ws[0].id == id then Some(0)
    else match FindIndex(ws[1..], id)
      case None => None
      case Some(k) => Some(k + 1)
  }

  /**
   * The record the PUT handler writes back: a shallow copy of the stored workout in
   * which a truthy `date` or `exercises` and a defined `notes` replace the old values
   * and `updatedAt` is stamped. `exercises` is None for a falsy value (an empty array
   * is truthy); `notes` is None only when undefined.
   */
  function Merged(w: Workout, date: Option<Date>, exercises: Option<seq<Entry>>, notes: Option<string>, now: Timestamp): Workout {
    w.(date := date.GetOr(w.date),
       exercises := exercises.GetOr(w.exercises),
       notes := notes.GetOr(w.notes),
       updatedAt := Some(now))
  }

  /** A second PUT of the same body changes nothing but the stamp it already has. */
  lemma MergedIdempotent(w: Workout, date: Option<Date>, exercises: Option<seq<Entry>>, notes: Option<string>, now: Timestamp)
    ensures var m := Merged(w, date, exercises, notes, now);
            Merged(m, date, exercises, notes, now) == m
  {
  }

  /** A PUT with an empty body keeps every field and only stamps `updatedAt`. */
  lemma MergedOfNothing(w: Workout, now: Timestamp)
    ensures Merged(w, None, None, None, now) == w.(updatedAt := Some(now))
  {
  }

  predicate UniqueIds(ws: seq<Workout>) {
    Distinct(WorkoutIds(ws))
  }

  class Store {
    var exercises: seq<Exercise>
    var workouts: seq<Workout>

    /** The collections as read from the two JSON files. */
    constructor (exercises0: seq<Exercise>, workouts0: seq<Workout>)
      ensures exercises == exercises0 && workouts == workouts0
    {
      exercises := exercises0;
      workouts := workouts0;
    }

    /** GET /api/exercises */
    method ListExercises() returns (r: seq<Exercise>)
      ensures r == exercises
    {
      r := exercises;
    }

    /** GET /api/workouts */
    method ListWorkouts() returns (r: seq<Workout>)
      ensures r == workouts
    {
      r := workouts;
    }

    /** POST /api/exercises: validate, then append the new exercise. */
    method AddExercise(name: Option<string>, category: Option<string>, equipment: Option<string>)
      returns (r: Outcome<Exercise>)
      modifies this
      ensures r == NewExercise(old(exercises), name, category, equipment)
      ensures r.Ok? ==> exercises == old(exercises) + [r.value]
      ensures !r.Ok? ==> exercises == old(exercises)
      ensures workouts == old(workouts)
    {
      r := NewExercise(exercises, name, category, equipment);
      if r.Ok? {
        exercises := exercises + [r.value];
      }
    }

    /** POST /api/workouts: validate, then append the new workout. */
    method AddWorkout(date: Option<Date>, exercises': Option<seq<Entry>>, notes: Option<string>, now: Timestamp)
      returns (r: Outcome<Workout>)
      modifies this
      ensures r == NewWorkout(old(workouts), date, exercises', notes, now)
      ensures r.Ok? ==> workouts == old(workouts) + [r.value]
      ensures !r.Ok? ==> workouts == old(workouts)
      ensures exercises == old(exercises)
      ensures UniqueIds(old(workouts)) ==> UniqueIds(workouts)
    {
      r := NewWorkout(workouts, date, exercises', notes, now);
      if r.Ok? {
        if UniqueIds(workouts) { InsertKeepsIdsUnique(workouts, r.value); }
        workouts := workouts + [r.value];
      }
    }

    /** GET /api/workouts/:id: the first workout with that id. */
    method GetWorkout(id: int) returns (r: Outcome<Workout>)
      ensures r.NotFound? <==> forall i :: 0 <= i < |workouts| ==> workouts[i].id != id
      ensures !r.Invalid?
      ensures r.Ok? ==> exists i :: 0 <= i < |workouts| && workouts[i] == r.value &&
                          r.value.id == id && forall k :: 0 <= k < i ==> workouts[k].id != id
    {
      match FindIndex(workouts, id)
      case None => r := NotFound;
      case Some(i) => r := Ok(workouts[i]);
    }

    /** PUT /api/workouts/:id: replace the first matching workout by its merge. */
    method UpdateWorkout(id: int, date: Option<Date>, exercises': Option<seq<Entry>>, notes: Option<string>, now: Timestamp)
      returns (r: Outcome<Workout>)
      modifies this
      ensures FindIndex(old(workouts), id).None? ==> r == NotFound && workouts == old(workouts)
      ensures FindIndex(old(workouts), id).Some? ==>
        var i := FindIndex(old(workouts), id).value;
        var w := old(workouts)[i];
        && r.Ok?
        && workouts == old(workouts)[i := r.value]
        && r.value.id == w.id && r.value.createdAt == w.createdAt && r.value.calories == w.calories
        && r.value.date == (if date.Some? then date.value else w.date)
        && r.value.exercises == (if exercises'.Some? then exercises'.value else w.exercises)
        && r.value.notes == (if notes.Some? then notes.value else w.notes)
        && r.value.updatedAt == Some(now)
      ensures exercises == old(exercises)
      ensures UniqueIds(old(workouts)) ==> UniqueIds(workouts)
    {
      match FindIndex(workouts, id)
      case None =>
        r := NotFound;
      case Some(i) =>
        var w := Merged(workouts[i], date, exercises', notes, now);
        FindAfterUpdate(workouts, id, date, exercises', notes, now);
        workouts := workouts[i := w];
        r := Ok(w);
    }

    /** DELETE /api/workouts/:id: splice out the first matching workout and return it. */
    method DeleteWorkout(id: int) returns (r: Outcome<Workout>)
      modifies this
      ensures FindIndex(old(workouts), id).None? ==> r == NotFound && workouts == old(workouts)
      ensures FindIndex(old(workouts), id).Some? ==>
        var i := FindIndex(old(workouts), id).value;
        && r == Ok(old(workouts)[i])
        && workouts == old(workouts)[..i] + old(workouts)[i + 1..]
        && multiset(workouts) + multiset{r.value} == multiset(old(workouts))
      ensures exercises == old(exercises)
      ensures UniqueIds(old(workouts)) ==> UniqueIds(workouts)
    {
      match FindIndex(workouts, id)
      case None =>
        r := NotFound;
      case Some(i) =>
        var removed := workouts[i];
        assert workouts == workouts[..i] + [removed] + workouts[i + 1..];
        if UniqueIds(workouts) { DeleteKeepsIdsUnique(workouts, i); }
        workouts := workouts[..i] + workouts[i + 1..];
        r := Ok(removed);
    }

    /** GET /api/stats */
    method Stats() returns (s: Report)
      ensures s.totalWorkouts == |workouts|
      ensures s.totalExercises == |Statistics.AllEntries(workouts)|
      ensures s.totalWeight == Statistics.WorkoutVolume(Statistics.AllEntries(workouts))
      ensures s.averageWorkoutsPerWeek == Statistics.AverageWorkoutsPerWeek(workouts)
      ensures s.mostFrequentExercise.None? <==> |Statistics.AllEntries(workouts)| == 0
      ensures s.mostFrequentExercise.Some? ==>
                Statistics.IsMostFrequent(Statistics.EntryNames(workouts), s.mostFrequentExercise.value)
    {
      Statistics.TotalExercisesCountsEntries(workouts);
      Statistics.TotalWeightIsVolumeOfAllEntries(workouts);
      var most := Statistics.MostFrequentExercise(workouts);
      s := Report(
        |workouts|,
        Statistics.TotalExercises(workouts),
        Statistics.TotalWeight(workouts),
        Statistics.AverageWorkoutsPerWeek(workouts),
        most);
    }
  }

  /** The body of the stats response; the average is in hundredths. */
  datatype Report = Report(
    totalWorkouts: nat,
    totalExercises: nat,
    totalWeight: nat,
    averageWorkoutsPerWeek: nat,
    mostFrequentExercise: Option<Statistics.Frequency>)

  /** An inserted workout is what a lookup of its id then finds. */
  lemma FindAfterInsert(ws: seq<Workout>, date: Option<Date>, exercises: Option<seq<Entry>>, notes: Option<string>, now: Timestamp)
    requires NewWorkout(ws, date, exercises, notes, now).Ok?
    ensures var w := NewWorkout(ws, date, exercises, notes, now).value;
            FindIndex(ws + [w], w.id) == Some(|ws|)
  {
    var w := NewWorkout(ws, date, exercises, notes, now).value;
    FindAppended(ws, w);
  }

  /** A lookup of an id that only the appended record has finds that record. */
  lemma FindAppended(ws: seq<Workout>, w: Workout)
    requires forall i :: 0 <= i < |ws| ==> ws[i].id != w.id
    ensures FindIndex(ws + [w], w.id) == Some(|ws|)
  {
    var s := ws + [w];
    assert s[|ws|] == w;
    assert forall k :: 0 <= k < |ws| ==> s[k] == ws[k];
    assert FindIndex(s, w.id).Some?;
  }

  /** Inserting keeps ids unique: the new id is larger than every existing one. */
  lemma InsertKeepsIdsUnique(ws: seq<Workout>, w: Workout)
    requires UniqueIds(ws)
    requires forall i :: 0 <= i < |ws| ==> ws[i].id < w.id
    ensures UniqueIds(ws + [w])
  {
    assert WorkoutIds(ws + [w]) == WorkoutIds(ws) + [w.id];
  }

  /** The updated record is what a lookup of its id then finds. */
  lemma FindAfterUpdate(ws: seq<Workout>, id: int, date: Option<Date>, exercises: Option<seq<Entry>>, notes: Option<string>, now: Timestamp)
    requires FindIndex(ws, id).Some?
    ensures var i := FindIndex(ws, id).value;
            var w := Merged(ws[i], date, exercises, notes, now);
            FindIndex(ws[i := w], id) == Some(i) && UniqueIds(ws) == UniqueIds(ws[i := w])
  {
    var i := FindIndex(ws, id).value;
    var w := Merged(ws[i], date, exercises, notes, now);
    assert WorkoutIds(ws[i := w]) == WorkoutIds(ws);
  }

  /** With unique ids, a deleted id is gone: a second delete or a lookup answers NotFound. */
  lemma FindAfterDelete(ws: seq<Workout>, id: int)
    requires UniqueIds(ws)
    requires FindIndex(ws, id).Some?
    ensures var i := FindIndex(ws, id).value;
            FindIndex(ws[..i] + ws[i + 1..], id).None?
  {
    var i := FindIndex(ws, id).value;
    var rest := ws[..i] + ws[i + 1..];
    forall k | 0 <= k < |rest| ensures rest[k].id != id {
      if k < i {
        assert rest[k] == ws[k];
      } else {
        assert rest[k] == ws[k + 1];
        assert WorkoutIds(ws)[i] != WorkoutIds(ws)[k + 1];
      }
    }
  }

  /** Removing a record keeps the remaining ids unique. */
  lemma DeleteKeepsIdsUnique(ws: seq<Workout>, i: nat)
    requires UniqueIds(ws)
    requires i < |ws|
    ensures UniqueIds(ws[..i] + ws[i + 1..])
  {
    var rest := ws[..i] + ws[i + 1..];
    forall a, b | 0 <= a < b < |rest| ensures WorkoutIds(rest)[a] != WorkoutIds(rest)[b] {
      var a' := if a < i then a else a + 1;
      var b' := if b < i then b else b + 1;
      assert rest[a] == ws[a'] && rest[b] == ws[b'];
      assert WorkoutIds(ws)[a'] != WorkoutIds(ws)[b'];
    }
  }

  /**
   * Ids are the largest remaining one plus one, not a high-water mark: after the record
   * holding the largest id is deleted, the next insert hands that id out again whenever
   * the id just below it is still in the log.
   */
  lemma DeletedLargestIdIsReused(ws: seq<Workout>, i: nat, date: Date, exercises: seq<Entry>, notes: Option<string>, now: Timestamp)
    requires i < |ws|
    requires forall k :: 0 <= k < |ws| && k != i ==> ws[k].id < ws[i].id
    requires exists k :: 0 <= k < |ws| && k != i && ws[k].id == ws[i].id - 1
    ensures var r := NewWorkout(ws[..i] + ws[i + 1..], Some(date), Some(exercises), notes, now);
            r.Ok? && r.value.id == ws[i].id
  {
    var ids := WorkoutIds(ws);
    SpliceIds(ws, i);
    var k :| 0 <= k < |ws| && k != i && ws[k].id == ws[i].id - 1;
    assert ids[k] == ids[i] - 1;
    SplicedNextId(ids, i, k);
  }

  /** The ids of a spliced log are the spliced ids. */
  lemma SpliceIds(ws: seq<Workout>, i: nat)
    requires i < |ws|
    ensures WorkoutIds(ws[..i] + ws[i + 1..]) == WorkoutIds(ws)[..i] + WorkoutIds(ws)[i + 1..]
  {
  }

  /** Removing the largest id `ids[i]` leaves it as the next id when `ids[k]` is just below it. */
  lemma SplicedNextId(ids: seq<int>, i: nat, k: nat)
    requires i < |ids| && k < |ids| && k != i
    requires forall j :: 0 <= j < |ids| && j != i ==> ids[j] < ids[i]
    requires ids[k] == ids[i] - 1
    ensures NextId(ids[..i] + ids[i + 1..]) == ids[i]
  {
    var rest := ids[..i] + ids[i + 1..];
    var k' := if k < i then k else k - 1;
    assert rest[k'] == ids[k];
    forall j | 0 <= j < |rest| ensures rest[j] < ids[i] {
      var j' := if j < i then j else j + 1;
      assert rest[j] == ids[j'];
    }
    NextIdBelow(rest, ids[i]);
  }

  /** When every id is below `m` and `m - 1` is one of them, the next id is `m`. */
  lemma NextIdBelow(ids: seq<int>, m: int)
    requires forall j :: 0 <= j < |ids| ==> ids[j] < m
    requires m - 1 in ids
    ensures NextId(ids) == m
  {
    assert NextId(ids) - 1 in ids;
  }

  /** A log with ids 1 and 2: after DELETE of id 2, the next POST is given id 2 again. */
  lemma IdTwoIsReused(w1: Workout, w2: Workout, date: Date, exercises: seq<Entry>, now: Timestamp)
    requires w1.id == 1 && w2.id == 2
    ensures FindIndex([w1, w2], 2) == Some(1)
    ensures var r := NewWorkout([w1, w2][..1] + [w1, w2][2..], Some(date), Some(exercises), None, now);
            r.Ok? && r.value.id == 2
  {
    var ws := [w1, w2];
    assert ws[0].id == ws[1].id - 1;
    DeletedLargestIdIsReused(ws, 1, date, exercises, None, now);
  }
}
