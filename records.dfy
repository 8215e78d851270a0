/**
 * The two persisted collections' records. A workout's `exercises` are embedded
 * entries, not references to the exercise catalog.
 */
module Records {
  import opened Wrappers
  import opened Calendar
  import opened Seqs

  /** An ISO-8601 timestamp, supplied by the caller (the clock is not modelled). */
  type Timestamp = string

  /** One logged exercise inside a workout; only the statistics read it. */
  datatype Entry = Entry(name: string, sets: nat, reps: nat, weight: nat)

  datatype Exercise = Exercise(id: int, name: string, category: string, equipment: string)

  /**
   * A stored workout. `updatedAt` is present only after an update. `calories` is an
   * extra field that the dashboard reads; the server never writes it, but keeps it
   * when a stored record already has it.
   */
  datatype Workout = Workout(
    id: int,
    date: Date,
    exercises: seq<Entry>,
    notes: string,
    createdAt: Timestamp,
    updatedAt: Option<Timestamp>,
    calories: Option<int>)

  /** `exercises.map(e => e.id)`. */
  function ExerciseIds(es: seq<Exercise>): seq<int> {
    MapSeq(es, (e: Exercise) => e.id)
  }

  /** `workouts.map(w => w.id)`. */
  function WorkoutIds(ws: seq<Workout>): seq<int> {
    MapSeq(ws, (w: Workout) => w.id)
  }
}
