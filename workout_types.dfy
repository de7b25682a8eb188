/** The entities of the tracker (src/types/workout.ts). Ids are opaque
    strings; instants are local-time milliseconds, and calendar days are the
    integer day numbers derived from them. */
module WorkoutTypes {
  import opened Lists

  type Id = string

  /** A local-time instant in milliseconds since 1970-01-01 00:00. */
  type Time = int

  const MsPerDay: int := 86400000

  /** The calendar day (`yyyy-MM-dd`) an instant falls on, as a day number. */
  function DayOf(t: Time): int
  {
    t / MsPerDay
  }

  function DateOf(w: Workout): int
  {
    w.date
  }

  datatype Exercise = Exercise(id: Id, name: string, category: string, createdAt: Time)

  /** `exercises.find(ex => ex.id === id)`. */
  function ExerciseById(exercises: seq<Exercise>, id: Id): (r: Option<Exercise>)
    ensures r.Some? ==> exists j :: 0 <= j < |exercises| && exercises[j] == r.value && r.value.id == id &&
                                    forall i :: 0 <= i < j ==> exercises[i].id != id
    ensures r.None? <==> forall i :: 0 <= i < |exercises| ==> exercises[i].id != id
  {
    Find(exercises, (e: Exercise) => e.id == id)
  }

  datatype WorkoutSet = WorkoutSet(id: Id, reps: int, weight: real, completed: bool)

  /** One exercise inside a session; `exerciseName` is a snapshot taken when it was added. */
  datatype WorkoutExercise = WorkoutExercise(
    id: Id,
    exerciseId: Id,
    exerciseName: string,
    sets: seq<WorkoutSet>,
    notes: Option<string>)

  datatype Workout = Workout(
    id: Id,
    date: Time,
    exercises: seq<WorkoutExercise>,
    duration: Option<int>,
    notes: Option<string>)

  /** One point of an exercise's progress chart. */
  datatype ExerciseProgress = ExerciseProgress(
    exerciseId: Id,
    exerciseName: string,
    date: Time,
    maxWeight: real,
    totalVolume: real)

  datatype TemplateExercise = TemplateExercise(
    exerciseId: Id,
    exerciseName: string,
    sets: int,
    reps: int,
    weight: Option<real>)

  datatype WorkoutTemplate = WorkoutTemplate(
    id: Id,
    name: string,
    description: Option<string>,
    exercises: seq<TemplateExercise>,
    createdAt: Time)

  datatype Achievement = Achievement(
    id: string,
    name: string,
    description: string,
    icon: string,
    unlocked: bool,
    unlockedAt: Option<Time>,
    progress: Option<real>,
    target: Option<real>)

  /** A Monday-to-Sunday summary; `weekStart` and `weekEnd` are day numbers. */
  datatype WeeklyReport = WeeklyReport(
    id: Id,
    weekStart: int,
    weekEnd: int,
    totalWorkouts: nat,
    totalVolume: real,
    personalRecords: nat,
    createdAt: Time)
}
