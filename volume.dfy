/** Training volume: reps times weight, summed over completed sets only. The
    same nested reduction appears in getStats, in the weekly report and in
    the history page; it is defined once here. */
module Volume {
  import opened Lists
  import opened WorkoutTypes

  function IsCompleted(s: WorkoutSet): bool
  {
    s.completed
  }

  function CompletedSets(sets: seq<WorkoutSet>): (r: seq<WorkoutSet>)
    ensures forall s :: s in r <==> s in sets && s.completed
  {
    Filter(sets, IsCompleted)
  }

  /** The contribution of one set to `set.completed ? setSum + reps * weight : setSum`. */
  function SetVolume(s: WorkoutSet): real
  {
    if s.completed then (s.reps as real) * s.weight else 0.0
  }

  function SetsVolume(sets: seq<WorkoutSet>): real
  {
    if sets == [] then 0.0 else SetVolume(sets[0]) + SetsVolume(sets[1..])
  }

  function ExercisesVolume(exercises: seq<WorkoutExercise>): real
  {
    if exercises == [] then 0.0 else SetsVolume(exercises[0].sets) + ExercisesVolume(exercises[1..])
  }

  function WorkoutVolume(w: Workout): real
  {
    ExercisesVolume(w.exercises)
  }

  function TotalVolume(workouts: seq<Workout>): real
  {
    if workouts == [] then 0.0 else WorkoutVolume(workouts[0]) + TotalVolume(workouts[1..])
  }

  /** Reps times weight over every set given, completed or not. */
  function RawVolume(sets: seq<WorkoutSet>): real
  {
    if sets == [] then 0.0 else (sets[0].reps as real) * sets[0].weight + RawVolume(sets[1..])
  }

  /** Every set of every exercise of every workout, in order. */
  function AllSets(workouts: seq<Workout>): seq<WorkoutSet>
  {
    if workouts == [] then [] else ExerciseSets(workouts[0].exercises) + AllSets(workouts[1..])
  }

  function ExerciseSets(exercises: seq<WorkoutExercise>): seq<WorkoutSet>
  {
    if exercises == [] then [] else exercises[0].sets + ExerciseSets(exercises[1..])
  }

  /** Only completed sets count: the reduction equals the raw volume of the completed sets. */
  lemma {:induction false} CompletedOnly(sets: seq<WorkoutSet>)
    ensures SetsVolume(sets) == RawVolume(CompletedSets(sets))
  {
    if sets != [] {
      CompletedOnly(sets[1..]);
      FilterCons(sets, IsCompleted);
    }
  }

  lemma {:induction false} SetsVolumeAppend(a: seq<WorkoutSet>, b: seq<WorkoutSet>)
    ensures SetsVolume(a + b) == SetsVolume(a) + SetsVolume(b)
  {
    if a == [] {
      assert a + b == b;
    } else {
      assert (a + b)[1..] == a[1..] + b;
      SetsVolumeAppend(a[1..], b);
    }
  }

  lemma {:induction false} ExercisesVolumeIsSetsVolume(exercises: seq<WorkoutExercise>)
    ensures ExercisesVolume(exercises) == SetsVolume(ExerciseSets(exercises))
  {
    if exercises != [] {
      ExercisesVolumeIsSetsVolume(exercises[1..]);
      SetsVolumeAppend(exercises[0].sets, ExerciseSets(exercises[1..]));
    }
  }

  lemma {:induction false} TotalVolumeIsSetsVolume(workouts: seq<Workout>)
    ensures TotalVolume(workouts) == SetsVolume(AllSets(workouts))
  {
    if workouts != [] {
      TotalVolumeIsSetsVolume(workouts[1..]);
      ExercisesVolumeIsSetsVolume(workouts[0].exercises);
      SetsVolumeAppend(ExerciseSets(workouts[0].exercises), AllSets(workouts[1..]));
    }
  }

  /** The total volume of a workout list is reps times weight over its completed sets and nothing else. */
  lemma TotalVolumeIsCompletedVolume(workouts: seq<Workout>)
    ensures TotalVolume(workouts) == RawVolume(CompletedSets(AllSets(workouts)))
  {
    TotalVolumeIsSetsVolume(workouts);
    CompletedOnly(AllSets(workouts));
  }

  lemma {:induction false} TotalVolumeAppend(workouts: seq<Workout>, w: Workout)
    ensures TotalVolume(workouts + [w]) == TotalVolume(workouts) + WorkoutVolume(w)
  {
    if workouts == [] {
      assert workouts + [w] == [w];
    } else {
      assert (workouts + [w])[1..] == workouts[1..] + [w];
      TotalVolumeAppend(workouts[1..], w);
    }
  }

  /** An uncompleted set adds nothing, whatever its reps and weight. */
  lemma VolumeExample()
    ensures SetsVolume([WorkoutSet("1", 10, 50.0, true), WorkoutSet("2", 5, 20.0, false)]) == 500.0
  {
    var sets := [WorkoutSet("1", 10, 50.0, true), WorkoutSet("2", 5, 20.0, false)];
    assert sets[1..][1..] == [];
  }

  /** `Math.max(...sets.map(s => s.weight))` for a non-empty list. */
  function MaxWeight(sets: seq<WorkoutSet>): (r: real)
    requires sets != []
    ensures exists i :: 0 <= i < |sets| && sets[i].weight == r
    ensures forall i :: 0 <= i < |sets| ==> sets[i].weight <= r
  {
    if |sets| == 1 then sets[0].weight
    else
      var m := MaxWeight(sets[1..]);
      assert forall i :: 1 <= i < |sets| ==> sets[i] == sets[1..][i - 1];
      if sets[0].weight >= m then sets[0].weight else m
  }

  /** The heaviest set is positive exactly when some set has a positive weight. */
  lemma MaxWeightPositive(sets: seq<WorkoutSet>)
    requires sets != []
    ensures MaxWeight(sets) > 0.0 <==> exists i :: 0 <= i < |sets| && sets[i].weight > 0.0
  {
  }
}
