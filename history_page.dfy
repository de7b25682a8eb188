/** The history page (src/pages/History.tsx): every workout, newest first,
    each with its completed-set count and volume, expandable to list its
    completed sets. */
module HistoryPage {
  import opened Lists
  import opened WorkoutTypes
  import opened Volume

  function NewestFirst(w: Workout): int
  {
    -w.date
  }

  /** `[...workouts].sort((a, b) => b.date - a.date)`: the same workouts, newest first. */
  function SortedWorkouts(workouts: seq<Workout>): (r: seq<Workout>)
    ensures multiset(r) == multiset(workouts)
    ensures forall i, j :: 0 <= i < j < |r| ==> r[i].date >= r[j].date
    ensures forall v :: Filter(r, KeyIs(NewestFirst, v)) == Filter(workouts, KeyIs(NewestFirst, v))
  {
    var r := SortBy(workouts, NewestFirst);
    assert forall i, j :: 0 <= i < j < |r| ==> NewestFirst(r[i]) <= NewestFirst(r[j]);
    assert forall v :: Filter(r, KeyIs(NewestFirst, v)) == Filter(workouts, KeyIs(NewestFirst, v)) by {
      forall v ensures Filter(r, KeyIs(NewestFirst, v)) == Filter(workouts, KeyIs(NewestFirst, v)) {
        SortByStable(workouts, NewestFirst, v);
      }
    }
    r
  }

  /** `exercises.reduce((sum, ex) => sum + ex.sets.filter(s => s.completed).length, 0)`. */
  function CompletedSetCount(exercises: seq<WorkoutExercise>): nat
  {
    if exercises == [] then 0 else |CompletedSets(exercises[0].sets)| + CompletedSetCount(exercises[1..])
  }

  /** The count shown for a workout is the number of its completed sets, at most all its sets. */
  lemma {:induction false} CompletedSetCountMeaning(exercises: seq<WorkoutExercise>)
    ensures CompletedSetCount(exercises) == |CompletedSets(ExerciseSets(exercises))|
    ensures CompletedSetCount(exercises) <= |ExerciseSets(exercises)|
  {
    if exercises != [] {
      CompletedSetCountMeaning(exercises[1..]);
      FilterAppend(exercises[0].sets, ExerciseSets(exercises[1..]), IsCompleted);
    }
  }

  /** The volume shown for a workout: reps times weight over its completed sets only. */
  lemma WorkoutVolumeMeaning(w: Workout)
    ensures WorkoutVolume(w) == RawVolume(CompletedSets(ExerciseSets(w.exercises)))
  {
    ExercisesVolumeIsSetsVolume(w.exercises);
    CompletedOnly(ExerciseSets(w.exercises));
  }

  /** A row of the expanded view: position among the completed sets, from 1, and the set. */
  datatype ListedSet = ListedSet(number: nat, entry: WorkoutSet)

  function CompletedListing(e: WorkoutExercise): (r: seq<ListedSet>)
    ensures |r| == |CompletedSets(e.sets)|
    ensures forall k :: 0 <= k < |r| ==> r[k].number == k + 1 && r[k].entry.completed && r[k].entry in e.sets
    ensures forall s :: s in e.sets && s.completed ==> exists k :: 0 <= k < |r| && r[k].entry == s
  {
    var done := CompletedSets(e.sets);
    var r := seq(|done|, k requires 0 <= k < |done| => ListedSet(k + 1, done[k]));
    assert forall k :: 0 <= k < |r| ==> r[k].entry == done[k];
    assert forall s :: s in done ==> exists k :: 0 <= k < |r| && r[k].entry == s;
    r
  }

  /** `Set` copy plus `delete` or `add`: membership of `id` flips, nothing else changes. */
  function Toggled(expanded: set<Id>, id: Id): (r: set<Id>)
    ensures id in r <==> id !in expanded
    ensures forall x :: x != id ==> (x in r <==> x in expanded)
  {
    if id in expanded then expanded - {id} else expanded + {id}
  }

  /** Toggling twice restores the expanded set. */
  lemma ToggleTwice(expanded: set<Id>, id: Id)
    ensures Toggled(Toggled(expanded, id), id) == expanded
  {
  }

  /** The page's state: which workouts are expanded. */
  class HistoryView {
    var expanded: set<Id>

    constructor ()
      ensures expanded == {}
    {
      expanded := {};
    }

    method ToggleWorkout(id: Id)
      modifies this
      ensures expanded == Toggled(old(expanded), id)
    {
      var next := expanded;
      if id in next {
        next := next - {id};
      } else {
        next := next + {id};
      }
      expanded := next;
    }

    function IsExpanded(id: Id): bool
      reads this
    {
      id in expanded
    }
  }
}
