/** The workout and exercise repository with its statistics
    (src/hooks/useWorkouts.ts). The two stored lists are fields of a class;
    every mutator replaces them the way the hook's setters do. */
module Workouts {
  import opened Lists
  import opened WorkoutTypes
  import opened Volume

  /** The library a first start is seeded with; ids "1" to "5". */
  function DefaultExercises(now: Time): seq<Exercise>
  {
    [ Exercise("1", "Bankdrücken", "Brust", now),
      Exercise("2", "Kniebeugen", "Beine", now),
      Exercise("3", "Kreuzheben", "Rücken", now),
      Exercise("4", "Schulterdrücken", "Schultern", now),
      Exercise("5", "Klimmzüge", "Rücken", now) ]
  }

  datatype Stats = Stats(totalWorkouts: nat, thisWeek: nat, totalVolume: real)

  /** The rolling window of getStats: dated at or after `since`. */
  function OnOrAfter(since: Time): Workout -> bool
  {
    (w: Workout) => w.date >= since
  }

  /** The workout is dated on calendar day `day` (`w.date.startsWith(today)`). */
  function OnDay(day: int): Workout -> bool
  {
    (w: Workout) => DayOf(w.date) == day
  }

  /** `workout.exercises.some(e => e.exerciseId === exerciseId)`. */
  function IncludesExercise(exerciseId: Id): Workout -> bool
  {
    (w: Workout) => exists e :: e in w.exercises && e.exerciseId == exerciseId
  }

  function MatchesExercise(exerciseId: Id): WorkoutExercise -> bool
  {
    (e: WorkoutExercise) => e.exerciseId == exerciseId
  }

  /** `workout.exercises.find(e => e.exerciseId === exerciseId)`. */
  function FirstEntryFor(w: Workout, exerciseId: Id): (r: Option<WorkoutExercise>)
    ensures r.Some? ==> exists j :: 0 <= j < |w.exercises| && w.exercises[j] == r.value &&
                                    r.value.exerciseId == exerciseId &&
                                    forall i :: 0 <= i < j ==> w.exercises[i].exerciseId != exerciseId
    ensures r.Some? <==> IncludesExercise(exerciseId)(w)
  {
    Find(w.exercises, MatchesExercise(exerciseId))
  }

  /** A workout yields a progress point: its first entry for the exercise has a completed set. */
  function HasProgress(exerciseId: Id): Workout -> bool
  {
    (w: Workout) => FirstEntryFor(w, exerciseId).Some? && CompletedSets(FirstEntryFor(w, exerciseId).value.sets) != []
  }

  /** The point a workout contributes to the progress chart of an exercise. */
  function ProgressPoint(w: Workout, exerciseId: Id): ExerciseProgress
    requires HasProgress(exerciseId)(w)
  {
    var e := FirstEntryFor(w, exerciseId).value;
    var completed := CompletedSets(e.sets);
    ExerciseProgress(exerciseId, e.exerciseName, w.date, MaxWeight(completed), RawVolume(completed))
  }

  /** A point records the workout's date, the heaviest completed set of the workout's first entry
      for the exercise, and that entry's completed-set volume. */
  lemma ProgressPointMeaning(w: Workout, exerciseId: Id)
    requires HasProgress(exerciseId)(w)
    ensures var e := FirstEntryFor(w, exerciseId).value;
      var r := ProgressPoint(w, exerciseId);
      && r.exerciseId == exerciseId && r.exerciseName == e.exerciseName && r.date == w.date
      && (exists s :: s in e.sets && s.completed && s.weight == r.maxWeight)
      && (forall s :: s in e.sets && s.completed ==> s.weight <= r.maxWeight)
      && r.totalVolume == SetsVolume(e.sets)
  {
    var e := FirstEntryFor(w, exerciseId).value;
    var completed := CompletedSets(e.sets);
    CompletedOnly(e.sets);
    assert forall s :: s in completed ==> exists i :: 0 <= i < |completed| && completed[i] == s;
  }

  /** The workouts behind the progress chart, in chart order. */
  function ProgressWorkouts(workouts: seq<Workout>, exerciseId: Id): seq<Workout>
  {
    Filter(SortBy(Filter(workouts, IncludesExercise(exerciseId)), DateOf), HasProgress(exerciseId))
  }

  /** The chart points of a list of qualifying workouts, one each, in the same order. */
  function PointsOf(ws: seq<Workout>, exerciseId: Id): (r: seq<ExerciseProgress>)
    requires forall w :: w in ws ==> HasProgress(exerciseId)(w)
    ensures |r| == |ws|
  {
    if ws == [] then []
    else PointsOf(ws[..|ws| - 1], exerciseId) + [ProgressPoint(ws[|ws| - 1], exerciseId)]
  }

  /** The points the chart loop collects from `c`, front to back. */
  function Series(c: seq<Workout>, exerciseId: Id): seq<ExerciseProgress>
  {
    if c == [] then []
    else
      Series(c[..|c| - 1], exerciseId) +
      (if HasProgress(exerciseId)(c[|c| - 1]) then [ProgressPoint(c[|c| - 1], exerciseId)] else [])
  }

  lemma PointsSnoc(ws: seq<Workout>, w: Workout, exerciseId: Id)
    requires forall v :: v in ws ==> HasProgress(exerciseId)(v)
    requires HasProgress(exerciseId)(w)
    ensures forall v :: v in ws + [w] ==> HasProgress(exerciseId)(v)
    ensures PointsOf(ws + [w], exerciseId) == PointsOf(ws, exerciseId) + [ProgressPoint(w, exerciseId)]
  {
    assert (ws + [w])[..|ws|] == ws;
  }

  /** Collecting front to back gives the points of exactly the qualifying workouts. */
  lemma {:induction false} SeriesIsPoints(c: seq<Workout>, exerciseId: Id)
    ensures Series(c, exerciseId) == PointsOf(Filter(c, HasProgress(exerciseId)), exerciseId)
  {
    if c != [] {
      var init, w := c[..|c| - 1], c[|c| - 1];
      var hp := HasProgress(exerciseId);
      assert c == init + [w];
      SeriesIsPoints(init, exerciseId);
      var fi := Filter(init, hp);
      assert Series(c, exerciseId) == PointsOf(fi, exerciseId) + (if hp(w) then [ProgressPoint(w, exerciseId)] else []);
      FilterSnoc(init, w, hp);
      assert Filter(c, hp) == fi + (if hp(w) then [w] else []);
      if hp(w) {
        PointsSnoc(fi, w, exerciseId);
      } else {
        assert fi + [] == fi;
      }
    }
  }

  /** The chart is in date order. */
  lemma ChartOfSorted(workouts: seq<Workout>, exerciseId: Id)
    ensures var p := PointsOf(ProgressWorkouts(workouts, exerciseId), exerciseId);
      forall i, j :: 0 <= i < j < |p| ==> p[i].date <= p[j].date
  {
    ProgressAscending(workouts, exerciseId);
    PointsDates(ProgressWorkouts(workouts, exerciseId), exerciseId);
  }

  /** Point `i` is the point of workout `i`. */
  lemma {:induction false} PointsAt(ws: seq<Workout>, exerciseId: Id, i: nat)
    requires forall w :: w in ws ==> HasProgress(exerciseId)(w)
    requires i < |ws|
    ensures PointsOf(ws, exerciseId)[i] == ProgressPoint(ws[i], exerciseId)
  {
    if i < |ws| - 1 {
      PointsAt(ws[..|ws| - 1], exerciseId, i);
    }
  }

  /** Each point carries the date of its workout. */
  lemma PointsDates(ws: seq<Workout>, exerciseId: Id)
    requires forall w :: w in ws ==> HasProgress(exerciseId)(w)
    requires SortedBy(ws, DateOf)
    ensures forall i, j :: 0 <= i < j < |ws| ==> PointsOf(ws, exerciseId)[i].date <= PointsOf(ws, exerciseId)[j].date
  {
    forall i, j | 0 <= i < j < |ws| ensures PointsOf(ws, exerciseId)[i].date <= PointsOf(ws, exerciseId)[j].date {
      PointsAt(ws, exerciseId, i);
      PointsAt(ws, exerciseId, j);
      assert DateOf(ws[i]) <= DateOf(ws[j]);
    }
  }

  /** The chart is in ascending date order. */
  lemma ProgressAscending(workouts: seq<Workout>, exerciseId: Id)
    ensures SortedBy(ProgressWorkouts(workouts, exerciseId), DateOf)
  {
    var sorted := SortBy(Filter(workouts, IncludesExercise(exerciseId)), DateOf);
    FilterKeepsSorted(sorted, HasProgress(exerciseId), DateOf);
  }

  /** One point per workout whose first entry for the exercise has a completed set, no more, no fewer. */
  lemma ProgressCoversQualifying(workouts: seq<Workout>, exerciseId: Id)
    ensures multiset(ProgressWorkouts(workouts, exerciseId)) == multiset(Filter(workouts, HasProgress(exerciseId)))
  {
    var inc := Filter(workouts, IncludesExercise(exerciseId));
    var sorted := SortBy(inc, DateOf);
    var pw := ProgressWorkouts(workouts, exerciseId);
    var direct := Filter(workouts, HasProgress(exerciseId));
    forall w ensures multiset(pw)[w] == multiset(direct)[w] {
      if HasProgress(exerciseId)(w) {
        assert IncludesExercise(exerciseId)(w);
        assert multiset(pw)[w] == multiset(sorted)[w] == multiset(inc)[w] == multiset(workouts)[w];
      }
    }
    assert multiset(pw) == multiset(direct);
  }

  /** Workouts of the same date appear on the chart in their stored order. */
  lemma ProgressKeepsTies(workouts: seq<Workout>, exerciseId: Id, t: Time)
    ensures Filter(ProgressWorkouts(workouts, exerciseId), KeyIs(DateOf, t)) ==
            Filter(Filter(workouts, HasProgress(exerciseId)), KeyIs(DateOf, t))
  {
    var inc := Filter(workouts, IncludesExercise(exerciseId));
    var hp, k := HasProgress(exerciseId), KeyIs(DateOf, t);
    FilterCommutes(SortBy(inc, DateOf), hp, k);
    SortByStable(inc, DateOf, t);
    FilterCommutes(inc, k, hp);
    FilterStronger(workouts, hp, IncludesExercise(exerciseId));
  }

  /** The `forEach` of getExerciseProgress: pushes the point of every candidate whose first entry
      for the exercise has a completed set, skipping the others. */
  method CollectPoints(candidates: seq<Workout>, exerciseId: Id) returns (progress: seq<ExerciseProgress>)
    ensures progress == PointsOf(Filter(candidates, HasProgress(exerciseId)), exerciseId)
  {
    progress := [];
    for i := 0 to |candidates|
      invariant progress == Series(candidates[..i], exerciseId)
    {
      var w := candidates[i];
      assert candidates[..i + 1][..i] == candidates[..i];
      var exercise := FirstEntryFor(w, exerciseId);
      if exercise.None? {
        continue;
      }
      var completed := CompletedSets(exercise.value.sets);
      if |completed| == 0 {
        continue;
      }
      progress := progress + [ProgressPoint(w, exerciseId)];
    }
    assert candidates[..|candidates|] == candidates;
    SeriesIsPoints(candidates, exerciseId);
  }

  /** Distinct calendar days that carry at least one workout. */
  function DaySet(workouts: seq<Workout>): set<int>
  {
    set w | w in workouts :: DayOf(w.date)
  }

  /** Length of the run of present days `from`, `from - 1`, ..., looking at most `limit` days. */
  function Run(days: set<int>, from: int, limit: nat): (r: nat)
    decreases limit
  {
    if limit == 0 || from !in days then 0 else 1 + Run(days, from - 1, limit - 1)
  }

  /** The streak: the run from today, or from yesterday when today has no workout, within 365 days. */
  function StreakOf(days: set<int>, today: int): nat
  {
    if today in days then Run(days, today, 365) else Run(days, today - 1, 364)
  }

  lemma {:induction false} RunShape(days: set<int>, from: int, limit: nat)
    ensures Run(days, from, limit) <= limit
    ensures forall d :: from - Run(days, from, limit) < d <= from ==> d in days
    ensures Run(days, from, limit) < limit ==> from - Run(days, from, limit) !in days
    decreases limit
  {
    if limit > 0 && from in days {
      RunShape(days, from - 1, limit - 1);
    }
  }

  /** The day the streak is counted back from: today, or yesterday when today has no workout. */
  function StreakStart(days: set<int>, today: int): int
  {
    if today in days then today else today - 1
  }

  /** The streak counts consecutive present days back from its start and stops at the first gap or at 365. */
  lemma StreakShape(days: set<int>, today: int)
    ensures StreakOf(days, today) <= 365
    ensures forall d :: StreakStart(days, today) - StreakOf(days, today) < d <= StreakStart(days, today) ==> d in days
    ensures StreakOf(days, today) < (if today in days then 365 else 364) ==>
            StreakStart(days, today) - StreakOf(days, today) !in days
  {
    if today in days {
      RunShape(days, today, 365);
    } else {
      RunShape(days, today - 1, 364);
    }
  }

  /** No streak exactly when neither today nor yesterday has a workout. */
  lemma StreakZeroIff(days: set<int>, today: int)
    ensures StreakOf(days, today) == 0 <==> today !in days && today - 1 !in days
  {
  }

  /** Workouts on days D, D-1 and D-3 give a streak of 2 on day D. */
  lemma StreakExample(d: int)
    ensures StreakOf({d, d - 1, d - 3}, d) == 2
  {
    var days := {d, d - 1, d - 3};
    assert d - 2 !in days;
    assert Run(days, d - 2, 363) == 0;
  }

  /** Another workout on a day that already has one leaves the streak as it was. */
  lemma StreakIgnoresRepeatedDays(workouts: seq<Workout>, w: Workout, today: int)
    requires exists v :: v in workouts && DayOf(v.date) == DayOf(w.date)
    ensures StreakOf(DaySet(workouts + [w]), today) == StreakOf(DaySet(workouts), today)
  {
    assert DaySet(workouts + [w]) == DaySet(workouts);
  }

  /** updateExercise: renames and recategorises every exercise with id `id`; nothing else changes. */
  function WithExerciseUpdated(es: seq<Exercise>, id: Id, name: string, category: string): (r: seq<Exercise>)
    ensures |r| == |es|
    ensures forall i :: 0 <= i < |es| ==>
      r[i] == if es[i].id == id then es[i].(name := name, category := category) else es[i]
    ensures (forall e :: e in es ==> e.id != id) ==> r == es
  {
    MapWhere(es, (e: Exercise) => e.id == id, (e: Exercise) => e.(name := name, category := category))
  }

  /** deleteExercise: removes exactly the exercises with id `id`, keeping the order of the rest. */
  function WithoutExercise(es: seq<Exercise>, id: Id): (r: seq<Exercise>)
    ensures forall e :: e in r <==> e in es && e.id != id
    ensures forall e: Exercise :: e.id != id ==> multiset(r)[e] == multiset(es)[e]
    ensures IsSubsequence(r, es)
  {
    Filter(es, (e: Exercise) => e.id != id)
  }

  /** updateWorkout: replaces every workout with id `id` by `w`; nothing else changes. */
  function WithWorkoutUpdated(ws: seq<Workout>, id: Id, w: Workout): (r: seq<Workout>)
    ensures |r| == |ws|
    ensures forall i :: 0 <= i < |ws| ==> r[i] == if ws[i].id == id then w else ws[i]
    ensures (forall v :: v in ws ==> v.id != id) ==> r == ws
  {
    MapWhere(ws, (v: Workout) => v.id == id, (v: Workout) => w)
  }

  /** deleteWorkout: removes exactly the workouts with id `id`, keeping the order of the rest. */
  function WithoutWorkout(ws: seq<Workout>, id: Id): (r: seq<Workout>)
    ensures forall v :: v in r <==> v in ws && v.id != id
    ensures forall v: Workout :: v.id != id ==> multiset(r)[v] == multiset(ws)[v]
    ensures IsSubsequence(r, ws)
  {
    Filter(ws, (v: Workout) => v.id != id)
  }

  /** The rolling-window count: one per workout dated at or after `since`. */
  lemma RecentCount(workouts: seq<Workout>, since: Time)
    ensures var n := |Filter(workouts, OnOrAfter(since))|;
      && n == |set i | 0 <= i < |workouts| && workouts[i].date >= since|
      && n <= |workouts|
      && ((forall w :: w in workouts ==> w.date >= since) ==> n == |workouts|)
      && ((forall w :: w in workouts ==> w.date < since) ==> n == 0)
  {
    var recent := Filter(workouts, OnOrAfter(since));
    FilterCount(workouts, OnOrAfter(since));
    assert PassingIndices(workouts, OnOrAfter(since)) == (set i | 0 <= i < |workouts| && workouts[i].date >= since);
    if forall w :: w in workouts ==> w.date >= since {
      FilterKeepsAll(workouts, OnOrAfter(since));
    }
    assert (forall w :: w in workouts ==> w.date < since) ==> recent == [];
  }

  class WorkoutStore {
    var workouts: seq<Workout>
    var exercises: seq<Exercise>

    constructor (now: Time)
      ensures workouts == [] && exercises == DefaultExercises(now)
    {
      workouts := [];
      exercises := DefaultExercises(now);
    }

    /** Appends a new exercise with a fresh id and creation time. */
    method AddExercise(id: Id, now: Time, name: string, category: string) returns (e: Exercise)
      modifies this
      ensures e == Exercise(id, name, category, now)
      ensures exercises == old(exercises) + [e] && workouts == old(workouts)
    {
      e := Exercise(id, name, category, now);
      exercises := exercises + [e];
    }

    method UpdateExercise(id: Id, name: string, category: string)
      modifies this
      ensures exercises == WithExerciseUpdated(old(exercises), id, name, category) && workouts == old(workouts)
    {
      exercises := WithExerciseUpdated(exercises, id, name, category);
    }

    method DeleteExercise(id: Id)
      modifies this
      ensures exercises == WithoutExercise(old(exercises), id) && workouts == old(workouts)
    {
      exercises := WithoutExercise(exercises, id);
    }

    /** Stores the order the drag-and-drop produced. */
    method ReorderExercises(newOrder: seq<Exercise>)
      modifies this
      ensures exercises == newOrder && workouts == old(workouts)
    {
      exercises := newOrder;
    }

    method AddWorkout(w: Workout)
      modifies this
      ensures workouts == old(workouts) + [w] && exercises == old(exercises)
    {
      workouts := workouts + [w];
    }

    method UpdateWorkout(id: Id, w: Workout)
      modifies this
      ensures workouts == WithWorkoutUpdated(old(workouts), id, w) && exercises == old(exercises)
    {
      workouts := WithWorkoutUpdated(workouts, id, w);
    }

    method DeleteWorkout(id: Id)
      modifies this
      ensures workouts == WithoutWorkout(old(workouts), id) && exercises == old(exercises)
    {
      workouts := WithoutWorkout(workouts, id);
    }

    /** The first stored workout dated on day `today`, if any. */
    function GetTodaysWorkout(today: int): (r: Option<Workout>)
      reads this
      ensures r.Some? ==> exists j :: 0 <= j < |workouts| && workouts[j] == r.value &&
                                      DayOf(r.value.date) == today &&
                                      forall k :: 0 <= k < j ==> DayOf(workouts[k].date) != today
      ensures r.None? <==> forall j :: 0 <= j < |workouts| ==> DayOf(workouts[j].date) != today
    {
      Find(workouts, OnDay(today))
    }

    /** Total count, the count of the last seven days, and the completed-set volume. */
    function GetStats(now: Time): (r: Stats)
      reads this
      ensures r.totalWorkouts == |workouts|
      ensures r.thisWeek == |set i | 0 <= i < |workouts| && workouts[i].date >= now - 7 * MsPerDay|
      ensures r.thisWeek <= r.totalWorkouts
      ensures (forall w :: w in workouts ==> w.date >= now - 7 * MsPerDay) ==> r.thisWeek == |workouts|
      ensures (forall w :: w in workouts ==> w.date < now - 7 * MsPerDay) ==> r.thisWeek == 0
      ensures r.totalVolume == RawVolume(CompletedSets(AllSets(workouts)))
    {
      var recent := Filter(workouts, OnOrAfter(now - 7 * MsPerDay));
      RecentCount(workouts, now - 7 * MsPerDay);
      TotalVolumeIsCompletedVolume(workouts);
      Stats(|workouts|, |recent|, TotalVolume(workouts))
    }

    /** The progress chart of one exercise: a point per qualifying workout, oldest first. */
    method GetExerciseProgress(exerciseId: Id) returns (progress: seq<ExerciseProgress>)
      ensures progress == PointsOf(ProgressWorkouts(workouts, exerciseId), exerciseId)
      ensures forall i, j :: 0 <= i < j < |progress| ==> progress[i].date <= progress[j].date
    {
      progress := CollectPoints(SortBy(Filter(workouts, IncludesExercise(exerciseId)), DateOf), exerciseId);
      ChartOfSorted(workouts, exerciseId);
    }

    /** Days in a row with a workout, by the backward day walk of the source. */
    method GetWorkoutStreak(today: int) returns (streak: nat)
      ensures streak == StreakOf(DaySet(workouts), today)
    {
      if |workouts| == 0 {
        return 0;
      }
      var days := DaySet(workouts);
      if today !in days && today - 1 !in days {
        return 0;
      }
      streak := 0;
      var i := 0;
      while i < 365
        invariant 0 <= i <= 365
        invariant i == 0 ==> streak == 0
        invariant i > 0 ==> StreakOf(days, today) == streak + Run(days, today - i, 365 - i)
      {
        if today - i in days {
          streak := streak + 1;
        } else if i > 0 {
          break;
        }
        i := i + 1;
      }
    }
  }
}
