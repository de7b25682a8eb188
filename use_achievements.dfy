/** The achievement engine (src/hooks/useAchievements.ts): a fixed catalog,
    evaluated against the current counters; an unlocked achievement is never
    touched again. */
module Achievements {
  import opened Lists
  import opened WorkoutTypes
  import opened Text

  /** The counters checkAchievements is called with. */
  datatype Counters = Counters(totalWorkouts: nat, totalVolume: real, currentStreak: nat)

  /** What an achievement measures, decided by the words its id contains, in this order. */
  datatype Kind = WorkoutCount | StreakLength | LiftedVolume | Untracked

  function KindOf(id: string): Kind
  {
    if Contains(id, "workout") then WorkoutCount
    else if Contains(id, "streak") then StreakLength
    else if Contains(id, "volume") then LiftedVolume
    else Untracked
  }

  /** The counter an achievement of kind `k` reads; untracked ones read 0. */
  function Measure(k: Kind, c: Counters): real
  {
    match k
    case WorkoutCount => c.totalWorkouts as real
    case StreakLength => c.currentStreak as real
    case LiftedVolume => c.totalVolume
    case Untracked => 0.0
  }

  /** `achievement.target || 0`. */
  function TargetOrZero(a: Achievement): real
  {
    if a.target.Some? then a.target.value else 0.0
  }

  /** One entry of the `map` in checkAchievements. */
  function Evaluate(a: Achievement, c: Counters, now: Time): (r: Achievement)
    ensures a.unlocked ==> r == a
    ensures r.id == a.id && r.name == a.name && r.description == a.description && r.icon == a.icon && r.target == a.target
    ensures !a.unlocked ==> r.progress == Some(Measure(KindOf(a.id), c))
    ensures !a.unlocked ==> (r.unlocked <==> KindOf(a.id) != Untracked && Measure(KindOf(a.id), c) >= TargetOrZero(a))
    ensures !a.unlocked ==> r.unlockedAt == if r.unlocked then Some(now) else a.unlockedAt
  {
    if a.unlocked then a
    else
      var (progress, shouldUnlock) :=
        if Contains(a.id, "workout") then
          (c.totalWorkouts as real, c.totalWorkouts as real >= TargetOrZero(a))
        else if Contains(a.id, "streak") then
          (c.currentStreak as real, c.currentStreak as real >= TargetOrZero(a))
        else if Contains(a.id, "volume") then
          (c.totalVolume, c.totalVolume >= TargetOrZero(a))
        else
          (0.0, false);
      if shouldUnlock then a.(unlocked := true, unlockedAt := Some(now), progress := Some(progress))
      else a.(progress := Some(progress))
  }

  function EvaluateAll(prev: seq<Achievement>, c: Counters, now: Time): (r: seq<Achievement>)
    ensures |r| == |prev| && forall i :: 0 <= i < |prev| ==> r[i] == Evaluate(prev[i], c, now)
  {
    seq(|prev|, i requires 0 <= i < |prev| => Evaluate(prev[i], c, now))
  }

  /** Some entry's progress or unlocked flag differs from before. */
  predicate HasChanges(prev: seq<Achievement>, updated: seq<Achievement>)
    requires |prev| == |updated|
  {
    exists i :: 0 <= i < |prev| && (updated[i].progress != prev[i].progress || updated[i].unlocked != prev[i].unlocked)
  }

  /** The list checkAchievements stores: the updated one, or the previous one when nothing changed. */
  function AfterCheck(prev: seq<Achievement>, c: Counters, now: Time): (r: seq<Achievement>)
    ensures |r| == |prev|
  {
    var updated := EvaluateAll(prev, c, now);
    if HasChanges(prev, updated) then updated else prev
  }

  /** The change check only spares a re-render: the stored list is always the evaluated one. */
  lemma AfterCheckIsEvaluation(prev: seq<Achievement>, c: Counters, now: Time)
    ensures AfterCheck(prev, c, now) == EvaluateAll(prev, c, now)
  {
    var updated := EvaluateAll(prev, c, now);
    if !HasChanges(prev, updated) {
      forall i | 0 <= i < |prev| ensures updated[i] == prev[i] {
        assert !(updated[i].progress != prev[i].progress || updated[i].unlocked != prev[i].unlocked);
      }
    }
  }

  /** Checking twice with the same counters changes nothing the second time, whatever the clock says. */
  lemma CheckIdempotent(prev: seq<Achievement>, c: Counters, now: Time, later: Time)
    ensures AfterCheck(AfterCheck(prev, c, now), c, later) == AfterCheck(prev, c, now)
  {
    var once := AfterCheck(prev, c, now);
    AfterCheckIsEvaluation(prev, c, now);
    AfterCheckIsEvaluation(once, c, later);
    var twice := AfterCheck(once, c, later);
    forall i | 0 <= i < |once| ensures twice[i] == once[i] {
      assert once[i] == Evaluate(prev[i], c, now);
    }
  }

  /** An unlocked achievement keeps its flag, date and progress, whatever the counters do later. */
  lemma UnlockedIsFrozen(prev: seq<Achievement>, c: Counters, now: Time, i: nat)
    requires i < |prev| && prev[i].unlocked
    ensures i < |AfterCheck(prev, c, now)| && AfterCheck(prev, c, now)[i] == prev[i]
  {
    AfterCheckIsEvaluation(prev, c, now);
  }

  /** An achievement is earned when its stored progress reaches its target. */
  predicate Earned(a: Achievement)
  {
    a.unlocked ==> a.progress.Some? && a.progress.value >= TargetOrZero(a)
  }

  /** Every unlocked achievement was earned: checking keeps that true of the whole list. */
  lemma CheckKeepsEarned(prev: seq<Achievement>, c: Counters, now: Time)
    requires forall i :: 0 <= i < |prev| ==> Earned(prev[i])
    ensures forall i :: 0 <= i < |AfterCheck(prev, c, now)| ==> Earned(AfterCheck(prev, c, now)[i])
  {
    AfterCheckIsEvaluation(prev, c, now);
  }

  /** Checking neither adds, drops nor reorders achievements. */
  lemma CheckKeepsIds(prev: seq<Achievement>, c: Counters, now: Time)
    ensures |AfterCheck(prev, c, now)| == |prev|
    ensures forall i :: 0 <= i < |prev| ==> AfterCheck(prev, c, now)[i].id == prev[i].id
  {
    AfterCheckIsEvaluation(prev, c, now);
  }

  /** An achievement that has not been unlocked unlocks exactly when its counter reaches its target. */
  lemma UnlocksIff(prev: seq<Achievement>, c: Counters, now: Time, i: nat)
    requires i < |prev| && !prev[i].unlocked
    ensures i < |AfterCheck(prev, c, now)|
    ensures AfterCheck(prev, c, now)[i].unlocked <==>
            KindOf(prev[i].id) != Untracked && Measure(KindOf(prev[i].id), c) >= TargetOrZero(prev[i])
    ensures AfterCheck(prev, c, now)[i].unlocked ==> AfterCheck(prev, c, now)[i].unlockedAt == Some(now)
  {
    AfterCheckIsEvaluation(prev, c, now);
  }

  /** Every counter of `c` is at most the same counter of `d`. */
  predicate CountersAtMost(c: Counters, d: Counters)
  {
    c.totalWorkouts <= d.totalWorkouts && c.totalVolume <= d.totalVolume && c.currentStreak <= d.currentStreak
  }

  /** Higher counters never unlock less: an entry that a check with `c` leaves unlocked is unlocked by a check
      of the same list with counters at least as high, at any time. */
  lemma UnlockedOnlyGrows(prev: seq<Achievement>, c: Counters, d: Counters, now: Time, later: Time, i: nat)
    requires CountersAtMost(c, d)
    requires i < |prev| && AfterCheck(prev, c, now)[i].unlocked
    ensures AfterCheck(prev, d, later)[i].unlocked
  {
    if !prev[i].unlocked {
      UnlocksIff(prev, c, now, i);
      UnlocksIff(prev, d, later, i);
      assert Measure(KindOf(prev[i].id), c) <= Measure(KindOf(prev[i].id), d);
    }
  }

  // The catalog.

  function Definition(id: string, name: string, description: string, icon: string, target: real): Achievement
  {
    Achievement(id, name, description, icon, false, None, Some(0.0), Some(target))
  }

  /** The nine achievements, locked, with progress 0: the first-start state. */
  function InitialAchievements(): (r: seq<Achievement>)
    ensures |r| == 9
    ensures forall i :: 0 <= i < |r| ==> !r[i].unlocked && r[i].unlockedAt == None && r[i].progress == Some(0.0)
    ensures forall i :: 0 <= i < |r| ==> r[i].target.Some? && r[i].target.value > 0.0
  {
    [ Definition("first-workout", "First Steps", "Complete your first workout", "\U{1F3AF}", 1.0),
      Definition("week-streak", "Week Warrior", "Train 7 days in a row", "\U{1F525}", 7.0),
      Definition("month-streak", "Monthly Master", "Train 30 days in a row", "\U{1F4AA}", 30.0),
      Definition("10-workouts", "Getting Started", "Complete 10 workouts", "\U{2B50}", 10.0),
      Definition("50-workouts", "Dedicated", "Complete 50 workouts", "\U{1F3C6}", 50.0),
      Definition("100-workouts", "Centurion", "Complete 100 workouts", "\U{1F451}", 100.0),
      Definition("10k-volume", "Iron Mover", "Lift 10,000 kg total", "\U{1F3CB}\U{FE0F}", 10000.0),
      Definition("50k-volume", "Volume King", "Lift 50,000 kg total", "\U{1F48E}", 50000.0),
      Definition("100k-volume", "Mountain Mover", "Lift 100,000 kg total", "\U{26F0}\U{FE0F}", 100000.0) ]
  }

  // Which counter each catalog id reads. A pattern is ruled out by a letter of it that the id lacks.

  lemma FirstWorkoutKind()
    ensures KindOf("first-workout") == WorkoutCount
  {
  }

  lemma TenWorkoutsKind()
    ensures KindOf("10-workouts") == WorkoutCount
  {
  }

  lemma FiftyWorkoutsKind()
    ensures KindOf("50-workouts") == WorkoutCount
  {
  }

  lemma HundredWorkoutsKind()
    ensures KindOf("100-workouts") == WorkoutCount
  {
  }

  /** An id without a 'u' that contains "streak" reads the streak. */
  lemma StreakId(id: string, at: int)
    requires 'u' !in id && OccursAt(id, "streak", at)
    ensures KindOf(id) == StreakLength
  {
    ContainsChar(id, "workout", 'u');
    ContainsAt(id, "streak");
  }

  /** An id without a 'w' or an 's' that contains "volume" reads the lifted volume. */
  lemma VolumeId(id: string, at: int)
    requires 'w' !in id && 's' !in id && OccursAt(id, "volume", at)
    ensures KindOf(id) == LiftedVolume
  {
    ContainsChar(id, "workout", 'w');
    ContainsChar(id, "streak", 's');
    ContainsAt(id, "volume");
  }

  lemma WeekStreakKind()
    ensures KindOf("week-streak") == StreakLength
  {
    StreakId("week-streak", 5);
  }

  lemma MonthStreakKind()
    ensures KindOf("month-streak") == StreakLength
  {
    StreakId("month-streak", 6);
  }

  lemma TenKVolumeKind()
    ensures KindOf("10k-volume") == LiftedVolume
  {
    VolumeId("10k-volume", 4);
  }

  lemma FiftyKVolumeKind()
    ensures KindOf("50k-volume") == LiftedVolume
  {
    VolumeId("50k-volume", 4);
  }

  lemma HundredKVolumeKind()
    ensures KindOf("100k-volume") == LiftedVolume
  {
    VolumeId("100k-volume", 5);
  }

  /** Catalog entries 0, 3, 4 and 5 count workouts. */
  lemma CatalogWorkoutEntries(i: nat)
    requires i == 0 || 3 <= i <= 5
    ensures KindOf(InitialAchievements()[i].id) == WorkoutCount
  {
    var init := InitialAchievements();
    if i == 0 {
      assert init[0].id == "first-workout";
      FirstWorkoutKind();
    } else if i == 3 {
      assert init[3].id == "10-workouts";
      TenWorkoutsKind();
    } else if i == 4 {
      assert init[4].id == "50-workouts";
      FiftyWorkoutsKind();
    } else {
      assert init[5].id == "100-workouts";
      HundredWorkoutsKind();
    }
  }

  lemma WeekEntryKind()
    ensures KindOf(InitialAchievements()[1].id) == StreakLength
  {
    var init := InitialAchievements();
    assert init[1].id == "week-streak";
    WeekStreakKind();
  }

  lemma MonthEntryKind()
    ensures KindOf(InitialAchievements()[2].id) == StreakLength
  {
    var init := InitialAchievements();
    assert init[2].id == "month-streak";
    MonthStreakKind();
  }

  /** Catalog entries 1 and 2 read the streak. */
  lemma CatalogStreakEntries(i: nat)
    requires 1 <= i <= 2
    ensures KindOf(InitialAchievements()[i].id) == StreakLength
  {
    var init := InitialAchievements();
    if i == 1 {
      WeekEntryKind();
    } else {
      MonthEntryKind();
    }
  }

  /** Catalog entries 6, 7 and 8 read the lifted volume. */
  lemma CatalogVolumeEntries(i: nat)
    requires 6 <= i <= 8
    ensures KindOf(InitialAchievements()[i].id) == LiftedVolume
  {
    var init := InitialAchievements();
    if i == 6 {
      assert init[6].id == "10k-volume";
      TenKVolumeKind();
    } else if i == 7 {
      assert init[7].id == "50k-volume";
      FiftyKVolumeKind();
    } else {
      assert init[8].id == "100k-volume";
      HundredKVolumeKind();
    }
  }

  /** Every catalog entry reads a counter, so each one can be unlocked. */
  lemma CatalogTracked(i: nat)
    requires i < 9
    ensures KindOf(InitialAchievements()[i].id) != Untracked
  {
    if i == 0 || 3 <= i <= 5 {
      CatalogWorkoutEntries(i);
    } else if i <= 2 {
      CatalogStreakEntries(i);
    } else {
      CatalogVolumeEntries(i);
    }
  }

  /** One workout is enough for "First Steps". */
  lemma FirstStepsAfterOneWorkout(c: Counters, now: Time)
    requires c.totalWorkouts >= 1
    ensures AfterCheck(InitialAchievements(), c, now)[0].unlocked
  {
    var init := InitialAchievements();
    assert init[0].id == "first-workout" && TargetOrZero(init[0]) == 1.0;
    FirstWorkoutKind();
    UnlocksIff(init, c, now, 0);
  }

  /** A six-day streak unlocks neither streak achievement. */
  lemma SixDaysIsNoWeek(c: Counters, now: Time)
    requires c.currentStreak == 6
    ensures !AfterCheck(InitialAchievements(), c, now)[1].unlocked
    ensures !AfterCheck(InitialAchievements(), c, now)[2].unlocked
  {
    var init := InitialAchievements();
    assert init[1].id == "week-streak" && TargetOrZero(init[1]) == 7.0;
    assert init[2].id == "month-streak" && TargetOrZero(init[2]) == 30.0;
    WeekStreakKind();
    MonthStreakKind();
    UnlocksIff(init, c, now, 1);
    UnlocksIff(init, c, now, 2);
  }

  /** `Math.round` for the non-negative and negative reals alike: the nearest integer, halves up. */
  function Round(x: real): (r: int)
    ensures r as real - 0.5 <= x < r as real + 0.5
  {
    (x + 0.5).Floor
  }

  lemma QuotientAtLeastOne(p: real, t: real)
    requires t > 0.0 && p >= t
    ensures p / t >= 1.0
  {
    var q := p / t;
    assert (q - 1.0) * t == p - t >= 0.0;
  }

  /** The share of the target reached, rounded, capped at 100; 0 without a target. */
  function ProgressPercentage(a: Achievement): (r: int)
    ensures r <= 100
    ensures (a.target.None? || a.target.value == 0.0) ==> r == 0
    ensures a.target.Some? && a.target.value > 0.0 && a.progress.Some? && a.progress.value >= a.target.value ==> r == 100
    ensures a.target.Some? && a.target.value > 0.0 && (a.progress.None? || a.progress.value >= 0.0) ==> r >= 0
    ensures a.target.Some? && a.target.value != 0.0 ==>
      var x := (if a.progress.Some? then a.progress.value else 0.0) / a.target.value * 100.0;
      (r < 100 ==> r as real - 0.5 <= x < r as real + 0.5) && (r == 100 ==> x >= 99.5)
  {
    if a.target.None? || a.target.value == 0.0 then 0
    else
      var progress := if a.progress.Some? then a.progress.value else 0.0;
      var t := a.target.value;
      assert t > 0.0 && progress >= 0.0 ==> progress / t * 100.0 >= 0.0;
      assert t > 0.0 && progress >= t ==> progress / t >= 1.0 by {
        if t > 0.0 && progress >= t {
          QuotientAtLeastOne(progress, t);
        }
      }
      var rounded := Round(progress / t * 100.0);
      if rounded < 100 then rounded else 100
  }

  /** An achievement unlocked by the engine shows 100 percent when its target is positive. */
  lemma EarnedShowsFull(a: Achievement)
    requires Earned(a) && a.unlocked && a.target.Some? && a.target.value > 0.0
    ensures ProgressPercentage(a) == 100
  {
  }

  function IsUnlocked(a: Achievement): bool
  {
    a.unlocked
  }

  /** The length of the unlocked filter is the number of unlocked positions. */
  lemma UnlockedCount(s: seq<Achievement>)
    ensures |Filter(s, IsUnlocked)| == |set i | 0 <= i < |s| && s[i].unlocked|
  {
    FilterCount(s, IsUnlocked);
    assert PassingIndices(s, IsUnlocked) == (set i | 0 <= i < |s| && s[i].unlocked);
  }

  class AchievementStore {
    var achievements: seq<Achievement>

    constructor ()
      ensures achievements == InitialAchievements()
    {
      achievements := InitialAchievements();
    }

    /** Evaluates every achievement against `c`; `now` stamps the ones unlocked by this call. */
    method CheckAchievements(c: Counters, now: Time)
      modifies this
      ensures achievements == AfterCheck(old(achievements), c, now)
    {
      var updated := EvaluateAll(achievements, c, now);
      if HasChanges(achievements, updated) {
        achievements := updated;
      }
    }

    /** How many achievements are unlocked. */
    function GetUnlockedCount(): (n: nat)
      reads this
      ensures n <= |achievements|
      ensures n == 0 <==> forall i :: 0 <= i < |achievements| ==> !achievements[i].unlocked
      ensures n == |achievements| <==> forall i :: 0 <= i < |achievements| ==> achievements[i].unlocked
      ensures n == |set i | 0 <= i < |achievements| && achievements[i].unlocked|
    {
      var unlocked := Filter(achievements, IsUnlocked);
      FilterAllOrNone(achievements, IsUnlocked);
      UnlockedCount(achievements);
      |unlocked|
    }
  }
}
