/** Weekly training summaries (src/hooks/useWeeklyReports.ts): a Monday-to-Sunday
    report computed from the workouts, kept at most once per week in a list
    with the newest week first. */
module WeeklyReports {
  import opened Lists
  import opened WorkoutTypes
  import opened Volume

  // Calendar weeks. Day 0 (1970-01-01) was a Thursday; Monday is weekday 0.

  function Weekday(day: int): (r: int)
    ensures 0 <= r < 7
  {
    (day + 3) % 7
  }

  /** `startOfWeek(date, { weekStartsOn: 1 })` as a day number. */
  function WeekStart(day: int): (r: int)
    ensures Weekday(r) == 0 && r <= day <= r + 6
  {
    day - Weekday(day)
  }

  /** The Monday on or before `day`, and `day` is one of the seven days it starts. */
  lemma WeekStartIsMonday(day: int)
    ensures Weekday(WeekStart(day)) == 0
    ensures WeekStart(day) <= day <= WeekStart(day) + 6
  {
  }

  /** Every day of a week has the same week start. */
  lemma SameWeek(day: int, other: int)
    requires WeekStart(day) <= other <= WeekStart(day) + 6
    ensures WeekStart(other) == WeekStart(day)
  {
    var k := other - WeekStart(day);
    assert (WeekStart(day) + 3) % 7 == 0;
    assert (other + 3) % 7 == k by {
      assert other + 3 == (WeekStart(day) + 3) + k;
    }
  }

  /** `isWithinInterval(date, { start: weekStart, end: weekEnd })` on the days of the week. */
  function InWeek(weekStart: int): Workout -> bool
  {
    (w: Workout) => weekStart <= DayOf(w.date) <= weekStart + 6
  }

  function WeekWorkouts(workouts: seq<Workout>, weekStart: int): (r: seq<Workout>)
    ensures forall w :: w in r <==> w in workouts && weekStart <= DayOf(w.date) <= weekStart + 6
    ensures IsSubsequence(r, workouts)
  {
    Filter(workouts, InWeek(weekStart))
  }

  // Personal records.

  /** Some completed set carries weight. */
  function HasWeightedSet(sets: seq<WorkoutSet>): bool
  {
    sets != [] && ((sets[0].completed && sets[0].weight > 0.0) || HasWeightedSet(sets[1..]))
  }

  lemma {:induction false} HasWeightedSetIff(sets: seq<WorkoutSet>)
    ensures HasWeightedSet(sets) <==> exists i :: 0 <= i < |sets| && sets[i].completed && sets[i].weight > 0.0
  {
    if sets != [] {
      HasWeightedSetIff(sets[1..]);
      assert forall i :: 1 <= i < |sets| ==> sets[i] == sets[1..][i - 1];
    }
  }

  /** The test of the record loop (there are completed sets and the heaviest beats the 0 an absent
      map entry reads as) holds exactly when some completed set carries weight. */
  lemma RecordTest(sets: seq<WorkoutSet>)
    ensures (|CompletedSets(sets)| > 0 && MaxWeight(CompletedSets(sets)) > 0.0) <==> HasWeightedSet(sets)
  {
    HasWeightedSetIff(sets);
    var completed := CompletedSets(sets);
    if HasWeightedSet(sets) {
      var i :| 0 <= i < |sets| && sets[i].completed && sets[i].weight > 0.0;
      assert sets[i] in completed;
      var j :| 0 <= j < |completed| && completed[j] == sets[i];
    }
    if |completed| > 0 && MaxWeight(completed) > 0.0 {
      var j :| 0 <= j < |completed| && completed[j].weight == MaxWeight(completed);
      assert completed[j] in completed;
      var i :| 0 <= i < |sets| && sets[i] == completed[j];
    }
  }

  predicate SetsARecord(e: WorkoutExercise)
  {
    HasWeightedSet(e.sets)
  }

  /** Exercise ids of the entries in `es` that set a record. */
  function EntryRecordIds(es: seq<WorkoutExercise>): set<Id>
  {
    if es == [] then {}
    else EntryRecordIds(es[..|es| - 1]) + (if SetsARecord(es[|es| - 1]) then {es[|es| - 1].exerciseId} else {})
  }

  /** The callback for one entry: its heaviest completed set replaces a smaller stored maximum. */
  method RaiseMax(maxWeights: map<Id, real>, e: WorkoutExercise) returns (updated: map<Id, real>)
    requires forall k :: k in maxWeights ==> maxWeights[k] > 0.0
    ensures updated.Keys == maxWeights.Keys + (if SetsARecord(e) then {e.exerciseId} else {})
    ensures forall k :: k in updated ==> updated[k] > 0.0
  {
    updated := maxWeights;
    var completed := CompletedSets(e.sets);
    RecordTest(e.sets);
    if |completed| > 0 {
      var maxWeight := MaxWeight(completed);
      var currentMax := if e.exerciseId in updated then updated[e.exerciseId] else 0.0;
      if maxWeight > currentMax {
        updated := updated[e.exerciseId := maxWeight];
      }
    }
  }

  lemma EntryRecordIdsSnoc(es: seq<WorkoutExercise>, j: nat)
    requires j < |es|
    ensures EntryRecordIds(es[..j + 1]) == EntryRecordIds(es[..j]) + (if SetsARecord(es[j]) then {es[j].exerciseId} else {})
  {
    assert es[..j + 1][..j] == es[..j];
  }

  /** Exercise ids of the entries of `ws` that set a record: the keys of `exerciseMaxWeights`. */
  function RecordIds(ws: seq<Workout>): set<Id>
  {
    if ws == [] then {} else RecordIds(ws[..|ws| - 1]) + EntryRecordIds(ws[|ws| - 1].exercises)
  }

  /** Entry `j` of `es` is for exercise `k` and sets a record. */
  ghost predicate RecordEntry(es: seq<WorkoutExercise>, j: int, k: Id)
  {
    0 <= j < |es| && es[j].exerciseId == k && SetsARecord(es[j])
  }

  lemma {:induction false} EntryRecordIdsMeaning(es: seq<WorkoutExercise>, k: Id)
    ensures k in EntryRecordIds(es) <==> exists j :: RecordEntry(es, j, k)
  {
    if es != [] {
      var init := es[..|es| - 1];
      EntryRecordIdsMeaning(init, k);
      if k in EntryRecordIds(init) {
        var j :| RecordEntry(init, j, k);
        assert es[j] == init[j];
        assert RecordEntry(es, j, k);
      }
      if k !in EntryRecordIds(init) && k in EntryRecordIds(es) {
        assert RecordEntry(es, |es| - 1, k);
      }
      if exists j :: RecordEntry(es, j, k) {
        var j :| RecordEntry(es, j, k);
        if j < |init| {
          assert init[j] == es[j];
          assert RecordEntry(init, j, k);
        }
      }
    }
  }

  /** Workout `i` of `ws` has a record-setting entry for exercise `k`. */
  ghost predicate RecordWorkout(ws: seq<Workout>, i: int, k: Id)
  {
    0 <= i < |ws| && exists j | 0 <= j < |ws[i].exercises| :: RecordEntry(ws[i].exercises, j, k)
  }

  /** The personal-record count: exercises with a weighted completed set somewhere in the week. */
  lemma {:induction false} RecordIdsMeaning(ws: seq<Workout>, k: Id)
    ensures k in RecordIds(ws) <==> exists i :: RecordWorkout(ws, i, k)
  {
    if ws != [] {
      var init, last := ws[..|ws| - 1], ws[|ws| - 1];
      RecordIdsMeaning(init, k);
      EntryRecordIdsMeaning(last.exercises, k);
      if k in RecordIds(init) {
        var i :| RecordWorkout(init, i, k);
        assert ws[i] == init[i];
        assert RecordWorkout(ws, i, k);
      }
      if k in EntryRecordIds(last.exercises) {
        assert RecordWorkout(ws, |ws| - 1, k);
      }
      if exists i :: RecordWorkout(ws, i, k) {
        var i :| RecordWorkout(ws, i, k);
        if i < |init| {
          assert init[i] == ws[i];
          assert RecordWorkout(init, i, k);
        }
      }
    }
  }

  /** The report of the week containing `date`. */
  function Report(workouts: seq<Workout>, date: Time, id: Id, createdAt: Time): (r: WeeklyReport)
    ensures Weekday(r.weekStart) == 0 && r.weekEnd == r.weekStart + 6
    ensures r.weekStart <= DayOf(date) <= r.weekEnd
    ensures r.totalWorkouts == |WeekWorkouts(workouts, r.weekStart)| <= |workouts|
    ensures r.personalRecords == |RecordIds(WeekWorkouts(workouts, r.weekStart))|
    ensures r.totalVolume == RawVolume(CompletedSets(AllSets(WeekWorkouts(workouts, r.weekStart))))
    ensures r.id == id && r.createdAt == createdAt
  {
    var weekStart := WeekStart(DayOf(date));
    var week := WeekWorkouts(workouts, weekStart);
    TotalVolumeIsCompletedVolume(week);
    WeeklyReport(id, weekStart, weekStart + 6, |week|, TotalVolume(week), |RecordIds(week)|, createdAt)
  }

  /** Summarises the week that contains `date`; `id` and `createdAt` come from the clock. */
  method ComputeReport(workouts: seq<Workout>, date: Time, id: Id, createdAt: Time) returns (r: WeeklyReport)
    ensures r == Report(workouts, date, id, createdAt)
  {
    var weekStart := WeekStart(DayOf(date));
    var weekEnd := weekStart + 6;
    var weekWorkouts := WeekWorkouts(workouts, weekStart);
    var totalVolume := TotalVolume(weekWorkouts);
    var exerciseMaxWeights: map<Id, real> := map[];
    for i := 0 to |weekWorkouts|
      invariant exerciseMaxWeights.Keys == RecordIds(weekWorkouts[..i])
      invariant forall k :: k in exerciseMaxWeights ==> exerciseMaxWeights[k] > 0.0
    {
      assert weekWorkouts[..i + 1][..i] == weekWorkouts[..i];
      exerciseMaxWeights := TrackMaxWeights(exerciseMaxWeights, weekWorkouts[i].exercises);
    }
    assert weekWorkouts[..|weekWorkouts|] == weekWorkouts;
    r := WeeklyReport(id, weekStart, weekEnd, |weekWorkouts|, totalVolume, |exerciseMaxWeights.Keys|, createdAt);
  }

  /** The inner `forEach` of the record count: raises each exercise's best completed weight in the map. */
  method TrackMaxWeights(maxWeights: map<Id, real>, exercises: seq<WorkoutExercise>) returns (updated: map<Id, real>)
    requires forall k :: k in maxWeights ==> maxWeights[k] > 0.0
    ensures updated.Keys == maxWeights.Keys + EntryRecordIds(exercises)
    ensures forall k :: k in updated ==> updated[k] > 0.0
  {
    updated := maxWeights;
    for j := 0 to |exercises|
      invariant updated.Keys == maxWeights.Keys + EntryRecordIds(exercises[..j])
      invariant forall k :: k in updated ==> updated[k] > 0.0
    {
      EntryRecordIdsSnoc(exercises, j);
      updated := RaiseMax(updated, exercises[j]);
    }
    assert exercises[..|exercises|] == exercises;
  }

  // The stored list.

  /** The figures generateWeeklyReport compares. */
  predicate SameFigures(a: WeeklyReport, b: WeeklyReport)
  {
    a.weekEnd == b.weekEnd && a.totalWorkouts == b.totalWorkouts &&
    a.totalVolume == b.totalVolume && a.personalRecords == b.personalRecords
  }

  function SameWeekAs(weekStart: int): WeeklyReport -> bool
  {
    (r: WeeklyReport) => r.weekStart == weekStart
  }

  datatype Generated = Generated(reports: seq<WeeklyReport>, report: WeeklyReport)

  /** The list after generateWeeklyReport and the report it returns: an unchanged entry for the
      week is kept as is, a changed one is overwritten in place, a new week goes first. */
  function Upsert(reports: seq<WeeklyReport>, report: WeeklyReport): (g: Generated)
    ensures (exists i :: 0 <= i < |reports| && reports[i].weekStart == report.weekStart) ==> |g.reports| == |reports|
    ensures (forall i :: 0 <= i < |reports| ==> reports[i].weekStart != report.weekStart) ==> g.reports == [report] + reports
  {
    match FindIndex(reports, SameWeekAs(report.weekStart))
    case Some(k) =>
      var existing := reports[k];
      if SameFigures(existing, report) then Generated(reports, existing)
      else Generated(reports[k := report], report)
    case None => Generated([report] + reports, report)
  }

  /** When `k` is the first stored report of the week: equal figures return that stored entry, with its own
      id and creation time, and keep the list; changed figures overwrite exactly entry `k` with the new report. */
  lemma UpsertHit(reports: seq<WeeklyReport>, report: WeeklyReport, k: nat)
    requires k < |reports| && reports[k].weekStart == report.weekStart
    requires forall j :: 0 <= j < k ==> reports[j].weekStart != report.weekStart
    ensures SameFigures(reports[k], report) ==> Upsert(reports, report) == Generated(reports, reports[k])
    ensures !SameFigures(reports[k], report) ==> Upsert(reports, report) == Generated(reports[k := report], report)
  {
    FindIndexIsFirst(reports, SameWeekAs(report.weekStart), k);
  }

  /** No two stored reports cover the same week. */
  predicate DistinctWeeks(reports: seq<WeeklyReport>)
  {
    forall i, j :: 0 <= i < j < |reports| ==> reports[i].weekStart != reports[j].weekStart
  }

  /** After storing, looking the week up finds the returned report, which has the new figures. */
  lemma UpsertThenFind(reports: seq<WeeklyReport>, report: WeeklyReport)
    ensures var g := Upsert(reports, report);
      && Find(g.reports, SameWeekAs(report.weekStart)) == Some(g.report)
      && SameFigures(g.report, report) && g.report.weekStart == report.weekStart
  {
    var g := Upsert(reports, report);
    var p := SameWeekAs(report.weekStart);
    match FindIndex(reports, p)
    case Some(k) =>
      assert forall j :: 0 <= j < k ==> g.reports[j] == reports[j];
      assert FindIndex(g.reports, p) == Some(k) by {
        FindIndexIsFirst(g.reports, p, k);
      }
    case None =>
      assert FindIndex(g.reports, p) == Some(0);
  }

  lemma FindIndexIsFirst<T>(s: seq<T>, p: T -> bool, k: nat)
    requires k < |s| && p(s[k]) && forall j :: 0 <= j < k ==> !p(s[j])
    ensures FindIndex(s, p) == Some(k)
  {
  }

  /** Generating the same week again with the same figures changes nothing and returns the stored entry. */
  lemma UpsertIdempotent(reports: seq<WeeklyReport>, report: WeeklyReport, again: WeeklyReport)
    requires again.weekStart == report.weekStart && SameFigures(again, report)
    ensures Upsert(Upsert(reports, report).reports, again) == Upsert(reports, report)
  {
    var g := Upsert(reports, report);
    UpsertThenFind(reports, report);
    var p := SameWeekAs(report.weekStart);
    assert SameWeekAs(again.weekStart) == p;
    var k := FindIndex(g.reports, p);
    assert k.Some? && g.reports[k.value] == g.report;
  }

  /** Storing keeps one report per week. */
  lemma UpsertKeepsWeeksDistinct(reports: seq<WeeklyReport>, report: WeeklyReport)
    requires DistinctWeeks(reports)
    ensures DistinctWeeks(Upsert(reports, report).reports)
  {
    var g := Upsert(reports, report);
    match FindIndex(reports, SameWeekAs(report.weekStart))
    case Some(k) =>
      assert forall i :: 0 <= i < |g.reports| ==> g.reports[i].weekStart == reports[i].weekStart;
    case None =>
      forall i, j | 0 <= i < j < |g.reports| ensures g.reports[i].weekStart != g.reports[j].weekStart {
        if i == 0 {
          assert g.reports[j] == reports[j - 1];
        } else {
          assert g.reports[i] == reports[i - 1] && g.reports[j] == reports[j - 1];
        }
      }
  }

  /** Reports of other weeks are kept, in their order. */
  lemma UpsertKeepsOtherWeeks(reports: seq<WeeklyReport>, report: WeeklyReport, i: nat)
    requires i < |reports| && reports[i].weekStart != report.weekStart
    ensures var g := Upsert(reports, report);
      if |g.reports| == |reports| then g.reports[i] == reports[i] else g.reports[i + 1] == reports[i]
  {
  }

  class ReportStore {
    var reports: seq<WeeklyReport>

    constructor ()
      ensures reports == []
    {
      reports := [];
    }

    /** Computes the report of the week of `date` and stores it; returns the stored entry. */
    method GenerateWeeklyReport(workouts: seq<Workout>, date: Time, id: Id, now: Time) returns (stored: WeeklyReport)
      modifies this
      ensures Generated(reports, stored) == Upsert(old(reports), Report(workouts, date, id, now))
    {
      var report := ComputeReport(workouts, date, id, now);
      var existingReportIndex := FindIndex(reports, SameWeekAs(report.weekStart));
      if existingReportIndex.Some? {
        var existing := reports[existingReportIndex.value];
        var changed := !SameFigures(existing, report);
        if !changed {
          return existing;
        }
        reports := reports[existingReportIndex.value := report];
        stored := report;
      } else {
        reports := [report] + reports;
        stored := report;
      }
    }

    /** The stored report of the week starting on day `weekStart`, if any. */
    function GetReportForWeek(weekStart: int): (r: Option<WeeklyReport>)
      reads this
      ensures r.Some? ==> exists j :: 0 <= j < |reports| && reports[j] == r.value && r.value.weekStart == weekStart &&
                                      forall i :: 0 <= i < j ==> reports[i].weekStart != weekStart
      ensures r.None? <==> forall i :: 0 <= i < |reports| ==> reports[i].weekStart != weekStart
    {
      Find(reports, SameWeekAs(weekStart))
    }
  }

  /** The report of the current week, computed afresh and not stored. */
  method GetCurrentWeekReport(workouts: seq<Workout>, now: Time, id: Id) returns (r: WeeklyReport)
    ensures r == Report(workouts, now, id, now)
    ensures r.weekStart <= DayOf(now) <= r.weekEnd && Weekday(r.weekStart) == 0
  {
    r := ComputeReport(workouts, now, id, now);
  }
}
