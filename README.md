# Fitness tracker core in Dafny

This project models the logic of a browser fitness tracker:

- an exercise library;
- workout logging in sets of reps × weight, with a completed flag per set;
- reusable workout templates;
- derived figures: total volume, a seven-day count, a streak of consecutive training days, a per-exercise progress chart, Monday-to-Sunday weekly reports with a personal-record count, and achievements;
- a rest timer.

It follows the program's structure:

- **Value records** become datatypes (`workout_types.dfy`).
- **Hooks** become store classes whose fields are the stored lists:
  - `Workouts.WorkoutStore`
  - `Templates.TemplateStore`
  - `WeeklyReports.ReportStore`
  - `Achievements.AchievementStore`
- **Pages** become classes whose fields are the component state. They take the stores as parameters:
  - `WorkoutPage.WorkoutSession`
  - `TemplateEditing.TemplateEditor`
  - `TemplatesPage.TemplatesView`
  - `HistoryPage.HistoryView`
  - `ExercisesPage.ExercisesView`
  - `RestTimer.Timer`
- **Loops of the source** become methods with loop invariants, proved against specification functions:
  - the streak walk;
  - the progress chart;
  - the weekly report and its record map.
- **Pure code** becomes functions.

Conventions:

- A time is an integer count of milliseconds on the local clock. A calendar day is `time / 86400000`. Day 0 is the Thursday 1970-01-01, so Monday is weekday `(day + 3) % 7 == 0`.
- Fresh ids, the current time, confirmation answers and the parsed contents of number inputs are parameters.
- A number input is `Blank`, `Number(v)` or `NotANumber`.
- A `*.dfy` file corresponds to one source file, except for these:
  - `lists.dfy` and `text.dfy` hold the generic list and string operations;
  - `volume.dfy` holds the volume arithmetic shared by three source files (useWorkouts.ts, useWeeklyReports.ts and History.tsx); the workout page's lemmas about a freshly loaded session use it too;
  - `template_editing.dfy` holds the template form, which `src/pages/Workout.tsx` and `src/pages/Templates.tsx` both carry with the same handlers.

Where the code and its documentation differ, the model follows the code:

- **Reps and template set counts are integers.** They are not naturals: `parseInt(v) || 1` on the templates page stores negative numbers.
- **An unchanged weekly report is kept as stored.** The copy `{ ...existing, ...report }` spreads a report that has every field, so a changed report simply replaces the old one.
- **A today's workout with an empty id is not matched.** Saving then updates with a fresh id, which matches no stored workout.

## Model

| member | source | states |
|---|---|---|
| Workouts.WithExerciseUpdated | src/hooks/useWorkouts.ts:32-36 | every exercise with the id gets the new name and category, every other is unchanged; an unknown id leaves the list as it was |
| Workouts.WithoutExercise | src/hooks/useWorkouts.ts:39-41 | exactly the exercises with the id disappear; the others keep their multiplicity and order |
| Workouts.WithWorkoutUpdated | src/hooks/useWorkouts.ts:54-56 | every workout with the id is replaced, every other is unchanged; an unknown id changes nothing |
| Workouts.WithoutWorkout | src/hooks/useWorkouts.ts:59-61 | exactly the workouts with the id disappear; the rest keep their order |
| Workouts.WorkoutStore.constructor | src/hooks/useWorkouts.ts:10-17 | a first start has no workouts and the five default exercises |
| Workouts.WorkoutStore.AddExercise | src/hooks/useWorkouts.ts:20-29 | appends one exercise with the given id, name, category and creation time; workouts unchanged |
| Workouts.WorkoutStore.UpdateExercise | src/hooks/useWorkouts.ts:32-36 | the exercise list becomes the updated list; workouts unchanged |
| Workouts.WorkoutStore.DeleteExercise | src/hooks/useWorkouts.ts:39-41 | the exercise list loses exactly that id; workouts unchanged |
| Workouts.WorkoutStore.ReorderExercises | src/hooks/useWorkouts.ts:44-46 | the exercise list becomes the given order; workouts unchanged |
| Workouts.WorkoutStore.AddWorkout | src/hooks/useWorkouts.ts:49-51 | appends the workout; exercises unchanged |
| Workouts.WorkoutStore.UpdateWorkout | src/hooks/useWorkouts.ts:54-56 | replaces the workouts with that id; exercises unchanged |
| Workouts.WorkoutStore.DeleteWorkout | src/hooks/useWorkouts.ts:59-61 | removes the workouts with that id; exercises unchanged |
| Workouts.WorkoutStore.GetTodaysWorkout | src/hooks/useWorkouts.ts:64-67 | the first stored workout dated on the given day; none exactly when no workout is dated that day |
| Workouts.WorkoutStore.GetStats | src/hooks/useWorkouts.ts:99-121 | total is the number of workouts; this week is the number of workouts dated at or after seven days before now; volume is reps × weight summed over completed sets only |
| Workouts.RecentCount | src/hooks/useWorkouts.ts:101-106 | the rolling seven-day count is the number of workout positions dated at or after the cut-off, at most all workouts, all of them when every workout is recent and none when none is |
| Workouts.FirstEntryFor | src/hooks/useWorkouts.ts:77 | the found entry is the first entry of the workout for the exercise; there is one exactly when the workout includes the exercise |
| Workouts.ProgressPoint | src/hooks/useWorkouts.ts:82-92 | the chart point of one workout: the exercise, the entry name, the workout date, the heaviest completed weight and the completed-set volume of its first entry for the exercise (stated by ProgressPointMeaning) |
| Workouts.ProgressPointMeaning | src/hooks/useWorkouts.ts:77-92 | a chart point has the workout's date, the heaviest completed weight of that entry (attained and an upper bound) and the entry's completed-set volume |
| Workouts.CollectPoints | src/hooks/useWorkouts.ts:76-94 | the loop yields one point per candidate whose entry has a completed set, in candidate order |
| Workouts.SeriesIsPoints | src/hooks/useWorkouts.ts:76-94 | collecting front to back equals the points of the qualifying workouts |
| Workouts.WorkoutStore.GetExerciseProgress | src/hooks/useWorkouts.ts:70-96 | the chart is the points of the qualifying workouts after sorting by date, and it is in ascending date order |
| Workouts.ProgressAscending | src/hooks/useWorkouts.ts:70-96 | the workouts behind the chart are sorted by date |
| Workouts.ProgressCoversQualifying | src/hooks/useWorkouts.ts:70-96 | the chart's workouts are, as a multiset, exactly the workouts whose first entry for the exercise has a completed set |
| Workouts.ProgressKeepsTies | src/hooks/useWorkouts.ts:70-96 | workouts of the same date appear on the chart in their stored order |
| Workouts.ChartOfSorted | src/hooks/useWorkouts.ts:70-96 | chart points are in non-decreasing date order |
| Workouts.PointsAt | src/hooks/useWorkouts.ts:86-92 | point i is the point of workout i |
| Workouts.PointsDates | src/hooks/useWorkouts.ts:86-92 | date-sorted workouts give date-sorted points |
| Workouts.WorkoutStore.GetWorkoutStreak | src/hooks/useWorkouts.ts:124-155 | the backward day walk returns the streak: the run of present days from today, or from yesterday when today has no workout |
| Workouts.StreakShape | src/hooks/useWorkouts.ts:137-154 | the streak is at most 365, every day it covers has a workout, and the day before it has none unless the 365-day limit stopped the walk |
| Workouts.StreakOf | src/hooks/useWorkouts.ts:137-154 | the streak as a function of the set of workout days: the run from today, or from yesterday with one day less of limit when today has none (its shape is stated by StreakShape and StreakZeroIff) |
| Workouts.RunShape | src/hooks/useWorkouts.ts:144-154 | a run is bounded by its limit, covers only present days, and ends at a gap when shorter than the limit |
| Workouts.StreakZeroIff | src/hooks/useWorkouts.ts:137-142 | no streak exactly when neither today nor yesterday has a workout |
| Workouts.StreakExample | src/hooks/useWorkouts.ts:124-155 | workouts on days D, D-1 and D-3 give a streak of 2 on day D |
| Workouts.StreakIgnoresRepeatedDays | src/hooks/useWorkouts.ts:127-130 | a second workout on an already present day does not change the streak |
| Volume.CompletedSets | src/hooks/useWorkouts.ts:80 | holds exactly the completed sets of the list |
| Volume.CompletedOnly | src/hooks/useWorkouts.ts:108-114 | the volume of a list of sets equals the raw reps × weight sum of its completed sets |
| Volume.SetsVolumeAppend | src/hooks/useWorkouts.ts:108-114 | volume is additive over concatenation |
| Volume.ExercisesVolumeIsSetsVolume | src/hooks/useWorkouts.ts:108-114 | the volume of a workout's entries is the volume of all their sets |
| Volume.TotalVolumeIsSetsVolume | src/hooks/useWorkouts.ts:108-114 | the volume of many workouts is the volume of all their sets |
| Volume.TotalVolumeIsCompletedVolume | src/hooks/useWorkouts.ts:108-114 | the total volume is the raw sum over every completed set of every workout |
| Volume.TotalVolumeAppend | src/hooks/useWorkouts.ts:108-114 | adding a workout adds its volume |
| Volume.VolumeExample | src/hooks/useWorkouts.ts:108-114 | a completed 10 × 50 set and an open one give volume 500 |
| Volume.MaxWeight | src/hooks/useWorkouts.ts:83 | the maximum weight is attained by some set and bounds every set |
| Volume.MaxWeightPositive | src/hooks/useWeeklyReports.ts:39-42 | the maximum is positive exactly when some set has positive weight |
| WorkoutTypes.ExerciseById | src/pages/Workout.tsx:73 | the found exercise is the first in the library with that id; none exactly when no exercise has it |
| Achievements.Evaluate | src/hooks/useAchievements.ts:87-122 | an unlocked achievement is returned unchanged; otherwise progress is the measured counter, it unlocks exactly when the kind is tracked and the counter reaches the target (target missing = 0), and an unlock is stamped with now |
| Achievements.EvaluateAll | src/hooks/useAchievements.ts:87-122 | each entry is evaluated on its own, in place |
| Achievements.AfterCheckIsEvaluation | src/hooks/useAchievements.ts:124-129 | keeping the previous list when nothing changed is the same as storing the evaluated list |
| Achievements.HasChanges | src/hooks/useAchievements.ts:124-127 | some entry's progress or unlocked flag differs from before |
| Achievements.AfterCheck | src/hooks/useAchievements.ts:86-129 | the list checkAchievements stores has one entry per previous entry; it is the evaluated list (stated by AfterCheckIsEvaluation) |
| Achievements.CheckIdempotent | src/hooks/useAchievements.ts:81-131 | a second check with the same counters changes nothing, even at a later time |
| Achievements.UnlockedIsFrozen | src/hooks/useAchievements.ts:88 | an unlocked entry is left exactly as it was |
| Achievements.UnlockedOnlyGrows | src/hooks/useAchievements.ts:88-103 | higher counters never unlock less: an entry unlocked by a check with some counters is unlocked by a check of the same list with counters at least as high |
| Achievements.KindOf | src/hooks/useAchievements.ts:94-103 | the counter an id reads: the first of "workout", "streak", "volume" that the id contains, else none (stated per catalog id by the kind lemmas, and by StreakId and VolumeId) |
| Achievements.CheckKeepsEarned | src/hooks/useAchievements.ts:105-118 | if every unlocked entry had its target reached, that still holds after a check |
| Achievements.CheckKeepsIds | src/hooks/useAchievements.ts:81-131 | the list keeps its length and its ids in order |
| Achievements.UnlocksIff | src/hooks/useAchievements.ts:90-118 | a locked entry unlocks exactly when its counter reaches the target, and then records now |
| Achievements.InitialAchievements | src/hooks/useAchievements.ts:6-79 | nine achievements, all locked with progress 0 and a positive target |
| Achievements.FirstWorkoutKind | src/hooks/useAchievements.ts:94-96 | "first-workout" is measured by the workout count |
| Achievements.TenWorkoutsKind | src/hooks/useAchievements.ts:94-96 | "10-workouts" is measured by the workout count |
| Achievements.FiftyWorkoutsKind | src/hooks/useAchievements.ts:94-96 | "50-workouts" is measured by the workout count |
| Achievements.HundredWorkoutsKind | src/hooks/useAchievements.ts:94-96 | "100-workouts" is measured by the workout count |
| Achievements.WeekStreakKind | src/hooks/useAchievements.ts:97-99 | "week-streak" is measured by the streak |
| Achievements.MonthStreakKind | src/hooks/useAchievements.ts:97-99 | "month-streak" is measured by the streak |
| Achievements.TenKVolumeKind | src/hooks/useAchievements.ts:100-102 | "10k-volume" is measured by the lifted volume |
| Achievements.FiftyKVolumeKind | src/hooks/useAchievements.ts:100-102 | "50k-volume" is measured by the lifted volume |
| Achievements.HundredKVolumeKind | src/hooks/useAchievements.ts:100-102 | "100k-volume" is measured by the lifted volume |
| Achievements.StreakId | src/hooks/useAchievements.ts:97-99 | an id that contains "streak" but not "workout" (it has no `u`) is measured by the streak, the workout test coming first |
| Achievements.VolumeId | src/hooks/useAchievements.ts:100-102 | an id that contains "volume" but neither "workout" (no `w`) nor "streak" (no `s`) is measured by the lifted volume |
| Achievements.CatalogWorkoutEntries | src/hooks/useAchievements.ts:6-70 | catalog entries 0, 3, 4 and 5 count workouts |
| Achievements.WeekEntryKind | src/hooks/useAchievements.ts:6-70 | catalog entry 1 counts streak days |
| Achievements.MonthEntryKind | src/hooks/useAchievements.ts:6-70 | catalog entry 2 counts streak days |
| Achievements.CatalogStreakEntries | src/hooks/useAchievements.ts:6-70 | catalog entries 1 and 2 count streak days |
| Achievements.CatalogVolumeEntries | src/hooks/useAchievements.ts:6-70 | catalog entries 6 to 8 count lifted volume |
| Achievements.CatalogTracked | src/hooks/useAchievements.ts:6-70 | every catalog entry is measured by some counter |
| Achievements.FirstStepsAfterOneWorkout | src/hooks/useAchievements.ts:90-118 | one workout unlocks the first achievement of a fresh catalog |
| Achievements.SixDaysIsNoWeek | src/hooks/useAchievements.ts:97-99 | a six-day streak unlocks neither streak achievement |
| Achievements.ProgressPercentage | src/hooks/useAchievements.ts:135-138 | 0 without a target; otherwise the share of the target reached, times 100, rounded to the nearest integer and capped at 100: below 100 the result is within one half of the exact share, and 100 means the share is at least 99.5; never negative for non-negative progress and a positive target |
| Achievements.EarnedShowsFull | src/hooks/useAchievements.ts:135-138 | an earned achievement shows 100 % |
| Achievements.AchievementStore.constructor | src/hooks/useAchievements.ts:76-79 | the store starts with the catalog |
| Achievements.AchievementStore.CheckAchievements | src/hooks/useAchievements.ts:81-131 | the stored list becomes the checked list |
| Achievements.UnlockedCount | src/hooks/useAchievements.ts:133 | `filter(a => a.unlocked).length` is the number of positions holding an unlocked entry |
| Achievements.AchievementStore.GetUnlockedCount | src/hooks/useAchievements.ts:133 | the number of unlocked entries (the size of the set of their positions); hence at most the list length, 0 exactly when none is unlocked and the full length exactly when all are |
| WeeklyReports.Weekday | src/hooks/useWeeklyReports.ts:12-14 | the weekday is within 0..6 |
| WeeklyReports.WeekStartIsMonday | src/hooks/useWeeklyReports.ts:12-14 | the week start is a Monday, on or at most six days before the day |
| WeeklyReports.WeekStart | src/hooks/useWeeklyReports.ts:13 | the week start of a day is a Monday, on or at most six days before the day |
| WeeklyReports.SameWeek | src/hooks/useWeeklyReports.ts:12-14 | every day of a week has the same week start |
| WeeklyReports.WeekWorkouts | src/hooks/useWeeklyReports.ts:17-20 | exactly the workouts dated Monday to Sunday of the week, in stored order |
| WeeklyReports.HasWeightedSetIff | src/hooks/useWeeklyReports.ts:34-47 | some set is completed with positive weight exactly when the recursive test says so |
| WeeklyReports.RecordTest | src/hooks/useWeeklyReports.ts:36-44 | an entry adds to the record map exactly when its completed sets exist and their maximum is positive |
| WeeklyReports.EntryRecordIdsMeaning | src/hooks/useWeeklyReports.ts:35-46 | an exercise id is recorded from a list of entries exactly when some entry for it has a weighted completed set |
| WeeklyReports.EntryRecordIdsSnoc | src/hooks/useWeeklyReports.ts:35-46 | one more entry adds its exercise id to the recorded ids exactly when that entry has a weighted completed set |
| WeeklyReports.RecordIdsMeaning | src/hooks/useWeeklyReports.ts:34-47 | an exercise id counts as a record exactly when some workout of the week has such an entry |
| WeeklyReports.Report | src/hooks/useWeeklyReports.ts:11-58 | the week starts on a Monday, ends six days later and contains the date; the workout count is the number of workouts dated in that week; the record count is the number of exercises with a weighted completed set in the week; the volume is the completed-set volume of the week's workouts |
| WeeklyReports.ComputeReport | src/hooks/useWeeklyReports.ts:11-58 | the loop over the week's workouts computes the specified report |
| WeeklyReports.TrackMaxWeights | src/hooks/useWeeklyReports.ts:35-46 | the map gains exactly the ids of entries with a weighted completed set, and every stored maximum stays positive |
| WeeklyReports.RaiseMax | src/hooks/useWeeklyReports.ts:36-44 | one entry adds its exercise id to the map exactly when it has a weighted completed set, and every stored maximum stays positive |
| WeeklyReports.Upsert | src/hooks/useWeeklyReports.ts:60-83 | a known week keeps the list length; a new week is prepended to an unchanged list |
| WeeklyReports.UpsertHit | src/hooks/useWeeklyReports.ts:64-78 | at the first stored report of the week: equal figures return that stored report, with its own id and creation time, and leave the list alone; changed figures overwrite exactly that entry with the new report and return it |
| WeeklyReports.UpsertThenFind | src/hooks/useWeeklyReports.ts:60-83 | after storing, looking up the week finds the returned report, which has the new figures |
| WeeklyReports.UpsertIdempotent | src/hooks/useWeeklyReports.ts:66-73 | generating the same week again with the same figures changes nothing |
| WeeklyReports.UpsertKeepsWeeksDistinct | src/hooks/useWeeklyReports.ts:60-83 | no week is stored twice after an upsert if none was before |
| WeeklyReports.UpsertKeepsOtherWeeks | src/hooks/useWeeklyReports.ts:75-81 | reports of other weeks survive |
| WeeklyReports.ReportStore.constructor | src/hooks/useWeeklyReports.ts:9 | the list starts empty |
| WeeklyReports.ReportStore.GenerateWeeklyReport | src/hooks/useWeeklyReports.ts:60-83 | the stored list and the returned report are the upsert of the computed report |
| WeeklyReports.ReportStore.GetReportForWeek | src/hooks/useWeeklyReports.ts:87-89 | the found report is the first stored report with that week start; none exactly when no report has it |
| WeeklyReports.GetCurrentWeekReport | src/hooks/useWeeklyReports.ts:85 | the report of the week containing now, a Monday-to-Sunday range |
| Templates.WithTemplateUpdated | src/hooks/useTemplates.ts:22-26 | templates with the id get the new name, description and exercises, keeping id and creation time; the rest are unchanged |
| Templates.WithoutTemplate | src/hooks/useTemplates.ts:28-30 | exactly the templates with the id disappear; the rest keep their order |
| Templates.FindTemplate | src/pages/Workout.tsx:146 | the found template is the first stored template with that id; none exactly when no template has it |
| Templates.TemplateStore.constructor | src/hooks/useTemplates.ts:8 | the store starts empty |
| Templates.TemplateStore.AddTemplate | src/hooks/useTemplates.ts:10-20 | appends a template with the id, name, description, exercises and creation time |
| Templates.TemplateStore.UpdateTemplate | src/hooks/useTemplates.ts:22-26 | the list becomes the updated list |
| Templates.TemplateStore.DeleteTemplate | src/hooks/useTemplates.ts:28-30 | the list loses exactly the templates with the id |
| TemplateEditing.ApplyTemplateEdit | src/pages/Workout.tsx:231-235 | only the edited field changes |
| TemplateEditing.UpdateEntries | src/pages/Workout.tsx:231-235 | entries for the exercise get the edit, the others stay; an exercise not in the list changes nothing |
| TemplateEditing.RemoveEntries | src/pages/Workout.tsx:227-229 | exactly the entries for the exercise disappear, the rest keep their order |
| TemplateEditing.SaveActionOf | src/pages/Workout.tsx:237-258 | refused exactly for a blank name, then exactly for no entries; updates exactly when an editing id is set, creates otherwise |
| TemplateEditing.SavedTemplatesAreComplete | src/pages/Workout.tsx:237-258 | a saved template has a non-blank name and at least one entry |
| TemplateEditing.TemplateEditor.constructor | src/pages/Workout.tsx:54-59 | the form starts blank with the dialog closed |
| TemplateEditing.TemplateEditor.ResetForm | src/pages/Workout.tsx:187-193 | every field is cleared; the dialog stays as it was |
| TemplateEditing.TemplateEditor.SetDialogOpen | src/pages/Workout.tsx:452-455 | sets the flag; closing also clears the form, opening keeps it |
| TemplateEditing.TemplateEditor.SelectExercise | src/pages/Workout.tsx:59 | sets the picker, nothing else |
| TemplateEditing.TemplateEditor.SetName | src/pages/Workout.tsx:56 | sets the name, nothing else |
| TemplateEditing.TemplateEditor.OpenEditDialog | src/pages/Workout.tsx:195-204 | a stored template is loaded into the form (missing description as "") and the dialog opens; an unknown id changes nothing |
| TemplateEditing.TemplateEditor.AddExerciseToTemplate | src/pages/Workout.tsx:206-225 | no selection is refused; a known exercise is appended as three sets of ten at 0 and the picker is cleared; an unknown one changes nothing |
| TemplateEditing.TemplateEditor.RemoveExerciseFromTemplate | src/pages/Workout.tsx:227-229 | entries lose that exercise; other fields unchanged |
| TemplateEditing.TemplateEditor.UpdateTemplateExercise | src/pages/Workout.tsx:231-235 | entries get the edit; other fields unchanged |
| TemplateEditing.TemplateEditor.SaveTemplate | src/pages/Workout.tsx:237-258 | a refused save changes nothing; otherwise the edited template is updated or a new one appended with the fresh id and now, then the dialog closes and the form is blank |
| TemplateEditing.TemplateEditor.HandleDeleteTemplate | src/pages/Workout.tsx:260-265 | deletes exactly when confirmed |
| TemplatesPage.LooseInt | src/pages/Templates.tsx:220 | `parseInt(v) \|\| fallback`: the fallback, or the typed non-zero number |
| TemplatesPage.LooseReal | src/pages/Templates.tsx:239 | `parseFloat(v) \|\| fallback`: the fallback, or the typed non-zero number |
| TemplatesPage.LooseCountsAreNonZero | src/pages/Templates.tsx:220-229 | the sets and reps inputs never store 0 |
| TemplatesPage.LooseAgreesWithGuards | src/pages/Templates.tsx:220-239 | wherever the workout page's guard accepts a value this page stores the same one; -5 is stored here and refused there |
| TemplatesPage.NonPositiveSetsLoadNothing | src/pages/Workout.tsx:153 | a template entry with a non-positive set count loads with no sets |
| TemplatesPage.TemplatesView.constructor | src/pages/Templates.tsx:36-41 | the form starts blank with the dialog closed |
| TemplatesPage.TemplatesView.OnSetsInput | src/pages/Templates.tsx:220 | the sets field of the matching entries gets the loose reading with fallback 1; no other field of the form changes |
| TemplatesPage.TemplatesView.OnRepsInput | src/pages/Templates.tsx:229 | the reps field of the matching entries gets the loose reading with fallback 1; no other field of the form changes |
| TemplatesPage.TemplatesView.OnWeightInput | src/pages/Templates.tsx:239 | the weight field of the matching entries gets the loose reading with fallback 0; no other field of the form changes |
| WorkoutPage.GuardInt | src/pages/Workout.tsx:373-377 | refused exactly for a non-number or a number outside the range; empty gives the blank value; a number is kept |
| WorkoutPage.GuardReal | src/pages/Workout.tsx:389-393 | the same guard for decimals |
| WorkoutPage.SetRepsInput | src/pages/Workout.tsx:373-377 | reps accept 0..999, empty means 0 |
| WorkoutPage.WeightInput | src/pages/Workout.tsx:389-393 | weights, of a set and of a template entry alike (lines 579-583 use the same guard), accept 0..9999, empty means 0 |
| WorkoutPage.TemplateSetsInput | src/pages/Workout.tsx:544-548 | template sets accept 1..99, empty means 1 |
| WorkoutPage.TemplateRepsInput | src/pages/Workout.tsx:561-565 | template reps accept 1..999, empty means 1 |
| WorkoutPage.NewSessionEntry | src/pages/Workout.tsx:67-90 | a new entry has three open sets of 0 × 0 numbered "1" to "3" |
| WorkoutPage.WithoutEntry | src/pages/Workout.tsx:92-94 | exactly the entries with the id disappear, the rest keep their order |
| WorkoutPage.WithSetAdded | src/pages/Workout.tsx:96-109 | the entry with the id gains one open 0 × 0 set at the end with the given set id; other entries are unchanged |
| WorkoutPage.ApplySetEdit | src/pages/Workout.tsx:111-131 | only the edited field changes |
| WorkoutPage.SetsUpdated | src/pages/Workout.tsx:115-125 | sets with the id get the edit, others stay |
| WorkoutPage.WithSetUpdated | src/pages/Workout.tsx:111-131 | the edit reaches exactly the matching set of the matching entry |
| WorkoutPage.WithSetRemoved | src/pages/Workout.tsx:133-143 | the matching entry loses the sets with the id, and nothing else changes |
| WorkoutPage.StartsRestIff | src/pages/Workout.tsx:120-122 | the rest timer opens exactly when the edit turns some set from not completed to completed |
| WorkoutPage.GuardedEditKeepsRange | src/pages/Workout.tsx:373-393 | values that passed the set guards keep every set within 0..999 reps and 0..9999 weight |
| WorkoutPage.AddedSetKeepsRange | src/pages/Workout.tsx:96-109 | adding a set keeps the session within range |
| WorkoutPage.TemplateSetsMeaning | src/pages/Workout.tsx:145-163 | a loaded entry has the template's number of sets (none when that number is negative, as `Array.from({ length: n })`), numbered 1.. with distinct ids, the template's reps and weight (or 0), none completed |
| WorkoutPage.ExpandTemplate | src/pages/Workout.tsx:145-163 | one entry per template entry, in order, each with its fresh id, exercise and expanded sets |
| WorkoutPage.NothingCompletedNoVolume | src/pages/Workout.tsx:145-163 | sets with none completed carry no volume |
| WorkoutPage.NothingCompletedEntriesNoVolume | src/pages/Workout.tsx:145-163 | entries with no completed set carry no volume |
| WorkoutPage.LoadedSessionNoVolume | src/pages/Workout.tsx:145-163 | a session just loaded from a template carries no volume |
| WorkoutPage.ToSecond | src/pages/Workout.tsx:165-184 | the saved date is the instant cut to the whole second |
| WorkoutPage.ToSecondSameDay | src/pages/Workout.tsx:165-184 | cutting to the second keeps the calendar day |
| WorkoutPage.WorkoutToSave | src/pages/Workout.tsx:165-184 | today's id when it is non-empty, else the fresh one; the session's entries; no duration or notes; dated today |
| WorkoutPage.SaveWorkoutActionOf | src/pages/Workout.tsx:165-184 | refused exactly for an empty session; updates exactly when a workout of today exists; adds otherwise |
| WorkoutPage.AppendedIsTodays | src/hooks/useWorkouts.ts:64-67 | with no workout today, the appended one becomes today's workout |
| WorkoutPage.ReplacedIsTodays | src/hooks/useWorkouts.ts:64-67 | replacing today's workout by one of the same id and day makes it today's workout |
| WorkoutPage.WorkoutSession.constructor | src/pages/Workout.tsx:45-59 | the session starts from today's workout or empty, with no selection, no rest timer and a blank template form |
| WorkoutPage.WorkoutSession.SyncWithToday | src/pages/Workout.tsx:61-65 | the session is reloaded when today's workout exists, else kept |
| WorkoutPage.WorkoutSession.SelectExercise | src/pages/Workout.tsx:50 | sets the picker only |
| WorkoutPage.WorkoutSession.AddExerciseToWorkout | src/pages/Workout.tsx:67-90 | no selection is refused; a known exercise is appended as a new entry and the picker cleared; an unknown id changes nothing |
| WorkoutPage.WorkoutSession.RemoveExerciseFromWorkout | src/pages/Workout.tsx:92-94 | the entry with the id is removed |
| WorkoutPage.WorkoutSession.AddSetToExercise | src/pages/Workout.tsx:96-109 | the entry gains a set |
| WorkoutPage.WorkoutSession.UpdateSet | src/pages/Workout.tsx:111-131 | the set is edited, and the rest timer is shown when it already was or the edit completes a set that was not completed |
| WorkoutPage.WorkoutSession.OnRepsInput | src/pages/Workout.tsx:373-377 | only a guarded value reaches the set, and a session within range stays within range |
| WorkoutPage.WorkoutSession.OnWeightInput | src/pages/Workout.tsx:389-393 | only a guarded value reaches the set, and a session within range stays within range |
| WorkoutPage.WorkoutSession.RemoveSet | src/pages/Workout.tsx:133-143 | the set is removed from its entry |
| WorkoutPage.WorkoutSession.CloseRestTimer | src/pages/Workout.tsx:676 | the rest timer is hidden, nothing else changes |
| WorkoutPage.WorkoutSession.LoadTemplate | src/pages/Workout.tsx:145-163 | a stored template replaces the session by its expansion; an unknown id changes nothing |
| WorkoutPage.WorkoutSession.SaveWorkout | src/pages/Workout.tsx:165-184 | an empty session changes nothing; otherwise today's workout is updated or the workout appended, and afterwards it is today's workout (unless a stored one of today has an empty id) |
| WorkoutPage.WorkoutSession.OnTemplateSetsInput | src/pages/Workout.tsx:544-548 | only a guarded value reaches the matching template entries; no other field of the form changes |
| WorkoutPage.WorkoutSession.OnTemplateRepsInput | src/pages/Workout.tsx:561-565 | only a guarded value reaches the matching template entries; no other field of the form changes |
| WorkoutPage.WorkoutSession.OnTemplateWeightInput | src/pages/Workout.tsx:579-583 | only a guarded value reaches the matching template entries; no other field of the form changes |
| HistoryPage.SortedWorkouts | src/pages/History.tsx:23-25 | the same workouts as a multiset, newest first; workouts with the same date keep their stored order |
| Lists.SortBy | src/hooks/useWorkouts.ts:75 | the comparator sort by an integer key gives a permutation of the input in non-decreasing key order |
| Lists.SortByStable | src/pages/History.tsx:23-25 | the sort is stable, as JavaScript's is: the elements with any one key come out in their original order |
| HistoryPage.CompletedSetCountMeaning | src/pages/History.tsx:58-61 | the count shown is the number of completed sets, at most all sets |
| HistoryPage.CompletedSetCount | src/pages/History.tsx:58-61 | the reduce over the entries of their completed-set counts (its meaning is stated by CompletedSetCountMeaning) |
| HistoryPage.WorkoutVolumeMeaning | src/pages/History.tsx:62-66 | the volume shown is reps × weight over the completed sets only |
| HistoryPage.CompletedListing | src/pages/History.tsx:127-134 | the expanded view lists every completed set and only those, numbered from 1 |
| HistoryPage.Toggled | src/pages/History.tsx:27-35 | membership of the id flips, nothing else changes |
| HistoryPage.ToggleTwice | src/pages/History.tsx:27-35 | toggling twice restores the expanded set |
| HistoryPage.HistoryView.constructor | src/pages/History.tsx:18 | nothing is expanded at first |
| HistoryPage.HistoryView.ToggleWorkout | src/pages/History.tsx:27-35 | the expanded set is toggled at the id |
| ExercisesPage.Lowered | src/pages/Exercises.tsx:63-67 | lowercasing maps every character and keeps the length |
| ExercisesPage.FilteredExercises | src/pages/Exercises.tsx:63-67 | exactly the exercises whose name contains the query ignoring case and whose category matches (or "all"), in library order |
| ExercisesPage.EmptySearchShowsAll | src/pages/Exercises.tsx:63-67 | an empty query over all categories shows the whole library |
| ExercisesPage.ArrayMove | src/pages/Exercises.tsx:115-124 | the moved element lands at the target, the length and the multiset are kept, and the other elements keep their order |
| ExercisesPage.MoveBack | src/pages/Exercises.tsx:115-124 | moving back restores the original order |
| ExercisesPage.SubmitActionOf | src/pages/Exercises.tsx:89-106 | refused exactly for a blank name or no category; updates exactly when an exercise is being edited |
| ExercisesPage.ExercisesView.constructor | src/pages/Exercises.tsx:36-41 | empty search, all categories, dialog closed, form cleared |
| ExercisesPage.ExercisesView.Visible | src/pages/Exercises.tsx:63-67 | the shown list is a subsequence of the library |
| ExercisesPage.ExercisesView.SetSearch | src/pages/Exercises.tsx:36-37 | sets the query and category only |
| ExercisesPage.ExercisesView.HandleOpenDialog | src/pages/Exercises.tsx:69-80 | loads the exercise to edit, or clears the form, and opens the dialog |
| ExercisesPage.ExercisesView.HandleCloseDialog | src/pages/Exercises.tsx:82-87 | closes the dialog and clears the form |
| ExercisesPage.ExercisesView.SetDialogOpen | src/pages/Exercises.tsx:200 | sets the flag only; the form keeps its contents |
| ExercisesPage.ExercisesView.SetForm | src/pages/Exercises.tsx:40-41 | sets the name and category only |
| ExercisesPage.ExercisesView.HandleSubmit | src/pages/Exercises.tsx:89-106 | a refused submit changes nothing; otherwise the trimmed name is stored (update or append), the dialog closes and the form clears |
| ExercisesPage.ExercisesView.HandleDelete | src/pages/Exercises.tsx:108-113 | deletes exactly when confirmed |
| ExercisesPage.ExercisesView.HandleDragEnd | src/pages/Exercises.tsx:115-124 | a drop on another listed exercise moves the dragged one there; otherwise no change; the library keeps its multiset |
| RestTimer.TickStep | src/components/RestTimer.tsx:30-56 | stopped or at zero: nothing happens; at one second: zero and stopped (the alarm); otherwise one second less and still running |
| RestTimer.CountdownFrom | src/components/RestTimer.tsx:30-56 | from s seconds, n ticks show s − n, and after s ticks the timer is at zero and stopped |
| RestTimer.StoppedStaysStopped | src/components/RestTimer.tsx:31 | a stopped timer does not move |
| RestTimer.FormatTimeRoundTrip | src/components/RestTimer.tsx:58-62 | the display has a colon and two seconds digits and reads back to the seconds shown |
| RestTimer.FormatTimeShape | src/components/RestTimer.tsx:58-62 | FormatTime's display is the minutes, a colon and two digits; the minutes read back to floor(secs / 60) and the two digits to secs % 60 |
| RestTimer.PaddedValue | src/components/RestTimer.tsx:61 | padded seconds have two digits and keep their value |
| RestTimer.FormatTimeExample | src/components/RestTimer.tsx:58-62 | 90 shows "1:30" and 5 shows "0:05" |
| RestTimer.Timer.constructor | src/components/RestTimer.tsx:14-27 | starts running from the saved or default duration of 60, muted exactly when "true" is saved, with the saved or default volume 0.7 |
| RestTimer.Timer.Tick | src/components/RestTimer.tsx:30-56 | one callback is one tick step; seconds never go negative; duration, mute and volume unchanged |
| RestTimer.Timer.TimeUp | src/components/RestTimer.tsx:109 | "Time's up!" is shown exactly when no seconds are left |
| RestTimer.Timer.TogglePause | src/components/RestTimer.tsx:135-140 | flips running only |
| RestTimer.Timer.Reset | src/components/RestTimer.tsx:70-73 | back to the full duration, running |
| RestTimer.Timer.AdjustDuration | src/components/RestTimer.tsx:64-68 | the new duration is also the time left |
| RestTimer.Timer.ChoosePreset | src/components/RestTimer.tsx:148-159 | the k-th of the four buttons (30, 60, 90, 120 s) sets duration and time left to that preset; running, mute and volume kept |
| RestTimer.Timer.ToggleMute | src/components/RestTimer.tsx:75-79 | flips mute only |
| RestTimer.Timer.SetVolume | src/components/RestTimer.tsx:81-85 | sets the volume only |

## Left out

- Persistence is left out. `useLocalStorage` keeps every store in the browser's local storage, and this model keeps each store in memory only.
- Translations, themes, toasts, the audio beep and vibration are left out, and so is the markup. They have no effect on the data.
- The `setInterval` scheduling is left out. One call of `RestTimer.Timer.Tick` stands for one callback.
- Time zones and daylight-saving time are not modelled. A day is a fixed 86400000 ms of the local clock.
- `getTodaysWorkout` compares an ISO date string with a local date prefix. That is modelled as equal day numbers, so the UTC-versus-local offset is not modelled.
- The date strings produced by `toISOString` and `format` are abstracted as the integer time.
- Workout.tsx, useWorkouts.ts, useTemplates.ts and useWeeklyReports.ts build ids from `Date.now()` (Workout.tsx also from `Math.random()`). Those ids are parameters.
- `parseInt` and `parseFloat` are given as their result: blank, a number, or NaN.
- Floating-point rounding is not modelled. Weights and volumes are exact reals.
- `toLowerCase` is a character-map parameter. Unicode case rules are not modelled.
- ExercisesPage.ExercisesView.HandleDragEnd: `arrayMove` with index −1 is not modelled. When either id is missing from the list, the order is left alone. The page only produces listed ids.
- RestTimer.FormatTime takes a natural number, because the timer never shows negative seconds. A saved duration that is not a number is not modelled.
- Workouts.WorkoutStore.GetStats: the `date >= weekAgo` comparison is on the integer time, not on `Date` objects.
- The Dashboard, Progress, Achievements, Install, Navigation and drawer components are left out. They only display the figures modelled here.
