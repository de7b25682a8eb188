/** The workout-logging page (src/pages/Workout.tsx): the session being
    logged, its number inputs, loading a template into it and saving it as
    today's workout. The template tab of the page is the shared template
    form of module TemplateEditing. */
module WorkoutPage {
  import opened Lists
  import opened WorkoutTypes
  import opened Text
  import opened Volume
  import opened Workouts
  import opened Templates
  import opened TemplateEditing

  /** What a number input hands to its `onChange`: the empty string, a parsed number, or NaN. */
  datatype Entry<T> = Blank | Number(value: T) | NotANumber

  /** `val === '' || (lo <= parse(val) && parse(val) <= hi)`, passing `val === '' ? blank : parse(val)`;
      anything else is ignored. */
  function GuardInt(input: Entry<int>, blank: int, lo: int, hi: int): (r: Option<int>)
    ensures r.None? <==> input.NotANumber? || (input.Number? && !(lo <= input.value <= hi))
    ensures lo <= blank <= hi && r.Some? ==> lo <= r.value <= hi
    ensures input.Number? && r.Some? ==> r.value == input.value
  {
    match input
    case Blank => Some(blank)
    case Number(n) => if lo <= n <= hi then Some(n) else None
    case NotANumber => None
  }

  function GuardReal(input: Entry<real>, blank: real, lo: real, hi: real): (r: Option<real>)
    ensures r.None? <==> input.NotANumber? || (input.Number? && !(lo <= input.value <= hi))
    ensures lo <= blank <= hi && r.Some? ==> lo <= r.value <= hi
    ensures input.Number? && r.Some? ==> r.value == input.value
  {
    match input
    case Blank => Some(blank)
    case Number(x) => if lo <= x <= hi then Some(x) else None
    case NotANumber => None
  }

  /** The reps field of a set: empty means 0, accepted range 0..999. */
  function SetRepsInput(input: Entry<int>): (r: Option<int>)
    ensures r.Some? ==> 0 <= r.value <= 999
    ensures input.Blank? ==> r == Some(0)
  {
    GuardInt(input, 0, 0, 999)
  }

  /** The weight field, of a set and of a template entry alike: empty means 0, accepted range 0..9999. */
  function WeightInput(input: Entry<real>): (r: Option<real>)
    ensures r.Some? ==> 0.0 <= r.value <= 9999.0
    ensures input.Blank? ==> r == Some(0.0)
  {
    GuardReal(input, 0.0, 0.0, 9999.0)
  }

  /** The sets field of a template entry: empty means 1, accepted range 1..99. */
  function TemplateSetsInput(input: Entry<int>): (r: Option<int>)
    ensures r.Some? ==> 1 <= r.value <= 99
    ensures input.Blank? ==> r == Some(1)
  {
    GuardInt(input, 1, 1, 99)
  }

  /** The reps field of a template entry: empty means 1, accepted range 1..999. */
  function TemplateRepsInput(input: Entry<int>): (r: Option<int>)
    ensures r.Some? ==> 1 <= r.value <= 999
    ensures input.Blank? ==> r == Some(1)
  {
    GuardInt(input, 1, 1, 999)
  }

  /** A fresh set: no reps, no weight, not completed. */
  function ZeroSet(id: Id): WorkoutSet
  {
    WorkoutSet(id, 0, 0.0, false)
  }

  /** The entry addExerciseToWorkout appends: a snapshot of the exercise and three zero sets "1", "2", "3". */
  function NewSessionEntry(id: Id, e: Exercise): (r: WorkoutExercise)
    ensures r.id == id && r.exerciseId == e.id && r.exerciseName == e.name && r.notes == None
    ensures |r.sets| == 3 && forall j :: 0 <= j < 3 ==> r.sets[j] == ZeroSet(NatToString(j + 1))
  {
    WorkoutExercise(id, e.id, e.name, [ZeroSet("1"), ZeroSet("2"), ZeroSet("3")], None)
  }

  /** removeExerciseFromWorkout: drops the entries with session id `id`, keeping the order of the rest. */
  function WithoutEntry(entries: seq<WorkoutExercise>, id: Id): (r: seq<WorkoutExercise>)
    ensures forall e :: e in r <==> e in entries && e.id != id
    ensures IsSubsequence(r, entries)
  {
    Filter(entries, (e: WorkoutExercise) => e.id != id)
  }

  /** addSetToExercise: one zero set at the end of the matching entry; the other entries stay. */
  function WithSetAdded(entries: seq<WorkoutExercise>, exerciseId: Id, setId: Id): (r: seq<WorkoutExercise>)
    ensures |r| == |entries|
    ensures forall i :: 0 <= i < |entries| ==>
      r[i] == if entries[i].id == exerciseId then entries[i].(sets := entries[i].sets + [ZeroSet(setId)]) else entries[i]
  {
    MapWhere(entries, (e: WorkoutExercise) => e.id == exerciseId,
             (e: WorkoutExercise) => e.(sets := e.sets + [ZeroSet(setId)]))
  }

  /** `{ ...set, [field]: value }` for the three editable fields of a set. */
  datatype SetEdit = Reps(reps: int) | Weight(weight: real) | Completed(completed: bool)

  function ApplySetEdit(s: WorkoutSet, edit: SetEdit): (r: WorkoutSet)
    ensures r.id == s.id
    ensures r.reps == (if edit.Reps? then edit.reps else s.reps)
    ensures r.weight == (if edit.Weight? then edit.weight else s.weight)
    ensures r.completed == (if edit.Completed? then edit.completed else s.completed)
  {
    match edit
    case Reps(n) => s.(reps := n)
    case Weight(w) => s.(weight := w)
    case Completed(c) => s.(completed := c)
  }

  function SetsUpdated(sets: seq<WorkoutSet>, setId: Id, edit: SetEdit): (r: seq<WorkoutSet>)
    ensures |r| == |sets|
    ensures forall j :: 0 <= j < |sets| ==> r[j] == if sets[j].id == setId then ApplySetEdit(sets[j], edit) else sets[j]
  {
    MapWhere(sets, (s: WorkoutSet) => s.id == setId, (s: WorkoutSet) => ApplySetEdit(s, edit))
  }

  /** updateSet: only the named field of the matching set in the matching entry changes. */
  function WithSetUpdated(entries: seq<WorkoutExercise>, exerciseId: Id, setId: Id, edit: SetEdit): (r: seq<WorkoutExercise>)
    ensures |r| == |entries|
    ensures forall i :: 0 <= i < |entries| ==>
      r[i] == if entries[i].id == exerciseId then entries[i].(sets := SetsUpdated(entries[i].sets, setId, edit)) else entries[i]
  {
    MapWhere(entries, (e: WorkoutExercise) => e.id == exerciseId,
             (e: WorkoutExercise) => e.(sets := SetsUpdated(e.sets, setId, edit)))
  }

  /** removeSet: drops the sets with id `setId` from the matching entry only. */
  function WithSetRemoved(entries: seq<WorkoutExercise>, exerciseId: Id, setId: Id): (r: seq<WorkoutExercise>)
    ensures |r| == |entries|
    ensures forall i :: 0 <= i < |entries| ==>
      r[i] == if entries[i].id == exerciseId then entries[i].(sets := Filter(entries[i].sets, (s: WorkoutSet) => s.id != setId))
              else entries[i]
  {
    MapWhere(entries, (e: WorkoutExercise) => e.id == exerciseId,
             (e: WorkoutExercise) => e.(sets := Filter(e.sets, (s: WorkoutSet) => s.id != setId)))
  }

  /** The condition under which updateSet opens the rest timer: `completed` is set to true on a set that
      was not completed yet. */
  predicate StartsRest(entries: seq<WorkoutExercise>, exerciseId: Id, setId: Id, edit: SetEdit)
  {
    edit == Completed(true) &&
    exists i | 0 <= i < |entries| :: entries[i].id == exerciseId &&
      exists j | 0 <= j < |entries[i].sets| :: entries[i].sets[j].id == setId && !entries[i].sets[j].completed
  }

  /** The rest timer opens exactly when the edit turns some set from not completed to completed. */
  lemma StartsRestIff(entries: seq<WorkoutExercise>, exerciseId: Id, setId: Id, edit: SetEdit)
    ensures var after := WithSetUpdated(entries, exerciseId, setId, edit);
      StartsRest(entries, exerciseId, setId, edit) <==>
      exists i, j :: 0 <= i < |entries| && 0 <= j < |entries[i].sets| &&
                     !entries[i].sets[j].completed && j < |after[i].sets| && after[i].sets[j].completed
  {
    var after := WithSetUpdated(entries, exerciseId, setId, edit);
    if StartsRest(entries, exerciseId, setId, edit) {
      var i :| 0 <= i < |entries| && entries[i].id == exerciseId &&
        exists j | 0 <= j < |entries[i].sets| :: entries[i].sets[j].id == setId && !entries[i].sets[j].completed;
      var j :| 0 <= j < |entries[i].sets| && entries[i].sets[j].id == setId && !entries[i].sets[j].completed;
      assert after[i].sets[j] == ApplySetEdit(entries[i].sets[j], edit);
    }
    if exists i, j :: 0 <= i < |entries| && 0 <= j < |entries[i].sets| &&
                      !entries[i].sets[j].completed && j < |after[i].sets| && after[i].sets[j].completed {
      var i, j :| 0 <= i < |entries| && 0 <= j < |entries[i].sets| &&
                  !entries[i].sets[j].completed && j < |after[i].sets| && after[i].sets[j].completed;
      assert entries[i].id == exerciseId;
      assert entries[i].sets[j].id == setId;
    }
  }

  /** Every set of the session holds values the set inputs accept. */
  ghost predicate SessionInRange(entries: seq<WorkoutExercise>)
  {
    forall i, j :: 0 <= i < |entries| && 0 <= j < |entries[i].sets| ==>
      0 <= entries[i].sets[j].reps <= 999 && 0.0 <= entries[i].sets[j].weight <= 9999.0
  }

  /** The edits the set inputs can produce. */
  predicate GuardedEdit(edit: SetEdit)
  {
    match edit
    case Reps(n) => SetRepsInput(Number(n)).Some?
    case Weight(w) => WeightInput(Number(w)).Some?
    case Completed(_) => true
  }

  /** Values that passed the input guards keep a session within range: the guards are what bounds reps
      and weight, adding sets and entries and removing them never leaves the range. */
  lemma GuardedEditKeepsRange(entries: seq<WorkoutExercise>, exerciseId: Id, setId: Id, edit: SetEdit)
    requires SessionInRange(entries) && GuardedEdit(edit)
    ensures SessionInRange(WithSetUpdated(entries, exerciseId, setId, edit))
  {
    var after := WithSetUpdated(entries, exerciseId, setId, edit);
    forall i, j | 0 <= i < |after| && 0 <= j < |after[i].sets|
      ensures 0 <= after[i].sets[j].reps <= 999 && 0.0 <= after[i].sets[j].weight <= 9999.0
    {
      if entries[i].id == exerciseId {
        assert after[i].sets[j] == if entries[i].sets[j].id == setId then ApplySetEdit(entries[i].sets[j], edit)
                                   else entries[i].sets[j];
      }
    }
  }

  lemma AddedSetKeepsRange(entries: seq<WorkoutExercise>, exerciseId: Id, setId: Id)
    requires SessionInRange(entries)
    ensures SessionInRange(WithSetAdded(entries, exerciseId, setId))
  {
    var after := WithSetAdded(entries, exerciseId, setId);
    forall i, j | 0 <= i < |after| && 0 <= j < |after[i].sets|
      ensures 0 <= after[i].sets[j].reps <= 999 && 0.0 <= after[i].sets[j].weight <= 9999.0
    {
      if entries[i].id == exerciseId && j < |entries[i].sets| {
        assert after[i].sets[j] == entries[i].sets[j];
      }
    }
  }

  /** `ex.weight || 0`. */
  function WeightOrZero(w: Option<real>): real
  {
    if w.Some? then w.value else 0.0
  }

  /** The sets loadTemplate builds from one template entry; `Array.from({ length: n })` has no
      elements for a negative `n`. */
  function TemplateSets(t: TemplateExercise): (r: seq<WorkoutSet>)
  {
    var n: nat := if t.sets < 0 then 0 else t.sets;
    seq(n, j requires 0 <= j < n => WorkoutSet(NatToString(j + 1), t.reps, WeightOrZero(t.weight), false))
  }

  /** A loaded entry has exactly `sets` sets, numbered "1".."n" with distinct ids, each with the
      template's reps and weight (or 0), none completed. */
  lemma TemplateSetsMeaning(t: TemplateExercise)
    ensures |TemplateSets(t)| == if t.sets < 0 then 0 else t.sets
    ensures forall j :: 0 <= j < |TemplateSets(t)| ==>
      DecimalValue(TemplateSets(t)[j].id) == j + 1 && TemplateSets(t)[j].reps == t.reps &&
      TemplateSets(t)[j].weight == WeightOrZero(t.weight) && !TemplateSets(t)[j].completed
    ensures forall j, k :: 0 <= j < k < |TemplateSets(t)| ==> TemplateSets(t)[j].id != TemplateSets(t)[k].id
  {
    var r := TemplateSets(t);
    forall j | 0 <= j < |r|
      ensures DecimalValue(r[j].id) == j + 1
    {
      NatToStringRoundTrip(j + 1);
    }
  }

  /** loadTemplate's new session: one entry per template entry, in order, with a fresh id each. */
  function ExpandTemplate(t: WorkoutTemplate, entryId: nat -> Id): (r: seq<WorkoutExercise>)
    ensures |r| == |t.exercises|
    ensures forall k :: 0 <= k < |r| ==>
      r[k].id == entryId(k) && r[k].exerciseId == t.exercises[k].exerciseId &&
      r[k].exerciseName == t.exercises[k].exerciseName && r[k].sets == TemplateSets(t.exercises[k]) &&
      r[k].notes == None
  {
    seq(|t.exercises|, k requires 0 <= k < |t.exercises| =>
      WorkoutExercise(entryId(k), t.exercises[k].exerciseId, t.exercises[k].exerciseName,
                      TemplateSets(t.exercises[k]), None))
  }

  lemma {:induction false} NothingCompletedNoVolume(sets: seq<WorkoutSet>)
    requires forall j :: 0 <= j < |sets| ==> !sets[j].completed
    ensures SetsVolume(sets) == 0.0
  {
    if sets != [] {
      NothingCompletedNoVolume(sets[1..]);
    }
  }

  lemma {:induction false} NothingCompletedEntriesNoVolume(entries: seq<WorkoutExercise>)
    requires forall k, j :: 0 <= k < |entries| && 0 <= j < |entries[k].sets| ==> !entries[k].sets[j].completed
    ensures ExercisesVolume(entries) == 0.0
  {
    if entries != [] {
      NothingCompletedNoVolume(entries[0].sets);
      assert forall k :: 1 <= k < |entries| ==> entries[1..][k - 1] == entries[k];
      NothingCompletedEntriesNoVolume(entries[1..]);
    }
  }

  /** A session loaded from a template has no completed set yet, so it carries no volume. */
  lemma LoadedSessionNoVolume(t: WorkoutTemplate, entryId: nat -> Id)
    ensures ExercisesVolume(ExpandTemplate(t, entryId)) == 0.0
  {
    var r := ExpandTemplate(t, entryId);
    forall k, j | 0 <= k < |r| && 0 <= j < |r[k].sets|
      ensures !r[k].sets[j].completed
    {
      TemplateSetsMeaning(t.exercises[k]);
    }
    NothingCompletedEntriesNoVolume(r);
  }

  /** `format(new Date(), "yyyy-MM-dd'T'HH:mm:ss")`: the instant cut to the whole second. */
  function ToSecond(t: Time): (r: Time)
    ensures r <= t < r + 1000
  {
    t / 1000 * 1000
  }

  /** Cutting to the second keeps the calendar day. */
  lemma ToSecondSameDay(t: Time)
    ensures DayOf(ToSecond(t)) == DayOf(t)
  {
    var d := t / MsPerDay;
    var q := t / 1000;
    assert d * MsPerDay <= t < (d + 1) * MsPerDay;
    assert (d * 86400) * 1000 <= t;
    assert d * 86400 <= q;
    assert d * MsPerDay <= q * 1000 < (d + 1) * MsPerDay;
  }

  /** The workout saveWorkout writes: today's id when today's workout has a non-empty one, a fresh id
      otherwise, dated now, with the session's entries. */
  function WorkoutToSave(entries: seq<WorkoutExercise>, todays: Option<Workout>, freshId: Id, now: Time): (w: Workout)
    ensures w.id == (if todays.Some? && todays.value.id != "" then todays.value.id else freshId)
    ensures w.exercises == entries && w.duration == None && w.notes == None
    ensures DayOf(w.date) == DayOf(now)
  {
    ToSecondSameDay(now);
    Workout(if todays.Some? && todays.value.id != "" then todays.value.id else freshId, ToSecond(now), entries, None, None)
  }

  /** What saveWorkout does. */
  datatype SaveWorkoutAction = EmptySession | UpdateToday(id: Id) | AddNew

  function SaveWorkoutActionOf(entries: seq<WorkoutExercise>, todays: Option<Workout>, freshId: Id): (a: SaveWorkoutAction)
    ensures a == EmptySession <==> entries == []
    ensures a.UpdateToday? <==> entries != [] && todays.Some?
    ensures a.UpdateToday? && todays.value.id != "" ==> a.id == todays.value.id
    ensures a == AddNew <==> entries != [] && todays.None?
  {
    if |entries| == 0 then EmptySession
    else if todays.Some? then UpdateToday(if todays.value.id != "" then todays.value.id else freshId)
    else AddNew
  }

  /** With no workout today, the appended one becomes today's workout. */
  lemma AppendedIsTodays(ws: seq<Workout>, w: Workout, today: int)
    requires Find(ws, OnDay(today)).None? && OnDay(today)(w)
    ensures Find(ws + [w], OnDay(today)) == Some(w)
  {
    var r := Find(ws + [w], OnDay(today));
    assert (ws + [w])[|ws|] == w;
    var j :| 0 <= j < |ws + [w]| && (ws + [w])[j] == r.value && OnDay(today)((ws + [w])[j]);
    if j < |ws| {
      assert (ws + [w])[j] == ws[j];
    }
  }

  /** Replacing today's workout by a workout of the same id and day makes that one today's workout. */
  lemma ReplacedIsTodays(ws: seq<Workout>, w: Workout, today: int)
    requires Find(ws, OnDay(today)).Some? && Find(ws, OnDay(today)).value.id == w.id && OnDay(today)(w)
    ensures Find(WithWorkoutUpdated(ws, w.id, w), OnDay(today)) == Some(w)
  {
    var after := WithWorkoutUpdated(ws, w.id, w);
    var old_j :| 0 <= old_j < |ws| && ws[old_j] == Find(ws, OnDay(today)).value && OnDay(today)(ws[old_j]) &&
                 forall k :: 0 <= k < old_j ==> !OnDay(today)(ws[k]);
    assert after[old_j] == w;
    var r := Find(after, OnDay(today));
    var i :| 0 <= i < |after| && after[i] == r.value && OnDay(today)(after[i]) &&
             forall k :: 0 <= k < i ==> !OnDay(today)(after[k]);
    assert i <= old_j;
    if i < old_j {
      assert !OnDay(today)(ws[i]) && after[i] != ws[i];
    }
    assert after[i] == w;
  }

  /** The logging page's own state. */
  class WorkoutSession {
    var entries: seq<WorkoutExercise>
    var selectedExerciseId: Id
    var showRestTimer: bool
    /** The template tab of the page. */
    const templateForm: TemplateEditor

    /** The session starts from today's workout, if there is one. */
    constructor (todays: Option<Workout>)
      ensures entries == (if todays.Some? then todays.value.exercises else [])
      ensures selectedExerciseId == "" && !showRestTimer
      ensures fresh(templateForm) && templateForm.IsBlank() && !templateForm.dialogOpen
    {
      entries := if todays.Some? then todays.value.exercises else [];
      selectedExerciseId := "";
      showRestTimer := false;
      templateForm := new TemplateEditor();
    }

    /** The effect that reloads the session whenever today's workout is present. */
    method SyncWithToday(todays: Option<Workout>)
      modifies this
      ensures entries == (if todays.Some? then todays.value.exercises else old(entries))
      ensures selectedExerciseId == old(selectedExerciseId) && showRestTimer == old(showRestTimer)
    {
      if todays.Some? {
        entries := todays.value.exercises;
      }
    }

    method SelectExercise(exerciseId: Id)
      modifies this
      ensures selectedExerciseId == exerciseId
      ensures entries == old(entries) && showRestTimer == old(showRestTimer)
    {
      selectedExerciseId := exerciseId;
    }

    /** addExerciseToWorkout: no selection is refused and an unknown id changes nothing; otherwise the new
        entry (session id `entryId`) is appended and the picker cleared. */
    method AddExerciseToWorkout(exercises: seq<Exercise>, entryId: Id) returns (selected: bool)
      modifies this
      ensures selected <==> old(selectedExerciseId) != ""
      ensures var found := ExerciseById(exercises, old(selectedExerciseId));
        if selected && found.Some? then
          entries == old(entries) + [NewSessionEntry(entryId, found.value)] && selectedExerciseId == ""
        else
          entries == old(entries) && selectedExerciseId == old(selectedExerciseId)
      ensures showRestTimer == old(showRestTimer)
    {
      if selectedExerciseId == "" {
        return false;
      }
      selected := true;
      var exercise := ExerciseById(exercises, selectedExerciseId);
      if exercise.None? {
        return;
      }
      entries := entries + [NewSessionEntry(entryId, exercise.value)];
      selectedExerciseId := "";
    }

    method RemoveExerciseFromWorkout(id: Id)
      modifies this
      ensures entries == WithoutEntry(old(entries), id)
      ensures selectedExerciseId == old(selectedExerciseId) && showRestTimer == old(showRestTimer)
    {
      entries := WithoutEntry(entries, id);
    }

    /** addSetToExercise; `setId` is the fresh id of the new set. */
    method AddSetToExercise(exerciseId: Id, setId: Id)
      modifies this
      ensures entries == WithSetAdded(old(entries), exerciseId, setId)
      ensures selectedExerciseId == old(selectedExerciseId) && showRestTimer == old(showRestTimer)
    {
      entries := WithSetAdded(entries, exerciseId, setId);
    }

    /** updateSet: applies the edit and opens the rest timer on a completed false-to-true change. */
    method UpdateSet(exerciseId: Id, setId: Id, edit: SetEdit)
      modifies this
      ensures entries == WithSetUpdated(old(entries), exerciseId, setId, edit)
      ensures showRestTimer == (old(showRestTimer) || StartsRest(old(entries), exerciseId, setId, edit))
      ensures selectedExerciseId == old(selectedExerciseId)
    {
      if StartsRest(entries, exerciseId, setId, edit) {
        showRestTimer := true;
      }
      entries := WithSetUpdated(entries, exerciseId, setId, edit);
    }

    /** The reps input of a set: only values its guard accepts reach updateSet. */
    method OnRepsInput(exerciseId: Id, setId: Id, input: Entry<int>)
      modifies this
      ensures entries == if SetRepsInput(input).Some?
                         then WithSetUpdated(old(entries), exerciseId, setId, Reps(SetRepsInput(input).value))
                         else old(entries)
      ensures SessionInRange(old(entries)) ==> SessionInRange(entries)
      ensures selectedExerciseId == old(selectedExerciseId) && showRestTimer == old(showRestTimer)
    {
      var value := SetRepsInput(input);
      if value.Some? {
        if SessionInRange(entries) {
          GuardedEditKeepsRange(entries, exerciseId, setId, Reps(value.value));
        }
        UpdateSet(exerciseId, setId, Reps(value.value));
      }
    }

    /** The weight input of a set: only values its guard accepts reach updateSet. */
    method OnWeightInput(exerciseId: Id, setId: Id, input: Entry<real>)
      modifies this
      ensures entries == if WeightInput(input).Some?
                         then WithSetUpdated(old(entries), exerciseId, setId, Weight(WeightInput(input).value))
                         else old(entries)
      ensures SessionInRange(old(entries)) ==> SessionInRange(entries)
      ensures selectedExerciseId == old(selectedExerciseId) && showRestTimer == old(showRestTimer)
    {
      var value := WeightInput(input);
      if value.Some? {
        if SessionInRange(entries) {
          GuardedEditKeepsRange(entries, exerciseId, setId, Weight(value.value));
        }
        UpdateSet(exerciseId, setId, Weight(value.value));
      }
    }

    method RemoveSet(exerciseId: Id, setId: Id)
      modifies this
      ensures entries == WithSetRemoved(old(entries), exerciseId, setId)
      ensures selectedExerciseId == old(selectedExerciseId) && showRestTimer == old(showRestTimer)
    {
      entries := WithSetRemoved(entries, exerciseId, setId);
    }

    /** The rest timer's `onClose`. */
    method CloseRestTimer()
      modifies this
      ensures !showRestTimer
      ensures entries == old(entries) && selectedExerciseId == old(selectedExerciseId)
    {
      showRestTimer := false;
    }

    /** loadTemplate: replaces the session by the expanded template; an unknown id changes nothing. */
    method LoadTemplate(templates: seq<WorkoutTemplate>, templateId: Id, entryId: nat -> Id) returns (loaded: bool)
      modifies this
      ensures loaded <==> FindTemplate(templates, templateId).Some?
      ensures entries == if loaded then ExpandTemplate(FindTemplate(templates, templateId).value, entryId) else old(entries)
      ensures selectedExerciseId == old(selectedExerciseId) && showRestTimer == old(showRestTimer)
    {
      var template := FindTemplate(templates, templateId);
      if template.None? {
        return false;
      }
      entries := ExpandTemplate(template.value, entryId);
      loaded := true;
    }

    /** saveWorkout: refuses an empty session; otherwise updates today's workout or adds a new one.
        Afterwards the saved workout is today's workout, except when a stored workout of today has an
        empty id (then the update uses `freshId` and matches nothing). */
    method SaveWorkout(store: WorkoutStore, freshId: Id, now: Time) returns (action: SaveWorkoutAction)
      modifies store
      ensures var todays := old(store.GetTodaysWorkout(DayOf(now)));
        action == SaveWorkoutActionOf(entries, todays, freshId)
      ensures var w := WorkoutToSave(entries, old(store.GetTodaysWorkout(DayOf(now))), freshId, now);
        match action
        case EmptySession => store.workouts == old(store.workouts)
        case UpdateToday(id) => store.workouts == WithWorkoutUpdated(old(store.workouts), id, w)
        case AddNew => store.workouts == old(store.workouts) + [w]
      ensures var todays := old(store.GetTodaysWorkout(DayOf(now)));
        action != EmptySession && (todays.None? || todays.value.id != "") ==>
        store.GetTodaysWorkout(DayOf(now)) == Some(WorkoutToSave(entries, todays, freshId, now))
      ensures store.exercises == old(store.exercises)
    {
      var todays := store.GetTodaysWorkout(DayOf(now));
      action := SaveWorkoutActionOf(entries, todays, freshId);
      var w := WorkoutToSave(entries, todays, freshId, now);
      if action == EmptySession {
        return;
      }
      if action.UpdateToday? {
        if todays.value.id != "" {
          ReplacedIsTodays(store.workouts, w, DayOf(now));
        }
        store.UpdateWorkout(action.id, w);
      } else {
        AppendedIsTodays(store.workouts, w, DayOf(now));
        store.AddWorkout(w);
      }
    }

    /** The sets input of a template entry on this page: 1..99, empty means 1. */
    method OnTemplateSetsInput(exerciseId: Id, input: Entry<int>)
      modifies templateForm
      ensures templateForm.entries == if TemplateSetsInput(input).Some?
        then UpdateEntries(old(templateForm.entries), exerciseId, SetsTo(TemplateSetsInput(input).value))
        else old(templateForm.entries)
      ensures templateForm.name == old(templateForm.name) && templateForm.editingId == old(templateForm.editingId)
      ensures templateForm.description == old(templateForm.description) &&
              templateForm.selectedExerciseId == old(templateForm.selectedExerciseId) &&
              templateForm.dialogOpen == old(templateForm.dialogOpen)
    {
      var value := TemplateSetsInput(input);
      if value.Some? {
        templateForm.UpdateTemplateExercise(exerciseId, SetsTo(value.value));
      }
    }

    /** The reps input of a template entry on this page: 1..999, empty means 1. */
    method OnTemplateRepsInput(exerciseId: Id, input: Entry<int>)
      modifies templateForm
      ensures templateForm.entries == if TemplateRepsInput(input).Some?
        then UpdateEntries(old(templateForm.entries), exerciseId, RepsTo(TemplateRepsInput(input).value))
        else old(templateForm.entries)
      ensures templateForm.name == old(templateForm.name) && templateForm.editingId == old(templateForm.editingId)
      ensures templateForm.description == old(templateForm.description) &&
              templateForm.selectedExerciseId == old(templateForm.selectedExerciseId) &&
              templateForm.dialogOpen == old(templateForm.dialogOpen)
    {
      var value := TemplateRepsInput(input);
      if value.Some? {
        templateForm.UpdateTemplateExercise(exerciseId, RepsTo(value.value));
      }
    }

    /** The weight input of a template entry on this page: 0..9999, empty means 0. */
    method OnTemplateWeightInput(exerciseId: Id, input: Entry<real>)
      modifies templateForm
      ensures templateForm.entries == if WeightInput(input).Some?
        then UpdateEntries(old(templateForm.entries), exerciseId, WeightTo(WeightInput(input).value))
        else old(templateForm.entries)
      ensures templateForm.name == old(templateForm.name) && templateForm.editingId == old(templateForm.editingId)
      ensures templateForm.description == old(templateForm.description) &&
              templateForm.selectedExerciseId == old(templateForm.selectedExerciseId) &&
              templateForm.dialogOpen == old(templateForm.dialogOpen)
    {
      var value := WeightInput(input);
      if value.Some? {
        templateForm.UpdateTemplateExercise(exerciseId, WeightTo(value.value));
      }
    }
  }
}
