/** The template form both pages carry (src/pages/Workout.tsx:187-265 and
    src/pages/Templates.tsx:43-121 hold the same handlers): a dialog with a
    name, a description, a list of template entries and an exercise picker,
    saved into the template store. */
module TemplateEditing {
  import opened Lists
  import opened WorkoutTypes
  import opened Text
  import opened Templates

  /** The entry `addExerciseToTemplate` appends: three sets of ten at 0 kg. */
  function NewEntry(e: Exercise): TemplateExercise
  {
    TemplateExercise(e.id, e.name, 3, 10, Some(0.0))
  }

  /** `{ ...ex, [field]: value }` for the three editable fields. */
  datatype TemplateEdit = SetsTo(sets: int) | RepsTo(reps: int) | WeightTo(weight: real)

  function ApplyTemplateEdit(t: TemplateExercise, edit: TemplateEdit): (r: TemplateExercise)
    ensures r.exerciseId == t.exerciseId && r.exerciseName == t.exerciseName
    ensures r.sets == (if edit.SetsTo? then edit.sets else t.sets)
    ensures r.reps == (if edit.RepsTo? then edit.reps else t.reps)
    ensures r.weight == (if edit.WeightTo? then Some(edit.weight) else t.weight)
  {
    match edit
    case SetsTo(n) => t.(sets := n)
    case RepsTo(n) => t.(reps := n)
    case WeightTo(w) => t.(weight := Some(w))
  }

  /** updateTemplateExercise: every entry for the exercise gets the edit, the others stay. */
  function UpdateEntries(entries: seq<TemplateExercise>, exerciseId: Id, edit: TemplateEdit): (r: seq<TemplateExercise>)
    ensures |r| == |entries|
    ensures forall i :: 0 <= i < |entries| ==>
      r[i] == if entries[i].exerciseId == exerciseId then ApplyTemplateEdit(entries[i], edit) else entries[i]
    ensures (forall e :: e in entries ==> e.exerciseId != exerciseId) ==> r == entries
  {
    MapWhere(entries, (e: TemplateExercise) => e.exerciseId == exerciseId,
             (e: TemplateExercise) => ApplyTemplateEdit(e, edit))
  }

  /** removeExerciseFromTemplate: drops every entry for the exercise, keeping the order of the rest. */
  function RemoveEntries(entries: seq<TemplateExercise>, exerciseId: Id): (r: seq<TemplateExercise>)
    ensures forall e :: e in r <==> e in entries && e.exerciseId != exerciseId
    ensures IsSubsequence(r, entries)
  {
    Filter(entries, (e: TemplateExercise) => e.exerciseId != exerciseId)
  }

  /** What saveTemplate does with the form. */
  datatype SaveAction = MissingName | MissingExercises | UpdateExisting(id: Id) | CreateNew

  /** The checks of saveTemplate in order: a blank name, then an empty list, then edit or create
      (an editing id counts only when it is a non-empty string). */
  function SaveActionOf(name: string, entries: seq<TemplateExercise>, editing: Option<Id>): (a: SaveAction)
    ensures a == MissingName <==> forall i :: 0 <= i < |name| ==> IsWhitespace(name[i])
    ensures a == MissingExercises <==> Trim(name) != [] && entries == []
    ensures a.UpdateExisting? <==> Trim(name) != [] && entries != [] && editing.Some? && editing.value != ""
    ensures a.UpdateExisting? ==> editing == Some(a.id)
    ensures a == CreateNew <==> Trim(name) != [] && entries != [] && (editing.None? || editing.value == "")
  {
    TrimEmptyIffBlank(name);
    if Trim(name) == [] then MissingName
    else if |entries| == 0 then MissingExercises
    else if editing.Some? && editing.value != "" then UpdateExisting(editing.value)
    else CreateNew
  }

  /** A template saved from the form always has a non-blank name and at least one entry. */
  lemma SavedTemplatesAreComplete(name: string, entries: seq<TemplateExercise>, editing: Option<Id>)
    requires SaveActionOf(name, entries, editing).UpdateExisting? || SaveActionOf(name, entries, editing) == CreateNew
    ensures exists i :: 0 <= i < |name| && !IsWhitespace(name[i])
    ensures |entries| > 0
  {
  }

  /** The form state of the template dialog. */
  class TemplateEditor {
    var dialogOpen: bool
    var editingId: Option<Id>
    var name: string
    var description: string
    var entries: seq<TemplateExercise>
    var selectedExerciseId: Id

    /** The fields are blank; the form is not editing anything. */
    predicate IsBlank()
      reads this
    {
      name == "" && description == "" && entries == [] && selectedExerciseId == "" && editingId == None
    }

    constructor ()
      ensures IsBlank() && !dialogOpen
    {
      dialogOpen := false;
      editingId := None;
      name := "";
      description := "";
      entries := [];
      selectedExerciseId := "";
    }

    /** resetForm / resetTemplateForm: clears the fields, leaves the dialog as it is. */
    method ResetForm()
      modifies this
      ensures IsBlank() && dialogOpen == old(dialogOpen)
    {
      name := "";
      description := "";
      entries := [];
      selectedExerciseId := "";
      editingId := None;
    }

    /** The dialog's `onOpenChange`: closing it also resets the form. */
    method SetDialogOpen(open: bool)
      modifies this
      ensures dialogOpen == open
      ensures !open ==> IsBlank()
      ensures open ==> name == old(name) && description == old(description) && entries == old(entries) &&
                       selectedExerciseId == old(selectedExerciseId) && editingId == old(editingId)
    {
      dialogOpen := open;
      if !open {
        ResetForm();
      }
    }

    method SelectExercise(exerciseId: Id)
      modifies this
      ensures selectedExerciseId == exerciseId
      ensures dialogOpen == old(dialogOpen) && name == old(name) && description == old(description) &&
              entries == old(entries) && editingId == old(editingId)
    {
      selectedExerciseId := exerciseId;
    }

    method SetName(text: string)
      modifies this
      ensures name == text
      ensures dialogOpen == old(dialogOpen) && description == old(description) && entries == old(entries) &&
              selectedExerciseId == old(selectedExerciseId) && editingId == old(editingId)
    {
      name := text;
    }

    /** openEditDialog: loads a stored template into the form and opens the dialog; an unknown id changes nothing. */
    method OpenEditDialog(templates: seq<WorkoutTemplate>, templateId: Id)
      modifies this
      ensures match FindTemplate(templates, templateId)
        case None =>
          dialogOpen == old(dialogOpen) && name == old(name) && description == old(description) &&
          entries == old(entries) && selectedExerciseId == old(selectedExerciseId) && editingId == old(editingId)
        case Some(t) =>
          dialogOpen && name == t.name && entries == t.exercises && editingId == Some(templateId) &&
          description == (if t.description.Some? then t.description.value else "") &&
          selectedExerciseId == old(selectedExerciseId)
    {
      var template := FindTemplate(templates, templateId);
      if template.Some? {
        name := template.value.name;
        description := if template.value.description.Some? then template.value.description.value else "";
        entries := template.value.exercises;
        editingId := Some(templateId);
        dialogOpen := true;
      }
    }

    /** addExerciseToTemplate: appends the selected exercise with three sets of ten at 0 kg and clears the
        picker; no selection is refused and an unknown id changes nothing. */
    method AddExerciseToTemplate(exercises: seq<Exercise>) returns (selected: bool)
      modifies this
      ensures selected <==> old(selectedExerciseId) != ""
      ensures var found := ExerciseById(exercises, old(selectedExerciseId));
        if selected && found.Some? then
          entries == old(entries) + [NewEntry(found.value)] && selectedExerciseId == ""
        else
          entries == old(entries) && selectedExerciseId == old(selectedExerciseId)
      ensures dialogOpen == old(dialogOpen) && name == old(name) && description == old(description) &&
              editingId == old(editingId)
    {
      if selectedExerciseId == "" {
        return false;
      }
      selected := true;
      var exercise := ExerciseById(exercises, selectedExerciseId);
      if exercise.None? {
        return;
      }
      entries := entries + [NewEntry(exercise.value)];
      selectedExerciseId := "";
    }

    method RemoveExerciseFromTemplate(exerciseId: Id)
      modifies this
      ensures entries == RemoveEntries(old(entries), exerciseId)
      ensures dialogOpen == old(dialogOpen) && name == old(name) && description == old(description) &&
              editingId == old(editingId) && selectedExerciseId == old(selectedExerciseId)
    {
      entries := RemoveEntries(entries, exerciseId);
    }

    method UpdateTemplateExercise(exerciseId: Id, edit: TemplateEdit)
      modifies this
      ensures entries == UpdateEntries(old(entries), exerciseId, edit)
      ensures dialogOpen == old(dialogOpen) && name == old(name) && description == old(description) &&
              editingId == old(editingId) && selectedExerciseId == old(selectedExerciseId)
    {
      entries := UpdateEntries(entries, exerciseId, edit);
    }

    /** saveTemplate: refuses a blank name or an empty list; otherwise updates the edited template or adds a
        new one (with id `freshId` and creation time `now`), closes the dialog and resets the form. */
    method SaveTemplate(store: TemplateStore, freshId: Id, now: Time) returns (action: SaveAction)
      modifies this, store
      ensures action == SaveActionOf(old(name), old(entries), old(editingId))
      ensures (action == MissingName || action == MissingExercises) ==>
        store.templates == old(store.templates) && name == old(name) && entries == old(entries) &&
        description == old(description) && editingId == old(editingId) && dialogOpen == old(dialogOpen) &&
        selectedExerciseId == old(selectedExerciseId)
      ensures action.UpdateExisting? ==>
        store.templates == WithTemplateUpdated(old(store.templates), action.id, old(name), old(description), old(entries))
      ensures action == CreateNew ==>
        store.templates == old(store.templates) + [WorkoutTemplate(freshId, old(name), Some(old(description)), old(entries), now)]
      ensures (action.UpdateExisting? || action == CreateNew) ==> IsBlank() && !dialogOpen
    {
      action := SaveActionOf(name, entries, editingId);
      if action == MissingName || action == MissingExercises {
        return;
      }
      if action.UpdateExisting? {
        store.UpdateTemplate(action.id, name, description, entries);
      } else {
        var _ := store.AddTemplate(freshId, now, name, description, entries);
      }
      dialogOpen := false;
      ResetForm();
    }

    /** handleDeleteTemplate: deletes only when the user confirms. */
    method HandleDeleteTemplate(store: TemplateStore, id: Id, confirmed: bool)
      modifies store
      ensures store.templates == if confirmed then WithoutTemplate(old(store.templates), id) else old(store.templates)
    {
      if confirmed {
        store.DeleteTemplate(id);
      }
    }
  }
}
