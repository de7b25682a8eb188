/** The exercise library page (src/pages/Exercises.tsx): search and category
    filter, the add/edit dialog, deleting and drag-and-drop reordering. */
module ExercisesPage {
  import opened Lists
  import opened WorkoutTypes
  import opened Text
  import opened Workouts

  /** The category filter value that shows every category. */
  const AllCategories: string := "all"

  /** `s.toLowerCase()`, character by character with a given case map. */
  function Lowered(s: string, lower: char -> char): (r: string)
    ensures |r| == |s| && forall i :: 0 <= i < |s| ==> r[i] == lower(s[i])
  {
    seq(|s|, i requires 0 <= i < |s| => lower(s[i]))
  }

  /** The test of `filteredExercises`: the name matches the query, ignoring case, and the category matches. */
  function Shown(query: string, category: string, lower: char -> char): Exercise -> bool
  {
    (e: Exercise) => Contains(Lowered(e.name, lower), Lowered(query, lower)) &&
                     (category == AllCategories || e.category == category)
  }

  function FilteredExercises(exercises: seq<Exercise>, query: string, category: string, lower: char -> char): (r: seq<Exercise>)
    ensures IsSubsequence(r, exercises)
    ensures forall e :: e in r <==> e in exercises && Contains(Lowered(e.name, lower), Lowered(query, lower)) &&
                                    (category == AllCategories || e.category == category)
  {
    Filter(exercises, Shown(query, category, lower))
  }

  /** With no query and every category, the whole library is shown in its order. */
  lemma EmptySearchShowsAll(exercises: seq<Exercise>, lower: char -> char)
    ensures FilteredExercises(exercises, "", AllCategories, lower) == exercises
  {
    forall i | 0 <= i < |exercises|
      ensures Shown("", AllCategories, lower)(exercises[i])
    {
      assert IsPrefix(Lowered("", lower), Lowered(exercises[i].name, lower));
    }
    FilterKeepsAll(exercises, Shown("", AllCategories, lower));
  }

  function HasId(id: Id): Exercise -> bool
  {
    (e: Exercise) => e.id == id
  }

  /** `arrayMove(list, from, to)`: takes the element out at `from` and puts it back at `to`. */
  function ArrayMove<T>(s: seq<T>, from: nat, to: nat): (r: seq<T>)
    requires from < |s| && to < |s|
    ensures |r| == |s| && r[to] == s[from]
    ensures multiset(r) == multiset(s)
    ensures RemoveAt(r, to) == RemoveAt(s, from)
  {
    RemoveInsertAt(RemoveAt(s, from), to, s[from]);
    RemoveAtMultiset(s, from);
    InsertAtMultiset(RemoveAt(s, from), to, s[from]);
    InsertAt(RemoveAt(s, from), to, s[from])
  }

  /** Moving back undoes a move. */
  lemma MoveBack<T>(s: seq<T>, from: nat, to: nat)
    requires from < |s| && to < |s|
    ensures ArrayMove(ArrayMove(s, from, to), to, from) == s
  {
    var t := ArrayMove(s, from, to);
    RemoveInsertAt(RemoveAt(s, from), to, s[from]);
    InsertRemoveAt(s, from);
  }

  /** What the dialog's submit does. */
  datatype SubmitAction = MissingFields | UpdateEdited(id: Id) | AddNew

  /** `!formName.trim() || !formCategory` is refused; otherwise the edited exercise is updated or a new one added. */
  function SubmitActionOf(name: string, category: string, editing: Option<Exercise>): (a: SubmitAction)
    ensures a == MissingFields <==> (forall i :: 0 <= i < |name| ==> IsWhitespace(name[i])) || category == ""
    ensures a.UpdateEdited? <==> a != MissingFields && editing.Some?
    ensures a.UpdateEdited? ==> a.id == editing.value.id
  {
    TrimEmptyIffBlank(name);
    if Trim(name) == [] || category == "" then MissingFields
    else if editing.Some? then UpdateEdited(editing.value.id)
    else AddNew
  }

  /** The page's own state. */
  class ExercisesView {
    var searchQuery: string
    var filterCategory: string
    var dialogOpen: bool
    var editing: Option<Exercise>
    var formName: string
    var formCategory: string

    /** The dialog fields are empty and nothing is being edited. */
    predicate FormCleared()
      reads this
    {
      editing == None && formName == "" && formCategory == ""
    }

    constructor ()
      ensures searchQuery == "" && filterCategory == AllCategories && !dialogOpen && FormCleared()
    {
      searchQuery := "";
      filterCategory := AllCategories;
      dialogOpen := false;
      editing := None;
      formName := "";
      formCategory := "";
    }

    /** The list the page shows. */
    function Visible(exercises: seq<Exercise>, lower: char -> char): (r: seq<Exercise>)
      reads this
      ensures IsSubsequence(r, exercises)
    {
      FilteredExercises(exercises, searchQuery, filterCategory, lower)
    }

    method SetSearch(query: string, category: string)
      modifies this
      ensures searchQuery == query && filterCategory == category
      ensures dialogOpen == old(dialogOpen) && editing == old(editing) && formName == old(formName) &&
              formCategory == old(formCategory)
    {
      searchQuery := query;
      filterCategory := category;
    }

    /** handleOpenDialog: loads the exercise to edit, or clears the form for a new one, and opens the dialog. */
    method HandleOpenDialog(exercise: Option<Exercise>)
      modifies this
      ensures dialogOpen && editing == exercise
      ensures formName == (if exercise.Some? then exercise.value.name else "")
      ensures formCategory == (if exercise.Some? then exercise.value.category else "")
      ensures searchQuery == old(searchQuery) && filterCategory == old(filterCategory)
    {
      if exercise.Some? {
        editing := exercise;
        formName := exercise.value.name;
        formCategory := exercise.value.category;
      } else {
        editing := None;
        formName := "";
        formCategory := "";
      }
      dialogOpen := true;
    }

    /** handleCloseDialog: closes the dialog and clears the form. */
    method HandleCloseDialog()
      modifies this
      ensures !dialogOpen && FormCleared()
      ensures searchQuery == old(searchQuery) && filterCategory == old(filterCategory)
    {
      dialogOpen := false;
      editing := None;
      formName := "";
      formCategory := "";
    }

    /** The dialog's `onOpenChange` only sets the flag; the form keeps its contents. */
    method SetDialogOpen(open: bool)
      modifies this
      ensures dialogOpen == open
      ensures editing == old(editing) && formName == old(formName) && formCategory == old(formCategory)
      ensures searchQuery == old(searchQuery) && filterCategory == old(filterCategory)
    {
      dialogOpen := open;
    }

    method SetForm(name: string, category: string)
      modifies this
      ensures formName == name && formCategory == category
      ensures dialogOpen == old(dialogOpen) && editing == old(editing)
      ensures searchQuery == old(searchQuery) && filterCategory == old(filterCategory)
    {
      formName := name;
      formCategory := category;
    }

    /** handleSubmit: refuses a blank name or no category; otherwise stores the trimmed name (updating the
        edited exercise, or adding one with id `freshId` created at `now`) and closes the dialog. */
    method HandleSubmit(store: WorkoutStore, freshId: Id, now: Time) returns (action: SubmitAction)
      modifies this, store
      ensures action == SubmitActionOf(old(formName), old(formCategory), old(editing))
      ensures action == MissingFields ==>
        store.exercises == old(store.exercises) && dialogOpen == old(dialogOpen) && editing == old(editing) &&
        formName == old(formName) && formCategory == old(formCategory)
      ensures action.UpdateEdited? ==>
        store.exercises == WithExerciseUpdated(old(store.exercises), action.id, Trim(old(formName)), old(formCategory))
      ensures action == AddNew ==>
        store.exercises == old(store.exercises) + [Exercise(freshId, Trim(old(formName)), old(formCategory), now)]
      ensures action != MissingFields ==> !dialogOpen && FormCleared() && Trim(old(formName)) != []
      ensures store.workouts == old(store.workouts)
      ensures searchQuery == old(searchQuery) && filterCategory == old(filterCategory)
    {
      action := SubmitActionOf(formName, formCategory, editing);
      if action == MissingFields {
        return;
      }
      TrimEmptyIffBlank(formName);
      if action.UpdateEdited? {
        store.UpdateExercise(action.id, Trim(formName), formCategory);
      } else {
        var _ := store.AddExercise(freshId, now, Trim(formName), formCategory);
      }
      HandleCloseDialog();
    }

    /** handleDelete: deletes only when the user confirms. */
    method HandleDelete(store: WorkoutStore, id: Id, confirmed: bool)
      modifies store
      ensures store.exercises == if confirmed then WithoutExercise(old(store.exercises), id) else old(store.exercises)
      ensures store.workouts == old(store.workouts)
    {
      if confirmed {
        store.DeleteExercise(id);
      }
    }

    /** handleDragEnd: a drop on another listed exercise moves the dragged one to that position; no target,
        the same id, or an id not in the list leaves the order alone. */
    method HandleDragEnd(store: WorkoutStore, activeId: Id, overId: Option<Id>)
      modifies store
      ensures var from := FindIndex(old(store.exercises), HasId(activeId));
        if overId.Some? && overId.value != activeId && from.Some? &&
           FindIndex(old(store.exercises), HasId(overId.value)).Some?
        then
          store.exercises == ArrayMove(old(store.exercises), from.value,
                                       FindIndex(old(store.exercises), HasId(overId.value)).value)
        else store.exercises == old(store.exercises)
      ensures multiset(store.exercises) == multiset(old(store.exercises))
      ensures store.workouts == old(store.workouts)
    {
      if overId.None? || overId.value == activeId {
        return;
      }
      var from := FindIndex(store.exercises, HasId(activeId));
      var to := FindIndex(store.exercises, HasId(overId.value));
      if from.None? || to.None? {
        return;
      }
      store.ReorderExercises(ArrayMove(store.exercises, from.value, to.value));
    }
  }
}
