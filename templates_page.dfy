/** The templates page (src/pages/Templates.tsx). Its form is the shared
    template form of module TemplateEditing; what differs from the workout
    page is how the number inputs are read: `parseInt(v) || 1` and
    `parseFloat(v) || 0`, with no range check. */
module TemplatesPage {
  import opened Lists
  import opened WorkoutTypes
  import opened Templates
  import opened TemplateEditing
  import opened WorkoutPage

  /** `parse(v) || fallback`: the empty string and NaN parse to NaN, and NaN and 0 are falsy. */
  function LooseInt(input: Entry<int>, fallback: int): (r: int)
    ensures r == fallback || (input.Number? && input.value == r && r != 0)
    ensures input.Number? && input.value != 0 ==> r == input.value
  {
    if input.Number? && input.value != 0 then input.value else fallback
  }

  function LooseReal(input: Entry<real>, fallback: real): (r: real)
    ensures r == fallback || (input.Number? && input.value == r && r != 0.0)
    ensures input.Number? && input.value != 0.0 ==> r == input.value
  {
    if input.Number? && input.value != 0.0 then input.value else fallback
  }

  /** The sets and reps inputs of this page never yield 0, but they do let negative and huge values through. */
  lemma LooseCountsAreNonZero(input: Entry<int>)
    ensures LooseInt(input, 1) != 0
  {
  }

  /** Where the workout page's guard accepts a value, this page reads the same value; the converse fails:
      -5 sets are refused there and stored here. */
  lemma LooseAgreesWithGuards(input: Entry<int>, w: Entry<real>)
    ensures TemplateSetsInput(input).Some? ==> LooseInt(input, 1) == TemplateSetsInput(input).value
    ensures TemplateRepsInput(input).Some? ==> LooseInt(input, 1) == TemplateRepsInput(input).value
    ensures WeightInput(w).Some? ==> LooseReal(w, 0.0) == WeightInput(w).value
    ensures LooseInt(Number(-5), 1) == -5 && TemplateSetsInput(Number(-5)).None?
  {
  }

  /** A template entry with no positive set count, as this page can store, loads into an entry with no sets. */
  lemma NonPositiveSetsLoadNothing(t: TemplateExercise)
    requires t.sets <= 0
    ensures TemplateSets(t) == []
  {
    TemplateSetsMeaning(t);
  }

  /** The page's state: its template form. */
  class TemplatesView {
    const form: TemplateEditor

    constructor ()
      ensures fresh(form) && form.IsBlank() && !form.dialogOpen
    {
      form := new TemplateEditor();
    }

    /** The sets input: `parseInt(v) || 1`. */
    method OnSetsInput(exerciseId: Id, input: Entry<int>)
      modifies form
      ensures form.entries == UpdateEntries(old(form.entries), exerciseId, SetsTo(LooseInt(input, 1)))
      ensures form.name == old(form.name) && form.editingId == old(form.editingId)
      ensures form.description == old(form.description) && form.selectedExerciseId == old(form.selectedExerciseId) &&
              form.dialogOpen == old(form.dialogOpen)
    {
      form.UpdateTemplateExercise(exerciseId, SetsTo(LooseInt(input, 1)));
    }

    /** The reps input: `parseInt(v) || 1`. */
    method OnRepsInput(exerciseId: Id, input: Entry<int>)
      modifies form
      ensures form.entries == UpdateEntries(old(form.entries), exerciseId, RepsTo(LooseInt(input, 1)))
      ensures form.name == old(form.name) && form.editingId == old(form.editingId)
      ensures form.description == old(form.description) && form.selectedExerciseId == old(form.selectedExerciseId) &&
              form.dialogOpen == old(form.dialogOpen)
    {
      form.UpdateTemplateExercise(exerciseId, RepsTo(LooseInt(input, 1)));
    }

    /** The weight input: `parseFloat(v) || 0`. */
    method OnWeightInput(exerciseId: Id, input: Entry<real>)
      modifies form
      ensures form.entries == UpdateEntries(old(form.entries), exerciseId, WeightTo(LooseReal(input, 0.0)))
      ensures form.name == old(form.name) && form.editingId == old(form.editingId)
      ensures form.description == old(form.description) && form.selectedExerciseId == old(form.selectedExerciseId) &&
              form.dialogOpen == old(form.dialogOpen)
    {
      form.UpdateTemplateExercise(exerciseId, WeightTo(LooseReal(input, 0.0)));
    }
  }
}
