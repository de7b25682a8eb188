/** Saved workout templates (src/hooks/useTemplates.ts). */
module Templates {
  import opened Lists
  import opened WorkoutTypes

  /** updateTemplate: replaces name, description and exercises of every template with id `id`;
      id and creation time are kept and nothing else changes. */
  function WithTemplateUpdated(ts: seq<WorkoutTemplate>, id: Id, name: string, description: string,
                               exercises: seq<TemplateExercise>): (r: seq<WorkoutTemplate>)
    ensures |r| == |ts|
    ensures forall i :: 0 <= i < |ts| ==>
      r[i] == if ts[i].id == id then ts[i].(name := name, description := Some(description), exercises := exercises)
              else ts[i]
    ensures forall i :: 0 <= i < |ts| ==> r[i].id == ts[i].id && r[i].createdAt == ts[i].createdAt
    ensures (forall t :: t in ts ==> t.id != id) ==> r == ts
  {
    MapWhere(ts, (t: WorkoutTemplate) => t.id == id,
             (t: WorkoutTemplate) => t.(name := name, description := Some(description), exercises := exercises))
  }

  /** deleteTemplate: removes exactly the templates with id `id`, keeping the order of the rest. */
  function WithoutTemplate(ts: seq<WorkoutTemplate>, id: Id): (r: seq<WorkoutTemplate>)
    ensures forall t :: t in r <==> t in ts && t.id != id
    ensures forall t: WorkoutTemplate :: t.id != id ==> multiset(r)[t] == multiset(ts)[t]
    ensures IsSubsequence(r, ts)
  {
    Filter(ts, (t: WorkoutTemplate) => t.id != id)
  }

  /** `templates.find(t => t.id === id)`. */
  function FindTemplate(ts: seq<WorkoutTemplate>, id: Id): (r: Option<WorkoutTemplate>)
    ensures r.Some? ==> exists j :: 0 <= j < |ts| && ts[j] == r.value && r.value.id == id &&
                                    forall i :: 0 <= i < j ==> ts[i].id != id
    ensures r.None? <==> forall i :: 0 <= i < |ts| ==> ts[i].id != id
  {
    Find(ts, (t: WorkoutTemplate) => t.id == id)
  }

  class TemplateStore {
    var templates: seq<WorkoutTemplate>

    constructor ()
      ensures templates == []
    {
      templates := [];
    }

    /** Appends a template; `id` and `now` come from the clock. */
    method AddTemplate(id: Id, now: Time, name: string, description: string, exercises: seq<TemplateExercise>)
      returns (t: WorkoutTemplate)
      modifies this
      ensures t == WorkoutTemplate(id, name, Some(description), exercises, now)
      ensures templates == old(templates) + [t]
    {
      t := WorkoutTemplate(id, name, Some(description), exercises, now);
      templates := templates + [t];
    }

    method UpdateTemplate(id: Id, name: string, description: string, exercises: seq<TemplateExercise>)
      modifies this
      ensures templates == WithTemplateUpdated(old(templates), id, name, description, exercises)
    {
      templates := WithTemplateUpdated(templates, id, name, description, exercises);
    }

    method DeleteTemplate(id: Id)
      modifies this
      ensures templates == WithoutTemplate(old(templates), id)
    {
      templates := WithoutTemplate(templates, id);
    }
  }
}
