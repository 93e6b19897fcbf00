/** The task-creation form of src/components/TaskForm.jsx: four text fields, a `loading`
    flag, and the submit handler that validates, builds the payload, awaits `onCreate`
    and resets the fields. */
module TaskForm {
  import opened Text
  import opened Tasks

  /** The body handed to `onCreate`: the trimmed title, the trimmed description or nothing
      when it is blank, the priority name, and the due-date field unless it is empty. */
  function CreatePayload(title: string, description: string, priority: string, dueDate: string): (p: Payload)
    ensures p.title.Some? && IsTrimOf(p.title.value, title)
    ensures p.description.None? <==> AllSpace(description)
    ensures p.description.Some? ==> p.description.value != [] && IsTrimOf(p.description.value, description)
    ensures p.priority == Some(Named(priority))
    ensures p.dueDate.None? <==> dueDate == ""
    ensures p.dueDate.Some? ==> p.dueDate.value == dueDate
    ensures p.notes.None? && p.completed.None?
  {
    Payload(
      Some(Trim(title)),
      None,
      if IsBlank(description) then None else Some(Trim(description)),
      Some(Named(priority)),
      if dueDate == "" then None else Some(dueDate),
      None)
  }

  /** A payload built from a title that is not blank has a non-empty title with no white
      space at either end, as the repository requires of a task title. */
  lemma CreatePayloadTitle(title: string, description: string, priority: string, dueDate: string)
    requires !IsBlank(title)
    ensures var t := CreatePayload(title, description, priority, dueDate).title.value;
            t != [] && !IsSpace(t[0]) && !IsSpace(t[|t| - 1])
  {
  }

  /** What a submit hands to `onCreate`: nothing when the title is blank (the early
      `return`), the payload otherwise. */
  function Submission(title: string, description: string, priority: string, dueDate: string): (r: Option<Payload>)
    ensures r.None? <==> AllSpace(title)
    ensures r.Some? ==> r.value == CreatePayload(title, description, priority, dueDate)
  {
    BlankIsAllSpace(title);
    if IsBlank(title) then None else Some(CreatePayload(title, description, priority, dueDate))
  }

  class Component {
    var title: string
    var description: string
    var priority: string
    var dueDate: string
    var loading: bool

    /** The form as first rendered: empty fields, priority `medium`, not loading. */
    constructor ()
      ensures title == "" && description == "" && priority == "medium" && dueDate == ""
      ensures !loading
    {
      title, description, priority, dueDate := "", "", "medium", "";
      loading := false;
    }

    /** `disabled={loading || !title.trim()}` on the submit button. */
    predicate SubmitDisabled()
      reads this
      ensures SubmitDisabled() <==> loading || AllSpace(title)
    {
      loading || IsBlank(title)
    }

    /** `handleSubmit`: `created` says whether the awaited `onCreate` resolved (true) or
        threw (false); `sent` is what was handed to `onCreate`, if anything. */
    method HandleSubmit(created: bool) returns (sent: Option<Payload>)
      modifies this
      ensures sent == Submission(old(title), old(description), old(priority), old(dueDate))
      ensures sent.None? ==> unchanged(this)
      ensures sent.Some? ==> !loading
      ensures sent.Some? && created ==>
                title == "" && description == "" && priority == "medium" && dueDate == ""
      ensures sent.Some? && !created ==>
                title == old(title) && description == old(description)
                && priority == old(priority) && dueDate == old(dueDate)
    {
      sent := Submission(title, description, priority, dueDate);
      if sent.None? {
        return;
      }
      loading := true;
      if created {
        title, description, priority, dueDate := "", "", "medium", "";
      }
      loading := false;
    }
  }
}
