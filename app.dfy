/** The list component of src/App.jsx: the search is sent to the repository (`?q=`), create
    and toggle re-fetch the whole list for the current query, delete removes the entry
    locally, and the view applies the filter mode only. */
module App {
  import opened Sequences
  import opened Tasks
  import opened Text
  import TodoApp

  /** The `filtered` memo: `active` keeps the incomplete tasks, `completed` the complete
      ones, and any other mode gives back the list itself. */
  function Filtered(tasks: seq<Task>, filter: string): (r: seq<Task>)
    ensures forall t :: t in r <==> t in tasks && Admits(filter, t)
    ensures filter != ACTIVE && filter != COMPLETED ==> r == tasks
  {
    if filter == ACTIVE then Filter(tasks, IsActive)
    else if filter == COMPLETED then Filter(tasks, IsDone)
    else tasks
  }

  /** Both components apply the filter modes alike: with a blank query, the view of
      TodoApp.jsx is this component's view. */
  lemma FilterModesAgree(tasks: seq<Task>, filter: string, query: string)
    requires IsBlank(query)
    ensures TodoApp.View(tasks, filter, query) == Filtered(tasks, filter)
  {
  }

  /** The view keeps the order of the list. */
  lemma FilteredIsSubsequence(tasks: seq<Task>, filter: string)
    ensures IsSubsequence(Filtered(tasks, filter), tasks)
  {
    FilterModesAgree(tasks, filter, "");
    TodoApp.ViewIsSubsequence(tasks, filter, "");
  }

  /** The list request of `fetchTasks(q)`: `?q=` is added exactly when `q` is not empty. */
  function ListRequest(q: string): (r: Request)
    ensures r.List?
    ensures r.query.Some? <==> q != ""
    ensures r.query.Some? ==> r.query.value == q
  {
    List(if q == "" then None else Some(q))
  }

  /** The body of the empty-state quick-add button. */
  const QUICK_ADD: Payload :=
    Payload(Some("Try the app"), None, Some("This is a demo task"), Some(Named("high")), None, None)

  /** The demo task passes the title check every form applies. */
  lemma QuickAddTitleIsValid()
    ensures QUICK_ADD.title.Some? && !IsBlank(QUICK_ADD.title.value)
  {
    assert !IsSpace('T');
  }

  class Component {
    var tasks: seq<Task>
    var loading: bool
    var query: string
    var filter: string

    /** The state on first render: no tasks, loading, empty query, filter `all`. */
    constructor ()
      ensures tasks == [] && loading && query == "" && filter == ALL
    {
      tasks, loading, query, filter := [], true, "", ALL;
    }

    /** The list as displayed. */
    function Shown(): (r: seq<Task>)
      reads this
      ensures IsSubsequence(r, tasks)
      ensures forall t :: t in r ==> t in tasks && Admits(filter, t)
    {
      FilteredIsSubsequence(tasks, filter);
      Filtered(tasks, filter)
    }

    /** `fetchTasks(q)`: `loading` is set, the fetched list replaces `tasks` and `loading`
        is cleared. With no `try`/`finally`, a failed fetch leaves `loading` set. */
    method FetchTasks(q: string, reply: Reply<seq<Task>>) returns (sent: Request)
      modifies this`tasks, this`loading
      ensures sent == ListRequest(q)
      ensures reply.Received? ==> tasks == reply.value && !loading
      ensures reply.Failed? ==> tasks == old(tasks) && loading
    {
      loading := true;
      sent := ListRequest(q);
      if reply.Received? {
        tasks := reply.value;
        loading := false;
      }
    }

    /** `handleCreate`: POST the payload (`posted` says whether the call settled), then
        re-fetch the list for the current query. */
    method HandleCreate(payload: Payload, posted: bool, reply: Reply<seq<Task>>) returns (sent: seq<Request>)
      modifies this`tasks, this`loading
      ensures sent == if posted then [Create(payload), ListRequest(query)] else [Create(payload)]
      ensures !posted ==> tasks == old(tasks) && loading == old(loading)
      ensures posted && reply.Received? ==> tasks == reply.value && !loading
      ensures posted && reply.Failed? ==> tasks == old(tasks) && loading
    {
      sent := [Create(payload)];
      if posted {
        var list := FetchTasks(query, reply);
        sent := sent + [list];
      }
    }

    /** `handleToggle`: PATCH the opposite completion, then re-fetch the list for the
        current query; the list is the repository's, not a local edit. */
    method HandleToggle(task: Task, patched: bool, reply: Reply<seq<Task>>) returns (sent: seq<Request>)
      modifies this`tasks, this`loading
      ensures sent == if patched then [Update(task.id, TogglePatch(task)), ListRequest(query)]
                      else [Update(task.id, TogglePatch(task))]
      ensures !patched ==> tasks == old(tasks) && loading == old(loading)
      ensures patched && reply.Received? ==> tasks == reply.value && !loading
      ensures patched && reply.Failed? ==> tasks == old(tasks) && loading
    {
      sent := [Update(task.id, TogglePatch(task))];
      if patched {
        var list := FetchTasks(query, reply);
        sent := sent + [list];
      }
    }

    /** `handleDelete`: once the DELETE call settles, the entries with the task's id are
        dropped locally. */
    method HandleDelete(task: Task, delivered: bool) returns (sent: Request)
      modifies this`tasks
      ensures sent == Remove(task.id)
      ensures delivered ==> tasks == RemoveById(old(tasks), task.id)
      ensures !delivered ==> tasks == old(tasks)
    {
      sent := Remove(task.id);
      if delivered {
        tasks := RemoveById(tasks, task.id);
      }
    }

    /** The quick-add button of the empty state: `handleCreate` with the demo task. */
    method QuickAdd(posted: bool, reply: Reply<seq<Task>>) returns (sent: seq<Request>)
      modifies this`tasks, this`loading
      ensures sent == if posted then [Create(QUICK_ADD), ListRequest(query)] else [Create(QUICK_ADD)]
      ensures posted && reply.Received? ==> tasks == reply.value && !loading
      ensures posted && reply.Failed? ==> tasks == old(tasks) && loading
      ensures !posted ==> tasks == old(tasks) && loading == old(loading)
    {
      sent := HandleCreate(QUICK_ADD, posted, reply);
    }
  }
}
