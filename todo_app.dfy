/** The list component of src/components/TodoApp.jsx: the task list with its derived view
    (filter mode, then a client-side case-insensitive search), the handlers that reconcile
    the list with each reply locally, the inline form's submit rule and the priority badge. */
module TodoApp {
  import opened Text
  import opened Sequences
  import opened Tasks
  import TaskItem

  // ---------------------------------------------------------------- classNames

  /** JavaScript truthiness of a class-name argument: a non-empty string. */
  predicate IsTruthy(c: Option<string>) {
    c.Some? && c.value != ""
  }

  /** The truthy arguments, in order. */
  function TruthyNames(classes: seq<Option<string>>): (r: seq<string>)
    ensures |r| <= |classes|
    ensures forall i :: 0 <= i < |r| ==> r[i] != ""
  {
    if classes == [] then []
    else if IsTruthy(classes[|classes| - 1]) then
      TruthyNames(classes[..|classes| - 1]) + [classes[|classes| - 1].value]
    else TruthyNames(classes[..|classes| - 1])
  }

  /** `parts.join(' ')`. */
  function Join(parts: seq<string>): (r: string)
    ensures parts == [] ==> r == ""
    ensures |parts| == 1 ==> r == parts[0]
  {
    if parts == [] then ""
    else if |parts| == 1 then parts[0]
    else Join(parts[..|parts| - 1]) + " " + parts[|parts| - 1]
  }

  /** `classNames(...classes)`: the truthy arguments joined by single spaces. */
  function ClassNames(classes: seq<Option<string>>): (r: string)
    ensures r == "" <==> forall i :: 0 <= i < |classes| ==> !IsTruthy(classes[i])
  {
    var names := TruthyNames(classes);
    TruthyNamesEmpty(classes);
    assert names != [] ==> Join(names) != "" by { if names != [] { JoinNonEmpty(names); } }
    Join(names)
  }

  lemma {:induction false} TruthyNamesEmpty(classes: seq<Option<string>>)
    ensures TruthyNames(classes) == [] <==> forall i :: 0 <= i < |classes| ==> !IsTruthy(classes[i])
  {
    if classes != [] {
      var init := classes[..|classes| - 1];
      TruthyNamesEmpty(init);
      assert forall i :: 0 <= i < |init| ==> init[i] == classes[i];
    }
  }

  lemma {:induction false} JoinNonEmpty(parts: seq<string>)
    requires parts != [] && forall i :: 0 <= i < |parts| ==> parts[i] != ""
    ensures Join(parts) != ""
  {
    if |parts| > 1 {
      assert |Join(parts)| >= |parts[|parts| - 1]| > 0;
    }
  }

  /** Adding one more argument: a falsy one changes nothing, a truthy one is appended
      after a single space (or alone, when nothing came before it). */
  lemma ClassNamesAppend(classes: seq<Option<string>>, c: Option<string>)
    ensures !IsTruthy(c) ==> ClassNames(classes + [c]) == ClassNames(classes)
    ensures IsTruthy(c) && ClassNames(classes) == "" ==> ClassNames(classes + [c]) == c.value
    ensures IsTruthy(c) && ClassNames(classes) != "" ==>
              ClassNames(classes + [c]) == ClassNames(classes) + " " + c.value
  {
    var all := classes + [c];
    assert all[..|all| - 1] == classes;
    var names := TruthyNames(classes);
    if IsTruthy(c) && names != [] {
      assert (names + [c.value])[..|names|] == names;
    }
  }

  // ---------------------------------------------------------------- PriorityBadge

  /** The colour families of the badge's table: red, amber and emerald. */
  datatype Hue = Red | Amber | Emerald

  /** The label and colour `PriorityBadge` shows. */
  datatype Badge = Badge(caption: string, hue: Hue)

  /** The priorities `map[priority || 2]` finds an entry for: a falsy one (looked up as 2),
      the ranks 1 to 3, and the strings "1" to "3" (object keys are strings). */
  predicate BadgeRenders(p: Option<Priority>) {
    IsFalsy(p)
    || (p.value.Rank? && 1 <= p.value.rank <= 3)
    || (p.value.Named? && p.value.name in {"1", "2", "3"})
  }

  /** The table key a renderable priority is looked up under. */
  function BadgeKey(p: Option<Priority>): (k: int)
    requires BadgeRenders(p)
    ensures 1 <= k <= 3
    ensures IsFalsy(p) ==> k == 2
    ensures !IsFalsy(p) && p.value.Rank? ==> k == p.value.rank
    ensures !IsFalsy(p) && p.value.Named? ==> p.value.name == [('0' as int + k) as char]
  {
    if IsFalsy(p) then 2
    else if p.value.Rank? then p.value.rank
    else if p.value.name == "1" then 1
    else if p.value.name == "2" then 2
    else 3
  }

  /** The priority name a rank stands for: 1 high, 2 medium, 3 low. */
  function RankName(rank: int): string {
    if rank == 1 then "high" else if rank == 3 then "low" else "medium"
  }

  /** `map[priority || 2]`: the badge for a priority, medium when it is falsy. The caption
      is the rank's name, capitalised; the colour is emerald for rank 3 only. */
  function PriorityBadge(p: Option<Priority>): (b: Badge)
    requires BadgeRenders(p)
    ensures IsFalsy(p) ==> b == Badge("Medium", Amber)
    ensures Lower(b.caption) == RankName(BadgeKey(p))
    ensures b.caption != [] && 'A' <= b.caption[0] <= 'Z'
    ensures b.caption[1..] == RankName(BadgeKey(p))[1..]
    ensures b.hue == Emerald <==> BadgeKey(p) == 3
  {
    var key := BadgeKey(p);
    CaptionsLowerToNames();
    if key == 1 then Badge("High", Red)
    else if key == 2 then Badge("Medium", Amber)
    else Badge("Low", Emerald)
  }

  lemma CaptionsLowerToNames()
    ensures Lower("High") == "high" && Lower("Medium") == "medium" && Lower("Low") == "low"
  {
    assert Lower("High") == "high";
    assert Lower("Medium") == "medium";
    assert Lower("Low") == "low";
  }

  /** The badge's colour family against the one `TaskItem` gives the same priority by name. */
  predicate SameFamily(h: Hue, t: TaskItem.Tone) {
    (h == Red && t == TaskItem.Red) || (h == Amber && t == TaskItem.Amber)
  }

  /** The two renderings of a task agree on the colour of high and medium priorities; for
      low, the badge is emerald where `TaskItem` is green. */
  lemma BadgeAgreesWithTaskItem(p: Option<Priority>)
    requires BadgeRenders(p)
    ensures var tone := TaskItem.PriorityTone(Some(Named(RankName(BadgeKey(p)))));
            tone.Some?
            && (BadgeKey(p) != 3 ==> SameFamily(PriorityBadge(p).hue, tone.value))
            && (BadgeKey(p) == 3 ==> PriorityBadge(p).hue == Emerald && tone.value == TaskItem.Green)
  {
    NamedTones();
  }

  lemma NamedTones()
    ensures TaskItem.PriorityTone(Some(Named("high"))) == Some(TaskItem.Red)
    ensures TaskItem.PriorityTone(Some(Named("medium"))) == Some(TaskItem.Amber)
    ensures TaskItem.PriorityTone(Some(Named("low"))) == Some(TaskItem.Green)
  {
  }

  /** A task without a priority shows as medium, in amber, in both renderings of a task. */
  lemma MissingPriorityIsMedium(t: Task)
    requires t.priority.None?
    ensures PriorityBadge(t.priority).caption == "Medium"
    ensures TaskItem.ShownPriority(t.priority) == Named("medium")
    ensures SameFamily(PriorityBadge(t.priority).hue, TaskItem.PriorityTone(t.priority).value)
  {
  }

  // ---------------------------------------------------------------- inline TaskForm

  /** The inline form's three fields. */
  datatype FormFields = FormFields(title: string, notes: string, priority: Priority)

  /** The `useState` initialisers of the form: the fields of `initial`, with an empty title
      or notes and a falsy priority replaced by `''`, `''` and rank 2. They run once, when the
      form mounts. The inline form is mounted once, always in the same place and with no
      `key`, while nothing is being edited, so its fields start as `InitialFields(None)`. An
      edit that starts later does not refill them, and a submit does not clear them; only
      the `completed` flag of the payload follows the task being edited. */
  function InitialFields(initial: Option<Task>): (f: FormFields)
    ensures initial.None? ==> f == FormFields("", "", Rank(2))
    ensures !IsFalsy(Some(f.priority))
    ensures initial.Some? && !IsFalsy(initial.value.priority) ==> Some(f.priority) == initial.value.priority
  {
    match initial
    case None => FormFields("", "", Rank(2))
    case Some(t) =>
      FormFields(t.title, if t.notes.Some? then t.notes.value else "",
                 if IsFalsy(t.priority) then Rank(2) else t.priority.value)
  }

  /** The inline form's `onSubmit`: nothing for a blank title; otherwise the trimmed title,
      the trimmed notes or nothing when blank, the priority, and the completion flag of the
      task being edited (false for a new task). */
  function InlineSubmit(fields: FormFields, initial: Option<Task>): (r: Option<Payload>)
    ensures r.None? <==> AllSpace(fields.title)
    ensures r.Some? ==> r.value.title.Some? && r.value.title.value != []
                        && IsTrimOf(r.value.title.value, fields.title)
    ensures r.Some? ==> (r.value.notes.None? <==> AllSpace(fields.notes))
    ensures r.Some? && r.value.notes.Some? ==> IsTrimOf(r.value.notes.value, fields.notes)
    ensures r.Some? ==> r.value.priority == Some(fields.priority)
    ensures r.Some? ==> r.value.completed == Some(initial.Some? && initial.value.completed)
    ensures r.Some? ==> r.value.description.None? && r.value.dueDate.None?
  {
    if IsBlank(fields.title) then None
    else
      Some(Payload(
        Some(Trim(fields.title)),
        if IsBlank(fields.notes) then None else Some(Trim(fields.notes)),
        None,
        Some(fields.priority),
        None,
        Some(if initial.Some? then initial.value.completed else false)))
  }

  // ---------------------------------------------------------------- the derived view

  /** The text a query is searched in: `t.title + ' ' + (t.notes || '')`. */
  function SearchText(t: Task): (r: string)
    ensures |r| > |t.title|
    ensures r[..|t.title|] == t.title
    ensures r[|t.title|] == ' '
    ensures t.notes.None? ==> |r| == |t.title| + 1
    ensures t.notes.Some? ==> r[|t.title| + 1..] == t.notes.value
  {
    t.title + " " + (if t.notes.Some? then t.notes.value else "")
  }

  /** `SearchText(t).toLowerCase().includes(query.toLowerCase())`; the query is not trimmed. */
  predicate MatchesQuery(t: Task, query: string) {
    Contains(Lower(SearchText(t)), Lower(query))
  }

  /** The `filtered` memo: the filter mode first, then, for a query that is not blank,
      the case-insensitive search. */
  function View(tasks: seq<Task>, filter: string, query: string): (r: seq<Task>)
    ensures forall t :: t in r <==>
              t in tasks && Admits(filter, t) && (IsBlank(query) || MatchesQuery(t, query))
  {
    var byActive := if filter == ACTIVE then Filter(tasks, IsActive) else tasks;
    var byStatus := if filter == COMPLETED then Filter(byActive, IsDone) else byActive;
    if IsBlank(query) then byStatus else Filter(byStatus, (t: Task) => MatchesQuery(t, query))
  }

  /** The view keeps the order of the list: it is a subsequence of it, hence no longer. */
  lemma ViewIsSubsequence(tasks: seq<Task>, filter: string, query: string)
    ensures IsSubsequence(View(tasks, filter, query), tasks)
    ensures |View(tasks, filter, query)| <= |tasks|
  {
    var byActive := if filter == ACTIVE then Filter(tasks, IsActive) else tasks;
    var byStatus := if filter == COMPLETED then Filter(byActive, IsDone) else byActive;
    SubsequenceReflexive(tasks);
    SubsequenceReflexive(byActive);
    FilterIsSubsequence(tasks, IsActive);
    FilterIsSubsequence(byActive, IsDone);
    SubsequenceTransitive(byStatus, byActive, tasks);
    if !IsBlank(query) {
      var matching := (t: Task) => MatchesQuery(t, query);
      FilterIsSubsequence(byStatus, matching);
      SubsequenceTransitive(Filter(byStatus, matching), byStatus, tasks);
    }
    SubsequenceMembers(View(tasks, filter, query), tasks);
  }

  /** Filter-mode exclusivity: under the same query, the `active` and `completed` views split
      the `all` view between them, with no task in both. */
  lemma StatusViewsPartition(tasks: seq<Task>, query: string)
    ensures |View(tasks, ACTIVE, query)| + |View(tasks, COMPLETED, query)| == |View(tasks, ALL, query)|
    ensures forall t :: !(t in View(tasks, ACTIVE, query) && t in View(tasks, COMPLETED, query))
  {
    if IsBlank(query) {
      FilterPartition(tasks, IsActive, IsDone);
    } else {
      var matching := (t: Task) => MatchesQuery(t, query);
      FilterCommutes(tasks, IsActive, matching);
      FilterCommutes(tasks, IsDone, matching);
      FilterPartition(Filter(tasks, matching), IsActive, IsDone);
    }
  }

  /** A query that is blank after trimming searches nothing: the view is the filter mode's. */
  lemma BlankQueryAppliesNoSearch(tasks: seq<Task>, filter: string, query: string)
    requires IsBlank(query)
    ensures View(tasks, filter, query) == View(tasks, filter, "")
  {
  }

  /** Search is a case-insensitive substring match: a query found in a task's title, up to
      letter case, keeps that task in the unfiltered view. */
  lemma TitleMatchIsFound(tasks: seq<Task>, t: Task, query: string)
    requires t in tasks && !IsBlank(query)
    requires Occurs(Lower(query), Lower(t.title))
    ensures t in View(tasks, ALL, query)
  {
    TitleMatchMatches(t, query);
  }

  lemma TitleMatchMatches(t: Task, query: string)
    requires Occurs(Lower(query), Lower(t.title))
    ensures MatchesQuery(t, query)
  {
    var rest := " " + (if t.notes.Some? then t.notes.value else "");
    assert SearchText(t) == t.title + rest;
    LowerConcat(t.title, rest);
    OccursInConcat(Lower(query), Lower(t.title), Lower(rest));
  }

  /** Likewise for the notes: a query found in a task's notes, up to letter case, keeps that
      task in the unfiltered view. */
  lemma NotesMatchIsFound(tasks: seq<Task>, t: Task, query: string)
    requires t in tasks && !IsBlank(query) && t.notes.Some?
    requires Occurs(Lower(query), Lower(t.notes.value))
    ensures t in View(tasks, ALL, query)
  {
    NotesMatchMatches(t, query);
  }

  lemma NotesMatchMatches(t: Task, query: string)
    requires t.notes.Some? && Occurs(Lower(query), Lower(t.notes.value))
    ensures MatchesQuery(t, query)
  {
    assert SearchText(t) == (t.title + " ") + t.notes.value;
    LowerConcat(t.title + " ", t.notes.value);
    OccursInConcat(Lower(query), Lower(t.title + " "), Lower(t.notes.value));
  }

  /** The search ignores letter case in the query: two queries that lower-case alike show
      the same tasks, under every filter mode. */
  lemma QueryCaseIgnored(tasks: seq<Task>, filter: string, a: string, b: string)
    requires Lower(a) == Lower(b)
    ensures forall t :: t in View(tasks, filter, a) <==> t in View(tasks, filter, b)
  {
    LowerKeepsBlank(a);
    LowerKeepsBlank(b);
  }

  /** A query no task's text contains gives an empty view. */
  lemma NoMatchEmptiesView(tasks: seq<Task>, filter: string, query: string)
    requires !IsBlank(query)
    requires forall t :: t in tasks ==> !Occurs(Lower(query), Lower(SearchText(t)))
    ensures View(tasks, filter, query) == []
  {
    var byActive := if filter == ACTIVE then Filter(tasks, IsActive) else tasks;
    var byStatus := if filter == COMPLETED then Filter(byActive, IsDone) else byActive;
    FilterKeepsNothing(byStatus, (t: Task) => MatchesQuery(t, query));
  }

  /** After `deleteTask`, no view under any filter mode or query shows that id. */
  lemma DeletedIdInNoView(tasks: seq<Task>, id: int, filter: string, query: string)
    ensures forall t :: t in View(RemoveById(tasks, id), filter, query) ==> t.id != id
  {
  }

  /** The worked example: with filter `all` and query "milk", of "Buy milk" and "Pay rent"
      only the first is shown. */
  lemma MilkExample()
    ensures var milk := Task(1, "Buy milk", None, None, Some(Named("low")), None, false);
            var rent := Task(2, "Pay rent", None, None, None, None, false);
            View([milk, rent], ALL, "milk") == [milk]
  {
    var milk := Task(1, "Buy milk", None, None, Some(Named("low")), None, false);
    var rent := Task(2, "Pay rent", None, None, None, None, false);
    MilkQueryIsNotBlank();
    MilkMatches(milk);
    RentDoesNotMatch(rent);
    SearchPicksFirstOfTwo(milk, rent, "milk");
  }

  lemma SearchPicksFirstOfTwo(a: Task, b: Task, query: string)
    requires !IsBlank(query) && MatchesQuery(a, query) && !MatchesQuery(b, query)
    ensures View([a, b], ALL, query) == [a]
  {
    var matching := (t: Task) => MatchesQuery(t, query);
    assert [a, b][1..] == [b];
    assert Filter([b], matching) == [] by {
      assert [b][1..] == [];
    }
    assert Filter([a, b], matching) == [a];
  }

  lemma MilkQueryIsNotBlank()
    ensures !IsBlank("milk")
  {
    assert !IsSpace('m');
  }

  lemma MilkMatches(milk: Task)
    requires milk.title == "Buy milk" && milk.notes.None?
    ensures MatchesQuery(milk, "milk")
  {
    assert Lower("milk") == "milk";
    assert Lower(SearchText(milk)) == "buy milk ";
    assert OccursAt("milk", "buy milk ", 4);
  }

  lemma RentDoesNotMatch(rent: Task)
    requires rent.title == "Pay rent" && rent.notes.None?
    ensures !MatchesQuery(rent, "milk")
  {
    var hay := Lower(SearchText(rent));
    assert Lower("milk") == "milk";
    assert hay == "pay rent ";
    assert 'm' !in hay;
    forall i ensures !OccursAt("milk", hay, i) {
      if 0 <= i <= |hay| - 4 {
        assert hay[i..i + 4][0] == hay[i] != 'm';
      }
    }
  }

  // ---------------------------------------------------------------- the component

  class Component {
    var tasks: seq<Task>
    var loading: bool
    var query: string
    var editing: Option<Task>
    var filter: string

    /** The state on first render: no tasks, loading, empty query, nothing edited, filter `all`. */
    constructor ()
      ensures tasks == [] && loading && query == "" && editing == None && filter == ALL
    {
      tasks, loading, query, editing, filter := [], true, "", None, ALL;
    }

    /** The list as displayed. */
    function Filtered(): (r: seq<Task>)
      reads this
      ensures IsSubsequence(r, tasks)
      ensures forall t :: t in r ==> t in tasks && Admits(filter, t)
    {
      ViewIsSubsequence(tasks, filter, query);
      View(tasks, filter, query)
    }

    /** `fetchTasks`: the fetched list replaces `tasks`; a failed fetch is logged and leaves
        `tasks` alone; `loading` ends false either way (`finally`). */
    method FetchTasks(reply: Reply<seq<Task>>) returns (sent: Request)
      modifies this
      ensures sent == List(None)
      ensures !loading
      ensures reply.Received? ==> tasks == reply.value
      ensures reply.Failed? ==> tasks == old(tasks)
      ensures query == old(query) && editing == old(editing) && filter == old(filter)
    {
      loading := true;
      sent := List(None);
      if reply.Received? {
        tasks := reply.value;
      }
      loading := false;
    }

    /** `addTask`: the created task is put in front of the list. */
    method AddTask(payload: Payload, reply: Reply<Task>) returns (sent: Request)
      modifies this`tasks
      ensures sent == Create(payload)
      ensures reply.Received? ==> |tasks| == |old(tasks)| + 1 && tasks[0] == reply.value
                                  && tasks[1..] == old(tasks)
      ensures reply.Failed? ==> tasks == old(tasks)
    {
      sent := Create(payload);
      if reply.Received? {
        tasks := [reply.value] + tasks;
      }
    }

    /** `toggleTask`: asks for the opposite completion, then every entry with the task's id
        becomes the repository's version. */
    method ToggleTask(task: Task, reply: Reply<Task>) returns (sent: Request)
      modifies this`tasks
      ensures sent == Update(task.id, TogglePatch(task))
      ensures reply.Received? ==> tasks == ReplaceById(old(tasks), task.id, reply.value)
      ensures reply.Failed? ==> tasks == old(tasks)
    {
      sent := Update(task.id, TogglePatch(task));
      if reply.Received? {
        tasks := ReplaceById(tasks, task.id, reply.value);
      }
    }

    /** `deleteTask`: once the DELETE call settles (`delivered`; whatever its status), the
        entries with the task's id are dropped. A network failure leaves the list alone. */
    method DeleteTask(task: Task, delivered: bool) returns (sent: Request)
      modifies this`tasks
      ensures sent == Remove(task.id)
      ensures delivered ==> tasks == RemoveById(old(tasks), task.id)
      ensures !delivered ==> tasks == old(tasks)
    {
      sent := Remove(task.id);
      if delivered {
        tasks := RemoveById(tasks, task.id);
      }
    }

    /** `saveEdit`: every entry with `taskId` becomes the repository's version and editing
        ends; a failed call changes nothing. */
    method SaveEdit(taskId: int, payload: Payload, reply: Reply<Task>) returns (sent: Request)
      modifies this`tasks, this`editing
      ensures sent == Update(taskId, payload)
      ensures reply.Received? ==> tasks == ReplaceById(old(tasks), taskId, reply.value) && editing.None?
      ensures reply.Failed? ==> tasks == old(tasks) && editing == old(editing)
    {
      sent := Update(taskId, payload);
      if reply.Received? {
        tasks := ReplaceById(tasks, taskId, reply.value);
        editing := None;
      }
    }

    /** The edit button (`onEdit={setEditing}`). */
    method StartEdit(task: Task)
      modifies this`editing
      ensures editing == Some(task)
    {
      editing := Some(task);
    }

    /** The inline form's cancel button (`setEditing(null)`). */
    method CancelEdit()
      modifies this`editing
      ensures editing.None?
    {
      editing := None;
    }

    /** A submit of the inline form: a blank title sends nothing; otherwise the payload goes
        to `saveEdit` for the task being edited, or to `addTask` when none is. */
    method Submit(fields: FormFields, reply: Reply<Task>) returns (sent: Option<Request>)
      modifies this`tasks, this`editing
      ensures AllSpace(fields.title) ==> sent.None? && tasks == old(tasks) && editing == old(editing)
      ensures !AllSpace(fields.title) ==>
                var payload := InlineSubmit(fields, old(editing)).value;
                sent == Some(if old(editing).Some? then Update(old(editing).value.id, payload)
                             else Create(payload))
      ensures !AllSpace(fields.title) && reply.Received? ==>
                tasks == (if old(editing).Some? then ReplaceById(old(tasks), old(editing).value.id, reply.value)
                          else [reply.value] + old(tasks))
      ensures reply.Failed? ==> tasks == old(tasks)
      ensures !AllSpace(fields.title) && reply.Received? && old(editing).Some? ==> editing.None?
      ensures AllSpace(fields.title) || reply.Failed? || old(editing).None? ==> editing == old(editing)
    {
      var payload := InlineSubmit(fields, editing);
      if payload.None? {
        return None;
      }
      var request;
      if editing.Some? {
        request := SaveEdit(editing.value.id, payload.value, reply);
      } else {
        request := AddTask(payload.value, reply);
        assert reply.Received? ==> tasks == [reply.value] + old(tasks);
      }
      sent := Some(request);
    }
  }
}
