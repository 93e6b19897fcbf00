/** The task record, the calls the client makes to the task repository, and the
    list-reconciliation rules both list components apply after a call returns. */
module Tasks {
  import opened Sequences

  datatype Option<T> = None | Some(value: T)

  /** A priority as the client holds it: a rank (1 high, 2 medium, 3 low, in TodoApp.jsx)
      or a name ("low", "medium", "high", in TaskForm.jsx and TaskItem.jsx). */
  datatype Priority = Rank(rank: int) | Named(name: string)

  /** JavaScript falsiness of an optional priority: absent, `0` or `""`. */
  predicate IsFalsy(p: Option<Priority>) {
    match p
    case None => true
    case Some(Rank(k)) => k == 0
    case Some(Named(n)) => n == ""
  }

  /** A task as the repository returns it. `id` is opaque and assigned by the repository;
      `dueDate` is the due date as a timestamp, `None` when the field is absent or empty. */
  datatype Task = Task(
    id: int,
    title: string,
    notes: Option<string>,
    description: Option<string>,
    priority: Option<Priority>,
    dueDate: Option<int>,
    completed: bool)

  /** A JSON request body; a `None` field is a key `JSON.stringify` leaves out (`undefined`).
      `dueDate` is the text of the form's date field. */
  datatype Payload = Payload(
    title: Option<string>,
    notes: Option<string>,
    description: Option<string>,
    priority: Option<Priority>,
    dueDate: Option<string>,
    completed: Option<bool>)

  /** One call to the task repository. */
  datatype Request =
    | List(query: Option<string>)     // GET /api/tasks, with ?q= when `query` is present
    | Create(body: Payload)           // POST /api/tasks
    | Update(id: int, body: Payload)  // PATCH /api/tasks/{id}
    | Remove(id: int)                 // DELETE /api/tasks/{id}

  /** What an awaited call yields: the parsed reply, or a rejected promise. */
  datatype Reply<T> = Received(value: T) | Failed

  /** The filter modes the filter buttons set. */
  const ALL: string := "all"
  const ACTIVE: string := "active"
  const COMPLETED: string := "completed"

  predicate IsActive(t: Task) { !t.completed }

  predicate IsDone(t: Task) { t.completed }

  /** Whether filter mode `filter` lets `t` through: `active` only incomplete tasks,
      `completed` only complete ones, any other mode every task. */
  predicate Admits(filter: string, t: Task) {
    (filter == ACTIVE ==> !t.completed) && (filter == COMPLETED ==> t.completed)
  }

  /** The body of a toggle request, `{ completed: !task.completed }`. */
  function TogglePatch(task: Task): (p: Payload)
    ensures p.completed.Some? && p.completed.value != task.completed
    ensures p == Payload(None, None, None, None, None, p.completed)
  {
    Payload(None, None, None, None, None, Some(!task.completed))
  }

  /** No two tasks of the list share an id. */
  ghost predicate UniqueIds(s: seq<Task>) {
    forall i, j :: 0 <= i < j < |s| ==> s[i].id != s[j].id
  }

  /** `s.map(t => t.id === id ? u : t)`: every entry with that id becomes `u`. */
  function ReplaceById(s: seq<Task>, id: int, u: Task): (r: seq<Task>)
    ensures |r| == |s|
    ensures forall i :: 0 <= i < |s| ==> r[i] == (if s[i].id == id then u else s[i])
  {
    if s == [] then [] else [if s[0].id == id then u else s[0]] + ReplaceById(s[1..], id, u)
  }

  /** `s.filter(t => t.id !== id)`: the entries with that id dropped, the others kept in order. */
  function RemoveById(s: seq<Task>, id: int): (r: seq<Task>)
    ensures forall t :: t in r <==> t in s && t.id != id
    ensures IsSubsequence(r, s)
    ensures |r| + |Filter(s, (t: Task) => t.id == id)| == |s|
  {
    var keep := (t: Task) => t.id != id;
    FilterIsSubsequence(s, keep);
    FilterPartition(s, keep, (t: Task) => t.id == id);
    Filter(s, keep)
  }

  /** Replacing by id with a reply that keeps the id keeps the ids unique. */
  lemma ReplaceKeepsUniqueIds(s: seq<Task>, id: int, u: Task)
    requires UniqueIds(s) && u.id == id
    ensures UniqueIds(ReplaceById(s, id, u))
  {
    var r := ReplaceById(s, id, u);
    assert forall i :: 0 <= i < |s| ==> r[i].id == s[i].id;
  }

  /** Prepending a task whose id is new keeps the ids unique. */
  lemma PrependKeepsUniqueIds(t: Task, s: seq<Task>)
    requires UniqueIds(s)
    requires forall x :: x in s ==> x.id != t.id
    ensures UniqueIds([t] + s)
  {
    var r := [t] + s;
    forall i, j | 0 <= i < j < |r| ensures r[i].id != r[j].id {
      assert r[j] == s[j - 1];
      if i > 0 { assert r[i] == s[i - 1]; }
    }
  }

  /** Dropping entries while keeping order keeps the ids unique. */
  lemma {:induction false} SubsequenceKeepsUniqueIds(a: seq<Task>, b: seq<Task>)
    requires IsSubsequence(a, b) && UniqueIds(b)
    ensures UniqueIds(a)
    decreases |b|
  {
    if a != [] {
      assert UniqueIds(b[1..]) by {
        forall i, j | 0 <= i < j < |b[1..]| ensures b[1..][i].id != b[1..][j].id {
          assert b[1..][i] == b[i + 1] && b[1..][j] == b[j + 1];
        }
      }
      if a[0] == b[0] && IsSubsequence(a[1..], b[1..]) {
        SubsequenceKeepsUniqueIds(a[1..], b[1..]);
        SubsequenceMembers(a[1..], b[1..]);
        forall i, j | 0 <= i < j < |a| ensures a[i].id != a[j].id {
          assert a[j] == a[1..][j - 1];
          if i == 0 {
            assert a[j] in b[1..];
            var k :| 0 <= k < |b[1..]| && b[1..][k] == a[j];
            assert b[k + 1] == a[j];
          } else {
            assert a[i] == a[1..][i - 1];
          }
        }
      } else {
        SubsequenceKeepsUniqueIds(a, b[1..]);
      }
    }
  }

  /** Removing by id keeps the ids unique. */
  lemma RemoveKeepsUniqueIds(s: seq<Task>, id: int)
    requires UniqueIds(s)
    ensures UniqueIds(RemoveById(s, id))
  {
    SubsequenceKeepsUniqueIds(RemoveById(s, id), s);
  }
}
