# Task-list client: verified model of the task-collection controller

This project models the part of a single-page task-list client that holds state. The client
keeps a list of tasks fetched from a REST task repository. The user can create, toggle,
edit, delete, filter and search tasks. The repository has two list components:

- `TodoApp` keeps the list in sync locally. It prepends the created task, replaces the
  updated task by id and drops the deleted one. Its view applies the filter mode
  (`all`, `active`, `completed`) and then a case-insensitive substring search over
  `title + ' ' + notes`.
- `App` sends the search to the repository (`?q=`). After a create or a toggle it re-fetches
  the whole list for the current query. After a delete it drops the entry locally. Its view
  applies the filter mode only.

Around the two lists sit a task-creation form with validation, payload trimming, field
reset and a `loading` flag, and the display rules of a task row: the overdue flag and the
priority default.

Modules, one per source file, plus three shared ones:

- `Text`: `trim`, `toLowerCase` and `includes`. `Trim` is characterised by `IsTrimOf`, and
  `TrimUnique` shows that characterisation has one solution. `Contains` is proved equal to
  a reference definition (`Occurs`).
- `Sequences`: `Array.prototype.filter` and the order-preserving subsequence relation.
- `Tasks`: the task record, request bodies, the repository calls (`Request`), and the
  replace-by-id and remove-by-id rules. It also proves that these rules keep ids unique.
- `TaskItem`, `TaskForm`, `TodoApp`, `App`: the source files of the same names.

Each stateful React component is a `class Component` whose fields are its state variables.
Each `async` handler is a method that takes the repository's reply as a parameter and
returns the requests it sent. A `Reply<T>` is either `Received(value)` or `Failed`, where
`Failed` means the awaited promise rejected. A `bool` parameter says whether a call whose
reply the handler ignores settled at all.

## Model

| member | source | states |
|---|---|---|
| Text.Trim | src/components/TodoApp.jsx:132 | the result is a piece of the input with only white space around it, starts and ends with non-space, and is empty exactly when the input is all white space |
| Text.TrimUnique | src/components/TaskForm.jsx:12 | at most one string meets `IsTrimOf`, so the contract of `Trim` determines the trimmed string |
| Text.BlankIsAllSpace | src/components/TaskForm.jsx:61 | `!s.trim()` holds exactly when every character is ECMAScript white space or a line terminator |
| Text.Lower | src/components/TodoApp.jsx:133 | lower-casing keeps the length and lower-cases each character, ASCII letters only |
| Text.LowerConcat | src/components/TodoApp.jsx:134 | lower-casing a concatenation lower-cases each part |
| Text.LowerKeepsBlank | src/components/TodoApp.jsx:132-133 | lower-casing neither removes nor adds white space, so a query is blank exactly when its lower-cased form is |
| Text.Contains | src/components/TodoApp.jsx:134 | the scan is true exactly when the needle occurs at some index of the haystack |
| Text.OccursInConcat | src/components/TodoApp.jsx:134 | an occurrence in the title part or the notes part is an occurrence in the joined text |
| Sequences.Filter | src/components/TodoApp.jsx:130-131 | the result holds exactly the input's elements that pass the test and is no longer than the input |
| Sequences.FilterIsSubsequence | src/components/TodoApp.jsx:130-131 | filtering keeps the order of the elements it keeps |
| Sequences.SubsequenceReflexive | src/components/TodoApp.jsx:128-137 | a list is a subsequence of itself, which covers a filter mode that keeps the list unchanged |
| Sequences.SubsequenceMembers | src/components/TodoApp.jsx:128-137 | a subsequence is no longer than its source and holds only its members |
| Sequences.SubsequenceTransitive | src/components/TodoApp.jsx:128-137 | chaining filters keeps order, because the subsequence relation is transitive |
| Sequences.FilterCommutes | src/components/TodoApp.jsx:130-134 | the order in which the filter mode and the search are applied does not change the view |
| Sequences.FilterPartition | src/components/TodoApp.jsx:130-131 | a test and its negation split the input, and their result lengths add up to its length |
| Sequences.FilterKeepsNothing | src/components/TodoApp.jsx:134 | a filter no element passes yields the empty list |
| Tasks.TogglePatch | src/components/TodoApp.jsx:166 | the toggle body carries only `completed`, set to the opposite of the task's flag |
| Tasks.ReplaceById | src/components/TodoApp.jsx:169 | the length is unchanged, every entry with the id becomes the reply, and every other entry is unchanged at its index |
| Tasks.RemoveById | src/components/TodoApp.jsx:174 | the result holds exactly the entries with another id, in their order, and its length falls by the number of entries with that id |
| Tasks.ReplaceKeepsUniqueIds | src/components/TodoApp.jsx:169 | replacing by id with a reply that keeps the id keeps ids unique |
| Tasks.PrependKeepsUniqueIds | src/components/TodoApp.jsx:159 | prepending a task with a new id keeps ids unique |
| Tasks.SubsequenceKeepsUniqueIds | src/components/TodoApp.jsx:174 | dropping entries in order keeps ids unique |
| Tasks.RemoveKeepsUniqueIds | src/components/TodoApp.jsx:174 | removing by id keeps ids unique |
| TaskItem.Overdue | src/components/TaskItem.jsx:10-12 | a task with no due date is never overdue, a completed task is never overdue, and an incomplete task with a due date is overdue exactly when it is due before now |
| TaskItem.OverdueStaysOverdue | src/components/TaskItem.jsx:12 | an overdue task stays overdue as now advances, and completing it clears the flag |
| TaskItem.ShownPriority | src/components/TaskItem.jsx:31 | a missing, `0` or empty priority shows as `medium`, and any other priority shows as itself |
| TaskItem.PriorityTone | src/components/TaskItem.jsx:30 | a missing priority gets the medium (amber) colour, and only `low`, `medium` and `high` have a colour |
| TaskForm.CreatePayload | src/components/TaskForm.jsx:15 | the title is the trimmed title; the description is absent exactly when blank, otherwise trimmed; the due date is absent exactly when the field is empty; the priority is the field's name |
| TaskForm.CreatePayloadTitle | src/components/TaskForm.jsx:12-15 | a title that passes the blank check yields a non-empty payload title with no white space at either end |
| TaskForm.Submission | src/components/TaskForm.jsx:10-15 | a submit sends nothing exactly when the title is all white space, and the create payload otherwise |
| TaskForm.Component.constructor | src/components/TaskForm.jsx:4-8 | the form starts with empty fields, priority `medium` and `loading` false |
| TaskForm.Component.SubmitDisabled | src/components/TaskForm.jsx:61 | the button is disabled exactly when `loading` is set or the title is all white space |
| TaskForm.Component.HandleSubmit | src/components/TaskForm.jsx:10-23 | what is handed to `onCreate` is the submission of the fields as they were; a blank title changes nothing; otherwise the fields reset to `''`, `''`, `medium`, `''` only when `onCreate` resolves, are kept when it throws, and `loading` ends false either way |
| TodoApp.ClassNames | src/components/TodoApp.jsx:6-8 | the joined class string is empty exactly when no argument is a non-empty string |
| TodoApp.ClassNamesAppend | src/components/TodoApp.jsx:7 | a falsy argument adds nothing, and a truthy one is appended after one space, or stands alone |
| TodoApp.BadgeKey | src/components/TodoApp.jsx:16 | a falsy priority is looked up under 2, a rank under itself, and the strings "1" to "3" under the number they spell |
| TodoApp.PriorityBadge | src/components/TodoApp.jsx:10-16 | a falsy priority shows as Medium in amber; the caption is the table key's name (high, medium, low) with only its first letter upper-case, so exactly High, Medium or Low; the colour is emerald exactly for key 3 |
| TodoApp.BadgeAgreesWithTaskItem | src/components/TodoApp.jsx:11-16 | for keys 1 and 2 the badge has TaskItem's colour family for the same priority name; for key 3 the badge is emerald where TaskItem's `low` pill is green |
| TodoApp.MissingPriorityIsMedium | src/components/TodoApp.jsx:16 | a task without a priority shows as medium, in amber, in both task renderings |
| TodoApp.InitialFields | src/components/TodoApp.jsx:61-63 | the form's initialisers: with no task they give empty fields and rank 2, a task's non-falsy priority is kept, and the priority field is never falsy; they run once at mount, and the inline form mounts while nothing is edited |
| TodoApp.InlineSubmit | src/components/TodoApp.jsx:69-70 | a blank title gives no submission; otherwise the title is trimmed and non-empty, the notes are trimmed or absent when blank, and `completed` is the edited task's flag, false for a new task |
| TodoApp.SearchText | src/components/TodoApp.jsx:134 | the searched text is the title, then one space, then the notes, or nothing when there are none |
| TodoApp.View | src/components/TodoApp.jsx:128-137 | a task is in the view exactly when it is in the list, passes the filter mode, and, for a non-blank query, its lower-cased text contains the lower-cased query |
| TodoApp.ViewIsSubsequence | src/components/TodoApp.jsx:128-137 | the view is an order-preserving subsequence of the list, so it is no longer than the list |
| TodoApp.StatusViewsPartition | src/components/TodoApp.jsx:130-131 | under one query, the `active` and `completed` views share no task and their lengths add up to the `all` view's length |
| TodoApp.BlankQueryAppliesNoSearch | src/components/TodoApp.jsx:132 | a query that is blank after trimming gives the same view as no query |
| TodoApp.TitleMatchIsFound | src/components/TodoApp.jsx:132-134 | a task whose title contains the query, up to letter case, is in the unfiltered view |
| TodoApp.NotesMatchIsFound | src/components/TodoApp.jsx:132-134 | a task whose notes contain the query, up to letter case, is in the unfiltered view |
| TodoApp.QueryCaseIgnored | src/components/TodoApp.jsx:132-134 | two queries that lower-case alike show the same tasks under every filter mode |
| TodoApp.NoMatchEmptiesView | src/components/TodoApp.jsx:132-134 | a non-blank query that no task's text contains gives an empty view |
| TodoApp.DeletedIdInNoView | src/components/TodoApp.jsx:174 | after removal by id, no view under any filter mode or query shows that id |
| TodoApp.SearchPicksFirstOfTwo | src/components/TodoApp.jsx:134 | of two tasks, only the one matching a non-blank query is shown |
| TodoApp.MilkExample | src/components/TodoApp.jsx:128-137 | with filter `all` and query "milk", of "Buy milk" and "Pay rent" only "Buy milk" is shown |
| TodoApp.Component.constructor | src/components/TodoApp.jsx:122-126 | the component starts with no tasks, loading, an empty query, nothing being edited and filter `all` |
| TodoApp.Component.Filtered | src/components/TodoApp.jsx:128-137 | the displayed list is an order-preserving subsequence of `tasks` that passes the filter mode |
| TodoApp.Component.FetchTasks | src/components/TodoApp.jsx:139-150 | a GET without query is sent; the reply replaces `tasks`, a failure leaves `tasks` unchanged, and `loading` ends false either way |
| TodoApp.Component.AddTask | src/components/TodoApp.jsx:152-160 | on a reply the list grows by one, with the created task first and the old list as the tail in order |
| TodoApp.Component.ToggleTask | src/components/TodoApp.jsx:162-170 | the PATCH asks for the opposite flag; on a reply the entries with that id become the reply and the rest are unchanged |
| TodoApp.Component.DeleteTask | src/components/TodoApp.jsx:172-175 | once the DELETE settles, exactly the entries with that id are dropped and the rest keep their order |
| TodoApp.Component.SaveEdit | src/components/TodoApp.jsx:177-186 | on a reply the entries with `taskId` become the reply and `editing` is cleared; a failure changes nothing |
| TodoApp.Component.StartEdit | src/components/TodoApp.jsx:239 | the edit button makes the task the one being edited |
| TodoApp.Component.CancelEdit | src/components/TodoApp.jsx:207 | the cancel button clears `editing` |
| TodoApp.Component.Submit | src/components/TodoApp.jsx:207 | a blank title sends nothing; otherwise the form's payload goes to `saveEdit` for the edited task, or to `addTask` when no task is being edited; `editing` is cleared only by a successful edit and kept in every other case |
| App.Filtered | src/App.jsx:48-52 | a task is in the view exactly when it passes the filter mode, and any mode other than `active` or `completed` gives back the list itself |
| App.FilterModesAgree | src/App.jsx:48-52 | with a blank query, TodoApp's view equals this view |
| App.FilteredIsSubsequence | src/App.jsx:48-52 | the view keeps the list's order |
| App.ListRequest | src/App.jsx:17 | the list request carries `?q=` exactly when the query is non-empty, and it carries the query itself |
| App.QuickAddTitleIsValid | src/App.jsx:112 | the demo task's title passes the blank-title check |
| App.Component.constructor | src/App.jsx:10-13 | the component starts with no tasks, loading, an empty query and filter `all` |
| App.Component.Shown | src/App.jsx:48-52 | the displayed list is an order-preserving subsequence of `tasks` that passes the filter mode |
| App.Component.FetchTasks | src/App.jsx:15-21 | the request carries the query rule; the reply replaces `tasks` and clears `loading`; a failure leaves `tasks` unchanged and `loading` set |
| App.Component.HandleCreate | src/App.jsx:25-32 | after the POST settles the list is re-fetched with the current query, and `tasks` becomes that fetched list |
| App.Component.HandleToggle | src/App.jsx:34-41 | the PATCH asks for the opposite flag, then `tasks` becomes the list re-fetched with the current query |
| App.Component.HandleDelete | src/App.jsx:43-46 | once the DELETE settles, exactly the entries with the task's id are dropped and the rest keep their order |
| App.Component.QuickAdd | src/App.jsx:112 | the quick-add button creates the demo task, then re-fetches like any create: the fetched list replaces `tasks` and clears `loading`, a failed re-fetch keeps `tasks` and leaves `loading` set, and an unsettled POST changes nothing |

## Left out

- Rendering: JSX markup, CSS class strings, icons, date display and EmptyState.jsx. Colours are kept only as colour families. TaskItem's pills are `Green`, `Amber` and `Red`, and TodoApp's badge is `Red`, `Amber` and `Emerald`.
- `fetch`, JSON encoding and HTTP status handling: replies are method parameters. A reply that parses is taken to be a task or a list of tasks, and a non-success status whose body parses is not told apart.
- `API_BASE` and the URL strings: a request is the `Request` value. `encodeURIComponent` is not applied: `List(Some(q))` carries the raw query.
- Async interleaving: each handler runs to completion, so two in-flight calls racing is not modelled. The moment when `loading` is true during an await is not observable, except in `App.Component.FetchTasks`, where a failure leaves the flag set.
- `Date`: due dates and "now" are integer timestamps. The payload's due date is the date-field text, without the `new Date(...).toISOString()` conversion.
- `toLowerCase` covers the ASCII letters only. `trim` uses the full ECMAScript white-space and line-terminator set.
- TodoApp.PriorityBadge: requires a priority the badge table has an entry for (`BadgeRenders`): a falsy one, a rank from 1 to 3, or one of the strings "1", "2", "3". For any other value `map` has no own entry. Usually, as for a negative rank, 4 or "high", the lookup is `undefined` and reading `cfg.color` throws. For a name every object inherits, such as "constructor" or "toString", the lookup finds that inherited property, and the badge renders with no label and no colour. Neither case is modelled.
- The mount-time `useEffect` fetches are not separate members. Each is `FetchTasks` called right after the constructor (App: with query `""`).
- The search-box and filter-button setters (`setQuery`, `setFilter`) are plain field assignments and have no method.
- The inline form's own field state is not modelled: a submit takes the fields as a parameter (`FormFields`). `InitialFields` gives the initialisers, which run once at mount. The inline form mounts while nothing is edited, so editing a task never fills the form with that task's values, and the fields are not cleared after a submit.
- The row component inside TodoApp.jsx (lines 24-58) has no rule beyond its buttons, which call the handlers modelled here.
- Task ids are opaque integers. Whether the repository keeps them unique is not modelled; the `UniqueIds` lemmas show that the local rules keep uniqueness when the replies do.
- Create prepends in `TodoApp` and re-fetches in `App`. `App`'s `fetchTasks` has no `try`/`finally`, so a failed fetch leaves `loading` set. `TodoApp` searches `notes`; `TaskForm` and `TaskItem` use `description`.
