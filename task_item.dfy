/** The display rules of one task row (src/components/TaskItem.jsx): the overdue flag and
    the priority shown, with its colour. "Now" and the due date are integer timestamps. */
module TaskItem {
  import opened Tasks

  /** The colour families of the priority pills. */
  datatype Tone = Green | Amber | Red

  /** `due && !completed && due < new Date()`, with `now` standing for `new Date()`. */
  function Overdue(task: Task, now: int): (r: bool)
    ensures task.dueDate.None? ==> !r
    ensures task.completed ==> !r
    ensures r ==> task.dueDate.Some? && task.dueDate.value < now
    ensures task.dueDate.Some? && !task.completed && task.dueDate.value < now ==> r
  {
    match task.dueDate
    case None => false
    case Some(due) => !task.completed && due < now
  }

  /** A task that is overdue stays overdue as time passes, until it is completed. */
  lemma OverdueStaysOverdue(task: Task, now: int, later: int)
    requires Overdue(task, now) && now <= later
    ensures Overdue(task, later)
    ensures !Overdue(task.(completed := true), later)
  {
  }

  /** `task.priority || 'medium'`: the priority shown on the pill. */
  function ShownPriority(p: Option<Priority>): (r: Priority)
    ensures IsFalsy(p) ==> r == Named("medium")
    ensures !IsFalsy(p) ==> Some(r) == p
  {
    if IsFalsy(p) then Named("medium") else p.value
  }

  /** `priorityColors[task.priority || 'medium']`: the pill colour, `None` for a value the
      colour table has no own entry for. Such a value gives no colour class: the class
      string reads `undefined`, or, for a name every object inherits such as "toString", the
      text of that inherited property. */
  function PriorityTone(p: Option<Priority>): (r: Option<Tone>)
    ensures IsFalsy(p) ==> r == Some(Amber)
    ensures r.Some? <==> ShownPriority(p) in {Named("low"), Named("medium"), Named("high")}
  {
    match ShownPriority(p)
    case Named(name) =>
      if name == "low" then Some(Green)
      else if name == "medium" then Some(Amber)
      else if name == "high" then Some(Red)
      else None
    case Rank(_) => None
  }
}
