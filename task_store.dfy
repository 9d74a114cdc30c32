/**
 * The task list transformations behind `addTask`, `toggleStatus` and
 * `deleteTask`. Each gives the new list as a function of the old one; the
 * application state applies them.
 */
module TaskStore {
  import opened Wrappers
  import opened Types
  import opened Seqs
  import opened AccessPolicy

  /** No two stored tasks share an id (the store relies on fresh ids; nothing checks it). */
  predicate UniqueIds(tasks: seq<Task>)
  {
    DistinctBy(tasks, TaskId)
  }

  /** `{ ...draft, id: freshId, department }`: the task `addTask` appends. */
  function Stamp(d: Draft, freshId: int, department: Department): (t: Task)
    ensures t.id == freshId && t.department == department
    ensures t.title == d.title && t.description == d.description
    ensures t.priority == d.priority && t.category == d.category
    ensures t.dueDate == d.dueDate && t.completed == d.completed
    ensures t.createdAt == d.createdAt && t.assignees == d.assignees
  {
    Task(freshId, d.title, d.description, d.priority, d.category,
         department, d.dueDate, d.completed, d.createdAt, d.assignees)
  }

  /** The callback given to `tasks.map` by `toggleStatus`. */
  function ToggleIfId(id: int): Task -> Task
  {
    (t: Task) => if t.id == id then t.(completed := !t.completed) else t
  }

  function Toggled(tasks: seq<Task>, id: int): (r: seq<Task>)
    ensures |r| == |tasks|
    ensures forall i :: 0 <= i < |tasks| ==> r[i].(completed := tasks[i].completed) == tasks[i]
    ensures forall i :: 0 <= i < |tasks| ==> (r[i].completed != tasks[i].completed <==> tasks[i].id == id)
  {
    Map(tasks, ToggleIfId(id))
  }

  /** The callback given to `tasks.filter` by `deleteTask`. */
  function IdIsNot(id: int): Task -> bool
  {
    (t: Task) => t.id != id
  }

  function Deleted(tasks: seq<Task>, id: int): (r: seq<Task>)
    ensures !HasTaskId(r, id)
    ensures forall i :: 0 <= i < |r| ==> r[i] in tasks
    ensures forall i :: 0 <= i < |tasks| && tasks[i].id != id ==> tasks[i] in r
    ensures IsSubsequence(r, tasks)
  {
    FilterIsSubsequence(tasks, IdIsNot(id));
    Filter(tasks, IdIsNot(id))
  }

  lemma ToggleTwiceIsIdentity(tasks: seq<Task>, id: int)
    ensures Toggled(Toggled(tasks, id), id) == tasks
  {
  }

  lemma ToggleAbsentIdIsNoOp(tasks: seq<Task>, id: int)
    requires !HasTaskId(tasks, id)
    ensures Toggled(tasks, id) == tasks
  {
  }

  lemma ToggleKeepsUniqueIds(tasks: seq<Task>, id: int)
    requires UniqueIds(tasks)
    ensures UniqueIds(Toggled(tasks, id))
  {
  }

  /** Deletion keeps every other task as often as it was stored. */
  lemma DeleteKeepsMultiplicity(tasks: seq<Task>, id: int)
    ensures forall t :: multiset(Deleted(tasks, id))[t] == (if t.id == id then 0 else multiset(tasks)[t])
  {
    FilterMultiset(tasks, IdIsNot(id));
  }

  lemma DeleteIsIdempotent(tasks: seq<Task>, id: int)
    ensures Deleted(Deleted(tasks, id), id) == Deleted(tasks, id)
  {
    var once := Deleted(tasks, id);
    FilterAll(once, IdIsNot(id));
  }

  lemma DeleteAbsentIdIsNoOp(tasks: seq<Task>, id: int)
    requires !HasTaskId(tasks, id)
    ensures Deleted(tasks, id) == tasks
  {
    FilterAll(tasks, IdIsNot(id));
  }

  lemma DeleteKeepsUniqueIds(tasks: seq<Task>, id: int)
    requires UniqueIds(tasks)
    ensures UniqueIds(Deleted(tasks, id))
  {
    FilterKeepsDistinct(tasks, IdIsNot(id), TaskId);
  }

  /** Appending a task whose id is fresh keeps ids unique. */
  lemma AppendFreshKeepsUniqueIds(tasks: seq<Task>, t: Task)
    requires UniqueIds(tasks)
    requires !HasTaskId(tasks, t.id)
    ensures UniqueIds(tasks + [t])
  {
  }

  /** Deleting the id of a task just added with a fresh id restores the list. */
  lemma DeleteUndoesFreshAdd(tasks: seq<Task>, d: Draft, freshId: int, department: Department)
    requires !HasTaskId(tasks, freshId)
    ensures Deleted(tasks + [Stamp(d, freshId, department)], freshId) == tasks
  {
    FilterConcat(tasks, [Stamp(d, freshId, department)], IdIsNot(freshId));
    FilterAll(tasks, IdIsNot(freshId));
  }

  /** The new task is visible to its creator, at the end of their list, whatever their role. */
  lemma CreatorSeesNewTask(u: User, tasks: seq<Task>, d: Draft, freshId: int)
    ensures VisibleTasks(Some(u), tasks + [Stamp(d, freshId, u.department)])
         == VisibleTasks(Some(u), tasks) + [Stamp(d, freshId, u.department)]
  {
    var t := Stamp(d, freshId, u.department);
    match u.role
    case Admin =>
    case Manager => FilterConcat(tasks, [t], InDepartment(u.department));
    case Employee => FilterConcat(tasks, [t], InDepartmentOrAssigned(u));
  }

  /** Toggling does not change who sees what. */
  lemma VisibleAfterToggle(current: Option<User>, tasks: seq<Task>, id: int)
    ensures VisibleTasks(current, Toggled(tasks, id)) == Toggled(VisibleTasks(current, tasks), id)
  {
    match current
    case None =>
    case Some(u) =>
      match u.role
      case Admin =>
      case Manager => FilterMap(tasks, ToggleIfId(id), InDepartment(u.department));
      case Employee => FilterMap(tasks, ToggleIfId(id), InDepartmentOrAssigned(u));
  }

  /** Deleting from the store deletes from every user's view, and nothing more. */
  lemma VisibleAfterDelete(current: Option<User>, tasks: seq<Task>, id: int)
    ensures VisibleTasks(current, Deleted(tasks, id)) == Deleted(VisibleTasks(current, tasks), id)
  {
    match current
    case None =>
    case Some(u) =>
      match u.role
      case Admin =>
      case Manager => FilterCommutes(tasks, IdIsNot(id), InDepartment(u.department));
      case Employee => FilterCommutes(tasks, IdIsNot(id), InDepartmentOrAssigned(u));
  }
}
