/**
 * Which tasks the signed-in user sees, which colleagues they may assign, and
 * whether they may open the task form.
 */
module AccessPolicy {
  import opened Wrappers
  import opened Types
  import opened Seqs

  /** The per-task rule the role switch implements: a reference definition. */
  predicate MaySee(u: User, t: Task)
  {
    u.role == Admin
    || t.department == u.department
    || (u.role == Employee && HasUserId(t.assignees, u.id))
  }

  /** The manager's filter: the task belongs to department `d`. */
  function InDepartment(d: Department): Task -> bool
  {
    (t: Task) => t.department == d
  }

  /** The employee's filter: own department, or `u` is among the assignees. */
  function InDepartmentOrAssigned(u: User): Task -> bool
  {
    (t: Task) => t.department == u.department || HasUserId(t.assignees, u.id)
  }

  /** `getVisibleTasks`. */
  function VisibleTasks(current: Option<User>, tasks: seq<Task>): (r: seq<Task>)
    ensures current.None? ==> r == []
    ensures current.Some? && current.value.role == Admin ==> r == tasks
    ensures forall i :: 0 <= i < |r| ==> r[i] in tasks && current.Some? && MaySee(current.value, r[i])
    ensures forall i :: 0 <= i < |tasks| && current.Some? && MaySee(current.value, tasks[i]) ==> tasks[i] in r
    ensures IsSubsequence(r, tasks)
  {
    match current
    case None => []
    case Some(u) =>
      match u.role
      case Admin =>
        SubsequenceReflexive(tasks);
        tasks
      case Manager =>
        FilterIsSubsequence(tasks, InDepartment(u.department));
        Filter(tasks, InDepartment(u.department))
      case Employee =>
        FilterIsSubsequence(tasks, InDepartmentOrAssigned(u));
        Filter(tasks, InDepartmentOrAssigned(u))
  }

  /** Every visible task is kept as often as it is stored; no invisible one is kept. */
  lemma VisibleKeepsMultiplicity(current: Option<User>, tasks: seq<Task>)
    ensures forall t :: multiset(VisibleTasks(current, tasks))[t] ==
                       (if current.Some? && MaySee(current.value, t) then multiset(tasks)[t] else 0)
  {
    match current
    case None =>
    case Some(u) =>
      match u.role
      case Admin =>
      case Manager => FilterMultiset(tasks, InDepartment(u.department));
      case Employee => FilterMultiset(tasks, InDepartmentOrAssigned(u));
  }

  lemma ManagerSeesOwnDepartment(u: User, tasks: seq<Task>, t: Task)
    requires u.role == Manager
    ensures t in VisibleTasks(Some(u), tasks) <==> t in tasks && t.department == u.department
  {
  }

  lemma EmployeeSeesDepartmentOrAssigned(u: User, tasks: seq<Task>, t: Task)
    requires u.role == Employee
    ensures t in VisibleTasks(Some(u), tasks) <==>
      t in tasks && (t.department == u.department || HasUserId(t.assignees, u.id))
  {
  }

  /** The user's own department: the filter of every non-admin branch. */
  function SameDepartment(d: Department): User -> bool
  {
    (x: User) => x.department == d
  }

  /** `getAvailableUsers`. */
  function AvailableUsers(current: Option<User>, users: seq<User>): (r: seq<User>)
    ensures current.None? ==> r == []
    ensures current.Some? && current.value.role == Admin ==> r == users
    ensures current.Some? && current.value.role != Admin ==>
      (forall i :: 0 <= i < |r| ==> r[i].department == current.value.department) &&
      (forall i :: 0 <= i < |users| && users[i].department == current.value.department ==> users[i] in r)
    ensures forall i :: 0 <= i < |r| ==> r[i] in users
    ensures IsSubsequence(r, users)
  {
    match current
    case None => []
    case Some(u) =>
      match u.role
      case Admin =>
        SubsequenceReflexive(users);
        users
      case Manager =>
        FilterIsSubsequence(users, SameDepartment(u.department));
        Filter(users, SameDepartment(u.department))
      case Employee =>
        FilterIsSubsequence(users, SameDepartment(u.department));
        Filter(users, SameDepartment(u.department))
  }

  /** A signed-in user in the directory may always assign themselves. */
  lemma SelfIsAssignable(u: User, users: seq<User>)
    requires u in users
    ensures u in AvailableUsers(Some(u), users)
  {
  }

  /** Each assignable user occurs as often as in the directory; everyone else not at all. */
  lemma AvailableKeepsMultiplicity(current: Option<User>, users: seq<User>)
    ensures forall x :: multiset(AvailableUsers(current, users))[x] ==
                       (if current.None? then 0
                        else if current.value.role == Admin || x.department == current.value.department
                        then multiset(users)[x] else 0)
  {
    if current.Some? && current.value.role != Admin {
      FilterMultiset(users, SameDepartment(current.value.department));
    }
  }

  /**
   * The create button is shown to administrators and managers only: it is
   * closed when signed out and for employees.
   */
  function CanCreateTask(current: Option<User>): (r: bool)
    ensures r ==> current.Some?
    ensures current.Some? ==> (r <==> current.value.role != Employee)
  {
    current.Some? && (current.value.role == Admin || current.value.role == Manager)
  }
}
