/** The closed enumerations and records of the application. */
module Types {
  import opened Wrappers

  datatype Priority = Low | Medium | High
  datatype Category = General | Work | Personal | Shopping
  datatype Role = Admin | Manager | Employee
  datatype Department = IT | HR | Marketing | Sales | Finance

  /** An instant; the model never looks inside it. */
  datatype Date = Date(stamp: int)

  datatype User = User(
    id: int,
    name: string,
    avatar: string,
    email: string,
    password: string,
    role: Role,
    department: Department)

  datatype Task = Task(
    id: int,
    title: string,
    description: string,
    priority: Priority,
    category: Category,
    department: Department,
    dueDate: Option<Date>,
    completed: bool,
    createdAt: Date,
    assignees: seq<User>)

  /**
   * The record the task form submits: every field of a task except the
   * department, which only the store fills in.
   */
  datatype Draft = Draft(
    id: int,
    title: string,
    description: string,
    priority: Priority,
    category: Category,
    dueDate: Option<Date>,
    completed: bool,
    createdAt: Date,
    assignees: seq<User>)

  function UserId(u: User): int { u.id }
  function TaskId(t: Task): int { t.id }

  /** `us.some(u => u.id === id)`. */
  predicate HasUserId(us: seq<User>, id: int)
  {
    exists i :: 0 <= i < |us| && us[i].id == id
  }

  predicate HasTaskId(ts: seq<Task>, id: int)
  {
    exists i :: 0 <= i < |ts| && ts[i].id == id
  }
}
