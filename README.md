# Role-aware task tracker: access policy and task store

This project models the core of a small task-tracking front end. Users sign in
against a static user directory. Each user has a role (administrator, manager,
employee) and a department. A user sees the tasks their role and department
allow. Administrators and managers may open the creation form. When a task is
created it is stamped with the creator's department, and assignees are picked
from the colleagues the policy offers. Any task in view can be toggled done or
pending, or deleted.

Modules:

- `Types`: the closed enumerations `Role`, `Department`, `Priority` and `Category`, the records `User` and `Task`, and `Draft`, the record the form submits (a task without a department). `Date` is opaque.
- `AccessPolicy`: `VisibleTasks` (`getVisibleTasks`), `AvailableUsers` (`getAvailableUsers`) and the create-button gate `CanCreateTask`. `MaySee` states the same rule one task at a time.
- `TaskStore`: `Stamp`, `Toggled` and `Deleted`, the new task list that `addTask`, `toggleStatus` and `deleteTask` compute, and how each relates to visibility.
- `Dashboard`: the four stat cards, computed over the visible tasks.
- `App`: class `AppState` with the component's state fields `tasks`, `currentUser`, `loginError` and `isFormOpen`, and one method per handler. The directory is a constructor parameter.
- `UserSelect`: the assignee picker's list operations, as functions on sequences.
- `TaskForm`: class `FormState` holds the form fields and their setters, the picker wired into `assignees`, and `Submit`, which builds the draft.
- `Seqs` and `Wrappers`: `filter`, `find` and `map`, the subsequence relation, and `Option`.

Ids and dates come from the clock in the application code. Here they are parameters: `AddTask` takes `freshId` (for `Date.now()`), and `Submit` takes `now` and `parseDate` (for `new Date()` and `new Date(dueDate)`).

The model claims nothing the code does not do. `addTask` does not reject an empty title, which only the browser's `required` attribute guards. It also does not check that the id is fresh or that the user may create tasks. `toggleStatus` and `deleteTask` act on any id for anyone. So the model's `UniqueIds` results are conditional: `AddTask` keeps ids unique only when the caller's id is fresh. Toggle and delete act on every task carrying the id. `Logout` leaves `isFormOpen` as it was, as the code does.

## Model

| member | source | states |
|---|---|---|
| AccessPolicy.VisibleTasks | src/App.tsx:105-122 | signed out: nothing visible; administrator: the whole list, same order; otherwise a task is in the result iff it is stored and `MaySee` holds for the user (own department, or for an employee, assigned by id); the result is an order-preserving subsequence of the stored list |
| AccessPolicy.VisibleKeepsMultiplicity | src/App.tsx:105-122 | every task the user may see occurs as often as it is stored, every other task not at all |
| AccessPolicy.ManagerSeesOwnDepartment | src/App.tsx:111-112 | for a manager, a task is visible iff it is stored and belongs to the manager's department |
| AccessPolicy.EmployeeSeesDepartmentOrAssigned | src/App.tsx:113-118 | for an employee, a task is visible iff it is stored and belongs to the employee's department or lists the employee's id among its assignees |
| AccessPolicy.AvailableUsers | src/App.tsx:129-140 | signed out: no one; administrator: the whole directory; any other role: a user is returned iff listed in the directory and of the own department; always an order-preserving subsequence of the directory (multiplicity: `AvailableKeepsMultiplicity`) |
| AccessPolicy.AvailableKeepsMultiplicity | src/App.tsx:129-140 | each assignable user (anyone for an administrator, the own department otherwise) occurs as often as in the directory, every other user not at all; nobody when signed out |
| AccessPolicy.SelfIsAssignable | src/App.tsx:129-140 | a signed-in directory user is always among their own assignable users |
| AccessPolicy.CanCreateTask | src/App.tsx:179 | the gate is closed when signed out; for a signed-in user it is open exactly when the role is not employee |
| TaskStore.Stamp | src/App.tsx:83-87 | the new task carries the fresh id and the creator's department; every other field is the draft's |
| TaskStore.Toggled | src/App.tsx:92-98 | same length; each task differs from the stored one at most in `completed`, and `completed` flips exactly on the tasks with the given id |
| TaskStore.ToggleTwiceIsIdentity | src/App.tsx:92-98 | toggling the same id twice gives back the original list |
| TaskStore.ToggleAbsentIdIsNoOp | src/App.tsx:92-98 | toggling an id no task has leaves the list unchanged |
| TaskStore.ToggleKeepsUniqueIds | src/App.tsx:92-98 | toggling keeps task ids unique |
| TaskStore.Deleted | src/App.tsx:100-102 | no task with the id remains; every other task is kept, in order (a subsequence) |
| TaskStore.DeleteKeepsMultiplicity | src/App.tsx:100-102 | each task with another id stays as often as it was stored |
| TaskStore.DeleteIsIdempotent | src/App.tsx:100-102 | deleting the same id twice equals deleting it once |
| TaskStore.DeleteAbsentIdIsNoOp | src/App.tsx:100-102 | deleting an id no task has leaves the list unchanged |
| TaskStore.DeleteKeepsUniqueIds | src/App.tsx:100-102 | deleting keeps task ids unique |
| TaskStore.AppendFreshKeepsUniqueIds | src/App.tsx:83-88 | appending a task with a fresh id keeps ids unique |
| TaskStore.DeleteUndoesFreshAdd | src/App.tsx:80-102 | adding a task under a fresh id and then deleting that id restores the list |
| TaskStore.CreatorSeesNewTask | src/App.tsx:80-122 | whatever the creator's role, their view after adding is their earlier view with the new task at the end |
| TaskStore.VisibleAfterToggle | src/App.tsx:92-122 | the view of the toggled list is the toggled view: toggling never changes who sees a task |
| TaskStore.VisibleAfterDelete | src/App.tsx:100-122 | the view of the list after a delete is the view with that id deleted |
| Dashboard.TotalAssignments | src/App.tsx:126 | the sum of assignee counts is at least each task's count and is zero exactly when no task has an assignee |
| Dashboard.TotalAssignmentsSingleton | src/App.tsx:126 | a one-task list totals exactly that task's number of assignees |
| Dashboard.TotalAssignmentsAppend | src/App.tsx:126 | the total over two lists joined is the sum of their totals; with the singleton case this fixes the total of every list as the sum of the assignee counts |
| Dashboard.AssignedTasksBoundAssignments | src/App.tsx:125-126 | the number of tasks with assignees is at most the total assignment count, and they are zero together |
| Dashboard.DashboardOf | src/App.tsx:153-174 | the done, pending, urgent and assigned-task cards show the number of visible positions whose task is completed, not completed, high priority, or has an assignee; the assignments card shows `TotalAssignments`; done plus pending equals the number of visible tasks; urgent and assigned counts are bounded by it; assigned tasks are at most the assignments and zero together with them |
| App.Authenticate | src/App.tsx:64-67 | finds a user iff some directory user has both the email and the password; the user found is such a user and the first one in directory order |
| App.AppState.constructor | src/App.tsx:59-62 | the initial state: no tasks, form closed, nobody signed in, no error |
| App.AppState.Visible | src/App.tsx:124 | the rendered list is an order-preserving subsequence of the stored tasks |
| App.AppState.AssignableUsers | src/App.tsx:201 | the users handed to the form all come from the directory, and the signed-in user is always among them |
| App.AppState.StatCards | src/App.tsx:153-174 | the cards count the completed, pending, high-priority and assigned tasks of the rendered list by position, the assignments card sums their assignees; done plus pending equals the visible count |
| App.AppState.Login | src/App.tsx:64-74 | on a match the session becomes the matched directory user and the error is cleared; otherwise the error message is set and the session is untouched; tasks and the form flag are unchanged |
| App.AppState.Logout | src/App.tsx:76-78 | the session is cleared; tasks, the form flag and the error are unchanged |
| App.AppState.OpenForm | src/App.tsx:179-187 | the form opens only for a signed-in administrator or manager; nothing else changes |
| App.AppState.CloseForm | src/App.tsx:200 | the form closes; nothing else changes |
| App.AppState.AddTask | src/App.tsx:80-90 | signed out: nothing changes; signed in: exactly one task is appended (the draft stamped with the fresh id and the user's department), earlier tasks are untouched and the form closes; ids stay unique when the supplied id is fresh |
| App.AppState.ToggleStatus | src/App.tsx:92-98 | the list becomes `Toggled` of the old list; ids stay unique; session, error and form flag are unchanged |
| App.AppState.DeleteTask | src/App.tsx:100-102 | the list becomes `Deleted` of the old list; ids stay unique; session, error and form flag are unchanged |
| UserSelect.AvailableUsers | src/components/UserSelect.tsx:12-14 | a user is offered iff listed and their id is not yet selected; the offers keep the list's order (multiplicity: `AvailableKeepsMultiplicity`) |
| UserSelect.AvailableKeepsMultiplicity | src/components/UserSelect.tsx:12-14 | every user whose id is not selected is offered as often as listed; users with a selected id are never offered |
| UserSelect.AddUser | src/components/UserSelect.tsx:16-22 | an empty value or an id no user has leaves the selection unchanged; otherwise the first user with that id is appended and earlier selections are kept |
| UserSelect.RemoveUser | src/components/UserSelect.tsx:24-26 | no entry with the id remains; the other entries are kept, in order |
| UserSelect.AddAvailableKeepsNoDuplicates | src/components/UserSelect.tsx:12-20 | picking an offered id keeps a duplicate-free selection duplicate-free |
| UserSelect.RemoveKeepsNoDuplicates | src/components/UserSelect.tsx:24-26 | removing keeps a duplicate-free selection duplicate-free |
| UserSelect.RemoveKeepsMultiplicity | src/components/UserSelect.tsx:24-26 | every entry with another id stays as often as it was selected |
| UserSelect.RemoveAbsentIsNoOp | src/components/UserSelect.tsx:24-26 | removing an id that is not selected leaves the selection unchanged |
| UserSelect.RemoveUndoesAdd | src/components/UserSelect.tsx:16-26 | adding an unselected id and then removing it restores the selection |
| TaskForm.FormState.constructor | src/components/TaskForm.tsx:13-18 | before any edit: empty title, description and date input, priority medium, category general, no assignees |
| TaskForm.FormState.SetTitle | src/components/TaskForm.tsx:56 | the title takes the input's value; the other fields are unchanged |
| TaskForm.FormState.SetDescription | src/components/TaskForm.tsx:68 | the description takes the input's value; the other fields are unchanged |
| TaskForm.FormState.SetPriority | src/components/TaskForm.tsx:81 | the priority takes the chosen value; the other fields are unchanged |
| TaskForm.FormState.SetCategory | src/components/TaskForm.tsx:96 | the category takes the chosen value; the other fields are unchanged |
| TaskForm.FormState.SetDueDate | src/components/TaskForm.tsx:120 | the date input takes its value; the other fields are unchanged |
| TaskForm.FormState.PickAssignee | src/components/TaskForm.tsx:107-111 | the assignees become the picker's `AddUser` result; an offered pick keeps them duplicate-free; other fields are unchanged |
| TaskForm.FormState.UnpickAssignee | src/components/TaskForm.tsx:107-111 | the assignees become the picker's `RemoveUser` result and stay duplicate-free; other fields are unchanged |
| TaskForm.FormState.Submit | src/components/TaskForm.tsx:20-33 | the draft has id 0, is not completed, carries the submission time; its due date is absent iff the date input is empty (else the parsed input); title, description, priority, category and assignees are the form's, verbatim; it has no department |

## Left out

- Rendering, styling and layout: all of `src/components/Header.tsx`, the list view's colour and badge mappings, and its locale date formatting.
- `LoginForm` is not part of this model. The login screen is reduced to the `(email, password)` pair that `AppState.Login` receives.
- `Date.now()`, `new Date()` and `new Date(dueDate)`: clock reads and library date parsing become the parameters `freshId`, `now` and `parseDate`.
- `parseInt` in the picker: the chosen value is an optional integer. `None` is the empty placeholder option. A value that parses to NaN matches no user, like an unknown id.
- React mechanics (`useState`, re-render scheduling, stale closures): each handler is one sequential update of the state fields.
- The mock directory's contents, avatars, and plaintext password handling: the directory is a constructor parameter.
- The default `return []` arm of `getVisibleTasks`: `Role` is a closed enumeration with three values, so that arm can never be reached.
- Title validation: only the browser's `required` attribute enforces a non-empty title. The store does not, so no member claims it.
- App.AppState.AddTask: does not promise unique ids. The code takes `Date.now()` without checking it, so uniqueness is stated only for a caller-supplied fresh id.
