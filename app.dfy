/**
 * The application component: the signed-in session, the task list and the
 * form flag, with the handlers that replace them.
 */
module App {
  import opened Wrappers
  import opened Types
  import opened Seqs
  import opened AccessPolicy
  import opened TaskStore
  import opened Dashboard

  /** The login error message ("email or password is incorrect"). */
  const InvalidCredentials: string := "อีเมลหรือรหัสผ่านไม่ถูกต้อง"

  function Matches(email: string, password: string): User -> bool
  {
    (u: User) => u.email == email && u.password == password
  }

  /** The directory lookup of `handleLogin`: the first user with both that email and that password. */
  function Authenticate(directory: seq<User>, email: string, password: string): (r: Option<User>)
    ensures r.Some? <==> exists i :: 0 <= i < |directory| && directory[i].email == email && directory[i].password == password
    ensures r.Some? ==> r.value in directory && r.value.email == email && r.value.password == password
    ensures r.Some? ==> exists i :: 0 <= i < |directory| && directory[i] == r.value &&
                          forall j :: 0 <= j < i ==> !(directory[j].email == email && directory[j].password == password)
  {
    Find(directory, Matches(email, password))
  }

  class AppState {
    /** The static user directory the session is chosen from. */
    const directory: seq<User>
    var tasks: seq<Task>
    var isFormOpen: bool
    var currentUser: Option<User>
    var loginError: Option<string>

    /** The signed-in user always comes from the directory. */
    ghost predicate Valid()
      reads this
    {
      currentUser.Some? ==> currentUser.value in directory
    }

    constructor (directory: seq<User>)
      ensures Valid()
      ensures this.directory == directory
      ensures tasks == [] && !isFormOpen && currentUser == None && loginError == None
    {
      this.directory := directory;
      tasks := [];
      isFormOpen := false;
      currentUser := None;
      loginError := None;
    }

    /** The list the task view renders. */
    function Visible(): (r: seq<Task>)
      reads this
      ensures IsSubsequence(r, tasks)
    {
      VisibleTasks(currentUser, tasks)
    }

    /** The users the task form offers as assignees; the signed-in user is always among them. */
    function AssignableUsers(): (r: seq<User>)
      reads this
      requires Valid()
      ensures currentUser.Some? ==> currentUser.value in r
      ensures forall i :: 0 <= i < |r| ==> r[i] in directory
    {
      if currentUser.Some? then
        SelfIsAssignable(currentUser.value, directory);
        AvailableUsers(currentUser, directory)
      else
        AvailableUsers(currentUser, directory)
    }

    /** The stat cards: counts over the visible tasks only. */
    function StatCards(): (s: Stats)
      reads this
      ensures s.completed == |set i | 0 <= i < |Visible()| && Visible()[i].completed|
      ensures s.pending == |set i | 0 <= i < |Visible()| && !Visible()[i].completed|
      ensures s.urgent == |set i | 0 <= i < |Visible()| && Visible()[i].priority == High|
      ensures s.assignedTasks == |set i | 0 <= i < |Visible()| && |Visible()[i].assignees| > 0|
      ensures s.assignments == TotalAssignments(Visible())
      ensures s.completed + s.pending == |Visible()|
      ensures s.assignedTasks <= s.assignments
    {
      DashboardOf(Visible())
    }

    method Login(email: string, password: string)
      requires Valid()
      modifies this
      ensures Valid()
      ensures Authenticate(directory, email, password).Some? ==>
        currentUser == Authenticate(directory, email, password) && loginError == None
      ensures Authenticate(directory, email, password).None? ==>
        currentUser == old(currentUser) && loginError == Some(InvalidCredentials)
      ensures tasks == old(tasks) && isFormOpen == old(isFormOpen)
    {
      var user := Authenticate(directory, email, password);
      if user.Some? {
        currentUser := user;
        loginError := None;
      } else {
        loginError := Some(InvalidCredentials);
      }
    }

    method Logout()
      requires Valid()
      modifies this
      ensures Valid()
      ensures currentUser == None
      ensures tasks == old(tasks) && isFormOpen == old(isFormOpen) && loginError == old(loginError)
    {
      currentUser := None;
    }

    /** The create button: it exists, and so opens the form, only for administrators and managers. */
    method OpenForm()
      requires Valid()
      modifies this
      ensures Valid()
      ensures isFormOpen == (old(isFormOpen) || CanCreateTask(currentUser))
      ensures tasks == old(tasks) && currentUser == old(currentUser) && loginError == old(loginError)
    {
      if CanCreateTask(currentUser) {
        isFormOpen := true;
      }
    }

    /** The form's close button. */
    method CloseForm()
      requires Valid()
      modifies this
      ensures Valid()
      ensures !isFormOpen
      ensures tasks == old(tasks) && currentUser == old(currentUser) && loginError == old(loginError)
    {
      isFormOpen := false;
    }

    /**
     * `addTask`; `freshId` stands for `Date.now()`. Nothing checks that it is
     * fresh, that the title is non-empty, or that the user may create tasks.
     */
    method AddTask(d: Draft, freshId: int)
      requires Valid()
      modifies this
      ensures Valid()
      ensures old(currentUser).None? ==> tasks == old(tasks) && isFormOpen == old(isFormOpen)
      ensures old(currentUser).Some? ==>
        tasks == old(tasks) + [Stamp(d, freshId, old(currentUser).value.department)] && !isFormOpen
      ensures old(UniqueIds(tasks)) && !old(HasTaskId(tasks, freshId)) ==> UniqueIds(tasks)
      ensures currentUser == old(currentUser) && loginError == old(loginError)
    {
      if currentUser.None? {
        return;
      }
      var t := Stamp(d, freshId, currentUser.value.department);
      if UniqueIds(tasks) && !HasTaskId(tasks, freshId) {
        AppendFreshKeepsUniqueIds(tasks, t);
      }
      tasks := tasks + [t];
      isFormOpen := false;
    }

    /** `toggleStatus`: no check of who asks. */
    method ToggleStatus(id: int)
      requires Valid()
      modifies this
      ensures Valid()
      ensures tasks == Toggled(old(tasks), id)
      ensures old(UniqueIds(tasks)) ==> UniqueIds(tasks)
      ensures isFormOpen == old(isFormOpen) && currentUser == old(currentUser) && loginError == old(loginError)
    {
      if UniqueIds(tasks) {
        ToggleKeepsUniqueIds(tasks, id);
      }
      tasks := Toggled(tasks, id);
    }

    /** `deleteTask`: no check of who asks. */
    method DeleteTask(id: int)
      requires Valid()
      modifies this
      ensures Valid()
      ensures tasks == Deleted(old(tasks), id)
      ensures old(UniqueIds(tasks)) ==> UniqueIds(tasks)
      ensures isFormOpen == old(isFormOpen) && currentUser == old(currentUser) && loginError == old(loginError)
    {
      if UniqueIds(tasks) {
        DeleteKeepsUniqueIds(tasks, id);
      }
      tasks := Deleted(tasks, id);
    }
  }
}
