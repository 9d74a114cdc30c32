/** The four stat cards above the task list, computed from the visible tasks. */
module Dashboard {
  import opened Types
  import opened Seqs

  datatype Stats = Stats(
    completed: nat,      // tasks marked done
    pending: nat,        // tasks not yet done
    urgent: nat,         // tasks of high priority
    assignments: nat,    // assignee slots summed over all tasks
    assignedTasks: nat)  // tasks with at least one assignee

  const IsDone := (t: Task) => t.completed
  const IsPending := (t: Task) => !t.completed
  const IsUrgent := (t: Task) => t.priority == High
  const HasAssignees := (t: Task) => |t.assignees| > 0

  /**
   * `reduce((sum, task) => sum + task.assignees.length, 0)`: every task adds
   * its number of assignees (addition is associative, so the order of the fold
   * does not matter).
   */
  function TotalAssignments(tasks: seq<Task>): (r: nat)
    ensures forall i :: 0 <= i < |tasks| ==> |tasks[i].assignees| <= r
    ensures r == 0 <==> forall i :: 0 <= i < |tasks| ==> tasks[i].assignees == []
  {
    if tasks == [] then 0
    else
      var rest := TotalAssignments(tasks[1..]);
      assert forall i :: 0 < i < |tasks| ==> tasks[i] == tasks[1..][i - 1];
      |tasks[0].assignees| + rest
  }

  /** A single task contributes exactly its number of assignees. */
  lemma TotalAssignmentsSingleton(t: Task)
    ensures TotalAssignments([t]) == |t.assignees|
  {
  }

  /** The total over a concatenation is the sum of the totals. */
  lemma {:induction false} TotalAssignmentsAppend(a: seq<Task>, b: seq<Task>)
    ensures TotalAssignments(a + b) == TotalAssignments(a) + TotalAssignments(b)
  {
    if a == [] {
      assert a + b == b;
    } else {
      assert (a + b)[1..] == a[1..] + b;
      TotalAssignmentsAppend(a[1..], b);
    }
  }

  /** Each task with assignees contributes at least one assignment, the others none. */
  lemma {:induction false} AssignedTasksBoundAssignments(tasks: seq<Task>)
    ensures |Filter(tasks, HasAssignees)| <= TotalAssignments(tasks)
    ensures TotalAssignments(tasks) == 0 <==> |Filter(tasks, HasAssignees)| == 0
  {
    if tasks != [] {
      AssignedTasksBoundAssignments(tasks[1..]);
    }
  }

  lemma CountDone(tasks: seq<Task>)
    ensures |Filter(tasks, IsDone)| == |set i | 0 <= i < |tasks| && tasks[i].completed|
  {
    FilterCount(tasks, IsDone);
    assert Positions(tasks, IsDone) == (set i | 0 <= i < |tasks| && tasks[i].completed);
  }

  lemma CountPending(tasks: seq<Task>)
    ensures |Filter(tasks, IsPending)| == |set i | 0 <= i < |tasks| && !tasks[i].completed|
  {
    FilterCount(tasks, IsPending);
    assert Positions(tasks, IsPending) == (set i | 0 <= i < |tasks| && !tasks[i].completed);
  }

  lemma CountUrgent(tasks: seq<Task>)
    ensures |Filter(tasks, IsUrgent)| == |set i | 0 <= i < |tasks| && tasks[i].priority == High|
  {
    FilterCount(tasks, IsUrgent);
    assert Positions(tasks, IsUrgent) == (set i | 0 <= i < |tasks| && tasks[i].priority == High);
  }

  lemma CountAssigned(tasks: seq<Task>)
    ensures |Filter(tasks, HasAssignees)| == |set i | 0 <= i < |tasks| && |tasks[i].assignees| > 0|
  {
    FilterCount(tasks, HasAssignees);
    assert Positions(tasks, HasAssignees) == (set i | 0 <= i < |tasks| && |tasks[i].assignees| > 0);
  }

  function DashboardOf(visible: seq<Task>): (s: Stats)
    ensures s.completed == |set i | 0 <= i < |visible| && visible[i].completed|
    ensures s.pending == |set i | 0 <= i < |visible| && !visible[i].completed|
    ensures s.urgent == |set i | 0 <= i < |visible| && visible[i].priority == High|
    ensures s.assignedTasks == |set i | 0 <= i < |visible| && |visible[i].assignees| > 0|
    ensures s.assignments == TotalAssignments(visible)
    ensures s.completed + s.pending == |visible|
    ensures s.urgent <= |visible| && s.assignedTasks <= |visible|
    ensures s.assignedTasks <= s.assignments
    ensures s.assignments == 0 <==> s.assignedTasks == 0
  {
    CountDone(visible);
    CountPending(visible);
    CountUrgent(visible);
    CountAssigned(visible);
    FilterComplementLength(visible, IsDone, IsPending);
    AssignedTasksBoundAssignments(visible);
    Stats(|Filter(visible, IsDone)|,
          |Filter(visible, IsPending)|,
          |Filter(visible, IsUrgent)|,
          TotalAssignments(visible),
          |Filter(visible, HasAssignees)|)
  }
}
