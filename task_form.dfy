/**
 * The task form: its field state, the assignee picker wired to it, and the
 * draft it submits.
 */
module TaskForm {
  import opened Wrappers
  import opened Types
  import opened UserSelect

  class FormState {
    var title: string
    var description: string
    var priority: Priority
    var category: Category
    /** The raw value of the date input; empty when no date was picked. */
    var dueDate: string
    var assignees: seq<User>

    /** The state before any edit. */
    constructor ()
      ensures title == "" && description == "" && dueDate == ""
      ensures priority == Medium && category == General && assignees == []
    {
      title, description := "", "";
      priority, category := Medium, General;
      dueDate := "";
      assignees := [];
    }

    method SetTitle(s: string)
      modifies this
      ensures title == s
      ensures description == old(description) && priority == old(priority) && category == old(category)
      ensures dueDate == old(dueDate) && assignees == old(assignees)
    {
      title := s;
    }

    method SetDescription(s: string)
      modifies this
      ensures description == s
      ensures title == old(title) && priority == old(priority) && category == old(category)
      ensures dueDate == old(dueDate) && assignees == old(assignees)
    {
      description := s;
    }

    method SetPriority(p: Priority)
      modifies this
      ensures priority == p
      ensures title == old(title) && description == old(description) && category == old(category)
      ensures dueDate == old(dueDate) && assignees == old(assignees)
    {
      priority := p;
    }

    method SetCategory(c: Category)
      modifies this
      ensures category == c
      ensures title == old(title) && description == old(description) && priority == old(priority)
      ensures dueDate == old(dueDate) && assignees == old(assignees)
    {
      category := c;
    }

    method SetDueDate(s: string)
      modifies this
      ensures dueDate == s
      ensures title == old(title) && description == old(description) && priority == old(priority)
      ensures category == old(category) && assignees == old(assignees)
    {
      dueDate := s;
    }

    /** The picker's add handler, its result stored by `setAssignees`. */
    method PickAssignee(users: seq<User>, userId: Option<int>)
      modifies this
      ensures assignees == AddUser(users, old(assignees), userId)
      ensures (old(NoDuplicateIds(assignees)) && userId.Some? &&
               old(HasUserId(AvailableUsers(users, assignees), userId.value)))
              ==> NoDuplicateIds(assignees)
      ensures title == old(title) && description == old(description) && priority == old(priority)
      ensures category == old(category) && dueDate == old(dueDate)
    {
      if NoDuplicateIds(assignees) && userId.Some? && HasUserId(AvailableUsers(users, assignees), userId.value) {
        AddAvailableKeepsNoDuplicates(users, assignees, userId.value);
      }
      assignees := AddUser(users, assignees, userId);
    }

    /** The picker's remove handler, its result stored by `setAssignees`. */
    method UnpickAssignee(userId: int)
      modifies this
      ensures assignees == RemoveUser(old(assignees), userId)
      ensures old(NoDuplicateIds(assignees)) ==> NoDuplicateIds(assignees)
      ensures title == old(title) && description == old(description) && priority == old(priority)
      ensures category == old(category) && dueDate == old(dueDate)
    {
      if NoDuplicateIds(assignees) {
        RemoveKeepsNoDuplicates(assignees, userId);
      }
      assignees := RemoveUser(assignees, userId);
    }

    /**
     * `handleSubmit`: the draft built from the current fields. `now` stands
     * for `new Date()` and `parseDate` for `new Date(dueDate)`.
     */
    method Submit(now: Date, parseDate: string -> Date) returns (d: Draft)
      ensures d.id == 0 && !d.completed && d.createdAt == now
      ensures d.dueDate.None? <==> dueDate == ""
      ensures d.dueDate.Some? ==> d.dueDate.value == parseDate(dueDate)
      ensures d.title == title && d.description == description
      ensures d.priority == priority && d.category == category && d.assignees == assignees
    {
      var due := if dueDate != "" then Some(parseDate(dueDate)) else None;
      d := Draft(0, title, description, priority, category, due, false, now, assignees);
    }
  }
}
