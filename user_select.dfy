/**
 * The assignee picker: the users not yet chosen, and the selection after
 * choosing or removing one. The component keeps no state; the new selection is
 * handed back to the form.
 */
module UserSelect {
  import opened Wrappers
  import opened Types
  import opened Seqs

  /** A selection in which no user id occurs twice. */
  predicate NoDuplicateIds(us: seq<User>)
  {
    DistinctBy(us, UserId)
  }

  function NotIn(selected: seq<User>): User -> bool
  {
    (u: User) => !HasUserId(selected, u.id)
  }

  function HasId(id: int): User -> bool
  {
    (u: User) => u.id == id
  }

  function IdIsNot(id: int): User -> bool
  {
    (u: User) => u.id != id
  }

  /** `availableUsers`: the options the picker offers. */
  function AvailableUsers(users: seq<User>, selected: seq<User>): (r: seq<User>)
    ensures forall i :: 0 <= i < |r| ==> r[i] in users && !HasUserId(selected, r[i].id)
    ensures forall i :: 0 <= i < |users| && !HasUserId(selected, users[i].id) ==> users[i] in r
    ensures IsSubsequence(r, users)
  {
    FilterIsSubsequence(users, NotIn(selected));
    Filter(users, NotIn(selected))
  }

  /** Each unselected user is offered as often as it is listed; selected ids never. */
  lemma AvailableKeepsMultiplicity(users: seq<User>, selected: seq<User>)
    ensures forall u :: multiset(AvailableUsers(users, selected))[u] ==
                       (if HasUserId(selected, u.id) then 0 else multiset(users)[u])
  {
    FilterMultiset(users, NotIn(selected));
  }

  /**
   * `handleAddUser`; `None` is the empty option value. A value that is no
   * user's id (including what `parseInt` turns into NaN) finds nobody.
   */
  function AddUser(users: seq<User>, selected: seq<User>, userId: Option<int>): (r: seq<User>)
    ensures userId.None? ==> r == selected
    ensures userId.Some? && !HasUserId(users, userId.value) ==> r == selected
    ensures userId.Some? && HasUserId(users, userId.value) ==>
      |r| == |selected| + 1 && r[..|selected|] == selected &&
      exists i :: 0 <= i < |users| && users[i] == r[|selected|] && users[i].id == userId.value &&
                  forall j :: 0 <= j < i ==> users[j].id != userId.value
  {
    match userId
    case None => selected
    case Some(id) =>
      match Find(users, HasId(id))
      case None => selected
      case Some(u) =>
        assert (selected + [u])[..|selected|] == selected;
        selected + [u]
  }

  /** `handleRemoveUser`. */
  function RemoveUser(selected: seq<User>, userId: int): (r: seq<User>)
    ensures !HasUserId(r, userId)
    ensures forall i :: 0 <= i < |r| ==> r[i] in selected
    ensures forall i :: 0 <= i < |selected| && selected[i].id != userId ==> selected[i] in r
    ensures IsSubsequence(r, selected)
  {
    FilterIsSubsequence(selected, IdIsNot(userId));
    Filter(selected, IdIsNot(userId))
  }

  /** Picking an offered user keeps the selection free of duplicate ids. */
  lemma AddAvailableKeepsNoDuplicates(users: seq<User>, selected: seq<User>, userId: int)
    requires NoDuplicateIds(selected)
    requires HasUserId(AvailableUsers(users, selected), userId)
    ensures NoDuplicateIds(AddUser(users, selected, Some(userId)))
  {
  }

  lemma RemoveKeepsNoDuplicates(selected: seq<User>, userId: int)
    requires NoDuplicateIds(selected)
    ensures NoDuplicateIds(RemoveUser(selected, userId))
  {
    FilterKeepsDistinct(selected, IdIsNot(userId), UserId);
  }

  /** Removing keeps every other selected user as often as it was selected. */
  lemma RemoveKeepsMultiplicity(selected: seq<User>, userId: int)
    ensures forall u :: multiset(RemoveUser(selected, userId))[u] == (if u.id == userId then 0 else multiset(selected)[u])
  {
    FilterMultiset(selected, IdIsNot(userId));
  }

  lemma RemoveAbsentIsNoOp(selected: seq<User>, userId: int)
    requires !HasUserId(selected, userId)
    ensures RemoveUser(selected, userId) == selected
  {
    FilterAll(selected, IdIsNot(userId));
  }

  /** Removing the user just added restores the selection it was added to. */
  lemma RemoveUndoesAdd(users: seq<User>, selected: seq<User>, userId: int)
    requires !HasUserId(selected, userId)
    ensures RemoveUser(AddUser(users, selected, Some(userId)), userId) == selected
  {
    var added := AddUser(users, selected, Some(userId));
    FilterAll(selected, IdIsNot(userId));
    if HasUserId(users, userId) {
      var u := added[|selected|];
      assert added == selected + [u];
      FilterConcat(selected, [u], IdIsNot(userId));
    }
  }
}
