/** The assignments page: the all / pending / completed filter, the status
    icon rule, the four summary counts and the completion toggle. */
module AssignmentsPage {
  import opened Common
  import opened Entities

  /** The selection behind `filteredAssignments` for one assignment. */
  predicate ShownUnder(filter: string, a: Assignment) {
    if filter == "pending" then !a.completed
    else if filter == "completed" then a.completed
    else true
  }

  /** `filteredAssignments`: "pending" keeps the open assignments,
      "completed" the finished ones, anything else keeps all; order is
      kept. */
  function FilterAssignments(assignments: seq<Assignment>, filter: string): (r: seq<Assignment>)
    ensures IsSubsequence(r, assignments)
    ensures filter == "pending" ==>
      (forall i :: 0 <= i < |r| ==> !r[i].completed) &&
      (forall i :: 0 <= i < |assignments| && !assignments[i].completed ==> assignments[i] in r)
    ensures filter == "completed" ==>
      (forall i :: 0 <= i < |r| ==> r[i].completed) &&
      (forall i :: 0 <= i < |assignments| && assignments[i].completed ==> assignments[i] in r)
    ensures filter != "pending" && filter != "completed" ==> r == assignments
  {
    var keep := (a: Assignment) => ShownUnder(filter, a);
    if filter != "pending" && filter != "completed" then
      FilterAll(assignments, keep);
      Filter(assignments, keep)
    else
      Filter(assignments, keep)
  }

  datatype Status = Done | Overdue | Open

  /** `getStatusIcon`: a completed assignment is done whatever its date; an
      open one is overdue once its due date has passed. */
  function StatusOf(a: Assignment, now: Timestamp): (s: Status)
    ensures s == Done <==> a.completed
    ensures s == Overdue <==> !a.completed && a.dueDate < now
    ensures s == Open <==> !a.completed && now <= a.dueDate
  {
    if a.completed then Done
    else if a.dueDate < now then Overdue
    else Open
  }

  datatype Summary = Summary(total: nat, pending: nat, completed: nat, overdue: nat)

  /** The four statistic cards of the page. */
  function Summarize(assignments: seq<Assignment>, now: Timestamp): (st: Summary)
    ensures st.total == |assignments|
    ensures st.pending == |FilterAssignments(assignments, "pending")|
    ensures st.completed == |FilterAssignments(assignments, "completed")|
  {
    FilterCongruent(assignments, (a: Assignment) => !a.completed, (a: Assignment) => ShownUnder("pending", a));
    FilterCongruent(assignments, (a: Assignment) => a.completed, (a: Assignment) => ShownUnder("completed", a));
    Summary(
      |assignments|,
      |Filter(assignments, (a: Assignment) => !a.completed)|,
      |Filter(assignments, (a: Assignment) => a.completed)|,
      |Filter(assignments, (a: Assignment) => !a.completed && a.dueDate < now)|)
  }

  /** Pending and completed partition the list; overdue ones are pending;
      and the overdue card counts exactly the assignments whose status
      icon is the overdue one. */
  lemma SummaryConsistent(assignments: seq<Assignment>, now: Timestamp)
    ensures var st := Summarize(assignments, now);
      st.pending + st.completed == st.total
      && st.overdue <= st.pending
      && st.overdue == |Filter(assignments, (a: Assignment) => StatusOf(a, now) == Overdue)|
  {
    FilterPartition(assignments, (a: Assignment) => !a.completed, (a: Assignment) => a.completed);
    FilterCountMonotone(assignments, (a: Assignment) => !a.completed && a.dueDate < now, (a: Assignment) => !a.completed);
    FilterCongruent(assignments,
      (a: Assignment) => !a.completed && a.dueDate < now,
      (a: Assignment) => StatusOf(a, now) == Overdue);
  }

  /** `prev.map(a => a.id === assignmentId ? { ...a, completed: !a.completed } : a)`. */
  function ToggleInList(assignments: seq<Assignment>, assignmentId: Id): (r: seq<Assignment>)
    ensures |r| == |assignments|
  {
    seq(|assignments|, i requires 0 <= i < |assignments| =>
      if assignments[i].id == assignmentId then assignments[i].(completed := !assignments[i].completed)
      else assignments[i])
  }

  /** Only `completed` of the matching assignment changes, and it flips. */
  lemma ToggleInListEffect(assignments: seq<Assignment>, assignmentId: Id, i: nat)
    requires i < |assignments|
    ensures var r := ToggleInList(assignments, assignmentId);
      if assignments[i].id == assignmentId then
        r[i].completed == !assignments[i].completed
        && r[i].(completed := assignments[i].completed) == assignments[i]
      else r[i] == assignments[i]
  {
  }

  /** Flipping twice gives back the list. */
  lemma ToggleTwice(assignments: seq<Assignment>, assignmentId: Id)
    ensures ToggleInList(ToggleInList(assignments, assignmentId), assignmentId) == assignments
  {
  }

  /** Completing one open assignment moves exactly one from pending to
      completed and leaves the total as it was (ids being unique). */
  lemma {:induction false} ToggleMovesOne(assignments: seq<Assignment>, i: nat)
    requires i < |assignments| && !assignments[i].completed
    requires forall j :: 0 <= j < |assignments| && j != i ==> assignments[j].id != assignments[i].id
    ensures var r := ToggleInList(assignments, assignments[i].id);
      |Filter(r, (a: Assignment) => a.completed)| == |Filter(assignments, (a: Assignment) => a.completed)| + 1
  {
    var id := assignments[i].id;
    var r := ToggleInList(assignments, id);
    var done := (a: Assignment) => a.completed;
    assert r == r[..i] + [r[i]] + r[i + 1..];
    assert assignments == assignments[..i] + [assignments[i]] + assignments[i + 1..];
    assert r[..i] == assignments[..i];
    assert r[i + 1..] == assignments[i + 1..];
    FilterAppend(r[..i] + [r[i]], r[i + 1..], done);
    FilterAppend(r[..i], [r[i]], done);
    FilterAppend(assignments[..i] + [assignments[i]], assignments[i + 1..], done);
    FilterAppend(assignments[..i], [assignments[i]], done);
  }

  /** The state of the assignments page. */
  class AssignmentsView {
    var assignments: seq<Assignment>

    constructor (initial: seq<Assignment>)
      ensures assignments == initial
    {
      assignments := initial;
    }

    /** `toggleComplete`: find the assignment, send the PATCH with the
        flipped flag, and rewrite the list only when the server answers ok
        (`serverOk`); an unknown id sends nothing and changes nothing. */
    method ToggleComplete(assignmentId: Id, serverOk: bool) returns (sent: Option<bool>)
      modifies this
      ensures match FindFirst(old(assignments), (a: Assignment) => a.id == assignmentId)
        case None => sent == None
        case Some(i) => sent == Some(!old(assignments)[i].completed)
      ensures assignments == if sent.Some? && serverOk then ToggleInList(old(assignments), assignmentId) else old(assignments)
    {
      var found := FindFirst(assignments, (a: Assignment) => a.id == assignmentId);
      if found.None? {
        return None;
      }
      sent := Some(!assignments[found.value].completed);
      if serverOk {
        assignments := ToggleInList(assignments, assignmentId);
      }
    }
  }
}
