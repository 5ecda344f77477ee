/** The assignment table: rows are only ever appended to it. */
module Ledger {
  import opened Records

  /** The load of a resource: how many assignment rows name it. Nothing ever
      removes a row, so a resource's load never goes down. */
  function Load(assignments: seq<Assignment>, resourceId: int): (n: nat)
    ensures n <= |assignments|
    ensures n == 0 <==> forall k :: 0 <= k < |assignments| ==> assignments[k].resourceId != resourceId
  {
    if assignments == [] then 0
    else
      var last := assignments[|assignments| - 1];
      Load(assignments[..|assignments| - 1], resourceId) + (if last.resourceId == resourceId then 1 else 0)
  }

  /** How many assignment rows name a task: the listing's filter on the
      task id. It has the shape of `Load` over the other column; both are
      kept so that each reads as the query it models, and no predicate
      value has to be compared between calls. */
  function TaskAssignments(assignments: seq<Assignment>, taskId: int): (n: nat)
    ensures n <= |assignments|
    ensures n == 0 <==> forall k :: 0 <= k < |assignments| ==> assignments[k].taskId != taskId
  {
    if assignments == [] then 0
    else
      var last := assignments[|assignments| - 1];
      TaskAssignments(assignments[..|assignments| - 1], taskId) + (if last.taskId == taskId then 1 else 0)
  }

  lemma {:induction false} LoadAppend(assignments: seq<Assignment>, a: Assignment, resourceId: int)
    ensures Load(assignments + [a], resourceId) == Load(assignments, resourceId) + (if a.resourceId == resourceId then 1 else 0)
  {
    assert (assignments + [a])[..|assignments|] == assignments;
  }

  lemma {:induction false} TaskAssignmentsAppend(assignments: seq<Assignment>, a: Assignment)
    ensures TaskAssignments(assignments + [a], a.taskId) == TaskAssignments(assignments, a.taskId) + 1
  {
    assert (assignments + [a])[..|assignments|] == assignments;
  }

  lemma {:induction false} TaskAssignmentsAppendOther(assignments: seq<Assignment>, a: Assignment, taskId: int)
    requires a.taskId != taskId
    ensures TaskAssignments(assignments + [a], taskId) == TaskAssignments(assignments, taskId)
  {
    assert (assignments + [a])[..|assignments|] == assignments;
  }

  /** Appending rows never lowers a load. */
  lemma {:induction false} LoadGrows(before: seq<Assignment>, after: seq<Assignment>, resourceId: int)
    requires before <= after
    ensures Load(before, resourceId) <= Load(after, resourceId)
    decreases |after|
  {
    if |after| > |before| {
      var shorter := after[..|after| - 1];
      assert before <= shorter;
      LoadGrows(before, shorter, resourceId);
    } else {
      assert before == after;
    }
  }

  /** The id the database gives the next row of an integer primary key
      column, taken to follow SQLite's rowid rule: one more than the largest
      id so far, or 1 in an empty table. */
  function NextId(assignments: seq<Assignment>): (id: int)
    ensures forall k :: 0 <= k < |assignments| ==> assignments[k].id < id
    ensures assignments == [] ==> id == 1
    ensures assignments != [] ==> exists k :: 0 <= k < |assignments| && assignments[k].id == id - 1
  {
    if assignments == [] then 1
    else
      var rest := assignments[..|assignments| - 1];
      var last := assignments[|assignments| - 1].id;
      if rest == [] || last >= NextId(rest) then last + 1 else NextId(rest)
  }
}
