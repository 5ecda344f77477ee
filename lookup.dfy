/** What the task listing shows for a task: the resource and ETA of its
    most recent assignment. */
module Lookup {
  import opened Records
  import opened Ledger
  import opened Scoring
  import opened Engine

  /** The row for `taskId` with the highest id, if there is one. */
  function LatestAssignment(assignments: seq<Assignment>, taskId: int): (latest: Option<Assignment>)
    ensures latest.Some? ==> latest.value in assignments && latest.value.taskId == taskId
    ensures latest.Some? ==> forall k :: 0 <= k < |assignments| && assignments[k].taskId == taskId ==>
      assignments[k].id <= latest.value.id
    ensures latest.None? <==> forall k :: 0 <= k < |assignments| ==> assignments[k].taskId != taskId
  {
    if assignments == [] then None
    else
      var last := assignments[|assignments| - 1];
      var earlier := LatestAssignment(assignments[..|assignments| - 1], taskId);
      if last.taskId == taskId && (earlier.None? || last.id >= earlier.value.id) then Some(last) else earlier
  }

  /** The resource with id `id`, if the store has one. */
  function ResourceById(resources: seq<Resource>, id: int): (found: Option<Resource>)
    ensures found.Some? ==> found.value in resources && found.value.id == id
    ensures found.None? <==> forall k :: 0 <= k < |resources| ==> resources[k].id != id
  {
    if resources == [] then None
    else if resources[0].id == id then Some(resources[0])
    else ResourceById(resources[1..], id)
  }

  /** One line of the task listing. */
  datatype TaskRow = TaskRow(id: int, title: string, urgency: int, status: Status, resource: Option<string>, eta: Option<int>)

  function ListRow(resources: seq<Resource>, assignments: seq<Assignment>, t: Task): (row: TaskRow)
    ensures row.id == t.id && row.title == t.title && row.urgency == t.urgency && row.status == t.status
    ensures row.eta.None? <==> forall k :: 0 <= k < |assignments| ==> assignments[k].taskId != t.id
    ensures row.eta.Some? ==>
      (exists a :: a in assignments && a.taskId == t.id && a.eta == row.eta.value &&
        forall k :: 0 <= k < |assignments| && assignments[k].taskId == t.id ==> assignments[k].id <= a.id)
    ensures row.resource.Some? ==>
      (row.eta.Some? && exists j :: 0 <= j < |resources| && resources[j].name == row.resource.value)
  {
    match LatestAssignment(assignments, t.id)
    case None => TaskRow(t.id, t.title, t.urgency, t.status, None, None)
    case Some(a) =>
      var name := match ResourceById(resources, a.resourceId)
        case None => None
        case Some(r) => Some(r.name);
      TaskRow(t.id, t.title, t.urgency, t.status, name, Some(a.eta))
  }

  /** A freshly committed row, which gets the next id, is the latest for its task. */
  lemma {:induction false} LatestAfterCommit(assignments: seq<Assignment>, a: Assignment)
    requires a.id == NextId(assignments)
    ensures LatestAssignment(assignments + [a], a.taskId) == Some(a)
  {
    assert (assignments + [a])[..|assignments|] == assignments;
  }

  /** Right after a pass step assigns task `i`, the listing shows that task
      as assigned, with the chosen resource's name and the ETA just computed. */
  lemma {:induction false} RowAfterStep(resources: seq<Resource>, dist: Metric, st: PassState, i: nat)
    requires i < |st.tasks| && DistinctResourceIds(resources)
    requires !Unserved(resources, st.assignments, st.tasks[i], dist)
    ensures var next := Step(resources, dist, st, i);
      var t := st.tasks[i];
      exists k: nat :: Chosen(resources, st.assignments, t, dist, k) &&
        ListRow(resources, next.assignments, next.tasks[i]) ==
          TaskRow(t.id, t.title, t.urgency, Assigned, Some(resources[k].name), Some(Eta(dist(t.pos, resources[k].pos))))
  {
    var next := Step(resources, dist, st, i);
    var t := st.tasks[i];
    BestChosen(resources, st.assignments, t, dist);
    var k := Best(resources, st.assignments, t, dist).value;
    var a := Assignment(NextId(st.assignments), t.id, resources[k].id, Eta(dist(t.pos, resources[k].pos)));
    assert next.assignments == st.assignments + [a];
    LatestAfterCommit(st.assignments, a);
    var found := ResourceById(resources, resources[k].id);
    assert found == Some(resources[k]) by {
      var r := found.value;
      var j :| 0 <= j < |resources| && resources[j] == r;
      assert j == k;
    }
  }
}
