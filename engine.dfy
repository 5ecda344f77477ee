/** One scheduling pass: each pending task, most urgent first, gets the best
    feasible resource, and each assignment is committed before the next task
    is weighed. */
module Engine {
  import opened Records
  import opened Ledger
  import opened Scoring
  import opened Ordering

  /** The part of the store a pass changes, with the list it returns. */
  datatype PassState = PassState(tasks: seq<Task>, assignments: seq<Assignment>, out: seq<Entry>)

  /** Handles the task at position `i`: commits its best resource, if it has one. */
  function Step(resources: seq<Resource>, dist: Metric, st: PassState, i: nat): (next: PassState)
    requires i < |st.tasks|
    ensures |next.tasks| == |st.tasks|
  {
    var t := st.tasks[i];
    match Best(resources, st.assignments, t, dist)
    case None => st
    case Some(k) =>
      var r := resources[k];
      var eta := Eta(dist(t.pos, r.pos));
      PassState(st.tasks[i := t.(status := Assigned)],
                st.assignments + [Assignment(NextId(st.assignments), t.id, r.id, eta)],
                st.out + [Entry(t.title, r.name, eta)])
  }

  /** A task nobody can serve leaves everything as it was; otherwise it gets
      exactly one new row naming it and its chosen resource, with the ETA for
      that resource's distance, it turns assigned, and one entry is returned. */
  lemma {:induction false} StepCommitsChosen(resources: seq<Resource>, dist: Metric, st: PassState, i: nat)
    requires i < |st.tasks|
    ensures var next := Step(resources, dist, st, i);
      && (Unserved(resources, st.assignments, st.tasks[i], dist) ==> next == st)
      && (!Unserved(resources, st.assignments, st.tasks[i], dist) ==>
        exists k: nat :: Chosen(resources, st.assignments, st.tasks[i], dist, k) &&
          var t, r := st.tasks[i], resources[k];
          var eta := Eta(dist(t.pos, r.pos));
          && next.assignments == st.assignments + [Assignment(NextId(st.assignments), t.id, r.id, eta)]
          && next.tasks == st.tasks[i := t.(status := Assigned)]
          && next.out == st.out + [Entry(t.title, r.name, eta)])
  {
    var t := st.tasks[i];
    BestChosen(resources, st.assignments, t, dist);
    var best := Best(resources, st.assignments, t, dist);
    if best.Some? {
      var k := best.value;
      var eta := Eta(dist(t.pos, resources[k].pos));
      assert Step(resources, dist, st, i) == PassState(st.tasks[i := t.(status := Assigned)],
        st.assignments + [Assignment(NextId(st.assignments), t.id, resources[k].id, eta)],
        st.out + [Entry(t.title, resources[k].name, eta)]);
    }
  }

  /** Handles the tasks at the positions in `order`, one after the other. */
  function Run(resources: seq<Resource>, dist: Metric, st: PassState, order: seq<nat>): (last: PassState)
    requires InRange(st.tasks, order)
    ensures |last.tasks| == |st.tasks|
  {
    if order == [] then st
    else
      var prev := Run(resources, dist, st, order[..|order| - 1]);
      Step(resources, dist, prev, order[|order| - 1])
  }

  /** A whole pass over the store, starting from an empty result list. */
  function Pass(resources: seq<Resource>, tasks: seq<Task>, assignments: seq<Assignment>, dist: Metric): PassState {
    Run(resources, dist, PassState(tasks, assignments, []), VisitOrder(tasks))
  }

  /** Whether an assignment row refers to a resource of the store and to a task visited by the run. */
  ghost predicate RefersToVisited(resources: seq<Resource>, tasks: seq<Task>, order: seq<nat>, a: Assignment) {
    && (exists j :: 0 <= j < |resources| && resources[j].id == a.resourceId)
    && (exists k :: 0 <= k < |order| && order[k] < |tasks| && tasks[order[k]].id == a.taskId)
  }

  /** A run only appends rows and entries, one entry per row, and only
      marks visited tasks as assigned. */
  lemma {:induction false} RunAppendsOnly(resources: seq<Resource>, dist: Metric, st: PassState, order: seq<nat>)
    requires InRange(st.tasks, order)
    ensures var last := Run(resources, dist, st, order);
      && st.assignments <= last.assignments
      && st.out <= last.out
      && |last.assignments| - |st.assignments| == |last.out| - |st.out|
      && (forall j :: 0 <= j < |st.tasks| && j !in order ==> last.tasks[j] == st.tasks[j])
      && (forall j :: 0 <= j < |st.tasks| ==>
            last.tasks[j] == st.tasks[j] || last.tasks[j] == st.tasks[j].(status := Assigned))
  {
    if order != [] {
      var init := order[..|order| - 1];
      RunAppendsOnly(resources, dist, st, init);
    }
  }

  /** Every row a run adds names a resource of the store and a task it
      visited, with an ETA of at least 5 minutes when distances are not negative. */
  lemma {:induction false} RunRowsReferToStore(resources: seq<Resource>, dist: Metric, st: PassState, order: seq<nat>)
    requires InRange(st.tasks, order)
    ensures var last := Run(resources, dist, st, order);
      && |st.assignments| <= |last.assignments|
      && (forall m :: |st.assignments| <= m < |last.assignments| ==>
            RefersToVisited(resources, st.tasks, order, last.assignments[m]))
      && (NonNegative(dist) ==> forall m :: |st.assignments| <= m < |last.assignments| ==> last.assignments[m].eta >= 5)
  {
    if order != [] {
      var init := order[..|order| - 1];
      var prev := Run(resources, dist, st, init);
      var i := order[|order| - 1];
      RunRowsReferToStore(resources, dist, st, init);
      RunAppendsOnly(resources, dist, st, init);
      var last := Step(resources, dist, prev, i);
      forall m | |st.assignments| <= m < |last.assignments|
        ensures RefersToVisited(resources, st.tasks, order, last.assignments[m])
        ensures NonNegative(dist) ==> last.assignments[m].eta >= 5
      {
        if m < |prev.assignments| {
          assert last.assignments[m] == prev.assignments[m];
          var a := prev.assignments[m];
          var k :| 0 <= k < |init| && init[k] < |st.tasks| && st.tasks[init[k]].id == a.taskId;
          assert order[k] == init[k];
        } else {
          var t := prev.tasks[i];
          var k := Best(resources, prev.assignments, t, dist).value;
          assert last.assignments[m] == Assignment(NextId(prev.assignments), t.id, resources[k].id, Eta(dist(t.pos, resources[k].pos)));
          assert t.id == st.tasks[order[|order| - 1]].id;
          if NonNegative(dist) {
            EtaOfDistance(dist(t.pos, resources[k].pos));
          }
        }
      }
    }
  }

  function Max(a: int, b: int): int {
    if a < b then b else a
  }

  /** Capacity invariant: a run never takes a resource past its capacity,
      or past the load it started with if that was already higher. */
  lemma {:induction false} RunKeepsCapacity(resources: seq<Resource>, dist: Metric, st: PassState, order: seq<nat>)
    requires InRange(st.tasks, order) && DistinctResourceIds(resources)
    ensures var last := Run(resources, dist, st, order);
      forall j :: 0 <= j < |resources| ==>
        Load(last.assignments, resources[j].id) <= Max(Load(st.assignments, resources[j].id), resources[j].capacity)
  {
    if order != [] {
      var init := order[..|order| - 1];
      var prev := Run(resources, dist, st, init);
      var i := order[|order| - 1];
      RunKeepsCapacity(resources, dist, st, init);
      RunAppendsOnly(resources, dist, st, init);
      var last := Step(resources, dist, prev, i);
      var t := prev.tasks[i];
      var best := Best(resources, prev.assignments, t, dist);
      BestChosen(resources, prev.assignments, t, dist);
      forall j | 0 <= j < |resources|
        ensures Load(last.assignments, resources[j].id) <= Max(Load(st.assignments, resources[j].id), resources[j].capacity)
      {
        if best.Some? {
          var k := best.value;
          var a := Assignment(NextId(prev.assignments), t.id, resources[k].id, Eta(dist(t.pos, resources[k].pos)));
          assert last.assignments == prev.assignments + [a];
          LoadAppend(prev.assignments, a, resources[j].id);
          if j != k {
            assert resources[j].id != resources[k].id;
          }
        }
      }
    }
  }

  /** With distinct task ids, a run gives each task it marks assigned exactly
      one new row, and every other task none. */
  lemma {:induction false} RunAssignsOnce(resources: seq<Resource>, dist: Metric, st: PassState, order: seq<nat>)
    requires InRange(st.tasks, order) && DistinctTaskIds(st.tasks)
    requires forall a, b :: 0 <= a < b < |order| ==> order[a] != order[b]
    requires forall k :: 0 <= k < |order| ==> st.tasks[order[k]].status == Pending
    ensures var last := Run(resources, dist, st, order);
      forall j :: 0 <= j < |st.tasks| ==>
        TaskAssignments(last.assignments, st.tasks[j].id) ==
          TaskAssignments(st.assignments, st.tasks[j].id) + (if last.tasks[j] != st.tasks[j] then 1 else 0)
  {
    if order != [] {
      var init := order[..|order| - 1];
      var prev := Run(resources, dist, st, init);
      var i := order[|order| - 1];
      RunAssignsOnce(resources, dist, st, init);
      RunAppendsOnly(resources, dist, st, init);
      assert i !in init;
      assert prev.tasks[i] == st.tasks[i];
      var last := Step(resources, dist, prev, i);
      var t := prev.tasks[i];
      var best := Best(resources, prev.assignments, t, dist);
      if best.Some? {
        var k := best.value;
        var a := Assignment(NextId(prev.assignments), t.id, resources[k].id, Eta(dist(t.pos, resources[k].pos)));
        assert last.assignments == prev.assignments + [a];
        forall j | 0 <= j < |st.tasks|
          ensures TaskAssignments(last.assignments, st.tasks[j].id) ==
            TaskAssignments(st.assignments, st.tasks[j].id) + (if last.tasks[j] != st.tasks[j] then 1 else 0)
        {
          if j == i {
            TaskAssignmentsAppend(prev.assignments, a);
          } else {
            assert st.tasks[j].id != t.id;
            TaskAssignmentsAppendOther(prev.assignments, a, st.tasks[j].id);
          }
        }
      }
    }
  }

  /** Running one more position of `order` is one more step. */
  lemma {:induction false} RunExtend(resources: seq<Resource>, dist: Metric, st: PassState, order: seq<nat>, n: nat)
    requires InRange(st.tasks, order) && n < |order|
    ensures InRange(st.tasks, order[..n]) && |Run(resources, dist, st, order[..n]).tasks| == |st.tasks|
    ensures Run(resources, dist, st, order[..n + 1]) == Step(resources, dist, Run(resources, dist, st, order[..n]), order[n])
  {
    assert order[..n + 1][..n] == order[..n];
  }

  /** The rows a run adds follow the order it visits tasks in: the m-th new
      row belongs to the task at `order[ks[m]]`, and `ks` increases. */
  lemma {:induction false} RunRowsInVisitOrder(resources: seq<Resource>, dist: Metric, st: PassState, order: seq<nat>)
    returns (ks: seq<nat>)
    requires InRange(st.tasks, order)
    ensures var last := Run(resources, dist, st, order);
      && |last.assignments| == |st.assignments| + |ks|
      && Increasing(ks)
      && forall m :: 0 <= m < |ks| ==>
        ks[m] < |order| && st.tasks[order[ks[m]]].id == last.assignments[|st.assignments| + m].taskId
  {
    if order == [] {
      ks := [];
    } else {
      var init := order[..|order| - 1];
      var prev := Run(resources, dist, st, init);
      var i := order[|order| - 1];
      ks := RunRowsInVisitOrder(resources, dist, st, init);
      RunAppendsOnly(resources, dist, st, init);
      var t := prev.tasks[i];
      var best := Best(resources, prev.assignments, t, dist);
      if best.Some? {
        var k := best.value;
        var row := Assignment(NextId(prev.assignments), t.id, resources[k].id, Eta(dist(t.pos, resources[k].pos)));
        var rows := prev.assignments + [row];
        assert Step(resources, dist, prev, i).assignments == rows;
        assert t.id == st.tasks[order[|order| - 1]].id;
        var ks0 := ks;
        ks := ks + [|order| - 1];
        forall m | 0 <= m < |ks|
          ensures ks[m] < |order| && st.tasks[order[ks[m]]].id == rows[|st.assignments| + m].taskId
        {
          if m < |ks0| {
            assert order[ks[m]] == init[ks0[m]];
          }
        }
      }
    }
  }

  /** An entry of the returned list stands for an assignment row: same ETA,
      the title of the row's task and the name of the row's resource. */
  ghost predicate EntryStandsFor(resources: seq<Resource>, tasks: seq<Task>, entry: Entry, row: Assignment) {
    && entry.eta == row.eta
    && (exists j :: 0 <= j < |tasks| && tasks[j].id == row.taskId && tasks[j].title == entry.task)
    && (exists j :: 0 <= j < |resources| && resources[j].id == row.resourceId && resources[j].name == entry.resource)
  }

  /** Since `st`, `last` has appended as many entries as rows, and each new
      entry stands for the new row at the same position. */
  ghost predicate EntriesMatchRows(resources: seq<Resource>, tasks: seq<Task>, st: PassState, last: PassState) {
    && st.out <= last.out && st.assignments <= last.assignments
    && |last.out| - |st.out| == |last.assignments| - |st.assignments|
    && forall m :: 0 <= m < |last.out| - |st.out| ==>
      EntryStandsFor(resources, tasks, last.out[|st.out|..][m], last.assignments[|st.assignments|..][m])
  }

  lemma {:induction false} StepKeepsEntriesMatched(resources: seq<Resource>, dist: Metric, tasks: seq<Task>, st: PassState, prev: PassState, i: nat)
    requires EntriesMatchRows(resources, tasks, st, prev)
    requires i < |prev.tasks| && i < |tasks|
    requires prev.tasks[i].id == tasks[i].id && prev.tasks[i].title == tasks[i].title
    ensures EntriesMatchRows(resources, tasks, st, Step(resources, dist, prev, i))
  {
    var t := prev.tasks[i];
    var best := Best(resources, prev.assignments, t, dist);
    if best.Some? {
      var k := best.value;
      var eta := Eta(dist(t.pos, resources[k].pos));
      var row := Assignment(NextId(prev.assignments), t.id, resources[k].id, eta);
      var entry := Entry(t.title, resources[k].name, eta);
      var last := PassState(prev.tasks[i := t.(status := Assigned)], prev.assignments + [row], prev.out + [entry]);
      assert Step(resources, dist, prev, i) == last;
      assert tasks[i].id == row.taskId && tasks[i].title == entry.task;
      assert resources[k].id == row.resourceId && resources[k].name == entry.resource;
      AppendKeepsEntriesMatched(resources, tasks, st, prev, last, entry, row);
    }
  }

  /** Appending an entry and the row it stands for keeps entries and rows matched. */
  lemma {:induction false} AppendKeepsEntriesMatched(resources: seq<Resource>, tasks: seq<Task>, st: PassState, prev: PassState, last: PassState,
                                                     entry: Entry, row: Assignment)
    requires EntriesMatchRows(resources, tasks, st, prev) && EntryStandsFor(resources, tasks, entry, row)
    requires last.out == prev.out + [entry] && last.assignments == prev.assignments + [row]
    ensures EntriesMatchRows(resources, tasks, st, last)
  {
    var outs, rows := last.out[|st.out|..], last.assignments[|st.assignments|..];
    assert outs == prev.out[|st.out|..] + [entry];
    assert rows == prev.assignments[|st.assignments|..] + [row];
    forall m | 0 <= m < |outs|
      ensures EntryStandsFor(resources, tasks, outs[m], rows[m])
    {
      if m < |outs| - 1 {
        assert outs[m] == prev.out[|st.out|..][m] && rows[m] == prev.assignments[|st.assignments|..][m];
      }
    }
  }

  /** Every entry a run returns stands for the row it added at the same position. */
  lemma {:induction false} RunEntriesMatchRows(resources: seq<Resource>, dist: Metric, st: PassState, order: seq<nat>)
    requires InRange(st.tasks, order)
    ensures EntriesMatchRows(resources, st.tasks, st, Run(resources, dist, st, order))
  {
    if order != [] {
      var init := order[..|order| - 1];
      var i := order[|order| - 1];
      RunEntriesMatchRows(resources, dist, st, init);
      RunAppendsOnly(resources, dist, st, init);
      StepKeepsEntriesMatched(resources, dist, st.tasks, st, Run(resources, dist, st, init), i);
    }
  }

  /** A pass only appends rows, one per entry it returns; it leaves every
      task alone except pending ones it marks assigned; no load goes down. */
  lemma {:induction false} PassAppendsOnly(resources: seq<Resource>, tasks: seq<Task>, assignments: seq<Assignment>, dist: Metric)
    ensures var p := Pass(resources, tasks, assignments, dist);
      && assignments <= p.assignments
      && |p.assignments| == |assignments| + |p.out|
      && |p.tasks| == |tasks|
      && (forall j :: 0 <= j < |tasks| ==>
            p.tasks[j] == tasks[j] || (tasks[j].status == Pending && p.tasks[j] == tasks[j].(status := Assigned)))
      && (forall id :: Load(assignments, id) <= Load(p.assignments, id))
  {
    var p := Pass(resources, tasks, assignments, dist);
    RunAppendsOnly(resources, dist, PassState(tasks, assignments, []), VisitOrder(tasks));
    forall id ensures Load(assignments, id) <= Load(p.assignments, id) {
      LoadGrows(assignments, p.assignments, id);
    }
  }

  /** A pass with no pending task returns nothing and changes nothing. */
  lemma {:induction false} PassIdleWithoutPending(resources: seq<Resource>, tasks: seq<Task>, assignments: seq<Assignment>, dist: Metric)
    requires forall j :: 0 <= j < |tasks| ==> tasks[j].status != Pending
    ensures Pass(resources, tasks, assignments, dist) == PassState(tasks, assignments, [])
  {
  }

  /** Capacity invariant over a pass: a resource within its capacity stays within it. */
  lemma {:induction false} PassKeepsCapacity(resources: seq<Resource>, tasks: seq<Task>, assignments: seq<Assignment>, dist: Metric)
    requires DistinctResourceIds(resources)
    ensures var p := Pass(resources, tasks, assignments, dist);
      forall j :: 0 <= j < |resources| && Load(assignments, resources[j].id) <= resources[j].capacity ==>
        Load(p.assignments, resources[j].id) <= resources[j].capacity
  {
    RunKeepsCapacity(resources, dist, PassState(tasks, assignments, []), VisitOrder(tasks));
  }

  /** With distinct task ids, a pass gives each task it marks assigned exactly
      one new row and no other task any, so a task assigned before the pass
      is never assigned again. */
  lemma {:induction false} PassAssignsOnce(resources: seq<Resource>, tasks: seq<Task>, assignments: seq<Assignment>, dist: Metric)
    requires DistinctTaskIds(tasks)
    ensures var p := Pass(resources, tasks, assignments, dist);
      && |p.tasks| == |tasks|
      && forall j :: 0 <= j < |tasks| ==>
        TaskAssignments(p.assignments, tasks[j].id) ==
          TaskAssignments(assignments, tasks[j].id) + (if tasks[j].status == Pending && p.tasks[j].status == Assigned then 1 else 0)
  {
    var order := VisitOrder(tasks);
    var st := PassState(tasks, assignments, []);
    RunAppendsOnly(resources, dist, st, order);
    RunAssignsOnce(resources, dist, st, order);
  }

  /** Every row a pass adds names a resource of the store and a task that was
      pending, and its ETA is at least 5 minutes when distances are not negative. */
  lemma {:induction false} PassRowsReferToStore(resources: seq<Resource>, tasks: seq<Task>, assignments: seq<Assignment>, dist: Metric)
    ensures var p := Pass(resources, tasks, assignments, dist);
      && |assignments| <= |p.assignments|
      && forall m :: |assignments| <= m < |p.assignments| ==>
        && (exists j :: 0 <= j < |resources| && resources[j].id == p.assignments[m].resourceId)
        && (exists j :: 0 <= j < |tasks| && tasks[j].status == Pending && tasks[j].id == p.assignments[m].taskId)
        && (NonNegative(dist) ==> p.assignments[m].eta >= 5)
  {
    var order := VisitOrder(tasks);
    var p := Pass(resources, tasks, assignments, dist);
    RunRowsReferToStore(resources, dist, PassState(tasks, assignments, []), order);
    forall m | |assignments| <= m < |p.assignments|
      ensures exists j :: 0 <= j < |tasks| && tasks[j].status == Pending && tasks[j].id == p.assignments[m].taskId
    {
      var k :| 0 <= k < |order| && order[k] < |tasks| && tasks[order[k]].id == p.assignments[m].taskId;
      assert order[k] in order;
    }
  }

  /** Each entry a pass returns stands for the row added at the same
      position: same ETA, that row's task title and resource name. */
  lemma {:induction false} PassEntriesMatchRows(resources: seq<Resource>, tasks: seq<Task>, assignments: seq<Assignment>, dist: Metric)
    ensures var p := Pass(resources, tasks, assignments, dist);
      && assignments <= p.assignments
      && |p.assignments| == |assignments| + |p.out|
      && forall m :: 0 <= m < |p.out| ==>
        EntryStandsFor(resources, tasks, p.out[m], p.assignments[|assignments|..][m])
  {
    var st := PassState(tasks, assignments, []);
    RunEntriesMatchRows(resources, dist, st, VisitOrder(tasks));
    assert Pass(resources, tasks, assignments, dist).out[0..] == Pass(resources, tasks, assignments, dist).out;
  }

  /** Row `a` belongs to a task that precedes the task of row `b` in visit order. */
  ghost predicate RowPrecedes(tasks: seq<Task>, a: Assignment, b: Assignment) {
    exists j1: nat, j2: nat :: Precedes(tasks, j1, j2) && tasks[j1].id == a.taskId && tasks[j2].id == b.taskId
  }

  /** The rows a run adds, when it visits tasks in a strict order, come in that order. */
  lemma {:induction false} RunRowsFollowOrder(resources: seq<Resource>, dist: Metric, st: PassState, order: seq<nat>)
    requires InRange(st.tasks, order) && StrictlyOrdered(st.tasks, order)
    ensures var rows := Run(resources, dist, st, order).assignments;
      forall m1, m2 :: |st.assignments| <= m1 < m2 < |rows| ==> RowPrecedes(st.tasks, rows[m1], rows[m2])
  {
    var ks := RunRowsInVisitOrder(resources, dist, st, order);
    RowsFollowPositions(st.tasks, order, ks, Run(resources, dist, st, order).assignments, |st.assignments|);
  }

  /** Rows `base..` stand for the tasks at increasing positions `ks` of a
      strictly ordered visit order, so they come in that order. */
  lemma {:induction false} RowsFollowPositions(tasks: seq<Task>, order: seq<nat>, ks: seq<nat>, rows: seq<Assignment>, base: nat)
    requires InRange(tasks, order) && StrictlyOrdered(tasks, order) && Increasing(ks) && |rows| == base + |ks|
    requires forall m :: 0 <= m < |ks| ==> ks[m] < |order| && tasks[order[ks[m]]].id == rows[base + m].taskId
    ensures forall m1, m2 :: base <= m1 < m2 < |rows| ==> RowPrecedes(tasks, rows[m1], rows[m2])
  {
    forall m1, m2 | base <= m1 < m2 < |rows|
      ensures RowPrecedes(tasks, rows[m1], rows[m2])
    {
      var a, b := m1 - base, m2 - base;
      assert base + a == m1 && base + b == m2;
      PrecedesWitness(tasks, order[ks[a]], order[ks[b]], rows[m1], rows[m2]);
    }
  }

  lemma {:induction false} PrecedesWitness(tasks: seq<Task>, j1: nat, j2: nat, a: Assignment, b: Assignment)
    requires Precedes(tasks, j1, j2) && tasks[j1].id == a.taskId && tasks[j2].id == b.taskId
    ensures RowPrecedes(tasks, a, b)
  {
  }

  /** Urgency precedence: of two rows a pass adds, the earlier belongs to a
      task that precedes the later one's: more urgent, or as urgent and
      earlier in the store. */
  lemma {:induction false} PassFollowsVisitOrder(resources: seq<Resource>, tasks: seq<Task>, assignments: seq<Assignment>, dist: Metric)
    ensures var rows := Pass(resources, tasks, assignments, dist).assignments;
      forall m1, m2 :: |assignments| <= m1 < m2 < |rows| ==> RowPrecedes(tasks, rows[m1], rows[m2])
  {
    var st := PassState(tasks, assignments, []);
    var order := VisitOrder(tasks);
    assert Pass(resources, tasks, assignments, dist) == Run(resources, dist, st, order);
    RunRowsFollowOrder(resources, dist, st, order);
  }

  /** The scan over the resources for one task: skips full resources and keeps
      the first one with the strictly greatest score above the sentinel. */
  method PickResource(resources: seq<Resource>, assignments: seq<Assignment>, t: Task, dist: Metric)
    returns (best: Option<nat>, bestDist: real)
    ensures best == Best(resources, assignments, t, dist)
    ensures best.Some? ==> Chosen(resources, assignments, t, dist, best.value)
    ensures best.Some? ==> bestDist == dist(t.pos, resources[best.value].pos)
    ensures best.None? <==> Unserved(resources, assignments, t, dist)
  {
    best := None;
    var bestScore := SENTINEL;
    bestDist := 0.0;
    for j := 0 to |resources|
      invariant ScanState(best, bestScore, bestDist) == ScanAmong(resources, assignments, t, dist, j)
    {
      var r := resources[j];
      var load := Load(assignments, r.id);
      if load >= r.capacity {
        continue;
      }
      var d := dist(t.pos, r.pos);
      var score := Score(t.urgency, d, load, r.capacity);
      if score > bestScore {
        best, bestScore, bestDist := Some(j), score, d;
      }
    }
    ScanChoosesBest(resources, assignments, t, dist, |resources|);
    BestChosen(resources, assignments, t, dist);
  }

  /** The three tables the scheduler works on, as the database holds them. */
  class Store {
    var resources: seq<Resource>
    var tasks: seq<Task>
    var assignments: seq<Assignment>

    constructor (resources: seq<Resource>, tasks: seq<Task>, assignments: seq<Assignment>)
      ensures this.resources == resources && this.tasks == tasks && this.assignments == assignments
    {
      this.resources := resources;
      this.tasks := tasks;
      this.assignments := assignments;
    }

    /** Handles one pending task: picks its resource, then marks the task
        assigned and records the row and the entry, before the next task. */
    method Visit(dist: Metric, i: nat, out0: seq<Entry>) returns (out: seq<Entry>)
      requires i < |tasks|
      modifies this
      ensures resources == old(resources)
      ensures PassState(tasks, assignments, out) == Step(resources, dist, PassState(old(tasks), old(assignments), out0), i)
    {
      out := out0;
      var t := tasks[i];
      var best, bestDist := PickResource(resources, assignments, t, dist);
      if best.Some? {
        var r := resources[best.value];
        var eta := Eta(bestDist);
        tasks := tasks[i := t.(status := Assigned)];
        assignments := assignments + [Assignment(NextId(assignments), t.id, r.id, eta)];
        out := out + [Entry(t.title, r.name, eta)];
      }
    }

    /** One scheduling pass: visits the pending tasks most urgent first and
        commits each task's assignment before weighing the next task. */
    method GreedyScheduler(dist: Metric) returns (out: seq<Entry>)
      modifies this
      ensures resources == old(resources)
      ensures PassState(tasks, assignments, out) == Pass(resources, old(tasks), old(assignments), dist)
      ensures old(assignments) <= assignments && |assignments| == |old(assignments)| + |out|
      ensures DistinctResourceIds(resources) ==>
        forall j :: 0 <= j < |resources| && Load(old(assignments), resources[j].id) <= resources[j].capacity ==>
          Load(assignments, resources[j].id) <= resources[j].capacity
    {
      var order := VisitOrder(tasks);
      var res := resources;
      ghost var st0 := PassState(tasks, assignments, []);
      out := [];
      for n := 0 to |order|
        invariant resources == res
        invariant PassState(tasks, assignments, out) == Run(res, dist, st0, order[..n])
      {
        RunExtend(res, dist, st0, order, n);
        out := Visit(dist, order[n], out);
      }
      assert order[..|order|] == order;
      PassAppendsOnly(res, st0.tasks, st0.assignments, dist);
      if DistinctResourceIds(res) {
        PassKeepsCapacity(res, st0.tasks, st0.assignments, dist);
      }
    }
  }
}
