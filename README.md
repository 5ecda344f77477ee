# UrbanTaskManager scheduler, in Dafny

UrbanTaskManager assigns pending field-work tasks to mobile teams. Each
team (a *resource*) has a position and an integer capacity. Each task has a
position and an urgency. This project models the assignment engine of its
backend. That engine is a greedy scheduling pass that:

- visits the pending tasks most urgent first;
- gives each task the feasible resource with the best weighted score;
- commits that assignment before it weighs the next task.

It also models the load counter the pass reads and the "latest assignment of a
task" lookup in the task listing.

Layout, one module per file:

- `records.dfy` (`Records`) holds the store's records: `Resource`, `Task` with
  status `Pending`/`Assigned`, `Assignment`, and the returned `Entry`. It also
  holds the distance type `Metric`, a parameter of every operation that needs a
  distance.
- `ledger.dfy` (`Ledger`) holds the load of a resource, the number of rows of a
  task, and the id the store gives a new assignment row.
- `scoring.dfy` (`Scoring`) holds:
  - feasibility and the score;
  - the resource scan as a specification (`ScanAmong`, `Best`);
  - what it means for a resource to be *chosen*;
  - the ETA.
- `ordering.dfy` (`Ordering`) holds the pending tasks and their stable sort by
  descending urgency.
- `engine.dfy` (`Engine`) holds:
  - one step of the pass (`Step`), a run over a visit order (`Run`) and the
    whole pass (`Pass`), all as functions;
  - the lemmas about them;
  - the inner loop as the method `PickResource`;
  - the class `Store` with the three tables as fields. Its method
    `GreedyScheduler` runs the outer loop in place and is proved equal to
    `Pass`.
- `lookup.dfy` (`Lookup`) holds the task listing's row: the latest assignment
  of a task and its resource's name.

Tasks are named by their position in the store's task table. Resources are
named by their position in the resource table. The pass visits the pending
tasks in the order the query returns them, which the model takes to be the
table order.

The ETA is `int(d/30*60) + 5` (app.py:110). Python's `int()` truncates
toward zero; the model follows it (`Scoring.Trunc`) and proves it equals
`floor(d/30*60) + 5` for d >= 0 (`Scoring.EtaOfDistance`).

## Model

| member | source | states |
|---|---|---|
| Ledger.Load | app.py:83-84 | The load of a resource counts its rows: at most the number of rows, and zero exactly when no row names the resource |
| Ledger.LoadAppend | app.py:111-114 | Appending a row raises the load of its own resource by one and leaves every other load unchanged |
| Ledger.TaskAssignments | app.py:131 | The number of rows naming a task: at most the number of rows, and zero exactly when no row names the task |
| Ledger.TaskAssignmentsAppend | app.py:111-114 | Appending a row adds exactly one row to the count of its own task |
| Ledger.TaskAssignmentsAppendOther | app.py:111-114 | Appending a row for another task leaves a task's row count unchanged |
| Ledger.LoadGrows | app.py:84 | Rows are only appended, so when one table is a prefix of another, no load in the first exceeds the load in the second |
| Ledger.NextId | app.py:42-43 | A new row's id is greater than every id in the table; it is 1 in an empty table, else one more than an id in the table |
| Scoring.Feasible | app.py:97-99 | A resource may be chosen only while its load is below its capacity |
| Scoring.Score | app.py:102 | The weighted score 0.6*(urgency/10) - 0.3*(d/20) - 0.1*(load/capacity), defined only for a non-zero capacity |
| Scoring.ScanAmong | app.py:92-107 | The scan over the first n resources in store order, as the loop's locals `best`, `best_score`, `best_dist` after n iterations: a full resource is skipped, a strictly greater score replaces the best; the kept index is below n |
| Scoring.Best | app.py:92-107 | The resource index the whole scan keeps, if any, always an index of the resource table |
| Scoring.ScanChoosesBest | app.py:92-107 | The scan over the first n resources keeps the first feasible resource with the greatest score, but only one above -999. It records that resource's score and distance. When it keeps none, no feasible resource beats the sentinel and the score is still -999 |
| Scoring.BestChosen | app.py:92-107 | The task gets a resource that is chosen (feasible, maximal score, earliest among equals, above the sentinel), and gets none exactly when no feasible resource beats the sentinel |
| Scoring.ChosenUnique | app.py:104-107 | At most one resource is chosen for a task, and a task with a chosen resource is not unserved |
| Scoring.ChosenHasRoom | app.py:97-102 | A chosen resource's load is below its capacity, so its capacity is positive and the score never divides by zero |
| Scoring.CloserScoresHigher | app.py:102 | All else fixed, a closer resource scores strictly higher |
| Scoring.UrgencyScoresHigher | app.py:102 | All else fixed, a more urgent task scores strictly higher |
| Scoring.Trunc | app.py:110 | Python's int() on a float: the integer next to x toward zero, which is the floor for non-negative x |
| Scoring.Eta | app.py:110 | The ETA int(d/30*60) + 5, with Python's truncation written out by Trunc |
| Scoring.EtaOfDistance | app.py:110 | For a distance d >= 0 the ETA is floor(d/30*60) + 5, hence at least 5 minutes |
| Scoring.EtaMonotone | app.py:110 | The ETA never decreases as the distance grows |
| Ordering.PendingIndices | app.py:87 | Exactly the pending tasks, each once, in table order |
| Ordering.InsertByUrgency | app.py:91 | Insertion adds exactly the inserted task to the sequence |
| Ordering.SortByUrgency | app.py:91 | The sort is a permutation of its input |
| Ordering.InsertKeepsUrgencyOrder | app.py:91 | Inserting into a sequence ordered by non-increasing urgency keeps it ordered |
| Ordering.InsertKeepsStrictOrder | app.py:91 | Inserting a task placed before all others in the table keeps the (urgency descending, table position) order |
| Ordering.SortOrders | app.py:91 | The sort orders by non-increasing urgency. On an increasing input it is stable: equal urgencies keep table order |
| Ordering.VisitOrder | app.py:87-91 | The visit order holds each pending task once and no other task. It is by descending urgency, ties in table order |
| Engine.Step | app.py:109-116 | One task's step: when the scan keeps a resource, the task turns assigned, a row with the next id, the task, the resource and the ETA is appended, and an entry is returned; the task table keeps its length |
| Engine.Run | app.py:91-116 | The tasks at the positions of a visit order handled one after the other, each step seeing the rows of the earlier ones; the task table keeps its length |
| Engine.Pass | app.py:86-118 | A whole pass: a run over the visit order of the pending tasks, starting with an empty result list |
| Engine.StepCommitsChosen | app.py:109-116 | An unserved task changes nothing. Otherwise the task gets exactly one new row for its chosen resource, with the next id and the ETA for that distance. The task turns assigned, and one entry with its title, the resource's name and the ETA is returned |
| Engine.RunAppendsOnly | app.py:91-116 | A run only appends rows and entries, one entry per row, and leaves every task outside the visit order alone. Every other task is either unchanged or the same task marked assigned |
| Engine.RunRowsReferToStore | app.py:109-113 | Every row a run adds names a resource of the store and a task it visited; its ETA is at least 5 when distances are not negative |
| Engine.RunKeepsCapacity | app.py:96-114 | With distinct resource ids, no run takes a resource's load past the larger of its capacity and its starting load |
| Engine.RunAssignsOnce | app.py:87-114 | Given distinct task ids and a visit order of distinct pending tasks, each task gains one row if it turned assigned and none otherwise |
| Engine.RunRowsInVisitOrder | app.py:91-114 | The rows a run adds belong to visited tasks at strictly increasing positions of the visit order |
| Engine.RunRowsFollowOrder | app.py:91-114 | When a run visits tasks in (urgency descending, table position) order, its new rows come in that order |
| Engine.StepKeepsEntriesMatched | app.py:109-116 | One step keeps each returned entry matched with the row added at the same position |
| Engine.RunEntriesMatchRows | app.py:91-116 | Each entry a run returns has the ETA of the row added at its position, the title of that row's task and the name of its resource |
| Engine.PassAppendsOnly | app.py:86-118 | A pass appends exactly as many rows as entries it returns and changes no task except pending ones it marks assigned; no load decreases |
| Engine.PassIdleWithoutPending | app.py:87-91 | With no pending task, a pass returns an empty list and changes nothing |
| Engine.PassKeepsCapacity | app.py:96-114 | Capacity invariant: with distinct resource ids, a resource within its capacity before a pass is within it after |
| Engine.PassAssignsOnce | app.py:87-114 | With distinct task ids, a task gains one row exactly when the pass turns it from pending to assigned; a task already assigned gains none |
| Engine.PassRowsReferToStore | app.py:109-113 | Each new row names a resource of the store and a task that was pending; its ETA is at least 5 when distances are not negative |
| Engine.PassEntriesMatchRows | app.py:109-118 | The m-th returned entry stands for the m-th new row: same ETA, the task's title and the resource's name |
| Engine.PassFollowsVisitOrder | app.py:91-114 | Urgency precedence: of two new rows, the earlier belongs to a task more urgent than the later one's, or as urgent and earlier in the table |
| Engine.PickResource | app.py:92-107 | The inner loop returns the chosen resource and its distance, and no resource exactly when the task is unserved |
| Engine.Store.Visit | app.py:92-116 | Handling one task in place leaves the store and the returned list as one step of the specification makes them |
| Engine.Store.GreedyScheduler | app.py:86-118 | The pass leaves the store and returns the list exactly as the specification Pass does. Resources are unchanged, rows are appended one per entry, and with distinct resource ids the capacity invariant holds |
| Lookup.LatestAssignment | app.py:131 | The task's row with the highest id, and none exactly when the task has no row |
| Lookup.ResourceById | app.py:135-136 | A resource with the given id, and none exactly when no resource has it |
| Lookup.ListRow | app.py:130-146 | The listing row carries the task's fields. Its ETA is the latest row's ETA, or none exactly when the task has no row. A resource name is shown only with an ETA and is the name of a resource of the store |
| Lookup.LatestAfterCommit | app.py:111-114 | A row committed with the next id is the latest row of its task |
| Lookup.RowAfterStep | app.py:109-137 | Right after a step assigns a task, the listing shows it assigned with the chosen resource's name and the ETA just computed |

## Left out

- Flask routes, CORS, request parsing and JSON responses (app.py:5-18, 122-128, 147-189) are HTTP plumbing. The row logic of `list_tasks` (app.py:130-146) is modelled in `Lookup`; the scheduler call inside `add_task` is the same pass.
- SQLAlchemy sessions and commits are modelled only by their effect. That effect is appending a row and updating a status in the store's sequences.
- `init_db` and `seed_data` are bootstrap I/O and are not modelled.
- Creation timestamps depend on the clock and are not modelled.
- The body of `haversine` (trigonometry on floats) is not modelled. The distance is a parameter `dist`. Non-negativity is assumed only where it matters (ETA at least 5, ETA monotone).
- Floating-point rounding is not modelled. Scores and distances are exact `real` values.
- `list_resources` is not part of this model. It only reports `Load` for each resource.
- Concurrent passes are not modelled. The model is one sequential pass.
- `best_dist` starts as `None` in the source and as `0.0` in the model. It is only read once a resource is chosen, so the value never matters.
- Engine.RunKeepsCapacity: needs distinct resource ids (a primary key in the store). Otherwise two resources would share one load.
- Engine.PassKeepsCapacity: needs distinct resource ids, for the same reason.
- Engine.Store.GreedyScheduler: states the capacity invariant only under distinct resource ids, for the same reason.
- Engine.RunAssignsOnce: needs distinct task ids (a primary key), so that a row counts for one task only.
- Engine.PassAssignsOnce: needs distinct task ids, for the same reason.
- Lookup.ListRow: does not state that the resource name is absent exactly when no resource has the latest row's resource id. It states only that a shown name belongs to a resource of the store.
- Ledger.NextId: the id of a new row follows SQLite's rowid rule (largest id plus one, 1 in an empty table). app.py:42-43 only declares an integer primary key, so this is an assumption about the store.
- The pending tasks are visited in table order before sorting. The query has no ORDER BY, so this is an assumption about the store.
