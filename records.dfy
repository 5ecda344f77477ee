/** The rows of the three tables the scheduler reads and writes, as values. */
module Records {

  datatype Option<+T> = None | Some(value: T)

  /** A point on the map, in signed degrees. */
  datatype Coord = Coord(lat: real, lon: real)

  /** A field team. `capacity` is the number of assignments it may hold. */
  datatype Resource = Resource(id: int, name: string, kind: string, pos: Coord, capacity: int)

  /** The two statuses the application ever writes: new tasks are pending,
      and the scheduler turns them into assigned ones. */
  datatype Status = Pending | Assigned

  datatype Task = Task(id: int, title: string, description: string, pos: Coord, urgency: int, status: Status)

  /** One dispatch of a resource to a task, with its arrival estimate in minutes. */
  datatype Assignment = Assignment(id: int, taskId: int, resourceId: int, eta: int)

  /** One entry of the list a scheduling pass returns. */
  datatype Entry = Entry(task: string, resource: string, eta: int)

  /** The great-circle distance in kilometres between two points; the model
      takes it as a parameter rather than computing the haversine formula. */
  type Metric = (Coord, Coord) -> real

  ghost predicate NonNegative(dist: Metric) {
    forall a, b :: dist(a, b) >= 0.0
  }

  /** Primary keys: no two resources share an id. */
  predicate DistinctResourceIds(resources: seq<Resource>) {
    forall j, k :: 0 <= j < k < |resources| ==> resources[j].id != resources[k].id
  }

  /** Primary keys: no two tasks share an id. */
  predicate DistinctTaskIds(tasks: seq<Task>) {
    forall j, k :: 0 <= j < k < |tasks| ==> tasks[j].id != tasks[k].id
  }
}
