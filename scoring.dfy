/** How one task weighs the resources, and which one it gets. */
module Scoring {
  import opened Records
  import opened Ledger

  /** The initial best score; a resource must beat it to be chosen. */
  const SENTINEL: real := -999.0

  /** A resource can take another assignment while its load is below its
      capacity. A capacity of zero or less is never feasible. */
  predicate Feasible(r: Resource, assignments: seq<Assignment>) {
    Load(assignments, r.id) < r.capacity
  }

  /** The weighted score: urgency counts for, distance and relative load against. */
  function Score(urgency: int, d: real, load: nat, capacity: int): real
    requires capacity != 0
  {
    0.6 * (urgency as real / 10.0) - 0.3 * (d / 20.0) - 0.1 * (load as real / capacity as real)
  }

  /** The score of a feasible resource for a task, with its current load. */
  function CandidateScore(t: Task, r: Resource, assignments: seq<Assignment>, dist: Metric): real
    requires Feasible(r, assignments)
  {
    Score(t.urgency, dist(t.pos, r.pos), Load(assignments, r.id), r.capacity)
  }

  /** Resource `k` is the one the task gets among the first `n`: feasible,
      above the sentinel, no feasible resource scores higher and every
      earlier feasible resource scores strictly lower. */
  predicate ChosenAmong(resources: seq<Resource>, assignments: seq<Assignment>, t: Task, dist: Metric, n: nat, k: nat)
    requires n <= |resources|
  {
    && k < n
    && Feasible(resources[k], assignments)
    && CandidateScore(t, resources[k], assignments, dist) > SENTINEL
    && (forall j :: 0 <= j < n && Feasible(resources[j], assignments) ==>
          CandidateScore(t, resources[j], assignments, dist) <= CandidateScore(t, resources[k], assignments, dist))
    && (forall j :: 0 <= j < k && Feasible(resources[j], assignments) ==>
          CandidateScore(t, resources[j], assignments, dist) < CandidateScore(t, resources[k], assignments, dist))
  }

  /** No resource among the first `n` is feasible with a score above the sentinel. */
  predicate UnservedAmong(resources: seq<Resource>, assignments: seq<Assignment>, t: Task, dist: Metric, n: nat)
    requires n <= |resources|
  {
    forall j :: 0 <= j < n && Feasible(resources[j], assignments) ==>
      CandidateScore(t, resources[j], assignments, dist) <= SENTINEL
  }

  predicate Chosen(resources: seq<Resource>, assignments: seq<Assignment>, t: Task, dist: Metric, k: nat) {
    ChosenAmong(resources, assignments, t, dist, |resources|, k)
  }

  predicate Unserved(resources: seq<Resource>, assignments: seq<Assignment>, t: Task, dist: Metric) {
    UnservedAmong(resources, assignments, t, dist, |resources|)
  }

  /** What the scan over the resources holds: the best resource so far, its
      score (the sentinel while there is none) and its distance. */
  datatype ScanState = ScanState(best: Option<nat>, score: real, distance: real)

  /** The scan over the first `n` resources in store order: a full resource is
      skipped, and a later resource replaces the best so far only with a
      strictly greater score. */
  function ScanAmong(resources: seq<Resource>, assignments: seq<Assignment>, t: Task, dist: Metric, n: nat): (s: ScanState)
    requires n <= |resources|
    ensures s.best.Some? ==> s.best.value < n
  {
    if n == 0 then ScanState(None, SENTINEL, 0.0)
    else
      var s := ScanAmong(resources, assignments, t, dist, n - 1);
      var r := resources[n - 1];
      var load := Load(assignments, r.id);
      if load >= r.capacity then s
      else
        var d := dist(t.pos, r.pos);
        var score := Score(t.urgency, d, load, r.capacity);
        if score > s.score then ScanState(Some(n - 1), score, d) else s
  }

  /** The scan keeps the first resource with the greatest score among the
      feasible ones, provided it beats the sentinel, and nothing otherwise. */
  lemma {:induction false} ScanChoosesBest(resources: seq<Resource>, assignments: seq<Assignment>, t: Task, dist: Metric, n: nat)
    requires n <= |resources|
    ensures var s := ScanAmong(resources, assignments, t, dist, n);
      && (s.best.Some? ==> ChosenAmong(resources, assignments, t, dist, n, s.best.value))
      && (s.best.Some? ==> s.score == CandidateScore(t, resources[s.best.value], assignments, dist))
      && (s.best.Some? ==> s.distance == dist(t.pos, resources[s.best.value].pos))
      && (s.best.None? ==> UnservedAmong(resources, assignments, t, dist, n) && s.score == SENTINEL)
  {
    if n > 0 {
      ScanChoosesBest(resources, assignments, t, dist, n - 1);
    }
  }

  /** The resource a task gets, if any. */
  function Best(resources: seq<Resource>, assignments: seq<Assignment>, t: Task, dist: Metric): (best: Option<nat>)
    ensures best.Some? ==> best.value < |resources|
  {
    ScanAmong(resources, assignments, t, dist, |resources|).best
  }

  /** The task gets the chosen resource when there is one, and none exactly
      when no resource is feasible with a score above the sentinel. */
  lemma {:induction false} BestChosen(resources: seq<Resource>, assignments: seq<Assignment>, t: Task, dist: Metric)
    ensures var best := Best(resources, assignments, t, dist);
      && (best.Some? ==> Chosen(resources, assignments, t, dist, best.value))
      && (best.None? <==> Unserved(resources, assignments, t, dist))
  {
    ScanChoosesBest(resources, assignments, t, dist, |resources|);
    var best := Best(resources, assignments, t, dist);
    if best.Some? {
      ChosenUnique(resources, assignments, t, dist, best.value, best.value);
    }
  }

  /** The choice is determined: at most one resource is chosen, and a task
      with a chosen resource is not unserved. */
  lemma {:induction false} ChosenUnique(resources: seq<Resource>, assignments: seq<Assignment>, t: Task, dist: Metric, k1: nat, k2: nat)
    requires Chosen(resources, assignments, t, dist, k1)
    ensures Chosen(resources, assignments, t, dist, k2) <==> k1 == k2
    ensures !Unserved(resources, assignments, t, dist)
  {
  }

  /** A chosen resource has room, so its capacity is positive and the
      division by capacity in the score is never by zero. */
  lemma {:induction false} ChosenHasRoom(resources: seq<Resource>, assignments: seq<Assignment>, t: Task, dist: Metric, k: nat)
    requires Chosen(resources, assignments, t, dist, k)
    ensures Load(assignments, resources[k].id) < resources[k].capacity
    ensures resources[k].capacity > 0
  {
  }

  /** With urgency, load and capacity fixed, a closer resource scores strictly higher. */
  lemma {:induction false} CloserScoresHigher(urgency: int, d1: real, d2: real, load: nat, capacity: int)
    requires capacity != 0 && d1 < d2
    ensures Score(urgency, d1, load, capacity) > Score(urgency, d2, load, capacity)
  {
  }

  /** With distance, load and capacity fixed, a more urgent task scores strictly higher. */
  lemma {:induction false} UrgencyScoresHigher(u1: int, u2: int, d: real, load: nat, capacity: int)
    requires capacity != 0 && u1 < u2
    ensures Score(u1, d, load, capacity) < Score(u2, d, load, capacity)
  {
  }

  /** Python's int() on a float: truncation toward zero. */
  function Trunc(x: real): (n: int)
    ensures x >= 0.0 ==> 0 <= n && n as real <= x < n as real + 1.0
    ensures x < 0.0 ==> n <= 0 && x <= n as real && n as real - 1.0 < x
  {
    if x < 0.0 then -((-x).Floor) else x.Floor
  }

  /** Minutes to arrive over `d` km at 30 km/h, truncated, plus 5 minutes to dispatch. */
  function Eta(d: real): int {
    Trunc(d / 30.0 * 60.0) + 5
  }

  lemma {:induction false} EtaOfDistance(d: real)
    requires d >= 0.0
    ensures Eta(d) == (d / 30.0 * 60.0).Floor + 5
    ensures Eta(d) >= 5
  {
  }

  lemma {:induction false} EtaMonotone(d1: real, d2: real)
    requires 0.0 <= d1 <= d2
    ensures Eta(d1) <= Eta(d2)
  {
  }
}
