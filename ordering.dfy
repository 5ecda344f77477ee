/** Which tasks a pass visits, and in what order. Tasks are named by their
    position in the store's task sequence. */
module Ordering {
  import opened Records

  predicate InRange(tasks: seq<Task>, xs: seq<nat>) {
    forall k :: 0 <= k < |xs| ==> xs[k] < |tasks|
  }

  predicate Increasing(xs: seq<nat>) {
    forall a, b :: 0 <= a < b < |xs| ==> xs[a] < xs[b]
  }

  /** Task `i` is at least as urgent as task `j`. */
  predicate UrgencyAtLeast(tasks: seq<Task>, i: nat, j: nat) {
    i < |tasks| && j < |tasks| && tasks[i].urgency >= tasks[j].urgency
  }

  /** Task `i` comes before task `j`: it is more urgent, or as urgent and earlier in the store. */
  predicate Precedes(tasks: seq<Task>, i: nat, j: nat) {
    && i < |tasks| && j < |tasks|
    && (tasks[i].urgency > tasks[j].urgency || (tasks[i].urgency == tasks[j].urgency && i < j))
  }

  predicate ByUrgency(tasks: seq<Task>, s: seq<nat>) {
    forall a, b :: 0 <= a < b < |s| ==> UrgencyAtLeast(tasks, s[a], s[b])
  }

  predicate StrictlyOrdered(tasks: seq<Task>, s: seq<nat>) {
    forall a, b :: 0 <= a < b < |s| ==> Precedes(tasks, s[a], s[b])
  }

  /** The pending tasks, in store order. */
  function PendingIndices(tasks: seq<Task>): (xs: seq<nat>)
    ensures InRange(tasks, xs) && Increasing(xs)
    ensures forall k :: 0 <= k < |xs| ==> tasks[xs[k]].status == Pending
    ensures forall j :: 0 <= j < |tasks| && tasks[j].status == Pending ==> j in xs
  {
    if tasks == [] then []
    else
      var xs := PendingIndices(tasks[..|tasks| - 1]);
      if tasks[|tasks| - 1].status == Pending then xs + [|tasks| - 1] else xs
  }

  /** Puts `x` in front of the first element that is no more urgent than it. */
  function InsertByUrgency(tasks: seq<Task>, x: nat, s: seq<nat>): (r: seq<nat>)
    requires x < |tasks| && InRange(tasks, s)
    ensures multiset(r) == multiset(s) + multiset{x}
    ensures InRange(tasks, r)
  {
    if s == [] || tasks[s[0]].urgency <= tasks[x].urgency then [x] + s
    else
      assert s == [s[0]] + s[1..];
      [s[0]] + InsertByUrgency(tasks, x, s[1..])
  }

  /** A stable sort by descending urgency, as Python's `sorted` with key -urgency. */
  function SortByUrgency(tasks: seq<Task>, xs: seq<nat>): (r: seq<nat>)
    requires InRange(tasks, xs)
    ensures multiset(r) == multiset(xs)
    ensures InRange(tasks, r)
  {
    if xs == [] then []
    else
      assert xs == [xs[0]] + xs[1..];
      InsertByUrgency(tasks, xs[0], SortByUrgency(tasks, xs[1..]))
  }

  lemma {:induction false} InsertKeepsUrgencyOrder(tasks: seq<Task>, x: nat, s: seq<nat>)
    requires x < |tasks| && InRange(tasks, s) && ByUrgency(tasks, s)
    ensures ByUrgency(tasks, InsertByUrgency(tasks, x, s))
  {
    if s == [] || tasks[s[0]].urgency <= tasks[x].urgency {
    } else {
      var rest := InsertByUrgency(tasks, x, s[1..]);
      InsertKeepsUrgencyOrder(tasks, x, s[1..]);
      forall b | 0 <= b < |rest| ensures UrgencyAtLeast(tasks, s[0], rest[b]) {
        assert rest[b] in multiset(rest);
        if rest[b] != x {
          assert rest[b] in multiset(s[1..]);
          var c :| 0 <= c < |s[1..]| && s[1..][c] == rest[b];
          assert s[c + 1] == rest[b];
        }
      }
    }
  }

  lemma {:induction false} InsertKeepsStrictOrder(tasks: seq<Task>, x: nat, s: seq<nat>)
    requires x < |tasks| && InRange(tasks, s) && StrictlyOrdered(tasks, s)
    requires forall k :: 0 <= k < |s| ==> x < s[k]
    ensures StrictlyOrdered(tasks, InsertByUrgency(tasks, x, s))
  {
    var r := InsertByUrgency(tasks, x, s);
    if s == [] || tasks[s[0]].urgency <= tasks[x].urgency {
      assert r == [x] + s;
      forall b | 0 < b < |r| ensures Precedes(tasks, x, r[b]) {
        assert r[b] == s[b - 1];
        assert Precedes(tasks, s[0], s[b - 1]) || b == 1;
      }
    } else {
      var rest := InsertByUrgency(tasks, x, s[1..]);
      InsertKeepsStrictOrder(tasks, x, s[1..]);
      forall b | 0 <= b < |rest| ensures Precedes(tasks, s[0], rest[b]) {
        assert rest[b] in multiset(rest);
        if rest[b] != x {
          assert rest[b] in multiset(s[1..]);
          var c :| 0 <= c < |s[1..]| && s[1..][c] == rest[b];
          assert s[c + 1] == rest[b];
        }
      }
    }
  }

  /** The sort orders by descending urgency; and when its input is in store
      order, ties stay in store order, so the result is strictly ordered. */
  lemma {:induction false} SortOrders(tasks: seq<Task>, xs: seq<nat>)
    requires InRange(tasks, xs)
    ensures ByUrgency(tasks, SortByUrgency(tasks, xs))
    ensures Increasing(xs) ==> StrictlyOrdered(tasks, SortByUrgency(tasks, xs))
  {
    if xs != [] {
      var rest := SortByUrgency(tasks, xs[1..]);
      SortOrders(tasks, xs[1..]);
      InsertKeepsUrgencyOrder(tasks, xs[0], rest);
      if Increasing(xs) {
        forall k | 0 <= k < |rest| ensures xs[0] < rest[k] {
          assert rest[k] in multiset(xs[1..]);
          var c :| 0 <= c < |xs[1..]| && xs[1..][c] == rest[k];
          assert xs[c + 1] == rest[k];
        }
        InsertKeepsStrictOrder(tasks, xs[0], rest);
      }
    }
  }

  /** The order a pass visits tasks in: every pending task once, by
      descending urgency, and tasks of equal urgency in store order. */
  function VisitOrder(tasks: seq<Task>): (order: seq<nat>)
    ensures InRange(tasks, order)
    ensures forall j :: 0 <= j < |tasks| ==> (j in order <==> tasks[j].status == Pending)
    ensures StrictlyOrdered(tasks, order)
    ensures forall a, b :: 0 <= a < b < |order| ==> order[a] != order[b]
  {
    var pending := PendingIndices(tasks);
    var order := SortByUrgency(tasks, pending);
    SortOrders(tasks, pending);
    assert forall e :: e in order <==> e in pending by {
      forall e ensures e in order <==> e in pending {
        assert e in order <==> e in multiset(order);
      }
    }
    order
  }
}
