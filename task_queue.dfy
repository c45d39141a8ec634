/** The pending tasks of a priority server: Python's `PriorityQueue` holding
    tuples `(priority, task_duration, task_id)`. The heap layout is not modelled;
    the queue is the sequence of tuples in the order they were put, and `get`
    removes the least tuple in Python's lexicographic tuple order. */
module TaskQueue {

  /** A queued or running task; `duration` is the remaining duration. */
  datatype Task = Task(priority: int, duration: int, id: int)

  /** Python's `a <= b` on `(priority, duration, id)` tuples. */
  predicate TaskLe(a: Task, b: Task) {
    a.priority < b.priority
    || (a.priority == b.priority
        && (a.duration < b.duration || (a.duration == b.duration && a.id <= b.id)))
  }

  /** TaskLe is a total order, so the least queued task is well defined. */
  lemma TaskLeIsTotalOrder(a: Task, b: Task, c: Task)
    ensures TaskLe(a, a)
    ensures TaskLe(a, b) || TaskLe(b, a)
    ensures TaskLe(a, b) && TaskLe(b, a) ==> a == b
    ensures TaskLe(a, b) && TaskLe(b, c) ==> TaskLe(a, c)
  {
  }

  /** Position of a least task of `q`. */
  function MinIndex(q: seq<Task>): (k: nat)
    requires |q| > 0
    ensures k < |q|
    ensures forall j :: 0 <= j < |q| ==> TaskLe(q[k], q[j])
  {
    if |q| == 1 then 0
    else
      var k := MinIndex(q[..|q| - 1]);
      if TaskLe(q[k], q[|q| - 1]) then k else |q| - 1
  }

  /** `q` without its element at position `k`. */
  function RemoveAt(q: seq<Task>, k: nat): (r: seq<Task>)
    requires k < |q|
    ensures |r| == |q| - 1
    ensures forall i :: 0 <= i < k ==> r[i] == q[i]
    ensures forall i :: k <= i < |r| ==> r[i] == q[i + 1]
    ensures multiset(r) + multiset{q[k]} == multiset(q)
  {
    assert q == q[..k] + [q[k]] + q[k + 1..];
    q[..k] + q[k + 1..]
  }

  /** `task_queue.get()`: the least queued task and the queue without it. */
  function Pop(q: seq<Task>): (r: (Task, seq<Task>))
    requires |q| > 0
    ensures r.0 in q
    ensures forall t :: t in q ==> TaskLe(r.0, t)
    ensures multiset(r.1) + multiset{r.0} == multiset(q)
  {
    var k := MinIndex(q);
    (q[k], RemoveAt(q, k))
  }

  /** `get` never returns a task while a strictly smaller one is queued: a
      higher priority (lower ordinal) goes first, then the shorter duration,
      then the earlier id. */
  lemma PopOrder(q: seq<Task>, a: Task, b: Task)
    requires a in q && b in q
    requires a != b && TaskLe(a, b)
    ensures Pop(q).0 != b
  {
  }

  /** Total remaining duration of the queued tasks. */
  function Sum(q: seq<Task>): int {
    if q == [] then 0 else q[0].duration + Sum(q[1..])
  }

  lemma {:induction false} SumConcat(a: seq<Task>, b: seq<Task>)
    ensures Sum(a + b) == Sum(a) + Sum(b)
  {
    if a == [] {
      assert a + b == b;
    } else {
      assert (a + b)[1..] == a[1..] + b;
      SumConcat(a[1..], b);
    }
  }

  /** `put` of one task adds its duration to the total. */
  lemma SumAppend(q: seq<Task>, t: Task)
    ensures Sum(q + [t]) == Sum(q) + t.duration
  {
    SumConcat(q, [t]);
  }

  /** `get` takes exactly the popped task's duration out of the total. */
  lemma SumPop(q: seq<Task>)
    requires |q| > 0
    ensures Sum(q) == Pop(q).0.duration + Sum(Pop(q).1)
  {
    var k := MinIndex(q);
    assert Pop(q).0 == q[k] && Pop(q).1 == q[..k] + q[k + 1..];
    SumRemoveAt(q, k);
  }

  lemma SumRemoveAt(q: seq<Task>, k: nat)
    requires k < |q|
    ensures Sum(q) == q[k].duration + Sum(q[..k] + q[k + 1..])
  {
    assert q == q[..k] + q[k..];
    SumConcat(q[..k], q[k..]);
    assert q[k..][1..] == q[k + 1..];
    SumConcat(q[..k], q[k + 1..]);
  }

  /** Durations of the queued tasks, as a bag (the heap's array order is not
      part of the model). */
  function Durations(q: seq<Task>): (r: multiset<int>)
    ensures |r| == |q|
    ensures forall t :: t in q ==> t.duration in r
  {
    if q == [] then multiset{} else multiset{q[0].duration} + Durations(q[1..])
  }

  /** Every queued id is below `bound`. */
  ghost predicate IdsBelow(q: seq<Task>, bound: int) {
    forall i :: 0 <= i < |q| ==> 1 <= q[i].id < bound
  }

  /** No two queued tasks share an id. */
  ghost predicate DistinctIds(q: seq<Task>) {
    forall i, j :: 0 <= i < |q| && 0 <= j < |q| && i != j ==> q[i].id != q[j].id
  }

  /** Popping keeps the ids of the rest distinct and different from the
      popped task's id. */
  lemma PopKeepsIdsDistinct(q: seq<Task>, bound: int)
    requires |q| > 0 && DistinctIds(q) && IdsBelow(q, bound)
    ensures DistinctIds(Pop(q).1) && IdsBelow(Pop(q).1, bound)
    ensures 1 <= Pop(q).0.id < bound
    ensures forall i :: 0 <= i < |Pop(q).1| ==> Pop(q).1[i].id != Pop(q).0.id
  {
  }
}
