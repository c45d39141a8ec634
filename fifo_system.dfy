/** The earlier FIFO-only cluster of system_test.py.

    A server keeps a FIFO queue of plain durations whose head is the task
    being run, and `time_left`, the total of the queue. There are no
    priorities and no validation: any integer duration is queued as it is.
    New tasks go to the least-loaded server; a sweep ticks every server once.

    As in PrioritySystem, value-level functions say what each step does and
    the classes' methods are proved to move their state accordingly. */
module FifoSystem {
  import opened Common

  // ---------------------------------------------------------------------------
  // One server, as a value
  // ---------------------------------------------------------------------------

  /** `task_queue` (head first) and `time_left`. */
  datatype ServerState = ServerState(queue: seq<int>, timeLeft: int)

  /** A server as `Server.__init__` leaves it. */
  const Fresh: ServerState := ServerState([], 0)

  function Sum(q: seq<int>): int {
    if q == [] then 0 else q[0] + Sum(q[1..])
  }

  lemma {:induction false} SumAppend(q: seq<int>, d: int)
    ensures Sum(q + [d]) == Sum(q) + d
  {
    if q != [] {
      assert (q + [d])[1..] == q[1..] + [d];
      SumAppend(q[1..], d);
    }
  }

  /** A queue of positive durations holds at least one unit per task. */
  lemma {:induction false} SumOfPositive(q: seq<int>)
    requires forall i :: 0 <= i < |q| ==> q[i] >= 1
    ensures Sum(q) >= |q|
  {
    if q != [] {
      SumOfPositive(q[1..]);
    }
  }

  /** The server invariant: `time_left` is the total of the queued durations. */
  ghost predicate Consistent(s: ServerState) {
    s.timeLeft == Sum(s.queue)
  }

  /** `Server.assign_task`: append at the tail and add to the load. */
  function Assigned(s: ServerState, duration: int): ServerState {
    ServerState(s.queue + [duration], s.timeLeft + duration)
  }

  /** `Server.process`: with load left, take one unit off the load and off the
      head, removing the head when it was 1. Without load, nothing happens. */
  function ProcessStep(s: ServerState): ServerState {
    if s.timeLeft > 0 then
      if |s.queue| > 0 then
        if s.queue[0] == 1 then ServerState(s.queue[1..], s.timeLeft - 1)
        else ServerState(s.queue[0 := s.queue[0] - 1], s.timeLeft - 1)
      else
        s.(timeLeft := s.timeLeft - 1)
    else
      s
  }

  /** `n` consecutive ticks. */
  function Run(s: ServerState, n: nat): ServerState
    decreases n
  {
    if n == 0 then s else Run(ProcessStep(s), n - 1)
  }

  /** `Server.get_status` with the text replaced by its content. */
  datatype Status = Empty | Busy(remaining: int, queue: seq<int>)

  function StatusOf(s: ServerState): (r: Status)
    ensures r == Empty <==> s.queue == []
    ensures r.Busy? ==> r.remaining == s.queue[0] && r.queue == s.queue
  {
    if s.queue == [] then Empty else Busy(s.queue[0], s.queue)
  }

  // ---------------------------------------------------------------------------
  // Properties of one server
  // ---------------------------------------------------------------------------

  /** `assign_task` puts the duration at the tail, leaves every earlier entry
      as it was, and keeps the load equal to the queue's total. */
  lemma AssignPreservesConsistent(s: ServerState, duration: int)
    requires Consistent(s)
    ensures Consistent(Assigned(s, duration))
    ensures Assigned(s, duration).queue[..|s.queue|] == s.queue
    ensures Assigned(s, duration).queue[|s.queue|] == duration
  {
    SumAppend(s.queue, duration);
    assert Assigned(s, duration).queue[..|s.queue|] == s.queue;
  }

  /** With load left, `process` works on the head only: it drops a head of 1
      and keeps the rest, or takes one unit off the head; the load falls by
      one either way and stays the queue's total. */
  lemma ProcessWorksOnHead(s: ServerState)
    requires Consistent(s) && s.timeLeft > 0
    ensures |s.queue| > 0
    ensures Consistent(ProcessStep(s))
    ensures ProcessStep(s).timeLeft == s.timeLeft - 1
    ensures s.queue[0] == 1 ==> ProcessStep(s).queue == s.queue[1..]
    ensures s.queue[0] != 1 ==>
              |ProcessStep(s).queue| == |s.queue|
              && ProcessStep(s).queue[0] == s.queue[0] - 1
              && ProcessStep(s).queue[1..] == s.queue[1..]
  {
  }

  /** Every tick keeps the load equal to the queue's total, whatever integers
      are queued. */
  lemma ProcessPreservesConsistent(s: ServerState)
    requires Consistent(s)
    ensures Consistent(ProcessStep(s))
  {
  }

  /** A server without load never changes again; with an empty queue this
      says that idle ticks keep `time_left` at 0. */
  lemma {:induction false} StalledStaysStalled(s: ServerState, n: nat)
    requires s.timeLeft <= 0
    ensures Run(s, n) == s
    decreases n
  {
    if n > 0 {
      StalledStaysStalled(ProcessStep(s), n - 1);
    }
  }

  /** A head task of positive duration `d` is at the head with `d - n` units
      after `n < d` ticks and is removed by tick `d`, leaving the rest of the
      queue as it was. */
  lemma {:induction false} HeadFinishesAfterDuration(d: int, rest: seq<int>, n: nat)
    requires d >= 1 && Sum(rest) >= 0 && n <= d
    ensures n < d ==> Run(ServerState([d] + rest, d + Sum(rest)), n)
                      == ServerState([d - n] + rest, d - n + Sum(rest))
    ensures n == d ==> Run(ServerState([d] + rest, d + Sum(rest)), n) == ServerState(rest, Sum(rest))
    decreases n
  {
    var s := ServerState([d] + rest, d + Sum(rest));
    assert s.queue[1..] == rest;
    if n > 0 {
      if d == 1 {
        assert ProcessStep(s) == ServerState(rest, Sum(rest));
      } else {
        assert ProcessStep(s) == ServerState([d - 1] + rest, d - 1 + Sum(rest));
        HeadFinishesAfterDuration(d - 1, rest, n - 1);
      }
    }
  }

  lemma {:induction false} RunAdditive(s: ServerState, a: nat, b: nat)
    ensures Run(s, a + b) == Run(Run(s, a), b)
    decreases a
  {
    if a > 0 {
      RunAdditive(ProcessStep(s), a - 1, b);
    }
  }

  /** Tasks of positive duration finish in submission order: after as many
      ticks as the first `k` durations add up to, exactly those `k` tasks are
      gone and the rest of the queue is untouched. */
  lemma {:induction false} DrainsInOrder(q: seq<int>, k: nat)
    requires forall i :: 0 <= i < |q| ==> q[i] >= 1
    requires k <= |q|
    ensures Sum(q[..k]) >= 0
    ensures Run(ServerState(q, Sum(q)), Sum(q[..k])) == ServerState(q[k..], Sum(q[k..]))
    decreases k
  {
    SumOfPositive(q[..k]);
    if k > 0 {
      var rest := q[1..];
      SumOfPositive(rest);
      assert q == [q[0]] + rest;
      assert q[..k][1..] == rest[..k - 1];
      assert q[k..] == rest[k - 1..];
      SumOfPositive(rest[..k - 1]);
      RunAdditive(ServerState(q, Sum(q)), q[0], Sum(rest[..k - 1]));
      HeadFinishesAfterDuration(q[0], rest, q[0]);
      DrainsInOrder(rest, k - 1);
    }
  }

  /** Without validation a zero-duration task blocks its server: the head is
      never 1 again, so the tasks behind it are never started while the load
      runs down to 0 and the server then stays stalled. */
  lemma {:induction false} ZeroHeadBlocksQueue(rest: seq<int>, n: nat)
    requires n <= Sum(rest)
    ensures Run(ServerState([0] + rest, Sum(rest)), n) == ServerState([-(n as int)] + rest, Sum(rest) - n)
    decreases n
  {
    if n > 0 {
      ZeroHeadBlocksQueue(rest, n - 1);
      RunAdditive(ServerState([0] + rest, Sum(rest)), n - 1, 1);
      var s := ServerState([-(n as int - 1)] + rest, Sum(rest) - (n - 1));
      assert ProcessStep(s) == ServerState([-(n as int)] + rest, Sum(rest) - n);
    }
  }

  // ---------------------------------------------------------------------------
  // The cluster, as a value
  // ---------------------------------------------------------------------------

  function Loads(cs: seq<ServerState>): (r: seq<int>)
    ensures |r| == |cs| && forall i :: 0 <= i < |cs| ==> r[i] == cs[i].timeLeft
  {
    seq(|cs|, i requires 0 <= i < |cs| => cs[i].timeLeft)
  }

  ghost predicate ClusterInvariant(cs: seq<ServerState>) {
    forall i :: 0 <= i < |cs| ==> Consistent(cs[i])
  }

  /** `DistributedSystem.add_task`: no validation, assign to the first server
      with the least `time_left`. */
  function ClusterAddTask(cs: seq<ServerState>, duration: int): (r: seq<ServerState>)
    requires |cs| >= 1
    ensures |r| == |cs|
  {
    var k := QuickestIndex(Loads(cs));
    cs[k := Assigned(cs[k], duration)]
  }

  /** One sweep of `DistributedSystem.process`. */
  function ClusterTick(cs: seq<ServerState>): (r: seq<ServerState>)
    ensures |r| == |cs|
  {
    seq(|cs|, i requires 0 <= i < |cs| => ProcessStep(cs[i]))
  }

  // ---------------------------------------------------------------------------
  // Properties of the cluster
  // ---------------------------------------------------------------------------

  /** Any duration, zero and negative ones included, goes to the first server
      with the least load, and no other server changes. */
  lemma ClusterAddTaskTarget(cs: seq<ServerState>, duration: int) returns (k: nat)
    requires |cs| >= 1
    ensures k < |cs|
    ensures forall j :: 0 <= j < |cs| ==> cs[k].timeLeft <= cs[j].timeLeft
    ensures forall j :: 0 <= j < k ==> cs[k].timeLeft < cs[j].timeLeft
    ensures forall j :: 0 <= j < |cs| && j != k ==> ClusterAddTask(cs, duration)[j] == cs[j]
    ensures ClusterAddTask(cs, duration)[k].queue == cs[k].queue + [duration]
    ensures ClusterAddTask(cs, duration)[k].timeLeft == cs[k].timeLeft + duration
  {
    k := QuickestIndex(Loads(cs));
  }

  lemma ClusterAddTaskPreservesInvariant(cs: seq<ServerState>, duration: int)
    requires |cs| >= 1 && ClusterInvariant(cs)
    ensures ClusterInvariant(ClusterAddTask(cs, duration))
  {
    var k := QuickestIndex(Loads(cs));
    AssignPreservesConsistent(cs[k], duration);
  }

  lemma ClusterTickPreservesInvariant(cs: seq<ServerState>)
    requires ClusterInvariant(cs)
    ensures ClusterInvariant(ClusterTick(cs))
  {
  }

  /** Sweeping servers that have no load changes nothing. */
  lemma IdleSweepChangesNothing(cs: seq<ServerState>)
    requires forall i :: 0 <= i < |cs| ==> cs[i].timeLeft <= 0
    ensures ClusterTick(cs) == cs
  {
  }

  // ---------------------------------------------------------------------------
  // The objects of the source
  // ---------------------------------------------------------------------------

  /** `Server`. The lock is left out: each method is one atomic step. */
  class Server {
    const id: int
    var queue: seq<int>
    var timeLeft: int

    function State(): ServerState
      reads this
    {
      ServerState(queue, timeLeft)
    }

    ghost predicate Valid()
      reads this
    {
      Consistent(State())
    }

    constructor (id: int)
      ensures this.id == id && State() == Fresh && Valid()
    {
      this.id := id;
      queue := [];
      timeLeft := 0;
    }

    method AssignTask(duration: int)
      requires Valid()
      modifies this
      ensures Valid()
      ensures State() == Assigned(old(State()), duration)
    {
      AssignPreservesConsistent(State(), duration);
      queue := queue + [duration];
      timeLeft := timeLeft + duration;
    }

    method Process()
      requires Valid()
      modifies this
      ensures Valid()
      ensures State() == ProcessStep(old(State()))
    {
      ProcessPreservesConsistent(State());
      if timeLeft > 0 {
        timeLeft := timeLeft - 1;
        if |queue| > 0 {
          var head := queue[0];
          if head == 1 {
            queue := queue[1..];
          } else {
            queue := queue[0 := head - 1];
          }
        }
      }
    }

    method GetStatus() returns (status: Status)
      ensures status == StatusOf(State())
    {
      if |queue| == 0 {
        return Empty;
      }
      return Busy(queue[0], queue);
    }
  }

  /** `DistributedSystem`. The stop flag, the background thread and the lock
      are left out; `Tick` is one sweep of the loop in `process`. */
  class DistributedSystem {
    const servers: seq<Server>

    function ClusterState(): (cs: seq<ServerState>)
      reads servers
      ensures |cs| == |servers|
      ensures forall i :: 0 <= i < |servers| ==> cs[i] == servers[i].State()
    {
      seq(|servers|, i requires 0 <= i < |servers| reads servers => servers[i].State())
    }

    ghost predicate Valid()
      reads servers
    {
      |servers| >= 1
      && (forall i, j :: 0 <= i < j < |servers| ==> servers[i] != servers[j])
      && (forall i :: 0 <= i < |servers| ==> servers[i].id == i + 1)
      && ClusterInvariant(ClusterState())
    }

    constructor (numServers: int)
      requires numServers >= 1
      ensures Valid()
      ensures |servers| == numServers
      ensures forall i :: 0 <= i < numServers ==> ClusterState()[i] == Fresh
      ensures forall i :: 0 <= i < |servers| ==> fresh(servers[i])
    {
      var made: seq<Server> := [];
      for i := 0 to numServers
        invariant |made| == i
        invariant forall j :: 0 <= j < i ==> made[j].id == j + 1 && made[j].State() == Fresh
        invariant forall j, k :: 0 <= j < k < i ==> made[j] != made[k]
        invariant forall j :: 0 <= j < i ==> fresh(made[j])
      {
        var server := new Server(i + 1);
        made := made + [server];
      }
      servers := made;
    }

    /** `_get_quickest_server`: the first server with the least `time_left`. */
    function QuickestServer(): (k: nat)
      reads servers
      requires |servers| >= 1
      ensures k < |servers|
      ensures forall j :: 0 <= j < |servers| ==> servers[k].timeLeft <= servers[j].timeLeft
      ensures forall j :: 0 <= j < k ==> servers[k].timeLeft < servers[j].timeLeft
    {
      QuickestIndex(Loads(ClusterState()))
    }

    method AddTask(duration: int)
      requires Valid()
      modifies servers
      ensures Valid()
      ensures ClusterState() == ClusterAddTask(old(ClusterState()), duration)
    {
      ghost var before := ClusterState();
      ClusterAddTaskPreservesInvariant(before, duration);
      var k := QuickestServer();
      servers[k].AssignTask(duration);
      assert ClusterState() == ClusterAddTask(before, duration);
    }

    method Tick()
      requires Valid()
      modifies servers
      ensures Valid()
      ensures ClusterState() == ClusterTick(old(ClusterState()))
    {
      ghost var before := ClusterState();
      ClusterTickPreservesInvariant(before);
      for i := 0 to |servers|
        invariant forall j :: 0 <= j < i ==> servers[j].State() == ProcessStep(before[j])
        invariant forall j :: i <= j < |servers| ==> servers[j].State() == before[j]
      {
        assert Consistent(before[i]);
        servers[i].Process();
      }
      assert ClusterState() == ClusterTick(before);
    }

    /** `DistributedSystem.get_status` without the printing. */
    method GetStatus() returns (statuses: seq<Status>)
      requires Valid()
      ensures |statuses| == |servers|
      ensures forall i :: 0 <= i < |servers| ==> statuses[i] == StatusOf(servers[i].State())
    {
      statuses := [];
      for i := 0 to |servers|
        invariant |statuses| == i
        invariant forall j :: 0 <= j < i ==> statuses[j] == StatusOf(servers[j].State())
      {
        var status := servers[i].GetStatus();
        statuses := statuses + [status];
      }
    }
  }
}
