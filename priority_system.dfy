/** The priority-scheduling cluster of system.py.

    A server runs at most one task at a time and keeps the others in a
    priority queue of `(priority, duration, id)` tuples; `time_left` caches the
    total outstanding work. The cluster validates each new task, hands it to
    the least-loaded server, and advances every server by one tick per sweep.

    The value-level functions (ServerState, Assigned, ProcessStep, ...) say
    what each step does; the classes Server and DistributedSystem are the
    imperative objects of the source, and each of their methods is proved to
    move its state exactly as the matching function says. */
module PrioritySystem {
  import opened Common
  import opened TaskQueue

  // ---------------------------------------------------------------------------
  // One server, as a value
  // ---------------------------------------------------------------------------

  /** `current_task`, `task_queue`, `time_left` and the next value of
      `task_id_counter`. */
  datatype ServerState = ServerState(current: Option<Task>, queue: seq<Task>, timeLeft: int, nextId: int)

  /** A server as `Server.__init__` leaves it. */
  const Fresh: ServerState := ServerState(None, [], 0, 1)

  /** The work still to do: the current task's remaining duration and every
      queued duration. */
  function Outstanding(s: ServerState): int {
    (if s.current.Some? then s.current.value.duration else 0) + Sum(s.queue)
  }

  /** The server invariant: `time_left` is the outstanding work, and every
      task on the server has its own id, drawn from the counter below
      `nextId`. */
  ghost predicate Consistent(s: ServerState) {
    s.timeLeft == Outstanding(s)
    && s.nextId >= 1
    && IdsBelow(s.queue, s.nextId)
    && DistinctIds(s.queue)
    && (s.current.Some? ==>
          1 <= s.current.value.id < s.nextId
          && forall i :: 0 <= i < |s.queue| ==> s.queue[i].id != s.current.value.id)
  }

  /** Every task on the server passed `add_task`'s validation; for the current
      task this means at least one unit of work is left. */
  ghost predicate Admitted(s: ServerState) {
    (s.current.Some? ==> s.current.value.duration >= 1 && 1 <= s.current.value.priority <= 3)
    && forall t :: t in s.queue ==> t.duration >= 1 && 1 <= t.priority <= 3
  }

  /** `Server.assign_task`: take the next id, enqueue, add the duration. */
  function Assigned(s: ServerState, duration: int, priority: int): ServerState {
    s.(queue := s.queue + [Task(priority, duration, s.nextId)],
       timeLeft := s.timeLeft + duration,
       nextId := s.nextId + 1)
  }

  /** `Server._start_next_task`: pop the least queued task into
      `current_task`, or clear `current_task` when the queue is empty. */
  function StartNext(s: ServerState): ServerState {
    if |s.queue| > 0 then
      var p := Pop(s.queue);
      s.(current := Some(p.0), queue := p.1)
    else
      s.(current := None)
  }

  /** `Server.process`: one tick. A running task loses one unit; when it
      reaches 0 it is dropped and the next task is started (without being
      decremented in this tick). An idle server with a non-empty queue only
      starts a task, consuming no time. */
  function ProcessStep(s: ServerState): ServerState {
    match s.current
    case Some(t) =>
      if t.duration - 1 == 0 then
        StartNext(s.(current := None, timeLeft := s.timeLeft - 1))
      else
        s.(current := Some(t.(duration := t.duration - 1)), timeLeft := s.timeLeft - 1)
    case None =>
      if |s.queue| > 0 then StartNext(s) else s
  }

  /** `n` consecutive ticks. */
  function Run(s: ServerState, n: nat): ServerState
    decreases n
  {
    if n == 0 then s else Run(ProcessStep(s), n - 1)
  }

  /** `Server.get_status`, with the text replaced by its content. The
      fourth outcome of the source, `None`, is `Unreported`. */
  datatype Status = Empty | Busy(remaining: int, pending: multiset<int>, timeLeft: int) | Unreported

  function StatusOf(s: ServerState): (r: Status)
    ensures r == Empty <==> s.current.None? && s.queue == []
    ensures r == Unreported <==> s.current.None? && s.queue != []
    ensures r.Busy? <==> s.current.Some?
    ensures r.Busy? ==>
              r.remaining == s.current.value.duration
              && r.pending == Durations(s.queue)
              && r.timeLeft == s.timeLeft
  {
    if s.queue == [] && s.current.None? then Empty
    else if s.current.Some? then Busy(s.current.value.duration, Durations(s.queue), s.timeLeft)
    else Unreported
  }

  /** The queue `q` was the one `_start_next_task` worked on and `r` is the
      result: the least task of `q` is now current and the rest stays queued,
      or the server is left with nothing when `q` was empty. */
  ghost predicate StartedFrom(q: seq<Task>, r: ServerState) {
    if q == [] then r.current.None? && r.queue == []
    else
      r.current.Some? && r.current.value in q
      && (forall t :: t in q ==> TaskLe(r.current.value, t))
      && multiset(r.queue) + multiset{r.current.value} == multiset(q)
  }

  // ---------------------------------------------------------------------------
  // Properties of one server
  // ---------------------------------------------------------------------------

  /** `assign_task` keeps the invariant: the load rises by the duration, and
      the new id is larger than every id already on the server. */
  lemma AssignPreservesConsistent(s: ServerState, duration: int, priority: int)
    requires Consistent(s)
    ensures Consistent(Assigned(s, duration, priority))
    ensures Outstanding(Assigned(s, duration, priority)) == Outstanding(s) + duration
    ensures forall t :: t in s.queue ==> t.id < s.nextId
    ensures s.current.Some? ==> s.current.value.id < s.nextId
  {
    SumAppend(s.queue, Task(priority, duration, s.nextId));
    var q := Assigned(s, duration, priority).queue;
    forall i | 0 <= i < |q|
      ensures 1 <= q[i].id < s.nextId + 1
    {
      if i < |s.queue| {
        assert q[i] == s.queue[i];
      }
    }
    forall i, j | 0 <= i < |q| && 0 <= j < |q| && i != j
      ensures q[i].id != q[j].id
    {
      if i < |s.queue| && j < |s.queue| {
        assert q[i] == s.queue[i] && q[j] == s.queue[j];
      }
    }
  }

  /** Starting the next task on a server without a current task keeps the
      invariant and the load. */
  lemma StartNextPreservesConsistent(s: ServerState)
    requires Consistent(s) && s.current.None?
    ensures Consistent(StartNext(s))
    ensures StartNext(s).timeLeft == s.timeLeft
  {
    if |s.queue| > 0 {
      SumPop(s.queue);
      PopKeepsIdsDistinct(s.queue, s.nextId);
    }
  }

  /** Every branch of `process` keeps `time_left` equal to the outstanding
      work and the ids distinct. */
  lemma ProcessPreservesConsistent(s: ServerState)
    requires Consistent(s)
    ensures Consistent(ProcessStep(s))
  {
    match s.current
    case Some(t) =>
      if t.duration - 1 == 0 {
        StartNextPreservesConsistent(s.(current := None, timeLeft := s.timeLeft - 1));
      }
    case None =>
      if |s.queue| > 0 {
        StartNextPreservesConsistent(s);
      }
  }

  /** A validated task keeps the server's tasks admitted. */
  lemma AssignPreservesAdmitted(s: ServerState, duration: int, priority: int)
    requires Admitted(s) && duration >= 1 && 1 <= priority <= 3
    ensures Admitted(Assigned(s, duration, priority))
  {
  }

  /** Ticks keep the server's tasks admitted; in particular a current task
      always has at least one unit of work left. */
  lemma ProcessPreservesAdmitted(s: ServerState)
    requires Admitted(s)
    ensures Admitted(ProcessStep(s))
  {
  }

  /** A tick on a server with a current task consumes exactly one unit: the
      task loses one unit, or it finishes and the least queued task becomes
      current with its full duration. */
  lemma ProcessRunning(s: ServerState)
    requires s.current.Some?
    ensures ProcessStep(s).timeLeft == s.timeLeft - 1
    ensures ProcessStep(s).nextId == s.nextId
    ensures s.current.value.duration != 1 ==>
              ProcessStep(s).current == Some(s.current.value.(duration := s.current.value.duration - 1))
              && ProcessStep(s).queue == s.queue
    ensures s.current.value.duration == 1 ==> StartedFrom(s.queue, ProcessStep(s))
  {
  }

  /** A tick on a server without a current task consumes no time: it starts
      the least queued task, or changes nothing when the queue is empty. */
  lemma ProcessIdle(s: ServerState)
    requires s.current.None?
    ensures ProcessStep(s).timeLeft == s.timeLeft
    ensures ProcessStep(s).nextId == s.nextId
    ensures StartedFrom(s.queue, ProcessStep(s))
    ensures s.queue == [] ==> ProcessStep(s) == s
  {
  }

  /** After any tick a server is either empty or running a task, so the
      `None` status can only be seen between an assignment and the next tick. */
  lemma StatusAfterTick(s: ServerState)
    ensures StatusOf(ProcessStep(s)) != Unreported
  {
  }

  /** A task running alone with `d` units left is current with `d - n` units
      after `n < d` ticks and is gone after `d` ticks. */
  lemma {:induction false} RunAlone(s: ServerState, n: nat)
    requires s.current.Some? && s.queue == [] && s.current.value.duration >= 1
    requires n <= s.current.value.duration
    ensures Run(s, n).timeLeft == s.timeLeft - n
    ensures Run(s, n).queue == [] && Run(s, n).nextId == s.nextId
    ensures n < s.current.value.duration ==>
              Run(s, n).current == Some(s.current.value.(duration := s.current.value.duration - n))
    ensures n == s.current.value.duration ==> Run(s, n).current.None?
    decreases n
  {
    if n > 0 {
      var t := s.current.value;
      if t.duration == 1 {
        assert Run(s, n) == Run(ProcessStep(s), 0);
      } else {
        RunAlone(ProcessStep(s), n - 1);
      }
    }
  }

  /** A task of duration `d` given to an empty server: the first tick only
      starts it, the next `d` ticks consume it, so the server is empty again
      after exactly `d + 1` ticks and not before. */
  lemma LoneTaskTiming(s: ServerState, d: int, priority: int)
    requires Consistent(s) && s.current.None? && s.queue == [] && d >= 1
    ensures forall n: nat :: 1 <= n <= d ==>
              Run(Assigned(s, d, priority), n).current == Some(Task(priority, d - n + 1, s.nextId))
    ensures forall n: nat :: n <= d ==> StatusOf(Run(Assigned(s, d, priority), n)) != Empty
    ensures StatusOf(Run(Assigned(s, d, priority), d + 1)) == Empty
    ensures Run(Assigned(s, d, priority), d + 1).timeLeft == 0
  {
    var a := Assigned(s, d, priority);
    var started := ProcessStep(a);
    assert started.current == Some(Task(priority, d, s.nextId)) && started.queue == [];
    assert started.timeLeft == d;
    forall n: nat | 1 <= n <= d + 1
      ensures Run(a, n) == Run(started, n - 1)
    {
    }
    forall n: nat | 1 <= n <= d
      ensures Run(a, n).current == Some(Task(priority, d - n + 1, s.nextId))
    {
      RunAlone(started, n - 1);
    }
    RunAlone(started, d);
  }

  /** A priority-3 task and then a priority-1 task are queued on a server with
      an empty queue that is idle or whose running task has one unit left;
      on the next tick the priority-1 task is started first. */
  lemma HighPriorityOvertakesLow(s: ServerState, dLow: int, dHigh: int)
    requires s.queue == []
    requires s.current.None? || s.current.value.duration == 1
    ensures ProcessStep(Assigned(Assigned(s, dLow, 3), dHigh, 1)).current
            == Some(Task(1, dHigh, s.nextId + 1))
  {
  }

  // ---------------------------------------------------------------------------
  // The cluster, as a value
  // ---------------------------------------------------------------------------

  /** `PriorityValueError` and `TaskDurationValueError`. */
  datatype Error = PriorityValueError | TaskDurationValueError

  /** The checks at the top of `DistributedSystem.add_task`, priority first. */
  function Validate(duration: int, priority: int): (r: Option<Error>)
    ensures r == Some(PriorityValueError) <==> !(1 <= priority <= 3)
    ensures r == Some(TaskDurationValueError) <==> 1 <= priority <= 3 && duration < 1
    ensures r == None <==> 1 <= priority <= 3 && duration >= 1
  {
    if !(1 <= priority <= 3) then Some(PriorityValueError)
    else if duration < 1 then Some(TaskDurationValueError)
    else None
  }

  function Loads(cs: seq<ServerState>): (r: seq<int>)
    ensures |r| == |cs| && forall i :: 0 <= i < |cs| ==> r[i] == cs[i].timeLeft
  {
    seq(|cs|, i requires 0 <= i < |cs| => cs[i].timeLeft)
  }

  /** Every server keeps its invariant and holds only admitted tasks. */
  ghost predicate ClusterInvariant(cs: seq<ServerState>) {
    forall i :: 0 <= i < |cs| ==> Consistent(cs[i]) && Admitted(cs[i])
  }

  /** `DistributedSystem.add_task`: validate, then assign to the first server
      with the least `time_left`. */
  function ClusterAddTask(cs: seq<ServerState>, duration: int, priority: int): (r: Result<seq<ServerState>, Error>)
    requires |cs| >= 1
    ensures r.Failure? <==> Validate(duration, priority).Some?
    ensures r.Failure? ==> Some(r.error) == Validate(duration, priority)
    ensures r.Success? ==> |r.value| == |cs|
  {
    match Validate(duration, priority)
    case Some(e) => Failure(e)
    case None =>
      var k := QuickestIndex(Loads(cs));
      Success(cs[k := Assigned(cs[k], duration, priority)])
  }

  /** One sweep of `DistributedSystem.process`: every server ticks once. */
  function ClusterTick(cs: seq<ServerState>): (r: seq<ServerState>)
    ensures |r| == |cs|
  {
    seq(|cs|, i requires 0 <= i < |cs| => ProcessStep(cs[i]))
  }

  // ---------------------------------------------------------------------------
  // Properties of the cluster
  // ---------------------------------------------------------------------------

  /** A valid task changes exactly one server: the first one with the least
      load, whose load rises by the duration and whose queue gains exactly the
      new task. */
  lemma ClusterAddTaskTarget(cs: seq<ServerState>, duration: int, priority: int) returns (k: nat)
    requires |cs| >= 1 && 1 <= priority <= 3 && duration >= 1
    ensures ClusterAddTask(cs, duration, priority).Success?
    ensures k < |cs|
    ensures forall j :: 0 <= j < |cs| ==> cs[k].timeLeft <= cs[j].timeLeft
    ensures forall j :: 0 <= j < k ==> cs[k].timeLeft < cs[j].timeLeft
    ensures forall j :: 0 <= j < |cs| && j != k ==> ClusterAddTask(cs, duration, priority).value[j] == cs[j]
    ensures ClusterAddTask(cs, duration, priority).value[k].timeLeft == cs[k].timeLeft + duration
    ensures ClusterAddTask(cs, duration, priority).value[k].current == cs[k].current
    ensures multiset(ClusterAddTask(cs, duration, priority).value[k].queue)
            == multiset(cs[k].queue) + multiset{Task(priority, duration, cs[k].nextId)}
  {
    k := QuickestIndex(Loads(cs));
  }

  /** Submitting a task, accepted or not, keeps every server's invariant. */
  lemma ClusterAddTaskPreservesInvariant(cs: seq<ServerState>, duration: int, priority: int)
    requires |cs| >= 1 && ClusterInvariant(cs)
    ensures ClusterAddTask(cs, duration, priority).Success? ==>
              ClusterInvariant(ClusterAddTask(cs, duration, priority).value)
  {
    if Validate(duration, priority).None? {
      var k := QuickestIndex(Loads(cs));
      AssignPreservesConsistent(cs[k], duration, priority);
      AssignPreservesAdmitted(cs[k], duration, priority);
    }
  }

  /** A sweep keeps every server's invariant. */
  lemma ClusterTickPreservesInvariant(cs: seq<ServerState>)
    requires ClusterInvariant(cs)
    ensures ClusterInvariant(ClusterTick(cs))
  {
    forall i | 0 <= i < |cs|
      ensures Consistent(ClusterTick(cs)[i]) && Admitted(ClusterTick(cs)[i])
    {
      ProcessPreservesConsistent(cs[i]);
      ProcessPreservesAdmitted(cs[i]);
    }
  }

  /** Sweeping a cluster with nothing to do changes nothing. */
  lemma IdleSweepChangesNothing(cs: seq<ServerState>)
    requires forall i :: 0 <= i < |cs| ==> cs[i].current.None? && cs[i].queue == []
    ensures ClusterTick(cs) == cs
  {
  }

  /** On two empty servers a 5-unit task goes to server 1 (the first of the
      tied servers) and a following 3-unit task to server 2. */
  lemma TwoServerBalancing()
    ensures ClusterAddTask([Fresh, Fresh], 5, 1).Success?
    ensures ClusterAddTask([Fresh, Fresh], 5, 1).value == [Assigned(Fresh, 5, 1), Fresh]
    ensures ClusterAddTask(ClusterAddTask([Fresh, Fresh], 5, 1).value, 3, 1)
            == Success([Assigned(Fresh, 5, 1), Assigned(Fresh, 3, 1)])
  {
    var first := ClusterAddTask([Fresh, Fresh], 5, 1);
    assert QuickestIndex(Loads([Fresh, Fresh])) == 0 by {
      QuickestIndexIsUnique(Loads([Fresh, Fresh]), 0);
    }
    assert first.value == [Assigned(Fresh, 5, 1), Fresh];
    assert QuickestIndex(Loads(first.value)) == 1 by {
      QuickestIndexIsUnique(Loads(first.value), 1);
    }
    assert first.value[1 := Assigned(Fresh, 3, 1)] == [Assigned(Fresh, 5, 1), Assigned(Fresh, 3, 1)];
  }

  // ---------------------------------------------------------------------------
  // The objects of the source
  // ---------------------------------------------------------------------------

  /** `Server`. The lock is left out: each method is one atomic step. */
  class Server {
    const id: int
    var current: Option<Task>
    var queue: seq<Task>
    var timeLeft: int
    var nextId: int

    function State(): ServerState
      reads this
    {
      ServerState(current, queue, timeLeft, nextId)
    }

    ghost predicate Valid()
      reads this
    {
      Consistent(State())
    }

    constructor (id: int)
      ensures this.id == id && State() == Fresh && Valid()
    {
      this.id := id;
      current := None;
      queue := [];
      timeLeft := 0;
      nextId := 1;
    }

    method AssignTask(duration: int, priority: int)
      requires Valid()
      modifies this
      ensures Valid()
      ensures State() == Assigned(old(State()), duration, priority)
    {
      AssignPreservesConsistent(State(), duration, priority);
      var taskId := nextId;
      nextId := nextId + 1;
      queue := queue + [Task(priority, duration, taskId)];
      timeLeft := timeLeft + duration;
    }

    /** Called only when there is no current task (after a task finishes,
        or on an idle server). */
    method StartNextTask()
      requires Valid() && current.None?
      modifies this
      ensures Valid()
      ensures State() == StartNext(old(State()))
    {
      StartNextPreservesConsistent(State());
      if |queue| > 0 {
        var next := Pop(queue);
        current := Some(next.0);
        queue := next.1;
      } else {
        current := None;
      }
    }

    method Process()
      requires Valid()
      modifies this
      ensures Valid()
      ensures State() == ProcessStep(old(State()))
    {
      ghost var before := State();
      ProcessPreservesConsistent(before);
      if current.Some? {
        var t := current.value;
        current := Some(Task(t.priority, t.duration - 1, t.id));
        timeLeft := timeLeft - 1;
        if current.value.duration == 0 {
          current := None;
          assert State() == before.(current := None, timeLeft := before.timeLeft - 1);
          StartNextTask();
        }
        assert State() == ProcessStep(before);
        assert current.None? ==> |queue| == 0;
      }
      if current.None? && |queue| > 0 {
        assert State() == before;
        StartNextTask();
      }
    }

    method GetStatus() returns (status: Status)
      ensures status == StatusOf(State())
    {
      if |queue| == 0 && current.None? {
        return Empty;
      }
      if current.Some? {
        return Busy(current.value.duration, Durations(queue), timeLeft);
      }
      return Unreported;
    }
  }

  /** `DistributedSystem`. The stop flag, the background thread and the lock
      are left out; `Tick` is one sweep of the loop in `process`. */
  class DistributedSystem {
    const servers: seq<Server>

    function ClusterState(): (cs: seq<ServerState>)
      reads servers
      ensures |cs| == |servers|
      ensures forall i :: 0 <= i < |servers| ==> cs[i] == servers[i].State()
    {
      seq(|servers|, i requires 0 <= i < |servers| reads servers => servers[i].State())
    }

    ghost predicate Valid()
      reads servers
    {
      |servers| >= 1
      && (forall i, j :: 0 <= i < j < |servers| ==> servers[i] != servers[j])
      && (forall i :: 0 <= i < |servers| ==> servers[i].id == i + 1)
      && ClusterInvariant(ClusterState())
    }

    constructor (numServers: int)
      requires numServers >= 1
      ensures Valid()
      ensures |servers| == numServers
      ensures forall i :: 0 <= i < numServers ==> ClusterState()[i] == Fresh
      ensures forall i :: 0 <= i < |servers| ==> fresh(servers[i])
    {
      var made: seq<Server> := [];
      for i := 0 to numServers
        invariant |made| == i
        invariant forall j :: 0 <= j < i ==> made[j].id == j + 1 && made[j].State() == Fresh
        invariant forall j, k :: 0 <= j < k < i ==> made[j] != made[k]
        invariant forall j :: 0 <= j < i ==> fresh(made[j])
      {
        var server := new Server(i + 1);
        made := made + [server];
      }
      servers := made;
    }

    /** `_get_quickest_server`: the first server with the least `time_left`. */
    function QuickestServer(): (k: nat)
      reads servers
      requires |servers| >= 1
      ensures k < |servers|
      ensures forall j :: 0 <= j < |servers| ==> servers[k].timeLeft <= servers[j].timeLeft
      ensures forall j :: 0 <= j < k ==> servers[k].timeLeft < servers[j].timeLeft
    {
      QuickestIndex(Loads(ClusterState()))
    }

    method AddTask(duration: int, priority: int) returns (error: Option<Error>)
      requires Valid()
      modifies servers
      ensures Valid()
      ensures match ClusterAddTask(old(ClusterState()), duration, priority)
              case Failure(e) => error == Some(e) && ClusterState() == old(ClusterState())
              case Success(cs) => error == None && ClusterState() == cs
    {
      ClusterAddTaskPreservesInvariant(ClusterState(), duration, priority);
      if !(1 <= priority <= 3) {
        return Some(PriorityValueError);
      }
      if duration < 1 {
        return Some(TaskDurationValueError);
      }
      var k := QuickestServer();
      servers[k].AssignTask(duration, priority);
      error := None;
    }

    method Tick()
      requires Valid()
      modifies servers
      ensures Valid()
      ensures ClusterState() == ClusterTick(old(ClusterState()))
    {
      ghost var before := ClusterState();
      ClusterTickPreservesInvariant(before);
      for i := 0 to |servers|
        invariant forall j :: 0 <= j < i ==> servers[j].State() == ProcessStep(before[j])
        invariant forall j :: i <= j < |servers| ==> servers[j].State() == before[j]
      {
        assert Consistent(before[i]);
        servers[i].Process();
      }
      assert ClusterState() == ClusterTick(before);
    }

    /** `DistributedSystem.get_status` without the printing: the status of
        every server, in server order. */
    method GetStatus() returns (statuses: seq<Status>)
      requires Valid()
      ensures |statuses| == |servers|
      ensures forall i :: 0 <= i < |servers| ==> statuses[i] == StatusOf(servers[i].State())
    {
      statuses := [];
      for i := 0 to |servers|
        invariant |statuses| == i
        invariant forall j :: 0 <= j < i ==> statuses[j] == StatusOf(servers[j].State())
      {
        var status := servers[i].GetStatus();
        statuses := statuses + [status];
      }
    }
  }
}
