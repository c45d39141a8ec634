# Simulated server cluster: scheduling core

This project models, in Dafny, the scheduling logic of a small simulated
cluster of task-processing servers, in two versions:

- **system.py** (module `PrioritySystem`): each server runs one current task
  and keeps the rest in a priority queue of `(priority, duration, id)` tuples.
  It caches `time_left`, the total outstanding work, and numbers its tasks with
  its own counter 1, 2, 3, … . The cluster (`DistributedSystem`) rejects a
  priority outside 1..3 (`PriorityValueError`) and then a duration below 1
  (`TaskDurationValueError`). It gives each accepted task to the first server
  with the least `time_left`, and one sweep processes every server once, in
  order.
- **system_test.py** (module `FifoSystem`): the earlier variant. There are no
  priorities and no validation. A server keeps a FIFO queue of durations whose
  head is the running task.

Shared pieces:
- `Common` holds the Option and Result types and `QuickestIndex`, which models
  Python's `min(..., key=...)`: the first index with the least key.
- `TaskQueue` holds the task tuples and Python's tuple order on them. It also
  models the priority queue's `get` as "remove the lexicographically least
  tuple".

Each version has two layers:
- A value layer: a `ServerState` datatype and functions for each step
  (`Assigned`, `StartNext`, `ProcessStep`, `StatusOf`, `ClusterAddTask`,
  `ClusterTick`), with lemmas stating what the source promises about them.
- The source's objects as classes: `Server` with the fields the source mutates,
  and `DistributedSystem` over its fixed sequence of servers. Each
  state-changing method is proved to move the object's state exactly as the
  matching function says, and to keep the invariant `Valid()`.
  `Server.StartNextTask` requires that there is no current task, as at both of
  its call sites (system.py:60-61, 62-63).

The invariants proved:
- system.py: `time_left` equals the current task's remaining duration plus the
  queued durations. Ids on a server are distinct and below the counter. Once
  the cluster has validated every task, every task has priority 1..3 and
  duration at least 1, so a current task always has at least one unit left.
- system_test.py: `time_left` equals the sum of the queue, for arbitrary
  integer durations.

Behaviour of the code worth noting:
- Task ids come from a per-server counter (system.py:16, 26), not from a
  cluster-wide generator. They are unique and increasing per server only.
- The queue is ordered by the whole tuple `(priority, duration, id)`
  (system.py:28). Within one priority the shorter task goes first; the id only
  breaks ties between equal durations.
- On an idle server the first tick only starts a queued task and consumes
  nothing (system.py:62-63). So a task of duration 3 given to an empty server
  still has 3 units left after one tick, and the server is empty after 4 ticks,
  not 3 (`LoneTaskTiming`).
- `get_status` has a fourth outcome: `None`, when a task is queued but none is
  current (system.py:87). This can only be seen between an assignment and the
  next tick (`StatusAfterTick`). It is modelled as `Unreported`.

## Model

| member | source | states |
|---|---|---|
| `Common.QuickestIndex` | system.py:97-99 | the chosen index has the least load, and every earlier index has a strictly larger load (Python `min` keeps the first minimum) |
| `Common.QuickestIndexIsUnique` | system.py:99 | those two properties determine the chosen server uniquely |
| `TaskQueue.TaskLeIsTotalOrder` | system.py:28 | Python's tuple order on `(priority, duration, id)` is reflexive, total, antisymmetric and transitive |
| `TaskQueue.MinIndex` | system.py:38 | the position found holds a task that is `<=` every queued task |
| `TaskQueue.Pop` | system.py:38 | `get` returns a queued task that is `<=` all queued tasks; the remaining queue plus that task is the old queue as a multiset |
| `TaskQueue.PopOrder` | system.py:38 | `get` never returns a task while a strictly smaller tuple is queued: lower priority ordinal first, then shorter duration, then earlier id |
| `TaskQueue.SumAppend` | system.py:28-29 | `put` adds exactly the new task's duration to the queued total |
| `TaskQueue.SumPop` | system.py:38 | `get` removes exactly the popped task's duration from the queued total |
| `TaskQueue.PopKeepsIdsDistinct` | system.py:38 | after `get` the remaining ids stay distinct and below the counter, and differ from the popped task's id |
| `PrioritySystem.Outstanding` | system.py:18 | definition, no contract: the current task's remaining duration plus the queued durations, the quantity `time_left` caches |
| `PrioritySystem.Consistent` | system.py:16-29 | definition, no contract: the server invariant. `time_left` equals `Outstanding`, the counter is at least 1, and every task's id is below the counter and distinct from every other task's |
| `PrioritySystem.Admitted` | system.py:103-111 | definition, no contract: every task on the server passed `add_task`'s checks (priority 1..3, duration at least 1), and a current task has at least one unit left |
| `PrioritySystem.Assigned` | system.py:20-29 | definition, no contract: the next counter value is the id, `(priority, duration, id)` is enqueued and `time_left` rises by the duration |
| `PrioritySystem.StartNext` | system.py:33-44 | definition, no contract: the least queued tuple becomes current and leaves the queue; with an empty queue, the current task is cleared |
| `PrioritySystem.ProcessStep` | system.py:46-63 | definition, no contract: a current task loses one unit and `time_left` one; at 0 it is dropped and `StartNext` runs. With no current task and a non-empty queue, only `StartNext` runs |
| `PrioritySystem.ClusterTick` | system.py:119-120 | definition, no contract beyond keeping the number of servers: every server takes one `ProcessStep` |
| `PrioritySystem.StatusOf` | system.py:65-87 | `Empty` iff no current task and empty queue; `Busy` iff a current task exists, carrying its remaining duration, the queued durations and `time_left`; `Unreported` (`None`) iff no current task but a non-empty queue |
| `PrioritySystem.AssignPreservesConsistent` | system.py:20-29 | `assign_task` keeps `time_left` equal to the outstanding work, raises it by exactly the duration, and gives an id greater than every id already on the server |
| `PrioritySystem.StartNextPreservesConsistent` | system.py:33-44 | starting the next task on a server without a current task keeps the invariant and leaves `time_left` unchanged |
| `PrioritySystem.ProcessPreservesConsistent` | system.py:46-63 | every branch of `process` keeps `time_left` equal to the outstanding work and the ids distinct |
| `PrioritySystem.AssignPreservesAdmitted` | system.py:28 | enqueueing a task with priority in 1..3 and duration at least 1 keeps all tasks admitted |
| `PrioritySystem.ProcessPreservesAdmitted` | system.py:53-63 | ticks keep all tasks admitted; a current task always has at least one unit left |
| `PrioritySystem.ProcessRunning` | system.py:53-61 | with a current task a tick lowers `time_left` by exactly 1. The task loses one unit; if it had one unit left, the least queued task becomes current with its full duration and the rest stays queued, or the server is left empty |
| `PrioritySystem.ProcessIdle` | system.py:62-63 | with no current task a tick leaves `time_left` unchanged: it starts the least queued task, or changes nothing when the queue is empty |
| `PrioritySystem.StatusAfterTick` | system.py:62-63 | after any tick the status is never the `None` outcome |
| `PrioritySystem.RunAlone` | system.py:53-61 | a task running alone with d units left has d - n units after n < d ticks and is gone after d ticks, with `time_left` falling by one per tick |
| `PrioritySystem.LoneTaskTiming` | system.py:53-63 | a task of duration d given to an empty server is current with d - n + 1 units after n ticks (1 <= n <= d); the server is not empty before tick d + 1 and is empty with `time_left` 0 after it |
| `PrioritySystem.HighPriorityOvertakesLow` | system.py:26-39 | on any server (no invariant assumed) with an empty queue that is idle or whose running task has one unit left, a priority-3 task and then a priority-1 task are queued; on the next tick the priority-1 task becomes current |
| `PrioritySystem.Validate` | system.py:103-111 | `PriorityValueError` iff the priority is outside 1..3 (checked first); `TaskDurationValueError` iff the priority is valid and the duration is below 1; no error otherwise |
| `PrioritySystem.ClusterAddTask` | system.py:101-114 | fails exactly when validation fails, with that error; on success every server is still there |
| `PrioritySystem.ClusterAddTaskTarget` | system.py:97-114 | a valid task changes only the first server with the least `time_left`. That server's `time_left` rises by the duration, its current task is unchanged, and its queue gains exactly `(priority, duration, next id)` |
| `PrioritySystem.ClusterAddTaskPreservesInvariant` | system.py:101-114 | an accepted task keeps every server consistent and admitted |
| `PrioritySystem.ClusterTickPreservesInvariant` | system.py:119-120 | a sweep keeps every server consistent and admitted |
| `PrioritySystem.IdleSweepChangesNothing` | system.py:119-120 | a sweep over servers with no current task and no queue changes nothing, so `time_left` stays 0 |
| `PrioritySystem.TwoServerBalancing` | system.py:93-114 | on two empty servers a 5-unit task goes to server 1 and a following 3-unit task goes to server 2 |
| `PrioritySystem.Server.constructor` | system.py:10-18 | a new server has no current task, an empty queue, `time_left` 0 and its counter at 1 |
| `PrioritySystem.Server.AssignTask` | system.py:20-31 | the new state is `Assigned` of the old state, and the invariant holds |
| `PrioritySystem.Server.StartNextTask` | system.py:33-44 | called without a current task, as the source does, the new state is `StartNext` of the old state and the invariant holds |
| `PrioritySystem.Server.Process` | system.py:46-63 | the new state is `ProcessStep` of the old state, and the invariant holds |
| `PrioritySystem.Server.GetStatus` | system.py:65-87 | returns `StatusOf` of the current state and changes nothing |
| `PrioritySystem.DistributedSystem.constructor` | system.py:91-95 | `num_servers` distinct, newly allocated servers with ids 1..n, each in the fresh state, so a caller may then add tasks, tick and ask for the status |
| `PrioritySystem.DistributedSystem.QuickestServer` | system.py:97-99 | the first server with the least `time_left` |
| `PrioritySystem.DistributedSystem.AddTask` | system.py:101-114 | on a validation error, returns it and no server changes; otherwise the cluster state becomes `ClusterAddTask`'s result; the invariant holds |
| `PrioritySystem.DistributedSystem.Tick` | system.py:119-120 | every server takes exactly one `ProcessStep`, in order; the invariant holds |
| `PrioritySystem.DistributedSystem.GetStatus` | system.py:123-128 | the status of every server, in server order |
| `FifoSystem.Consistent` | system_test.py:11-17 | definition, no contract: `time_left` equals the sum of the queued durations |
| `FifoSystem.Assigned` | system_test.py:13-17 | definition, no contract: the duration is appended at the tail and added to `time_left` |
| `FifoSystem.ProcessStep` | system_test.py:21-38 | definition, no contract: with `time_left > 0`, `time_left` drops by 1, and a head of 1 is removed or any other head is decremented; otherwise nothing changes |
| `FifoSystem.ClusterAddTask` | system_test.py:62-66 | definition, no contract beyond keeping the number of servers: `Assigned` on the first server with the least `time_left`, with no validation |
| `FifoSystem.ClusterTick` | system_test.py:71-72 | definition, no contract beyond keeping the number of servers: every server takes one `ProcessStep` |
| `FifoSystem.StatusOf` | system_test.py:40-48 | `Empty` iff the queue is empty; otherwise the head is the running task's remaining time, together with the whole queue |
| `FifoSystem.AssignPreservesConsistent` | system_test.py:13-17 | `assign_task` appends the duration at the tail, leaves earlier entries unchanged, and keeps `time_left` equal to the queue's sum |
| `FifoSystem.ProcessWorksOnHead` | system_test.py:24-38 | with load left, the queue is non-empty. A head of 1 is removed and the rest kept; otherwise only the head loses one unit. `time_left` drops by 1 and stays the queue's sum |
| `FifoSystem.ProcessPreservesConsistent` | system_test.py:21-38 | every tick keeps `time_left` equal to the queue's sum, for arbitrary integer durations |
| `FifoSystem.StalledStaysStalled` | system_test.py:24 | a server with `time_left <= 0` never changes again, however many ticks run |
| `FifoSystem.HeadFinishesAfterDuration` | system_test.py:24-38 | when the durations behind the head sum to at least 0, a head task of duration d >= 1 has d - n units after n < d ticks and is removed by exactly tick d, the rest of the queue untouched. With a negative rest sum `time_left` can reach 0 first, and then `process` does nothing (system_test.py:24) |
| `FifoSystem.RunAdditive` | system_test.py:21-38 | running a + b ticks equals running a ticks and then b ticks |
| `FifoSystem.DrainsInOrder` | system_test.py:27-38 | with positive durations, after as many ticks as the first k durations add up to, exactly the first k tasks are gone: tasks finish in submission order |
| `FifoSystem.ZeroHeadBlocksQueue` | system_test.py:24-38 | a zero-duration head is never removed; over the first `Sum(rest)` ticks it goes negative while the tasks behind it never start |
| `FifoSystem.ClusterAddTaskTarget` | system_test.py:58-66 | any duration, zero and negative included, is appended to the first server with the least `time_left`, whose load rises by it; no other server changes |
| `FifoSystem.ClusterAddTaskPreservesInvariant` | system_test.py:62-66 | adding a task keeps every server consistent |
| `FifoSystem.ClusterTickPreservesInvariant` | system_test.py:71-72 | a sweep keeps every server consistent |
| `FifoSystem.IdleSweepChangesNothing` | system_test.py:71-72 | a sweep over servers without load changes nothing |
| `FifoSystem.Server.constructor` | system_test.py:7-11 | a new server has an empty queue and `time_left` 0 |
| `FifoSystem.Server.AssignTask` | system_test.py:13-19 | the new state is `Assigned` of the old state, and the invariant holds |
| `FifoSystem.Server.Process` | system_test.py:21-38 | the new state is `ProcessStep` of the old state, and the invariant holds |
| `FifoSystem.Server.GetStatus` | system_test.py:40-48 | returns `StatusOf` of the current state and changes nothing |
| `FifoSystem.DistributedSystem.constructor` | system_test.py:53-56 | `num_servers` distinct, newly allocated servers with ids 1..n, each in the fresh state, so a caller may then add tasks, tick and ask for the status |
| `FifoSystem.DistributedSystem.QuickestServer` | system_test.py:58-60 | the first server with the least `time_left` |
| `FifoSystem.DistributedSystem.AddTask` | system_test.py:62-66 | the cluster state becomes `ClusterAddTask`'s result, with no validation; the invariant holds |
| `FifoSystem.DistributedSystem.Tick` | system_test.py:71-72 | every server takes exactly one `ProcessStep`, in order; the invariant holds |
| `FifoSystem.DistributedSystem.GetStatus` | system_test.py:75-80 | the status of every server, in server order |

## Left out

- Locking (`threading.Lock`, `with self.lock`): each method is modelled as one atomic sequential step.
- The background loop (the stop flag, `time.sleep(1)`, the daemon thread, `join`): `Tick` is one sweep of its body.
- The interactive command loop, its input parsing and the re-prompt for the server count: the cluster constructor requires at least one server instead.
- All printed notifications and the status text are not modelled. A status is a datatype, and the cluster's status is the sequence of server statuses instead of printed lines.
- The heap's internal array order: the priority queue is a sequence in submission order, `get` removes its least tuple, and the status reports the pending durations as a multiset.
- The `exceptions` module is not part of this model: the two errors are the constructors of `PrioritySystem.Error`.
