/**
  The entities of the task store: tasks, the append-only status history of each task and
  the lease table.  A `Db` is the content of the three tables between transactions.
 */
module Tasks {
  /** Node ids are non-zero and, being stored as BIGINT, below 2^63. */
  type NodeId = n: nat | 0 < n < 0x8000_0000_0000_0000 witness 1

  /** A UUID, of which only identity and order matter. */
  type TaskId = nat

  datatype Option<+T> = None | Some(value: T)

  datatype Status = Queued | Scheduling | Assigned | Running | Failed | WorkerLost | Completed

  datatype Record = Record(status: Status, worker: Option<NodeId>, error: string)

  datatype Task = Task(maxRetries: int, createdAt: int)

  datatype Lease = Lease(worker: NodeId, expiresAt: int)

  datatype Db = Db(tasks: map<TaskId, Task>, history: map<TaskId, seq<Record>>, leases: map<TaskId, Lease>)

  /** A status record whose error column is NULL. */
  function Entry(s: Status, w: Option<NodeId>): Record {
    Record(s, w, "")
  }

  const QUEUED: Record := Entry(Queued, None)

  function Latest(h: seq<Record>): Option<Status> {
    if h == [] then None else Some(h[|h| - 1].status)
  }

  /** Number of records of status `s` in a history. */
  function Count(h: seq<Record>, s: Status): nat {
    if h == [] then 0
    else Count(h[..|h| - 1], s) + (if h[|h| - 1].status == s then 1 else 0)
  }

  function LeaseOf(db: Db, t: TaskId): Option<Lease> {
    if t in db.leases then Some(db.leases[t]) else None
  }

  /** What the foreign keys of the schema guarantee, plus at least one status row per task. */
  ghost predicate WellKeyed(db: Db) {
    && db.history.Keys == db.tasks.Keys
    && db.leases.Keys <= db.tasks.Keys
  }

  /** The claim query's WHERE clause. */
  predicate Eligible(db: Db, t: TaskId) {
    && t in db.tasks && t in db.history
    && Latest(db.history[t]) in {Some(Queued), Some(WorkerLost)}
    && Count(db.history[t], Failed) < db.tasks[t].maxRetries
  }

  lemma CountAppend(h: seq<Record>, r: Record, s: Status)
    ensures Count(h + [r], s) == Count(h, s) + (if r.status == s then 1 else 0)
  {
    assert (h + [r])[..|h|] == h;
  }
}
