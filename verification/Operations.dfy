/**
  The eleven store operations as functions on the tables, one transaction each.  An operation whose
  guard fails is `Rejected` and, its transaction being rolled back, changes nothing.
 */
module Operations {
  import opened Tasks

  /** Durations are counted in nanoseconds, as Go does. */
  const SECOND: int := 1_000_000_000

  /** Go's integer division by time.Second: truncation toward zero. */
  function WholeSeconds(d: int): int {
    if d >= 0 then d / SECOND else -((-d) / SECOND)
  }

  /** How far into the future a lease granted with configured duration `d` reaches. */
  function LeaseSpan(d: int): int {
    WholeSeconds(d) * SECOND
  }

  /** `span` is the duration `d` in nanoseconds with the part below a second cut off, whatever its sign. */
  predicate IsTruncation(span: int, d: int) {
    && span % 1_000_000_000 == 0
    && (d >= 0 ==> span <= d < span + 1_000_000_000)
    && (d < 0 ==> span - 1_000_000_000 < d <= span)
  }

  lemma LeaseSpanTruncates(d: int)
    ensures IsTruncation(LeaseSpan(d), d)
  {
  }

  datatype Outcome = Rejected | Accepted(db: Db)

  /** The tables after the transaction, whether or not it was accepted. */
  function After(db: Db, o: Outcome): Db {
    if o.Accepted? then o.db else db
  }

  // ---- statements -------------------------------------------------------------------------

  function InsertStatus(db: Db, t: TaskId, r: Record): Db
    requires t in db.history
  {
    db.(history := db.history[t := db.history[t] + [r]])
  }

  function UpsertLease(db: Db, t: TaskId, w: NodeId, expiresAt: int): Db {
    db.(leases := db.leases[t := Lease(w, expiresAt)])
  }

  function DeleteLease(db: Db, t: TaskId, w: NodeId): Db {
    if LeasedTo(db, t, w) then db.(leases := db.leases - {t}) else db
  }

  predicate LeasedTo(db: Db, t: TaskId, w: NodeId) {
    t in db.leases && db.leases[t].worker == w
  }

  predicate LatestIn(db: Db, t: TaskId, allowed: set<Status>) {
    t in db.history && Latest(db.history[t]).Some? && Latest(db.history[t]).value in allowed
  }

  // ---- calls made for one task ------------------------------------------------------------

  function RenewLease(db: Db, t: TaskId, w: NodeId, expiresAt: int): Outcome {
    if LeasedTo(db, t, w) then Accepted(UpsertLease(db, t, w, expiresAt)) else Rejected
  }

  function MarkAssigned(db: Db, t: TaskId, w: NodeId, expiresAt: int): Outcome {
    if LatestIn(db, t, {Scheduling})
    then Accepted(UpsertLease(InsertStatus(db, t, Entry(Assigned, Some(w))), t, w, expiresAt))
    else Rejected
  }

  function MarkRunning(db: Db, t: TaskId, w: NodeId): Outcome {
    if LeasedTo(db, t, w) && LatestIn(db, t, {Assigned, Running})
    then Accepted(InsertStatus(db, t, Entry(Running, Some(w))))
    else Rejected
  }

  function MarkCompleted(db: Db, t: TaskId, w: NodeId): Outcome {
    if LeasedTo(db, t, w) && LatestIn(db, t, {Running})
    then Accepted(DeleteLease(InsertStatus(db, t, Entry(Completed, Some(w))), t, w))
    else Rejected
  }

  function MarkFailed(db: Db, t: TaskId, w: NodeId, error: string): Outcome {
    if LeasedTo(db, t, w) && LatestIn(db, t, {Assigned, Running}) && t in db.tasks then
      var d := DeleteLease(InsertStatus(db, t, Record(Failed, Some(w), error)), t, w);
      if Count(d.history[t], Failed) < d.tasks[t].maxRetries
      then Accepted(InsertStatus(d, t, QUEUED))
      else Accepted(d)
    else Rejected
  }

  /** The lease owner is not checked here. */
  function MarkWorkerLost(db: Db, t: TaskId, w: NodeId, error: string): Outcome {
    if LatestIn(db, t, {Assigned, Running})
    then Accepted(InsertStatus(DeleteLease(InsertStatus(db, t, Record(WorkerLost, Some(w), error)), t, w), t, QUEUED))
    else Rejected
  }

  // ---- sweeps over many tasks -------------------------------------------------------------

  function ExpiredTasks(db: Db, now: int): set<TaskId> {
    set t | t in db.leases && db.leases[t].expiresAt < now
  }

  function DeadTasks(db: Db, alive: set<NodeId>): set<TaskId> {
    set t | t in db.leases && db.leases[t].worker !in alive
  }

  function StaleTasks(db: Db): set<TaskId> {
    set t | t in db.tasks && LatestIn(db, t, {Scheduling}) && t !in db.leases
  }

  /** Append WORKER_LOST and QUEUED to each leased task of `ts` and drop its lease. */
  function LoseLeases(db: Db, ts: set<TaskId>, error: string): Db {
    db.(history := map t | t in db.history ::
                     if t in ts && t in db.leases
                     then db.history[t] + [Record(WorkerLost, Some(db.leases[t].worker), error), QUEUED]
                     else db.history[t],
        leases := db.leases - ts)
  }

  /** Append record `r` to each task of `ts`. */
  function AppendEach(db: Db, ts: set<TaskId>, r: Record): Db {
    db.(history := map t | t in db.history :: if t in ts then db.history[t] + [r] else db.history[t])
  }

  const EXPIRED := "lease expired"
  const NOT_ALIVE := "worker not alive during leader recovery"
  const STALE := "recovered stale scheduling"

  function RecoverExpiredLeases(db: Db, now: int): Db {
    LoseLeases(db, ExpiredTasks(db, now), EXPIRED)
  }

  function RecoverDeadWorkerLeases(db: Db, alive: set<NodeId>): Db {
    LoseLeases(db, DeadTasks(db, alive), NOT_ALIVE)
  }

  function RecoverStaleScheduling(db: Db): Db {
    AppendEach(db, StaleTasks(db), Record(Queued, None, STALE))
  }

  function Members(ids: seq<TaskId>): set<TaskId> {
    set t | t in ids
  }

  /** SCHEDULING records for the claimed tasks; the record names the scheduler. */
  function Schedule(db: Db, ids: seq<TaskId>, scheduler: NodeId): Db {
    AppendEach(db, Members(ids), Entry(Scheduling, Some(scheduler)))
  }
}
