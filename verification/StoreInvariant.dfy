/**
  The invariant that ties the status history to the lease table and to the retry budget,
  and the proof that every operation keeps it.
 */
module StoreInvariant {
  import opened Tasks
  import opened History
  import opened Operations

  /** The retry budget in terms of the number of FAILED records. */
  predicate Budget(task: Task, failures: nat, m: Mode) {
    if task.maxRetries <= 0 then m == InQueue && failures == 0
    else if m == AfterFailure then failures == task.maxRetries
    else failures < task.maxRetries
  }

  /** One task, its history and its lease between transactions. */
  predicate TaskOk(task: Task, h: seq<Record>, lease: Option<Lease>) {
    var m := Run(h);
    && m !in {Start, Bad, AfterLoss}
    && (lease.Some? <==> m.Held?)
    && (lease.Some? ==> lease.value.worker == m.worker)
    && Budget(task, Count(h, Failed), m)
  }

  ghost predicate TaskOkIn(db: Db, t: TaskId)
    requires WellKeyed(db) && t in db.tasks
  {
    TaskOk(db.tasks[t], db.history[t], LeaseOf(db, t))
  }

  ghost predicate Consistent(db: Db) {
    && WellKeyed(db)
    && forall t {:trigger TaskOkIn(db, t)} :: t in db.tasks ==> TaskOkIn(db, t)
  }

  /** No worker holds two leases. */
  ghost predicate OneLeasePerWorker(db: Db) {
    forall t, u :: t in db.leases && u in db.leases && t != u ==> db.leases[t].worker != db.leases[u].worker
  }

  // ---- consequences -----------------------------------------------------------------------

  /** A task has a lease exactly while its latest status is ASSIGNED or RUNNING, held by its last assignee. */
  lemma LeaseAgreesWithStatus(db: Db, t: TaskId)
    requires Consistent(db) && t in db.tasks
    ensures t in db.leases <==> LatestIn(db, t, {Assigned, Running})
    ensures t in db.leases ==> LastAssignee(db.history[t], |db.history[t]|) == Some(db.leases[t].worker)
    ensures !LatestIn(db, t, {WorkerLost})
  {
    var h := db.history[t];
    assert TaskOkIn(db, t);
    ModeOfLatest(h);
    if Run(h).Held? {
      HolderIsLastAssignee(h);
    }
  }

  /** What the status history of a task says about its retries. */
  lemma RetryBudget(db: Db, t: TaskId)
    requires Consistent(db) && t in db.tasks
    ensures var failures, max := Count(db.history[t], Failed), db.tasks[t].maxRetries;
            && (failures <= max || (max < 0 && failures == 0))
            && (LatestIn(db, t, {Scheduling, Assigned, Running, Completed}) ==> failures < max)
            && (LatestIn(db, t, {Failed}) ==> failures == max)
            && (LatestIn(db, t, {Queued}) && max > 0 ==> failures < max)
            && (max <= 0 ==> LatestIn(db, t, {Queued}))
  {
    assert TaskOkIn(db, t);
    ModeOfLatest(db.history[t]);
  }

  // ---- preservation -----------------------------------------------------------------------

  /** Frame rule: an operation that touches one task has to re-establish only that task. */
  lemma OneTaskChanged(db: Db, d: Db, t: TaskId)
    requires Consistent(db) && t in db.tasks
    requires d.tasks == db.tasks && WellKeyed(d)
    requires forall u :: u in db.tasks && u != t ==> d.history[u] == db.history[u] && LeaseOf(d, u) == LeaseOf(db, u)
    requires TaskOkIn(d, t)
    ensures Consistent(d)
  {
    forall u | u in d.tasks
      ensures TaskOkIn(d, u)
    {
      assert TaskOkIn(db, u);
    }
  }

  lemma RenewKeeps(db: Db, t: TaskId, w: NodeId, expiresAt: int)
    requires Consistent(db)
    ensures Consistent(After(db, RenewLease(db, t, w, expiresAt)))
  {
    if LeasedTo(db, t, w) {
      assert TaskOkIn(db, t);
      OneTaskChanged(db, After(db, RenewLease(db, t, w, expiresAt)), t);
    }
  }

  lemma AssignedKeeps(db: Db, t: TaskId, w: NodeId, expiresAt: int)
    requires Consistent(db)
    ensures Consistent(After(db, MarkAssigned(db, t, w, expiresAt)))
  {
    if LatestIn(db, t, {Scheduling}) {
      OneMoreRecord(db, t, Entry(Assigned, Some(w)));
      OneTaskChanged(db, After(db, MarkAssigned(db, t, w, expiresAt)), t);
    }
  }

  /** One more record on a task's history moves its mode and counters by one step. */
  lemma OneMoreRecord(db: Db, t: TaskId, r: Record)
    requires Consistent(db) && t in db.tasks
    ensures TaskOkIn(db, t)
    ensures Run(db.history[t] + [r]) == Delta(Run(db.history[t]), r)
    ensures Count(db.history[t] + [r], Failed) == Count(db.history[t], Failed) + (if r.status == Failed then 1 else 0)
    ensures LatestIn(db, t, {Scheduling}) <==> Run(db.history[t]) == InScheduling
    ensures LatestIn(db, t, {Running}) <==> Run(db.history[t]).Held? && Run(db.history[t]).running
    ensures LatestIn(db, t, {Queued}) <==> Run(db.history[t]) == InQueue
  {
    assert TaskOkIn(db, t);
    RunAppend(db.history[t], r);
    CountAppend(db.history[t], r, Failed);
    ModeOfLatest(db.history[t]);
  }

  lemma RunningKeeps(db: Db, t: TaskId, w: NodeId)
    requires Consistent(db)
    ensures Consistent(After(db, MarkRunning(db, t, w)))
  {
    if MarkRunning(db, t, w).Accepted? {
      OneMoreRecord(db, t, Entry(Running, Some(w)));
      OneTaskChanged(db, After(db, MarkRunning(db, t, w)), t);
    }
  }

  lemma CompletedKeeps(db: Db, t: TaskId, w: NodeId)
    requires Consistent(db)
    ensures Consistent(After(db, MarkCompleted(db, t, w)))
  {
    if MarkCompleted(db, t, w).Accepted? {
      OneMoreRecord(db, t, Entry(Completed, Some(w)));
      OneTaskChanged(db, After(db, MarkCompleted(db, t, w)), t);
    }
  }

  /** A FAILED record by the holder either rests at the limit or is followed by a requeue below it. */
  lemma FailureRecords(task: Task, h: seq<Record>, lease: Lease, error: string)
    requires TaskOk(task, h, Some(lease))
    ensures var g := h + [Record(Failed, Some(lease.worker), error)];
            if Count(g, Failed) < task.maxRetries then TaskOk(task, g + [QUEUED], None) else TaskOk(task, g, None)
  {
    var r := Record(Failed, Some(lease.worker), error);
    RunAppend(h, r);
    CountAppend(h, r, Failed);
    RunAppend(h + [r], QUEUED);
    CountAppend(h + [r], QUEUED, Failed);
  }

  lemma FailedKeeps(db: Db, t: TaskId, w: NodeId, error: string)
    requires Consistent(db)
    ensures Consistent(After(db, MarkFailed(db, t, w, error)))
  {
    var o := MarkFailed(db, t, w, error);
    if o.Accepted? {
      assert TaskOkIn(db, t);
      FailureRecords(db.tasks[t], db.history[t], db.leases[t], error);
      OneTaskChanged(db, o.db, t);
    }
  }

  /**
    The unguarded call keeps the tables in agreement exactly when it names the lease's owner;
    otherwise it would leave a lease on a requeued task.
   */
  lemma WorkerLostKeeps(db: Db, t: TaskId, w: NodeId, error: string)
    requires Consistent(db)
    ensures Consistent(After(db, MarkWorkerLost(db, t, w, error))) <==>
            (t in db.leases ==> db.leases[t].worker == w)
  {
    var o := MarkWorkerLost(db, t, w, error);
    if o.Accepted? {
      LeaseAgreesWithStatus(db, t);
      LostRecords(db, t, w, error);
      assert o.db.history[t] == db.history[t] + [Record(WorkerLost, Some(w), error), QUEUED];
      assert WellKeyed(o.db);
      if LeasedTo(db, t, w) {
        OneTaskChanged(db, o.db, t);
      } else {
        assert !TaskOkIn(o.db, t);
      }
    } else if t in db.leases {
      LeaseAgreesWithStatus(db, t);
    }
  }

  /** WORKER_LOST followed by QUEUED, written for worker `w`: lawful only if `w` holds the lease. */
  lemma LostRecords(db: Db, t: TaskId, w: NodeId, error: string)
    requires Consistent(db) && t in db.leases
    ensures var h := db.history[t] + [Record(WorkerLost, Some(w), error), QUEUED];
            if db.leases[t].worker == w then TaskOk(db.tasks[t], h, None)
            else forall lease :: !TaskOk(db.tasks[t], h, lease)
  {
    var r := Record(WorkerLost, Some(w), error);
    OneMoreRecord(db, t, r);
    RunAppend(db.history[t] + [r], QUEUED);
    CountAppend(db.history[t] + [r], QUEUED, Failed);
    assert db.history[t] + [r] + [QUEUED] == db.history[t] + [r, QUEUED];
  }

  /** Losing any set of leases keeps the invariant: the record names the lease's own worker. */
  lemma LoseLeasesKeeps(db: Db, ts: set<TaskId>, error: string)
    requires Consistent(db)
    ensures Consistent(LoseLeases(db, ts, error))
  {
    var d := LoseLeases(db, ts, error);
    forall t | t in d.tasks
      ensures TaskOkIn(d, t)
    {
      assert TaskOkIn(db, t);
      if t in ts && t in db.leases {
        LostRecords(db, t, db.leases[t].worker, error);
      }
    }
  }

  /** Appending one record to each of a set of tasks, given that each task alone tolerates it. */
  lemma AppendEachKeeps(db: Db, ts: set<TaskId>, r: Record)
    requires Consistent(db)
    requires forall t :: t in ts && t in db.tasks ==> TaskOk(db.tasks[t], db.history[t] + [r], LeaseOf(db, t))
    ensures Consistent(AppendEach(db, ts, r))
  {
    var d := AppendEach(db, ts, r);
    forall t | t in d.tasks
      ensures TaskOkIn(d, t)
    {
      assert TaskOkIn(db, t);
    }
  }

  lemma StaleKeeps(db: Db)
    requires Consistent(db)
    ensures Consistent(RecoverStaleScheduling(db))
  {
    var r := Record(Queued, None, STALE);
    forall t | t in StaleTasks(db)
      ensures TaskOk(db.tasks[t], db.history[t] + [r], LeaseOf(db, t))
    {
      OneMoreRecord(db, t, r);
    }
    AppendEachKeeps(db, StaleTasks(db), r);
  }

  lemma ScheduleKeeps(db: Db, ids: seq<TaskId>, scheduler: NodeId)
    requires Consistent(db)
    requires forall t :: t in ids ==> Eligible(db, t)
    ensures Consistent(Schedule(db, ids, scheduler))
  {
    var r := Entry(Scheduling, Some(scheduler));
    forall t | t in ids
      ensures TaskOk(db.tasks[t], db.history[t] + [r], LeaseOf(db, t))
    {
      LeaseAgreesWithStatus(db, t);
      OneMoreRecord(db, t, r);
    }
    AppendEachKeeps(db, Members(ids), r);
  }

  /** A freshly submitted task. */
  lemma InsertKeeps(db: Db, t: TaskId, task: Task)
    requires Consistent(db) && t !in db.tasks
    ensures Consistent(db.(tasks := db.tasks[t := task], history := db.history[t := [QUEUED]]))
  {
    var d := db.(tasks := db.tasks[t := task], history := db.history[t := [QUEUED]]);
    forall u | u in d.tasks
      ensures TaskOkIn(d, u)
    {
      if u == t {
        RunAppend([], QUEUED);
        CountAppend([], QUEUED, Failed);
        assert [] + [QUEUED] == [QUEUED];
      } else {
        assert TaskOkIn(db, u);
      }
    }
  }
}
