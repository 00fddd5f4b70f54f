/**
  What each call achieves on a consistent store: exactly when it is accepted, and where it leaves the
  task.  Everything else is untouched.
 */
module CallEffects {
  import opened Tasks
  import opened History
  import opened Operations
  import opened StoreInvariant

  /** `d` is `db` except for task t's history and lease. */
  ghost predicate OnlyTask(db: Db, d: Db, t: TaskId) {
    && d.tasks == db.tasks && d.history.Keys == db.history.Keys
    && (forall u :: u in db.history && u != t ==> d.history[u] == db.history[u])
    && (forall u :: u != t ==> LeaseOf(d, u) == LeaseOf(db, u))
  }

  function ModeOf(db: Db, t: TaskId): Mode {
    if t in db.history then Run(db.history[t]) else Start
  }

  /** The call left exactly the records `x` behind, and nothing on other tasks. */
  ghost predicate Leaves(db: Db, d: Db, t: TaskId, x: seq<Record>) {
    OnlyTask(db, d, t) && t in db.history && d.history[t] == db.history[t] + x
  }

  /** A SCHEDULING task can be assigned to anyone, no other task to anyone. */
  lemma AssignEffect(db: Db, t: TaskId, w: NodeId, expiresAt: int)
    requires Consistent(db)
    ensures var o := MarkAssigned(db, t, w, expiresAt);
            && (o.Accepted? <==> ModeOf(db, t) == InScheduling)
            && (o.Accepted? ==>
                  && Leaves(db, o.db, t, [Entry(Assigned, Some(w))])
                  && ModeOf(o.db, t) == Held(w, false) && LeaseOf(o.db, t) == Some(Lease(w, expiresAt)))
  {
    if t in db.tasks {
      OneMoreRecord(db, t, Entry(Assigned, Some(w)));
    }
  }

  /** Owning the lease is all it takes: the status check of MarkRunning never fails an owner. */
  lemma RunningEffect(db: Db, t: TaskId, w: NodeId)
    requires Consistent(db)
    ensures var o := MarkRunning(db, t, w);
            && (o.Accepted? <==> LeasedTo(db, t, w))
            && (o.Accepted? ==>
                  && Leaves(db, o.db, t, [Entry(Running, Some(w))])
                  && ModeOf(o.db, t) == Held(w, true) && o.db.leases == db.leases)
  {
    if LeasedTo(db, t, w) {
      LeaseAgreesWithStatus(db, t);
      OneMoreRecord(db, t, Entry(Running, Some(w)));
    }
  }

  /** An owner completes its task once it has reported it running. */
  lemma CompletedEffect(db: Db, t: TaskId, w: NodeId)
    requires Consistent(db)
    ensures var o := MarkCompleted(db, t, w);
            && (o.Accepted? <==> ModeOf(db, t) == Held(w, true))
            && (o.Accepted? ==>
                  && Leaves(db, o.db, t, [Entry(Completed, Some(w))])
                  && ModeOf(o.db, t) == Done && t !in o.db.leases)
  {
    if t in db.tasks {
      LeaseAgreesWithStatus(db, t);
      OneMoreRecord(db, t, Entry(Completed, Some(w)));
    }
  }

  /** An owner's failure report consumes one retry and requeues the task iff some remain. */
  lemma FailedEffect(db: Db, t: TaskId, w: NodeId, error: string)
    requires Consistent(db)
    ensures var o := MarkFailed(db, t, w, error);
            && (o.Accepted? <==> LeasedTo(db, t, w))
            && (o.Accepted? ==>
                  && t in db.tasks && t in db.history && t !in o.db.leases
                  && var again := Count(db.history[t], Failed) + 1 < db.tasks[t].maxRetries;
                     && Leaves(db, o.db, t, [Record(Failed, Some(w), error)] + if again then [QUEUED] else [])
                     && ModeOf(o.db, t) == if again then InQueue else AfterFailure)
  {
    if LeasedTo(db, t, w) {
      LeaseAgreesWithStatus(db, t);
      var r := Record(Failed, Some(w), error);
      OneMoreRecord(db, t, r);
      RunAppend(db.history[t] + [r], QUEUED);
      assert db.history[t] + [r] + [QUEUED] == db.history[t] + ([r] + [QUEUED]);
      assert [r] + [] == [r];
    }
  }

  /**
    Reporting a worker lost is accepted for any leased task.  When it names the owner it takes the lease away and
    leaves the task claimable again, at the cost of one WORKER_LOST record and no retry.
   */
  lemma WorkerLostEffect(db: Db, t: TaskId, w: NodeId, error: string)
    requires Consistent(db)
    ensures var o := MarkWorkerLost(db, t, w, error);
            && (o.Accepted? <==> t in db.leases)
            && (LeasedTo(db, t, w) ==>
                  && Leaves(db, o.db, t, [Record(WorkerLost, Some(w), error), QUEUED])
                  && ModeOf(o.db, t) == InQueue && t !in o.db.leases && Eligible(o.db, t)
                  && Count(o.db.history[t], Failed) == Count(db.history[t], Failed))
  {
    if t in db.tasks {
      LeaseAgreesWithStatus(db, t);
      var h, r := db.history[t], Record(WorkerLost, Some(w), error);
      OneMoreRecord(db, t, r);
      RunAppend(h + [r], QUEUED);
      CountAppend(h + [r], QUEUED, Failed);
      assert h + [r] + [QUEUED] == h + [r, QUEUED];
    }
  }

  /** A renewal is accepted from the owner only; it moves the expiry of that lease and nothing else. */
  lemma RenewEffect(db: Db, t: TaskId, w: NodeId, expiresAt: int)
    requires Consistent(db)
    ensures var o := RenewLease(db, t, w, expiresAt);
            && (o.Accepted? <==> LeasedTo(db, t, w))
            && (o.Accepted? ==>
                  && Leaves(db, o.db, t, []) && ModeOf(o.db, t) == ModeOf(db, t)
                  && LeaseOf(o.db, t) == Some(Lease(w, expiresAt)))
  {
    if LeasedTo(db, t, w) {
      assert db.history[t] + [] == db.history[t];
    }
  }

  /** A claim marks exactly the claimed tasks SCHEDULING, in the scheduler's name, and leases nothing. */
  lemma ScheduleEffect(db: Db, ids: seq<TaskId>, scheduler: NodeId, t: TaskId)
    requires Consistent(db) && t in db.tasks && (forall i :: 0 <= i < |ids| ==> Eligible(db, ids[i]))
    ensures var d := Schedule(db, ids, scheduler);
            && d.tasks == db.tasks && d.leases == db.leases && t in d.history
            && d.history[t] == db.history[t] + (if t in ids then [Entry(Scheduling, Some(scheduler))] else [])
            && ModeOf(d, t) == if t in ids then InScheduling else ModeOf(db, t)
  {
    if t in ids {
      LeaseAgreesWithStatus(db, t);
      OneMoreRecord(db, t, Entry(Scheduling, Some(scheduler)));
    } else {
      assert db.history[t] + [] == db.history[t];
    }
  }

  /** The stale sweep puts exactly the SCHEDULING tasks back in the queue. */
  lemma StaleEffect(db: Db, t: TaskId)
    requires Consistent(db) && t in db.tasks
    ensures var d := RecoverStaleScheduling(db);
            && d.tasks == db.tasks && d.leases == db.leases && t in d.history
            && d.history[t] == db.history[t] +
               (if ModeOf(db, t) == InScheduling then [Record(Queued, None, "recovered stale scheduling")] else [])
            && ModeOf(d, t) == if ModeOf(db, t) == InScheduling then InQueue else ModeOf(db, t)
  {
    LeaseAgreesWithStatus(db, t);
    OneMoreRecord(db, t, Record(Queued, None, STALE));
    assert db.history[t] + [] == db.history[t];
  }

  /** Revoking a set of leases puts exactly those tasks back in the queue. */
  lemma LossEffect(db: Db, ts: set<TaskId>, error: string, t: TaskId)
    requires Consistent(db) && t in db.tasks
    ensures var d := LoseLeases(db, ts, error);
            if t in ts && t in db.leases then
              && ModeOf(d, t) == InQueue && t !in d.leases && t in d.history
              && d.history[t] == db.history[t] + [Record(WorkerLost, Some(db.leases[t].worker), error), QUEUED]
            else t in d.history && d.history[t] == db.history[t] && LeaseOf(d, t) == LeaseOf(db, t)
  {
    if t in ts && t in db.leases {
      LoseLeasesKeeps(db, ts, error);
      assert TaskOkIn(LoseLeases(db, ts, error), t);
      ModeOfLatest(LoseLeases(db, ts, error).history[t]);
    }
  }

  /** Task t lost its lease at the cost of a WORKER_LOST record with this text and is queued again. */
  ghost predicate Revoked(db: Db, d: Db, t: TaskId, error: string)
    requires t in db.leases && t in db.history
  {
    && ModeOf(d, t) == InQueue && t !in d.leases && t in d.history
    && d.history[t] == db.history[t] + [Record(WorkerLost, Some(db.leases[t].worker), error), QUEUED]
  }

  ghost predicate Untouched(db: Db, d: Db, t: TaskId) {
    && LeaseOf(d, t) == LeaseOf(db, t)
    && t in d.history && t in db.history && d.history[t] == db.history[t]
  }

  /** The expiry sweep revokes exactly the leases whose time is past. */
  lemma ExpiredEffect(db: Db, now: int, t: TaskId)
    requires Consistent(db) && t in db.tasks
    ensures var d := RecoverExpiredLeases(db, now);
            && d.tasks == db.tasks
            && if t in db.leases && db.leases[t].expiresAt < now then Revoked(db, d, t, "lease expired")
               else Untouched(db, d, t)
  {
    LossEffect(db, ExpiredTasks(db, now), EXPIRED, t);
  }

  /** The dead-worker sweep revokes exactly the leases of workers that are not alive. */
  lemma DeadEffect(db: Db, alive: set<NodeId>, t: TaskId)
    requires Consistent(db) && t in db.tasks
    ensures var d := RecoverDeadWorkerLeases(db, alive);
            && d.tasks == db.tasks
            && if t in db.leases && db.leases[t].worker !in alive
               then Revoked(db, d, t, "worker not alive during leader recovery")
               else Untouched(db, d, t)
  {
    LossEffect(db, DeadTasks(db, alive), NOT_ALIVE, t);
  }
}
