/**
  What the invariant buys: statements about every state of every run of the interleaved system.
 */
module Guarantees {
  import opened Tasks
  import opened History
  import opened Operations
  import opened StoreInvariant
  import opened Claim
  import opened Recovery
  import opened CallEffects
  import opened Scheduler

  ghost predicate Reachable(s: Sys) {
    exists cfg, now, steps :: s == Exec(Boot(cfg, now), steps)
  }

  lemma ReachableStep(s: Sys, step: Step)
    requires Reachable(s)
    ensures Reachable(Do(s, step))
  {
    var cfg, now, steps :| s == Exec(Boot(cfg, now), steps);
    assert (steps + [step])[..|steps|] == steps;
    assert Do(s, step) == Exec(Boot(cfg, now), steps + [step]);
  }

  lemma ReachableIsOk(s: Sys)
    requires Reachable(s)
    ensures SysOk(s)
  {
    var cfg, now, steps :| s == Exec(Boot(cfg, now), steps);
    RunsAreSafe(cfg, now, steps);
  }

  /** In every reachable state the two tables agree about every task, and no worker holds two leases. */
  lemma TablesAgree(s: Sys, t: TaskId)
    requires Reachable(s) && t in s.db.tasks
    ensures WellKeyed(s.db) && OneLeasePerWorker(s.db)
    ensures t in s.db.leases <==> LatestIn(s.db, t, {Assigned, Running})
    ensures t in s.db.leases ==> LastAssignee(s.db.history[t], |s.db.history[t]|) == Some(s.db.leases[t].worker)
  {
    ReachableIsOk(s);
    LeaseAgreesWithStatus(s.db, t);
  }

  /** In every reachable state every history is lawful and every assignment is accounted for. */
  lemma HistoriesAreLawful(s: Sys, t: TaskId)
    requires Reachable(s) && t in s.db.tasks
    ensures t in s.db.history
    ensures var h := s.db.history[t];
            && h != [] && Lawful(h) && Latest(h) != Some(WorkerLost)
            && Count(h, Assigned) ==
               Count(h, Completed) + Count(h, Failed) + Count(h, WorkerLost) + (if t in s.db.leases then 1 else 0)
            && Count(h, Queued) == Count(h, Scheduling) + (if Latest(h) == Some(Queued) then 1 else 0)
  {
    ReachableIsOk(s);
    assert TaskOkIn(s.db, t);
    var h := s.db.history[t];
    ModeOfLatest(h);
    AcceptsLawful(h);
    Conservation(h);
  }

  /** In every reachable state the retry budget is respected. */
  lemma BudgetIsRespected(s: Sys, t: TaskId)
    requires Reachable(s) && t in s.db.tasks
    ensures t in s.db.history
    ensures var failures, max := Count(s.db.history[t], Failed), s.db.tasks[t].maxRetries;
            && (max >= 0 ==> failures <= max)
            && (LatestIn(s.db, t, {Scheduling, Assigned, Running, Completed}) ==> failures < max)
            && (LatestIn(s.db, t, {Failed}) <==> max > 0 && failures == max)
  {
    ReachableIsOk(s);
    assert TaskOkIn(s.db, t);
    ModeOfLatest(s.db.history[t]);
  }

  /** A waiting task can be claimed if and only if it was submitted with retries; without any it is never run. */
  lemma NoRetriesNoRun(s: Sys, t: TaskId)
    requires Reachable(s) && t in s.db.tasks
    ensures LatestIn(s.db, t, {Queued}) ==> (Eligible(s.db, t) <==> s.db.tasks[t].maxRetries > 0)
    ensures s.db.tasks[t].maxRetries <= 0 ==> LatestIn(s.db, t, {Queued}) && t !in s.db.leases
  {
    ReachableIsOk(s);
    assert TaskOkIn(s.db, t);
    ModeOfLatest(s.db.history[t]);
  }

  /** The unguarded call after a failed dispatch is effective exactly when the named worker owns the lease. */
  lemma UnguardedLossHitsOwner(s: Sys)
    requires Reachable(s) && s.pc.GiveUp?
    ensures s.pc.i < |s.pc.ids|
    ensures MarkWorkerLost(s.db, s.pc.ids[s.pc.i], s.pc.w, "dispatch failed").Accepted? <==>
            LeasedTo(s.db, s.pc.ids[s.pc.i], s.pc.w)
  {
    ReachableIsOk(s);
    GiveUpOnlyHitsOwner(s);
  }

  /**
    After a failed dispatch the task is claimable again and its worker free, as soon as the report takes effect and
    unless the worker gave the task back in between; then the report changes nothing.
   */
  lemma FailedDispatchIsUndone(s: Sys, tx: Tx, reached: bool)
    requires Reachable(s) && s.pc.GiveUp?
    ensures s.pc.i < |s.pc.ids|
    ensures var t, w, d := s.pc.ids[s.pc.i], s.pc.w, Do(s, Proceed(tx, reached)).db;
            if LeasedTo(s.db, t, w) && tx != Rollback
            then Eligible(d, t) && t !in d.leases && w !in Busy(d) && OnlyTask(s.db, d, t)
            else d == s.db
  {
    ReachableIsOk(s);
    GiveUpOnlyHitsOwner(s);
    WorkerLostEffect(s.db, s.pc.ids[s.pc.i], s.pc.w, "dispatch failed");
  }

  // ---- worker calls -----------------------------------------------------------------------

  /** A call by anyone but the owner of the task's lease changes nothing. */
  lemma StrangersChangeNothing(s: Sys, call: Call)
    requires Reachable(s) && !LeasedTo(s.db, call.t, call.w)
    ensures Do(s, Worker(call)) == s
  {
  }

  /**
    The owner of a lease can renew it, report its task running and, after that, completed; each report is recorded and
    no other task is touched.
   */
  lemma OwnersAreHeard(s: Sys, t: TaskId, w: NodeId)
    requires Reachable(s) && LeasedTo(s.db, t, w)
    ensures t in s.db.tasks && t in s.db.history
    ensures var d := Do(s, Worker(Renew(t, w))).db;
            Leaves(s.db, d, t, []) && LeaseOf(d, t) == Some(Lease(w, Expiry(s)))
    ensures var d := Do(s, Worker(ReportRunning(t, w))).db;
            Leaves(s.db, d, t, [Entry(Running, Some(w))]) && d.leases == s.db.leases
    ensures var d := Do(s, Worker(ReportCompleted(t, w))).db;
            if LatestIn(s.db, t, {Running}) then Leaves(s.db, d, t, [Entry(Completed, Some(w))]) && t !in d.leases
            else d == s.db
  {
    ReachableIsOk(s);
    OwnedMode(s.db, t, w);
    RenewEffect(s.db, t, w, Expiry(s));
    RunningEffect(s.db, t, w);
    CompletedEffect(s.db, t, w);
  }

  /** The owner's failure report is recorded, takes the lease away and requeues the task iff retries remain. */
  lemma FailuresAreHeard(s: Sys, t: TaskId, w: NodeId, error: string)
    requires Reachable(s) && LeasedTo(s.db, t, w)
    ensures t in s.db.tasks && t in s.db.history
    ensures var d := Do(s, Worker(ReportFailed(t, w, error))).db;
            var again := Count(s.db.history[t], Failed) + 1 < s.db.tasks[t].maxRetries;
            && Leaves(s.db, d, t, [Record(Failed, Some(w), error)] + if again then [QUEUED] else [])
            && t !in d.leases
  {
    ReachableIsOk(s);
    OwnedMode(s.db, t, w);
    FailedEffect(s.db, t, w, error);
  }

  lemma OwnedMode(db: Db, t: TaskId, w: NodeId)
    requires Consistent(db) && LeasedTo(db, t, w)
    ensures t in db.tasks && t in db.history && (LatestIn(db, t, {Running}) <==> ModeOf(db, t) == Held(w, true))
  {
    assert TaskOkIn(db, t);
    ModeOfLatest(db.history[t]);
  }

  // ---- histories only grow ----------------------------------------------------------------

  /** Every history of `db` is a prefix of the same task's history in `d`, and tasks stay as submitted. */
  ghost predicate Extends(db: Db, d: Db) {
    && (forall t :: t in db.tasks ==> t in d.tasks && d.tasks[t] == db.tasks[t])
    && (forall t :: t in db.history ==> t in d.history && db.history[t] <= d.history[t])
  }

  lemma ExtendsIsTransitive(a: Db, b: Db, c: Db)
    requires Extends(a, b) && Extends(b, c)
    ensures Extends(a, c)
  {
    forall t | t in a.history
      ensures t in c.history && a.history[t] <= c.history[t]
    {
      assert a.history[t] <= b.history[t] <= c.history[t];
    }
  }

  lemma WorkerCallExtends(db: Db, call: Call, expiresAt: int)
    requires WellKeyed(db)
    ensures Extends(db, After(db, WorkerCall(db, call, expiresAt)))
  {
  }

  /** What one scheduler transaction can append to one task: never a FAILED record. */
  predicate SchedulerRecords(x: seq<Record>) {
    || x == []
    || (|x| == 1 && x[0].status in {Queued, Scheduling, Assigned})
    || (|x| == 2 && x[0].status == WorkerLost && x[1].status == Queued)
  }

  lemma SweepAppends(s: Sys, tx: Tx, u: TaskId) returns (x: seq<Record>)
    requires u in s.db.history && (s.pc.SweepStale? || s.pc.SweepDead? || s.pc.SweepExpired?)
    ensures var d := Advance(s, tx, true).db;
            u in d.history && d.history[u] == s.db.history[u] + x && SchedulerRecords(x)
  {
    var d := Advance(s, tx, true).db;
    x := d.history[u][|s.db.history[u]|..];
  }

  lemma ClaimAppends(s: Sys, tx: Tx, u: TaskId) returns (x: seq<Record>)
    requires u in s.db.history && s.pc.ClaimTasks?
    ensures var d := Advance(s, tx, true).db;
            u in d.history && d.history[u] == s.db.history[u] + x && SchedulerRecords(x)
  {
    var d := Advance(s, tx, true).db;
    x := d.history[u][|s.db.history[u]|..];
  }

  lemma AssignAppends(s: Sys, tx: Tx, u: TaskId) returns (x: seq<Record>)
    requires u in s.db.history && s.pc.Assign?
    ensures var d := Advance(s, tx, true).db;
            u in d.history && d.history[u] == s.db.history[u] + x && SchedulerRecords(x)
  {
    x := if Advance(s, tx, true).db.history[u] == s.db.history[u] then [] else [Entry(Assigned, Some(s.pc.w))];
    assert s.db.history[u] + [] == s.db.history[u];
  }

  lemma GiveUpAppends(s: Sys, tx: Tx, u: TaskId) returns (x: seq<Record>)
    requires u in s.db.history && s.pc.GiveUp?
    ensures var d := Advance(s, tx, true).db;
            u in d.history && d.history[u] == s.db.history[u] + x && SchedulerRecords(x)
  {
    var h, r := s.db.history[u], Record(WorkerLost, Some(s.pc.w), "dispatch failed");
    x := if Advance(s, tx, true).db.history[u] == h then [] else [r, QUEUED];
    assert h + [] == h && h + [r] + [QUEUED] == h + [r, QUEUED];
  }

  lemma SchedulerAppends(s: Sys, tx: Tx, reached: bool, u: TaskId) returns (x: seq<Record>)
    requires u in s.db.history
    ensures var d := Advance(s, tx, reached).db;
            u in d.history && d.history[u] == s.db.history[u] + x && SchedulerRecords(x)
  {
    if s.pc.SweepStale? || s.pc.SweepDead? || s.pc.SweepExpired? {
      x := SweepAppends(s, tx, u);
    } else if s.pc.ClaimTasks? {
      x := ClaimAppends(s, tx, u);
    } else if s.pc.Assign? {
      x := AssignAppends(s, tx, u);
    } else if s.pc.GiveUp? {
      x := GiveUpAppends(s, tx, u);
    } else {
      x := [];
    }
  }

  lemma SchedulerExtends(s: Sys, tx: Tx, reached: bool)
    ensures Extends(s.db, Advance(s, tx, reached).db)
  {
    forall u | u in s.db.history
      ensures u in Advance(s, tx, reached).db.history && s.db.history[u] <= Advance(s, tx, reached).db.history[u]
    {
      var x := SchedulerAppends(s, tx, reached, u);
    }
  }

  lemma StepExtends(s: Sys, step: Step)
    requires SysOk(s)
    ensures Extends(s.db, Do(s, step).db)
  {
    match step
    case Worker(call) => WorkerCallExtends(s.db, call, Expiry(s));
    case Proceed(tx, reached) => SchedulerExtends(s, tx, reached);
    case _ =>
  }

  lemma {:induction false} RunExtends(s: Sys, steps: seq<Step>)
    requires SysOk(s)
    ensures SysOk(Exec(s, steps)) && Extends(s.db, Exec(s, steps).db)
  {
    if steps != [] {
      var m := Exec(s, steps[..|steps| - 1]);
      RunExtends(s, steps[..|steps| - 1]);
      StepKeeps(m, steps[|steps| - 1]);
      StepExtends(m, steps[|steps| - 1]);
      ExtendsIsTransitive(s.db, m.db, Do(m, steps[|steps| - 1]).db);
    }
  }

  lemma {:induction false} CountGrows(h: seq<Record>, g: seq<Record>, s: Status)
    requires h <= g
    ensures Count(h, s) <= Count(g, s)
    ensures h != g && g[|g| - 1].status == s ==> Count(h, s) < Count(g, s)
  {
    if h == g {
    } else {
      CountGrows(h, g[..|g| - 1], s);
    }
  }

  /** A finished task has no proper continuation. */
  lemma FinishedHasNoContinuation(task: Task, h: seq<Record>, a: Option<Lease>, g: seq<Record>, b: Option<Lease>)
    requires TaskOk(task, h, a) && TaskOk(task, g, b) && h <= g && Run(h) in {Done, AfterFailure}
    ensures h == g
  {
    if h != g && Run(h) == Done {
      assert g[..|h| + 1] == h + [g[|h|]];
      RunAppend(h, g[|h|]);
      PrefixAccepted(g, |h| + 1);
    } else if h != g {
      CountGrows(h, g, Failed);
      ModeOfLatest(g);
    }
  }

  /** COMPLETED and a resting FAILED are final: no later run adds another record. */
  lemma FinishedStaysFinished(s: Sys, steps: seq<Step>, t: TaskId)
    requires SysOk(s) && t in s.db.tasks && LatestIn(s.db, t, {Completed, Failed})
    ensures t in Exec(s, steps).db.history && Exec(s, steps).db.history[t] == s.db.history[t]
  {
    RunExtends(s, steps);
    var db, d := s.db, Exec(s, steps).db;
    assert TaskOkIn(db, t) && TaskOkIn(d, t);
    ModeOfLatest(db.history[t]);
    FinishedHasNoContinuation(db.tasks[t], db.history[t], LeaseOf(db, t), d.history[t], LeaseOf(d, t));
  }

  // ---- only execution failures consume budget ---------------------------------------------

  /** The step is a failure report by the task's current lease holder. */
  predicate ConsumesBudget(s: Sys, step: Step, t: TaskId) {
    && step.Worker? && step.call.ReportFailed? && step.call.t == t
    && LeasedTo(s.db, t, step.call.w)
  }

  lemma {:induction false} CountConcat(h: seq<Record>, x: seq<Record>, s: Status)
    ensures Count(h + x, s) == Count(h, s) + Count(x, s)
  {
    if x == [] {
      assert h + x == h;
    } else {
      var init, r := x[..|x| - 1], x[|x| - 1];
      CountConcat(h, init, s);
      CountAppend(h + init, r, s);
      assert h + x == h + init + [r];
    }
  }

  lemma FailedReportCounts(db: Db, t: TaskId, w: NodeId, error: string, u: TaskId)
    requires Consistent(db) && u in db.tasks
    ensures var d := After(db, MarkFailed(db, t, w, error));
            u in d.history &&
            Count(d.history[u], Failed) ==
            Count(db.history[u], Failed) + (if u == t && LeasedTo(db, t, w) then 1 else 0)
  {
    if LeasedTo(db, t, w) {
      LeaseAgreesWithStatus(db, t);
      var r := Record(Failed, Some(w), error);
      CountAppend(db.history[t], r, Failed);
      CountAppend(db.history[t] + [r], QUEUED, Failed);
    }
  }

  lemma OtherCallsDoNotCount(db: Db, call: Call, expiresAt: int, u: TaskId)
    requires Consistent(db) && u in db.tasks && !call.ReportFailed?
    ensures var d := After(db, WorkerCall(db, call, expiresAt));
            u in d.history && Count(d.history[u], Failed) == Count(db.history[u], Failed)
  {
    if u == call.t {
      var h := db.history[u];
      CountAppend(h, Entry(Running, Some(call.w)), Failed);
      CountAppend(h, Entry(Completed, Some(call.w)), Failed);
    }
  }

  lemma SchedulerDoesNotCount(s: Sys, tx: Tx, reached: bool, u: TaskId)
    requires u in s.db.history
    ensures var d := Advance(s, tx, reached).db;
            u in d.history && Count(d.history[u], Failed) == Count(s.db.history[u], Failed)
  {
    var x := SchedulerAppends(s, tx, reached, u);
    CountConcat(s.db.history[u], x, Failed);
    if |x| == 1 {
      CountAppend([], x[0], Failed);
      assert x == [] + [x[0]];
    } else if |x| == 2 {
      CountAppend([], x[0], Failed);
      CountAppend([] + [x[0]], x[1], Failed);
      assert x == [] + [x[0]] + [x[1]];
    }
  }

  /** How many steps of the run consumed task t's budget. */
  ghost function Consumptions(s: Sys, steps: seq<Step>, t: TaskId): nat {
    if steps == [] then 0
    else
      var init, step := steps[..|steps| - 1], steps[|steps| - 1];
      Consumptions(s, init, t) + (if ConsumesBudget(Exec(s, init), step, t) then 1 else 0)
  }

  lemma StepCounts(s: Sys, step: Step, t: TaskId)
    requires SysOk(s) && t in s.db.tasks
    ensures t in Do(s, step).db.history
    ensures Count(Do(s, step).db.history[t], Failed) ==
            Count(s.db.history[t], Failed) + (if ConsumesBudget(s, step, t) then 1 else 0)
  {
    match step
    case Worker(call) =>
      if call.ReportFailed? {
        FailedReportCounts(s.db, call.t, call.w, call.error, t);
      } else {
        OtherCallsDoNotCount(s.db, call, Expiry(s), t);
      }
    case Proceed(tx, reached) => SchedulerDoesNotCount(s, tx, reached, t);
    case _ =>
  }

  /** FAILED records are exactly the failure reports accepted from lease holders; worker loss and recovery add none. */
  lemma {:induction false} OnlyFailuresConsumeBudget(s: Sys, steps: seq<Step>, t: TaskId)
    requires SysOk(s) && t in s.db.tasks
    ensures t in Exec(s, steps).db.history
    ensures Count(Exec(s, steps).db.history[t], Failed) == Count(s.db.history[t], Failed) + Consumptions(s, steps, t)
  {
    if steps != [] {
      var init := steps[..|steps| - 1];
      RunExtends(s, init);
      OnlyFailuresConsumeBudget(s, init, t);
      StepCounts(Exec(s, init), steps[|steps| - 1], t);
    }
  }

  // ---- recovery ---------------------------------------------------------------------------

  /**
    A takeover tick whose two leadership sweeps took effect has, the moment its expiry sweep takes effect,
    left no task behind, whatever the workers did in between; the leader is not among the alive workers.
   */
  lemma TakeoverTickLosesNothing(s: Sys, tx: Tx, reached: bool)
    requires SysOk(s) && s.pc.SweepExpired? && s.pc.swept && tx != Rollback
    ensures s.pc.self !in s.pc.alive
    ensures NoTaskLost(Advance(s, tx, reached).db, s.pc.alive, s.now)
  {
    var d := Advance(s, tx, reached).db;
    LosingIsGentle(s.db, ExpiredTasks(s.db, s.now), EXPIRED);
    forall t | t in d.leases
      ensures d.leases[t].worker in s.pc.alive && d.leases[t].expiresAt >= s.now
    {
      assert t in s.db.leases && t !in ExpiredTasks(s.db, s.now);
    }
    NothingLeftBehind(d, s.pc.alive, s.now);
  }

  predicate InBatch(pc: Pc, t: TaskId) {
    (pc.NextTask? || pc.Assign? || pc.Send? || pc.GiveUp?) && t in pc.ids
  }

  lemma CallsNeedLease(db: Db, call: Call, expiresAt: int, t: TaskId)
    requires t in db.history && t !in db.leases
    ensures var d := After(db, WorkerCall(db, call, expiresAt)); t in d.history && d.history[t] == db.history[t]
  {
  }

  lemma SweepMovesScheduling(s: Sys, tx: Tx, reached: bool, t: TaskId)
    requires WellKeyed(s.db) && LatestIn(s.db, t, {Scheduling}) && t !in s.db.leases
    requires s.pc.SweepStale? || s.pc.SweepDead? || s.pc.SweepExpired?
    ensures var d := Advance(s, tx, reached).db;
            t in d.history && (d.history[t] != s.db.history[t] <==> s.pc.SweepStale? && tx != Rollback)
  {
    assert s.db.history[t] != s.db.history[t] + [Record(Queued, None, STALE)];
  }

  lemma DispatchSkipsOthers(s: Sys, tx: Tx, reached: bool, t: TaskId)
    requires t in s.db.history && (s.pc.Assign? || s.pc.GiveUp?) && t !in s.pc.ids
    ensures var d := Advance(s, tx, reached).db; t in d.history && d.history[t] == s.db.history[t]
  {
  }

  lemma ClaimSkipsScheduling(s: Sys, tx: Tx, reached: bool, t: TaskId)
    requires LatestIn(s.db, t, {Scheduling}) && s.pc.ClaimTasks?
    ensures var e := Advance(s, tx, reached);
            t in e.db.history && e.db.history[t] == s.db.history[t] && !InBatch(e.pc, t)
  {
    var limit := Min(s.cfg.batchSize, |s.pc.free|);
    if limit >= 0 {
      var ids := SelectQueued(s.db, limit);
      ClaimTakesOldest(s.db, limit, ids);
      assert !Eligible(s.db, t);
      assert t !in ids;
    }
  }

  /**
    A SCHEDULING task outside the current batch is moved on by a leadership sweep and by nothing else:
    `didLeaderRecovery` suppresses that sweep in all later ticks of the same leader.
   */
  lemma OnlyTakeoverRequeues(s: Sys, step: Step, t: TaskId)
    requires SysOk(s) && LatestIn(s.db, t, {Scheduling}) && !InBatch(s.pc, t)
    ensures t in Do(s, step).db.history
    ensures Do(s, step).db.history[t] != s.db.history[t] <==>
            s.pc.SweepStale? && step.Proceed? && step.tx != Rollback
    ensures !InBatch(Do(s, step).pc, t)
  {
    LeaseAgreesWithStatus(s.db, t);
    match step
    case Worker(call) => CallsNeedLease(s.db, call, Expiry(s), t);
    case Proceed(tx, reached) =>
      if s.pc.SweepStale? || s.pc.SweepDead? || s.pc.SweepExpired? {
        SweepMovesScheduling(s, tx, reached, t);
      } else if s.pc.ClaimTasks? {
        ClaimSkipsScheduling(s, tx, reached, t);
      } else if s.pc.Assign? || s.pc.GiveUp? {
        DispatchSkipsOthers(s, tx, reached, t);
      }
    case _ =>
  }

  /** Such a task stays SCHEDULING through any run in which no leadership sweep comes up. */
  lemma {:induction false} StrandedWithoutSweep(s: Sys, steps: seq<Step>, t: TaskId)
    requires SysOk(s) && LatestIn(s.db, t, {Scheduling}) && !InBatch(s.pc, t)
    requires forall n :: 0 <= n < |steps| ==> !Exec(s, steps[..n]).pc.SweepStale?
    ensures t in Exec(s, steps).db.history && Exec(s, steps).db.history[t] == s.db.history[t]
    ensures !InBatch(Exec(s, steps).pc, t)
  {
    if steps != [] {
      var init := steps[..|steps| - 1];
      assert forall n :: 0 <= n < |init| ==> init[..n] == steps[..n];
      RunExtends(s, init);
      StrandedWithoutSweep(s, init, t);
      OnlyTakeoverRequeues(Exec(s, init), steps[|steps| - 1], t);
    }
  }

  /** Node `self` stays in office: it ticks as leader and nobody else does, and it is not restarted. */
  predicate LeadsThroughout(steps: seq<Step>, self: NodeId) {
    forall i :: 0 <= i < |steps| ==>
      && steps[i] != Restart(self)
      && (steps[i].StartTick? ==> (steps[i].leads <==> steps[i].self == self))
  }

  /** A leader that has done its recovery does not do it again. */
  lemma RecoveredStays(s: Sys, step: Step, self: NodeId)
    requires EngineOf(s, self).recovered && !s.pc.SweepStale? && LeadsThroughout([step], self)
    ensures EngineOf(Do(s, step), self).recovered && !Do(s, step).pc.SweepStale?
  {
    assert [step][0] == step;
  }

  lemma {:induction false} NoSweepWhileLeading(s: Sys, steps: seq<Step>, self: NodeId)
    requires EngineOf(s, self).recovered && !s.pc.SweepStale? && LeadsThroughout(steps, self)
    ensures EngineOf(Exec(s, steps), self).recovered && !Exec(s, steps).pc.SweepStale?
  {
    if steps != [] {
      var init, step := steps[..|steps| - 1], steps[|steps| - 1];
      NoSweepWhileLeading(s, init, self);
      RecoveredStays(Exec(s, init), step, self);
    }
  }

  /**
    Once the leader has done its recovery, a task left SCHEDULING outside its batch stays so for as long as that
    leader stays in office, whatever else happens.
   */
  lemma StrandedUntilTakeover(s: Sys, steps: seq<Step>, t: TaskId, self: NodeId)
    requires SysOk(s) && LatestIn(s.db, t, {Scheduling}) && !InBatch(s.pc, t)
    requires EngineOf(s, self).recovered && !s.pc.SweepStale? && LeadsThroughout(steps, self)
    ensures t in Exec(s, steps).db.history && Exec(s, steps).db.history[t] == s.db.history[t]
  {
    forall n | 0 <= n < |steps|
      ensures !Exec(s, steps[..n]).pc.SweepStale?
    {
      NoSweepWhileLeading(s, steps[..n], self);
    }
    StrandedWithoutSweep(s, steps, t);
  }

  /**
    A node out of office, or restarted, sweeps again when it next ticks as leader with workers around; one that stayed
    in office does not.
   */
  lemma TakeoverSweepsAgain(s: Sys, self: NodeId, before: Step, members: set<NodeId>)
    requires s.pc.Idle? && members - {self} != {}
    ensures var b := Do(Do(s, before), StartTick(self, true, members));
            && ((before == Restart(self) || (before.StartTick? && before.self == self && !before.leads)) ==>
                  b.pc == SweepStale(self, members - {self}))
            && (before.Elapse? && EngineOf(s, self).recovered ==> b.pc == SweepExpired(self, members - {self}, false))
  {
  }

  /** One queued task, nothing leased. */
  const ONE_TASK := Db(map[0 := Task(1, 0)], map[0 := [QUEUED]], map[])

  /** A reachable state about to run its leadership sweeps. */
  lemma FirstTick(cfg: Config) returns (s: Sys)
    ensures Reachable(s) && s == Sys(cfg, ONE_TASK, 0, map[], SweepStale(1, {2}))
  {
    s := Boot(cfg, 0);
    assert s == Exec(Boot(cfg, 0), []);
    ReachableStep(s, Submit(0, Task(1, 0)));
    s := Do(s, Submit(0, Task(1, 0)));
    ReachableStep(s, StartTick(1, true, {2}));
    var alive: set<NodeId> := {2};
    assert alive - {1} == alive;
    s := Do(s, StartTick(1, true, alive));
  }

  /** A reachable state about to claim its only task, with the leadership sweeps already done. */
  lemma FirstClaim(cfg: Config) returns (s: Sys)
    requires cfg.batchSize > 0
    ensures Reachable(s) && s == Sys(cfg, ONE_TASK, 0, map[1 := Engine(true, 0)], ClaimTasks(1, {2}))
  {
    s := FirstTick(cfg);
    ReachableStep(s, Proceed(Commit, true));
    s := Do(s, Proceed(Commit, true));
    assert s.db == ONE_TASK;
    ReachableStep(s, Proceed(Commit, true));
    s := Do(s, Proceed(Commit, true));
    assert s.db == ONE_TASK;
    ReachableStep(s, Proceed(Commit, true));
    s := Do(s, Proceed(Commit, true));
    assert s.db == ONE_TASK;
    ReachableStep(s, Proceed(Commit, true));
    var alive: set<NodeId> := {2};
    assert alive - Busy(ONE_TASK) == alive;
    assert s.engines == map[1 := Engine(true, 0)];
    s := Do(s, Proceed(Commit, true));
  }

  /** A claim whose acknowledgement is lost leaves such a task behind with the leadership sweep already spent. */
  lemma StrandingHappens(cfg: Config) returns (s: Sys)
    requires cfg.batchSize > 0
    ensures Reachable(s) && s.pc == Idle && EngineOf(s, 1).recovered && LatestIn(s.db, 0, {Scheduling})
  {
    var c := FirstClaim(cfg);
    var h := [QUEUED];
    CountAppend([], QUEUED, Failed);
    assert h == [] + [QUEUED];
    assert EligibleTasks(c.db) == {0};
    ClaimTakesOldest(c.db, 1, [0]);
    ReachableStep(c, Proceed(Unacked, true));
    s := Do(c, Proceed(Unacked, true));
    assert s.db.history[0] == h + [Entry(Scheduling, Some(1))];
  }
}
