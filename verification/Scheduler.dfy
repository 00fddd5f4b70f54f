/**
  The cluster around the store: one scheduler tick at a time, advancing by single transactions and
  calls, interleaved with arbitrary worker calls, submissions, the clock and node restarts.
  A run is a sequence of steps; a step that is not enabled leaves the state as it is.
 */
module Scheduler {
  import opened Tasks
  import opened Operations
  import opened StoreInvariant
  import opened Claim
  import opened RoundRobin

  datatype Config = Config(batchSize: int, leaseDuration: int)

  /** What one node's scheduler remembers between ticks. */
  datatype Engine = Engine(recovered: bool, counter: nat)

  const FRESH := Engine(false, 0)

  /** Where the current tick stands: the next thing it will do. */
  datatype Pc =
    | Idle
    | SweepStale(self: NodeId, alive: set<NodeId>)
    | SweepDead(self: NodeId, alive: set<NodeId>, staleDone: bool)
    | SweepExpired(self: NodeId, alive: set<NodeId>, swept: bool)
    | ListFree(self: NodeId, alive: set<NodeId>, swept: bool)
    | ClaimTasks(self: NodeId, free: set<NodeId>)
    | NextTask(self: NodeId, free: set<NodeId>, ids: seq<TaskId>, i: nat)
    | Assign(self: NodeId, free: set<NodeId>, ids: seq<TaskId>, i: nat, w: NodeId)
    | Send(self: NodeId, free: set<NodeId>, ids: seq<TaskId>, i: nat, w: NodeId)
    | GiveUp(self: NodeId, free: set<NodeId>, ids: seq<TaskId>, i: nat, w: NodeId)

  datatype Sys = Sys(cfg: Config, db: Db, now: int, engines: map<NodeId, Engine>, pc: Pc)

  /** How a transaction ends: committed, rolled back, or committed with the reply lost. */
  datatype Tx = Commit | Rollback | Unacked

  datatype Call =
    | Renew(t: TaskId, w: NodeId)
    | ReportRunning(t: TaskId, w: NodeId)
    | ReportCompleted(t: TaskId, w: NodeId)
    | ReportFailed(t: TaskId, w: NodeId, error: string)

  datatype Step =
    | Submit(t: TaskId, task: Task)
    | Elapse(d: nat)
    | Worker(call: Call)
    | StartTick(self: NodeId, leads: bool, members: set<NodeId>)
    | Proceed(tx: Tx, reached: bool)
    | Restart(n: NodeId)

  function EngineOf(s: Sys, n: NodeId): Engine {
    if n in s.engines then s.engines[n] else FRESH
  }

  function WorkerCall(db: Db, call: Call, expiresAt: int): Outcome {
    match call
    case Renew(t, w) => RenewLease(db, t, w, expiresAt)
    case ReportRunning(t, w) => MarkRunning(db, t, w)
    case ReportCompleted(t, w) => MarkCompleted(db, t, w)
    case ReportFailed(t, w, error) => MarkFailed(db, t, w, error)
  }

  function Expiry(s: Sys): int {
    s.now + LeaseSpan(s.cfg.leaseDuration)
  }

  function Busy(db: Db): set<NodeId> {
    set t | t in db.leases :: db.leases[t].worker
  }

  function Min(a: int, b: int): int {
    if a < b then a else b
  }

  /** `d` if the transaction took effect, else `db`. */
  function Settle(tx: Tx, db: Db, d: Db): Db {
    if tx == Rollback then db else d
  }

  ghost function Do(s: Sys, step: Step): Sys {
    match step
    case Submit(t, task) =>
      if t in s.db.tasks then s
      else s.(db := s.db.(tasks := s.db.tasks[t := task], history := s.db.history[t := [QUEUED]]))
    case Elapse(d) => s.(now := s.now + d)
    case Worker(call) => s.(db := After(s.db, WorkerCall(s.db, call, Expiry(s))))
    case StartTick(self, leads, members) => Begin(s, self, leads, members - {self})
    case Proceed(tx, reached) => Advance(s, tx, reached)
    case Restart(n) =>
      s.(engines := s.engines - {n}, pc := if s.pc.Idle? || s.pc.self != n then s.pc else Idle)
  }

  function Begin(s: Sys, self: NodeId, leads: bool, alive: set<NodeId>): Sys {
    var e := EngineOf(s, self);
    if !s.pc.Idle? && (leads || s.pc.self == self) then s
    else if !leads then s.(engines := s.engines[self := e.(recovered := false)])
    else if alive == {} then s
    else s.(pc := if e.recovered then SweepExpired(self, alive, false) else SweepStale(self, alive))
  }

  ghost function Advance(s: Sys, tx: Tx, reached: bool): Sys {
    match s.pc
    case Idle => s
    case SweepStale(self, alive) =>
      s.(db := Settle(tx, s.db, RecoverStaleScheduling(s.db)), pc := SweepDead(self, alive, tx != Rollback))
    case SweepDead(self, alive, staleDone) =>
      s.(db := Settle(tx, s.db, RecoverDeadWorkerLeases(s.db, alive)),
         engines := s.engines[self := EngineOf(s, self).(recovered := true)],
         pc := SweepExpired(self, alive, staleDone && tx != Rollback))
    case SweepExpired(self, alive, swept) =>
      s.(db := Settle(tx, s.db, RecoverExpiredLeases(s.db, s.now)),
         pc := if tx == Commit then ListFree(self, alive, swept) else Idle)
    case ListFree(self, alive, _) =>
      var free := alive - Busy(s.db);
      s.(pc := if tx == Commit && free != {} && s.cfg.batchSize != 0 then ClaimTasks(self, free) else Idle)
    case ClaimTasks(self, free) =>
      var limit := Min(s.cfg.batchSize, |free|);
      if limit < 0 then s.(pc := Idle)
      else
        var ids := SelectQueued(s.db, limit);
        s.(db := Settle(tx, s.db, Schedule(s.db, ids, self)),
           pc := if tx == Commit && ids != [] then NextTask(self, free, ids, 0) else Idle)
    case NextTask(self, free, ids, i) =>
      if i >= |ids| || free == {} then s.(pc := Idle)
      else
        var e := EngineOf(s, self);
        s.(engines := s.engines[self := e.(counter := e.counter + 1)],
           pc := Assign(self, free, ids, i, Chosen(free, e.counter)))
    case Assign(self, free, ids, i, w) =>
      if i >= |ids| then s.(pc := Idle)
      else
        var o := MarkAssigned(s.db, ids[i], w, Expiry(s));
        s.(db := Settle(tx, s.db, After(s.db, o)),
           pc := if tx == Commit && o.Accepted? then Send(self, free, ids, i, w) else NextTask(self, free, ids, i + 1))
    case Send(self, free, ids, i, w) =>
      s.(pc := if reached then NextTask(self, free, ids, i + 1) else GiveUp(self, free, ids, i, w))
    case GiveUp(self, free, ids, i, w) =>
      if i >= |ids| then s.(pc := Idle)
      else
        s.(db := Settle(tx, s.db, After(s.db, MarkWorkerLost(s.db, ids[i], w, "dispatch failed"))),
           pc := NextTask(self, free, ids, i + 1))
  }

  function Boot(cfg: Config, now: int): Sys {
    Sys(cfg, Db(map[], map[], map[]), now, map[], Idle)
  }

  ghost function Exec(s: Sys, steps: seq<Step>): Sys {
    if steps == [] then s else Do(Exec(s, steps[..|steps| - 1]), steps[|steps| - 1])
  }

  lemma ExecSnoc(s: Sys, steps: seq<Step>, step: Step)
    ensures Exec(s, steps + [step]) == Do(Exec(s, steps), step)
  {
    assert (steps + [step])[..|steps|] == steps;
  }

  lemma {:induction false} ExecConcat(s: Sys, a: seq<Step>, b: seq<Step>)
    ensures Exec(s, a + b) == Exec(Exec(s, a), b)
  {
    if b == [] {
      assert a + b == a;
    } else {
      var init, step := b[..|b| - 1], b[|b| - 1];
      ExecConcat(s, a, init);
      ExecSnoc(s, a + init, step);
      assert a + b == a + init + [step];
    }
  }

  lemma ExecOne(s: Sys, step: Step)
    ensures Exec(s, [step]) == Do(s, step)
  {
    ExecSnoc(s, [], step);
    assert [] + [step] == [step];
  }

  // ---- invariant --------------------------------------------------------------------------

  ghost predicate NothingScheduling(db: Db) {
    forall t :: t in db.history ==> !LatestIn(db, t, {Scheduling})
  }

  ghost predicate AllHoldersIn(db: Db, alive: set<NodeId>) {
    forall t :: t in db.leases ==> db.leases[t].worker in alive
  }

  /** Every leased worker of the snapshot `free` was chosen at a counter in [lo, hi). */
  ghost predicate OnlyChosen(db: Db, free: set<NodeId>, lo: int, hi: int)
    requires free != {}
  {
    forall t :: t in db.leases && db.leases[t].worker in free ==> ChosenBetween(free, lo, hi, db.leases[t].worker)
  }

  ghost predicate ChosenBetween(free: set<NodeId>, lo: int, hi: int, w: NodeId)
    requires free != {}
  {
    exists c: nat :: lo <= c < hi && Chosen(free, c) == w
  }

  ghost predicate Swept(db: Db, alive: set<NodeId>) {
    NothingScheduling(db) && AllHoldersIn(db, alive)
  }

  ghost predicate PcOk(pc: Pc, db: Db, counter: nat) {
    match pc
    case Idle => true
    case SweepStale(self, alive) => self !in alive
    case SweepDead(self, alive, staleDone) => self !in alive && (staleDone ==> NothingScheduling(db))
    case SweepExpired(self, alive, swept) => self !in alive && (swept ==> Swept(db, alive))
    case ListFree(self, alive, swept) => self !in alive && (swept ==> Swept(db, alive))
    case ClaimTasks(_, free) => free != {} && OnlyChosen(db, free, 0, 0)
    case NextTask(_, free, ids, i) =>
      free != {} && i <= |ids| <= |free| && i <= counter && OnlyChosen(db, free, counter - i, counter)
    case Assign(_, free, ids, i, w) =>
      && free != {} && i < |ids| <= |free| && i < counter
      && w == Chosen(free, counter - 1) && OnlyChosen(db, free, counter - 1 - i, counter - 1)
    case Send(_, free, ids, i, w) => InFlight(db, free, ids, i, w, counter)
    case GiveUp(_, free, ids, i, w) => InFlight(db, free, ids, i, w, counter)
  }

  /** Task i of the batch was assigned to `w`; if it still has a lease, the lease is w's. */
  ghost predicate InFlight(db: Db, free: set<NodeId>, ids: seq<TaskId>, i: nat, w: NodeId, counter: nat) {
    && free != {} && i < |ids| <= |free| && i < counter
    && w == Chosen(free, counter - 1) && OnlyChosen(db, free, counter - 1 - i, counter)
    && (ids[i] in db.leases ==> db.leases[ids[i]].worker == w)
  }

  function CounterOf(s: Sys): nat {
    if s.pc.Idle? then 0 else EngineOf(s, s.pc.self).counter
  }

  ghost predicate SysOk(s: Sys) {
    Consistent(s.db) && OneLeasePerWorker(s.db) && PcOk(s.pc, s.db, CounterOf(s))
  }

  // ---- what interference may do -----------------------------------------------------------

  /** No lease appears or changes hands, and nothing becomes SCHEDULING. */
  ghost predicate Gentle(db: Db, d: Db) {
    && (forall t :: t in d.leases ==> t in db.leases && d.leases[t].worker == db.leases[t].worker)
    && (forall t :: LatestIn(d, t, {Scheduling}) ==> LatestIn(db, t, {Scheduling}))
  }

  lemma GentleKeepsPc(pc: Pc, db: Db, d: Db, counter: nat)
    requires PcOk(pc, db, counter) && Gentle(db, d)
    ensures PcOk(pc, d, counter)
  {
  }

  lemma GentleKeepsOneLease(db: Db, d: Db)
    requires OneLeasePerWorker(db) && Gentle(db, d)
    ensures OneLeasePerWorker(d)
  {
  }

  /** New records for one task, the last not SCHEDULING, and at most that task's lease dropped. */
  lemma GentleAt(db: Db, d: Db, t: TaskId, h: seq<Record>)
    requires t in db.history && h != [] && h[|h| - 1].status != Scheduling
    requires d.history == db.history[t := h]
    requires d.leases == db.leases || d.leases == db.leases - {t}
    ensures Gentle(db, d)
  {
  }

  lemma FailureIsGentle(db: Db, t: TaskId, w: NodeId, error: string)
    requires Consistent(db)
    ensures Gentle(db, After(db, MarkFailed(db, t, w, error)))
  {
    var o := MarkFailed(db, t, w, error);
    if o.Accepted? {
      GentleAt(db, o.db, t, o.db.history[t]);
    }
  }

  lemma LossIsGentle(db: Db, t: TaskId, w: NodeId, error: string)
    requires Consistent(db)
    ensures Gentle(db, After(db, MarkWorkerLost(db, t, w, error)))
  {
    var o := MarkWorkerLost(db, t, w, error);
    if o.Accepted? {
      GentleAt(db, o.db, t, o.db.history[t]);
    }
  }

  lemma WorkerCallIsGentle(db: Db, call: Call, expiresAt: int)
    requires Consistent(db)
    ensures Gentle(db, After(db, WorkerCall(db, call, expiresAt)))
  {
    var o := WorkerCall(db, call, expiresAt);
    match call
    case Renew(_, _) =>
    case ReportRunning(t, _) =>
      if o.Accepted? {
        GentleAt(db, o.db, t, o.db.history[t]);
      }
    case ReportCompleted(t, _) =>
      if o.Accepted? {
        GentleAt(db, o.db, t, o.db.history[t]);
      }
    case ReportFailed(t, w, error) => FailureIsGentle(db, t, w, error);
  }

  lemma WorkerCallKeeps(db: Db, call: Call, expiresAt: int)
    requires Consistent(db)
    ensures Consistent(After(db, WorkerCall(db, call, expiresAt)))
  {
    match call
    case Renew(t, w) => RenewKeeps(db, t, w, expiresAt);
    case ReportRunning(t, w) => RunningKeeps(db, t, w);
    case ReportCompleted(t, w) => CompletedKeeps(db, t, w);
    case ReportFailed(t, w, error) => FailedKeeps(db, t, w, error);
  }

  lemma LosingIsGentle(db: Db, ts: set<TaskId>, error: string)
    requires Consistent(db)
    ensures var d := LoseLeases(db, ts, error); Gentle(db, d) && Consistent(d)
  {
    LoseLeasesKeeps(db, ts, error);
  }

  lemma RequeueIsGentle(db: Db)
    requires Consistent(db)
    ensures var d := RecoverStaleScheduling(db); Gentle(db, d) && Consistent(d) && NothingScheduling(d)
  {
    StaleKeeps(db);
    var d := RecoverStaleScheduling(db);
    forall t | t in d.history
      ensures !LatestIn(d, t, {Scheduling})
    {
      LeaseAgreesWithStatus(db, t);
    }
  }

  // ---- the scheduler's own steps ----------------------------------------------------------

  lemma ClaimKeeps(s: Sys, tx: Tx)
    requires SysOk(s) && s.pc.ClaimTasks?
    ensures SysOk(Advance(s, tx, true)) && Advance(s, tx, false) == Advance(s, tx, true)
  {
    var limit := Min(s.cfg.batchSize, |s.pc.free|);
    if limit >= 0 {
      var ids := SelectQueued(s.db, limit);
      ClaimTakesOldest(s.db, limit, ids);
      ScheduleKeeps(s.db, ids, s.pc.self);
    }
  }

  lemma NextKeeps(s: Sys, tx: Tx, reached: bool)
    requires SysOk(s) && s.pc.NextTask?
    ensures SysOk(Advance(s, tx, reached))
  {
  }

  /** The chosen worker holds no lease: it was free at the snapshot and is chosen once per tick. */
  lemma ChosenIsUnleased(s: Sys)
    requires SysOk(s) && s.pc.Assign?
    ensures forall t :: t in s.db.leases ==> s.db.leases[t].worker != s.pc.w
  {
    var counter, free := CounterOf(s), s.pc.free;
    forall c: nat | counter - 1 - s.pc.i <= c < counter - 1
      ensures Chosen(free, c) != s.pc.w
    {
      DistinctWithinRound(free, c, counter - 1);
    }
  }

  /** Granting an unleased worker a lease on a SCHEDULING task. */
  lemma GrantKeepsOneLease(db: Db, t: TaskId, w: NodeId, expiresAt: int)
    requires OneLeasePerWorker(db)
    requires forall u :: u in db.leases ==> db.leases[u].worker != w
    ensures OneLeasePerWorker(After(db, MarkAssigned(db, t, w, expiresAt)))
  {
  }

  lemma GrantWidensWindow(db: Db, t: TaskId, w: NodeId, expiresAt: int, free: set<NodeId>, lo: nat, hi: nat)
    requires free != {} && lo <= hi && w == Chosen(free, hi) && OnlyChosen(db, free, lo, hi)
    ensures OnlyChosen(db, free, lo, hi + 1)
    ensures OnlyChosen(After(db, MarkAssigned(db, t, w, expiresAt)), free, lo, hi + 1)
  {
    assert ChosenBetween(free, lo, hi + 1, w);
    forall u | u in db.leases && db.leases[u].worker in free
      ensures ChosenBetween(free, lo, hi + 1, db.leases[u].worker)
    {
      assert ChosenBetween(free, lo, hi, db.leases[u].worker);
    }
    var d := After(db, MarkAssigned(db, t, w, expiresAt));
    assert forall u :: u in d.leases ==> d.leases[u].worker == w || (u in db.leases && d.leases[u] == db.leases[u]);
  }

  lemma AssignKeeps(s: Sys, tx: Tx, reached: bool)
    requires SysOk(s) && s.pc.Assign?
    ensures SysOk(Advance(s, tx, reached))
  {
    var t, w, counter := s.pc.ids[s.pc.i], s.pc.w, CounterOf(s);
    ChosenIsUnleased(s);
    AssignedKeeps(s.db, t, w, Expiry(s));
    GrantKeepsOneLease(s.db, t, w, Expiry(s));
    GrantWidensWindow(s.db, t, w, Expiry(s), s.pc.free, counter - 1 - s.pc.i, counter - 1);
  }

  /** The unguarded call after a failed dispatch takes effect exactly when the named worker still owns the lease. */
  lemma GiveUpOnlyHitsOwner(s: Sys)
    requires SysOk(s) && s.pc.GiveUp?
    ensures MarkWorkerLost(s.db, s.pc.ids[s.pc.i], s.pc.w, "dispatch failed").Accepted? <==>
            LeasedTo(s.db, s.pc.ids[s.pc.i], s.pc.w)
  {
    var t := s.pc.ids[s.pc.i];
    if t in s.db.tasks {
      LeaseAgreesWithStatus(s.db, t);
    }
  }

  lemma GiveUpKeeps(s: Sys, tx: Tx, reached: bool)
    requires SysOk(s) && s.pc.GiveUp?
    ensures SysOk(Advance(s, tx, reached))
  {
    var t := s.pc.ids[s.pc.i];
    var d := Advance(s, tx, reached).db;
    WorkerLostKeeps(s.db, t, s.pc.w, "dispatch failed");
    LossIsGentle(s.db, t, s.pc.w, "dispatch failed");
    assert Gentle(s.db, d);
    GentleKeepsOneLease(s.db, d);
    GentleKeepsPc(s.pc, s.db, d, CounterOf(s));
  }

  lemma SweepKeeps(s: Sys, tx: Tx, reached: bool)
    requires SysOk(s) && (s.pc.SweepStale? || s.pc.SweepDead? || s.pc.SweepExpired?)
    ensures SysOk(Advance(s, tx, reached))
  {
    var d := Advance(s, tx, reached).db;
    RequeueIsGentle(s.db);
    LosingIsGentle(s.db, DeadTasks(s.db, s.pc.alive), NOT_ALIVE);
    LosingIsGentle(s.db, ExpiredTasks(s.db, s.now), EXPIRED);
    assert Gentle(s.db, d);
    GentleKeepsOneLease(s.db, d);
    GentleKeepsPc(s.pc, s.db, d, CounterOf(s));
  }

  lemma AdvanceKeeps(s: Sys, tx: Tx, reached: bool)
    requires SysOk(s)
    ensures SysOk(Advance(s, tx, reached))
  {
    match s.pc
    case Idle =>
    case SweepStale(_, _) => SweepKeeps(s, tx, reached);
    case SweepDead(_, _, _) => SweepKeeps(s, tx, reached);
    case SweepExpired(_, _, _) => SweepKeeps(s, tx, reached);
    case ListFree(_, _, _) =>
    case ClaimTasks(_, _) => ClaimKeeps(s, tx);
    case NextTask(_, _, _, _) => NextKeeps(s, tx, reached);
    case Assign(_, _, _, _, _) => AssignKeeps(s, tx, reached);
    case Send(_, _, _, _, _) =>
    case GiveUp(_, _, _, _, _) => GiveUpKeeps(s, tx, reached);
  }

  lemma StepKeeps(s: Sys, step: Step)
    requires SysOk(s)
    ensures SysOk(Do(s, step))
  {
    match step
    case Submit(t, task) =>
      if t !in s.db.tasks {
        InsertKeeps(s.db, t, task);
        assert Gentle(s.db, Do(s, step).db);
        GentleKeepsPc(s.pc, s.db, Do(s, step).db, CounterOf(s));
      }
    case Elapse(_) =>
    case Worker(call) =>
      WorkerCallIsGentle(s.db, call, Expiry(s));
      WorkerCallKeeps(s.db, call, Expiry(s));
      GentleKeepsOneLease(s.db, Do(s, step).db);
      GentleKeepsPc(s.pc, s.db, Do(s, step).db, CounterOf(s));
    case StartTick(_, _, _) =>
    case Proceed(tx, reached) => AdvanceKeeps(s, tx, reached);
    case Restart(_) =>
  }

  /** Every state of every run satisfies the invariant. */
  lemma {:induction false} RunsAreSafe(cfg: Config, now: int, steps: seq<Step>)
    ensures SysOk(Exec(Boot(cfg, now), steps))
  {
    if steps != [] {
      RunsAreSafe(cfg, now, steps[..|steps| - 1]);
      StepKeeps(Exec(Boot(cfg, now), steps[..|steps| - 1]), steps[|steps| - 1]);
    }
  }
}
