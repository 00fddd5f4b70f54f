/**
  What one tick of a leader does to the tables, stated from the tables before it, the members and the
  fate of its transactions and calls.
 */
module TickEffects {
  import opened Tasks
  import opened Operations
  import opened StoreInvariant
  import opened Claim
  import opened RoundRobin
  import opened Recovery
  import opened Scheduler
  import opened TickRun
  import opened BatchDispatch

  // ---- what a tick is to achieve ----------------------------------------------------------

  /** The sweeps of a tick that take effect; a leader that has done its recovery sweeps expired leases only. */
  function SweepsOf(recovered: bool, fate: Fate): set<Sweep> {
    (if !recovered && fate.stale != Rollback then {StaleSweep} else {}) +
    (if !recovered && fate.dead != Rollback then {DeadSweep} else {}) +
    (if fate.expired != Rollback then {ExpiredSweep} else {})
  }

  /** The tick gets as far as claiming, and its claim takes effect. */
  predicate Claims(fate: Fate) {
    fate.expired == Commit && fate.listing == Commit && fate.claim != Rollback
  }

  /** The workers no lease names. */
  function FreeIn(db: Db, alive: set<NodeId>): set<NodeId> {
    set w | w in alive && w !in (set t | t in db.leases :: db.leases[t].worker)
  }

  /** `ids` are the oldest eligible tasks, as many as the batch size and the free workers allow. */
  ghost predicate IsBatch(db: Db, alive: set<NodeId>, batchSize: int, ids: seq<TaskId>) {
    var free := |FreeIn(db, alive)|;
    IsCut(db, EligibleTasks(db), if batchSize < 0 then 0 else if batchSize < free then batchSize else free, ids)
  }

  /** The worker for the j-th task of a batch dispatched at counter c. */
  ghost function WorkerAt(free: set<NodeId>, c: nat, j: nat): NodeId
    requires free != {}
  {
    Chosen(free, c + j)
  }

  /** What becomes of the j-th task with worker v; nothing if the engine never learned of its claim. */
  function Received(fate: Fate, j: nat, v: NodeId): Reception {
    if fate.claim == Commit then ReceptionOf(fate, j, v) else Untouched
  }

  /** From `w` to `d` task t was marked SCHEDULING and handed to worker v. */
  ghost predicate Served(w: Db, d: Db, t: TaskId, self: NodeId, v: NodeId, expiresAt: int, r: Reception) {
    && t in w.history && t in d.history
    && d.history[t] == w.history[t] + [Entry(Scheduling, Some(self))] + Handing(v, r)
    && LeaseOf(d, t) == LeaseLeft(LeaseOf(w, t), v, expiresAt, r)
  }

  /** From `w` to `d` each task of `ids` was served by a free worker of its own, and nothing else happened. */
  ghost predicate Dispatched(w: Db, d: Db, self: NodeId, free: set<NodeId>, ids: seq<TaskId>, c: nat,
                             expiresAt: int, fate: Fate) {
    && d.tasks == w.tasks && (ids == [] || free != {})
    && (forall j :: 0 <= j < |ids| ==>
          var v := WorkerAt(free, c, j); v in free && Served(w, d, ids[j], self, v, expiresAt, Received(fate, j, v)))
    && (forall i, j :: 0 <= i < j < |ids| ==> WorkerAt(free, c, i) != WorkerAt(free, c, j))
    && (forall t :: t !in ids ==> Kept(w, d, t))
  }

  /**
    The effect of a tick of leader `self`, whatever its fate: from `s.db` to the swept tables, and from those to the
    final ones by serving the batch `ids`.
   */
  ghost predicate TickEffect(s: Sys, e: Sys, self: NodeId, alive: set<NodeId>, fate: Fate,
                             swept: Db, ids: seq<TaskId>)
    requires WellKeyed(s.db)
  {
    var free, c := FreeIn(swept, alive), EngineOf(s, self).counter;
    && IsSwept(s.db, swept, alive, s.now, SweepsOf(EngineOf(s, self).recovered, fate))
    && (if Claims(fate) then IsBatch(swept, alive, s.cfg.batchSize, ids) else ids == [])
    && Dispatched(swept, e.db, self, free, ids, c, Expiry(s), fate)
    && EngineOf(e, self) == Engine(true, if fate.claim == Commit then c + |ids| else c)
  }

  ghost predicate NoneExpired(db: Db, now: int) {
    forall t :: t in db.leases ==> db.leases[t].expiresAt >= now
  }

  // ---- the sweeps -------------------------------------------------------------------------

  /** The state right after a leader's tick has begun. */
  function Begun(s: Sys, self: NodeId, alive: set<NodeId>): Sys {
    s.(pc := if EngineOf(s, self).recovered then SweepExpired(self, alive, false) else SweepStale(self, alive))
  }

  /** `k` applied if it takes effect. */
  function Maybe(db: Db, alive: set<NodeId>, now: int, k: Sweep, tx: Tx): Db {
    if tx == Rollback then db else Apply(db, alive, now, k)
  }

  /** The tick of `self` has come to its expiry sweep, over the tables `db`. */
  ghost predicate AtExpiry(s: Sys, m: Sys, self: NodeId, alive: set<NodeId>, db: Db) {
    && m.pc.SweepExpired? && m.pc.self == self && m.pc.alive == alive && m.db == db
    && m.cfg == s.cfg && m.now == s.now && EngineOf(m, self) == Engine(true, EngineOf(s, self).counter)
  }

  /** It is past it: about to list the free workers, or at its end. */
  ghost predicate PastExpiry(s: Sys, m: Sys, self: NodeId, alive: set<NodeId>, db: Db, fate: Fate) {
    && m.db == db && m.cfg == s.cfg && m.now == s.now
    && EngineOf(m, self) == Engine(true, EngineOf(s, self).counter)
    && if fate.expired == Commit then m.pc.ListFree? && m.pc.self == self && m.pc.alive == alive else m.pc.Idle?
  }

  lemma ExpiredStep(s: Sys, m: Sys, fate: Fate, self: NodeId, alive: set<NodeId>, db: Db)
    requires AtExpiry(s, m, self, alive, db)
    ensures PastExpiry(s, Next(m, fate), self, alive, Maybe(db, alive, s.now, ExpiredSweep, fate.expired), fate)
  {
  }

  lemma StaleStep(b: Sys, fate: Fate)
    requires b.pc.SweepStale?
    ensures Next(b, fate) == b.(db := Maybe(b.db, b.pc.alive, b.now, StaleSweep, fate.stale),
                                pc := SweepDead(b.pc.self, b.pc.alive, fate.stale != Rollback))
  {
  }

  lemma DeadStep(s: Sys, a: Sys, fate: Fate)
    requires a.pc.SweepDead? && a.cfg == s.cfg && a.now == s.now && a.engines == s.engines
    ensures AtExpiry(s, Next(a, fate), a.pc.self, a.pc.alive, Maybe(a.db, a.pc.alive, a.now, DeadSweep, fate.dead))
  {
  }

  lemma TakeoverSteps(s: Sys, self: NodeId, alive: set<NodeId>, fate: Fate) returns (m: Sys, n: nat)
    requires !EngineOf(s, self).recovered
    ensures Drive(Begun(s, self, alive), fate, n) == m
    ensures AtExpiry(s, m, self, alive,
                     Maybe(Maybe(s.db, alive, s.now, StaleSweep, fate.stale), alive, s.now, DeadSweep, fate.dead))
  {
    var b := Begun(s, self, alive);
    var a := b.(db := Maybe(s.db, alive, s.now, StaleSweep, fate.stale),
                pc := SweepDead(self, alive, fate.stale != Rollback));
    StaleStep(b, fate);
    DeadStep(s, a, fate);
    DriveOne(b, fate);
    m := Next(a, fate);
    n := DriveStep(b, a, m, fate, 1);
  }

  lemma ApplyMaybe(db: Db, alive: set<NodeId>, now: int, ks: seq<Sweep>, k: Sweep, tx: Tx)
    ensures ApplyAll(db, alive, now, ks + if tx == Rollback then [] else [k]) ==
            Maybe(ApplyAll(db, alive, now, ks), alive, now, k, tx)
  {
    if tx == Rollback {
      assert ks + [] == ks;
    } else {
      assert (ks + [k])[..|ks|] == ks;
    }
  }

  lemma KindsMaybe(ks: seq<Sweep>, k: Sweep, tx: Tx)
    ensures Kinds(ks + if tx == Rollback then [] else [k]) == Kinds(ks) + if tx == Rollback then {} else {k}
  {
  }

  lemma FullSweepIs(db: Db, alive: set<NodeId>, now: int, fate: Fate)
    requires Consistent(db)
    ensures var a := Maybe(Maybe(db, alive, now, StaleSweep, fate.stale), alive, now, DeadSweep, fate.dead);
            IsSwept(db, Maybe(a, alive, now, ExpiredSweep, fate.expired), alive, now, SweepsOf(false, fate))
  {
    var k1 := [] + if fate.stale == Rollback then [] else [StaleSweep];
    var k2 := k1 + if fate.dead == Rollback then [] else [DeadSweep];
    var k3 := k2 + if fate.expired == Rollback then [] else [ExpiredSweep];
    ApplyMaybe(db, alive, now, [], StaleSweep, fate.stale);
    ApplyMaybe(db, alive, now, k1, DeadSweep, fate.dead);
    ApplyMaybe(db, alive, now, k2, ExpiredSweep, fate.expired);
    KindsMaybe([], StaleSweep, fate.stale);
    KindsMaybe(k1, DeadSweep, fate.dead);
    KindsMaybe(k2, ExpiredSweep, fate.expired);
    assert Kinds(k3) == SweepsOf(false, fate);
    SweepsHaveClosedForm(db, alive, now, k3);
  }

  lemma ExpirySweepIs(db: Db, alive: set<NodeId>, now: int, fate: Fate)
    requires Consistent(db)
    ensures IsSwept(db, Maybe(db, alive, now, ExpiredSweep, fate.expired), alive, now, SweepsOf(true, fate))
  {
    ApplyMaybe(db, alive, now, [], ExpiredSweep, fate.expired);
    KindsMaybe([], ExpiredSweep, fate.expired);
    SweepsHaveClosedForm(db, alive, now, [] + if fate.expired == Rollback then [] else [ExpiredSweep]);
    assert Kinds([]) + (if fate.expired == Rollback then {} else {ExpiredSweep}) == SweepsOf(true, fate);
  }

  lemma SweepsRun(s: Sys, self: NodeId, alive: set<NodeId>, fate: Fate) returns (m: Sys, swept: Db, n: nat)
    requires Consistent(s.db)
    ensures Drive(Begun(s, self, alive), fate, n) == m && PastExpiry(s, m, self, alive, swept, fate)
    ensures IsSwept(s.db, swept, alive, s.now, SweepsOf(EngineOf(s, self).recovered, fate))
  {
    var b := Begun(s, self, alive);
    var a, k := b, 0;
    if EngineOf(s, self).recovered {
      ExpirySweepIs(s.db, alive, s.now, fate);
      k := DriveNone(b, fate);
    } else {
      FullSweepIs(s.db, alive, s.now, fate);
      a, k := TakeoverSteps(s, self, alive, fate);
    }
    swept := Maybe(a.db, alive, s.now, ExpiredSweep, fate.expired);
    ExpiredStep(s, a, fate, self, alive, a.db);
    m := Next(a, fate);
    n := DriveStep(b, a, m, fate, k);
  }

  // ---- claim and dispatch -----------------------------------------------------------------

  lemma FreeIsFree(db: Db, alive: set<NodeId>)
    ensures alive - Busy(db) == FreeIn(db, alive)
  {
  }

  lemma EmptyBatch(db: Db, alive: set<NodeId>, batchSize: int)
    requires FreeIn(db, alive) == {} || batchSize <= 0
    ensures IsBatch(db, alive, batchSize, [])
  {
  }

  lemma NothingDispatched(db: Db, self: NodeId, free: set<NodeId>, c: nat, expiresAt: int, fate: Fate)
    ensures Dispatched(db, db, self, free, [], c, expiresAt, fate)
  {
  }

  lemma ClaimedAndServed(w: Db, d: Db, ids: seq<TaskId>, j: nat, self: NodeId, v: NodeId, expiresAt: int, r: Reception)
    requires j < |ids| && ids[j] in w.history && Handed(Schedule(w, ids, self), d, ids[j], v, expiresAt, r)
    ensures Served(w, d, ids[j], self, v, expiresAt, r)
  {
    assert ids[j] in Members(ids);
  }

  lemma UnclaimedIsKept(w: Db, d: Db, ids: seq<TaskId>, self: NodeId, t: TaskId)
    requires t !in ids && Kept(Schedule(w, ids, self), d, t)
    ensures Kept(w, d, t)
  {
  }

  lemma WorkersDiffer(free: set<NodeId>, c: nat, i: nat, j: nat)
    requires free != {} && i < j < |free|
    ensures WorkerAt(free, c, i) != WorkerAt(free, c, j)
  {
    DistinctWithinRound(free, c + i, c + j);
  }

  /** A batch that is handed out after being marked SCHEDULING has been served. */
  lemma ClaimedAndHanded(w: Db, d: Db, self: NodeId, free: set<NodeId>, ids: seq<TaskId>, c: nat,
                         expiresAt: int, fate: Fate)
    requires free != {} && |ids| <= |free| && (forall j :: 0 <= j < |ids| ==> ids[j] in w.history)
    requires fate.claim == Commit && HandedOut(Schedule(w, ids, self), d, ids, |ids|, free, c, expiresAt, fate)
    ensures Dispatched(w, d, self, free, ids, c, expiresAt, fate)
  {
    assert ids[..|ids|] == ids;
    forall j | 0 <= j < |ids|
      ensures var v := WorkerAt(free, c, j); v in free && Served(w, d, ids[j], self, v, expiresAt, Received(fate, j, v))
    {
      var v := Chosen(free, c + j);
      ClaimedAndServed(w, d, ids, j, self, v, expiresAt, ReceptionOf(fate, j, v));
    }
    forall i, j | 0 <= i < j < |ids|
      ensures WorkerAt(free, c, i) != WorkerAt(free, c, j)
    {
      WorkersDiffer(free, c, i, j);
    }
    forall t | t !in ids
      ensures Kept(w, d, t)
    {
      UnclaimedIsKept(w, d, ids, self, t);
    }
  }

  /** A batch whose claim was not acknowledged has been marked and nothing more. */
  lemma ClaimedOnly(w: Db, self: NodeId, free: set<NodeId>, ids: seq<TaskId>, c: nat, expiresAt: int, fate: Fate)
    requires free != {} && |ids| <= |free| && (forall j :: 0 <= j < |ids| ==> ids[j] in w.history)
    requires fate.claim != Commit
    ensures Dispatched(w, Schedule(w, ids, self), self, free, ids, c, expiresAt, fate)
  {
    var d := Schedule(w, ids, self);
    forall j | 0 <= j < |ids|
      ensures var v := WorkerAt(free, c, j); v in free && Served(w, d, ids[j], self, v, expiresAt, Untouched)
    {
      assert ids[j] in Members(ids);
      assert d.history[ids[j]] + [] == d.history[ids[j]];
    }
    forall i, j | 0 <= i < j < |ids|
      ensures WorkerAt(free, c, i) != WorkerAt(free, c, j)
    {
      WorkersDiffer(free, c, i, j);
    }
  }

  lemma ListStep(m: Sys, fate: Fate)
    requires m.pc.ListFree?
    ensures var free := FreeIn(m.db, m.pc.alive);
            Next(m, fate) ==
            m.(pc := if fate.listing == Commit && free != {} && m.cfg.batchSize != 0
                     then ClaimTasks(m.pc.self, free) else Idle)
  {
    FreeIsFree(m.db, m.pc.alive);
  }

  lemma FailedClaimStep(m: Sys, fate: Fate)
    requires fate.claim == Rollback && m.pc.ClaimTasks?
    ensures Next(m, fate) == m.(pc := Idle)
  {
  }

  /** What the claim leaves: the batch marked, and in hand if the engine learns of it and it is not empty. */
  lemma ClaimStep(m: Sys, fate: Fate, alive: set<NodeId>) returns (ids: seq<TaskId>)
    requires fate.claim != Rollback && WellKeyed(m.db) && m.pc.ClaimTasks? && m.pc.free == FreeIn(m.db, alive) != {}
    ensures IsBatch(m.db, alive, m.cfg.batchSize, ids) && |ids| <= |m.pc.free| && Distinct(ids)
    ensures forall j :: 0 <= j < |ids| ==> ids[j] in m.db.history
    ensures Next(m, fate) == m.(db := Schedule(m.db, ids, m.pc.self),
                                pc := if fate.claim == Commit && ids != [] then NextTask(m.pc.self, m.pc.free, ids, 0)
                                      else Idle)
    ensures AllScheduling(Schedule(m.db, ids, m.pc.self), ids)
  {
    var limit := Min(m.cfg.batchSize, |m.pc.free|);
    if limit < 0 {
      ids := [];
      EmptyBatch(m.db, alive, m.cfg.batchSize);
      assert Schedule(m.db, [], m.pc.self).history == m.db.history;
    } else {
      ids := SelectQueued(m.db, limit);
      ClaimTakesOldest(m.db, limit, ids);
      assert forall j :: 0 <= j < |ids| ==> ids[j] in EligibleTasks(m.db) && ids[j] in Members(ids);
    }
  }

  /** From the listing on: the rest of the tick. */
  lemma ListedTickRuns(s: Sys, m: Sys, fate: Fate, self: NodeId, alive: set<NodeId>, swept: Db)
    returns (e: Sys, ids: seq<TaskId>, n: nat)
    requires WellKeyed(swept) && fate.expired == Commit && PastExpiry(s, m, self, alive, swept, fate)
    ensures Drive(m, fate, n) == e && e.pc.Idle?
    ensures if Claims(fate) then IsBatch(swept, alive, s.cfg.batchSize, ids) else ids == []
    ensures Dispatched(swept, e.db, self, FreeIn(swept, alive), ids, EngineOf(s, self).counter, Expiry(s), fate)
    ensures var c := EngineOf(s, self).counter;
            EngineOf(e, self) == Engine(true, if fate.claim == Commit then c + |ids| else c)
  {
    var free, c := FreeIn(swept, alive), EngineOf(s, self).counter;
    ListStep(m, fate);
    DriveOne(m, fate);
    if fate.listing != Commit || free == {} || s.cfg.batchSize == 0 {
      e, ids, n := m.(pc := Idle), [], 1;
      NothingDispatched(swept, self, free, c, Expiry(s), fate);
      if fate.listing == Commit {
        EmptyBatch(swept, alive, s.cfg.batchSize);
      }
    } else {
      var a := m.(pc := ClaimTasks(self, free));
      var k;
      e, ids, k := ClaimedTickRuns(a, fate, alive);
      assert CounterOf(a) == c && Expiry(a) == Expiry(s);
      n := DriveThrough(m, a, e, fate, 1, k);
    }
  }

  lemma ClaimedTickRuns(m: Sys, fate: Fate, alive: set<NodeId>) returns (e: Sys, ids: seq<TaskId>, n: nat)
    requires WellKeyed(m.db) && m.pc.ClaimTasks? && m.pc.free == FreeIn(m.db, alive) != {}
    ensures Drive(m, fate, n) == e && e.pc.Idle?
    ensures if fate.claim != Rollback then IsBatch(m.db, alive, m.cfg.batchSize, ids) else ids == []
    ensures Dispatched(m.db, e.db, m.pc.self, m.pc.free, ids, CounterOf(m), Expiry(m), fate)
    ensures EngineOf(e, m.pc.self) ==
            EngineOf(m, m.pc.self).(counter := CounterOf(m) + if fate.claim == Commit then |ids| else 0)
  {
    DriveOne(m, fate);
    if fate.claim == Rollback {
      FailedClaimStep(m, fate);
      NothingDispatched(m.db, m.pc.self, m.pc.free, CounterOf(m), Expiry(m), fate);
      e, ids, n := m.(pc := Idle), [], 1;
    } else {
      ids := ClaimStep(m, fate, alive);
      var a := m.(db := Schedule(m.db, ids, m.pc.self), pc := NextTask(m.pc.self, m.pc.free, ids, 0));
      if fate.claim == Commit && ids != [] {
        var k;
        e, k := DispatchRuns(m, a, fate, ids);
        n := DriveThrough(m, a, e, fate, 1, k);
      } else {
        e, n := a.(pc := Idle), 1;
        MarkedOnly(m, fate, ids);
      }
    }
  }

  lemma MarkedOnly(m: Sys, fate: Fate, ids: seq<TaskId>)
    requires m.pc.ClaimTasks? && m.pc.free != {} && |ids| <= |m.pc.free| && (fate.claim != Commit || ids == [])
    requires forall j :: 0 <= j < |ids| ==> ids[j] in m.db.history
    ensures Dispatched(m.db, Schedule(m.db, ids, m.pc.self), m.pc.self, m.pc.free, ids, CounterOf(m), Expiry(m), fate)
  {
    if ids == [] {
      assert Schedule(m.db, ids, m.pc.self).history == m.db.history;
      NothingDispatched(m.db, m.pc.self, m.pc.free, CounterOf(m), Expiry(m), fate);
    } else {
      ClaimedOnly(m.db, m.pc.self, m.pc.free, ids, CounterOf(m), Expiry(m), fate);
    }
  }

  lemma DispatchRuns(m: Sys, a: Sys, fate: Fate, ids: seq<TaskId>) returns (e: Sys, n: nat)
    requires fate.claim == Commit && m.pc.ClaimTasks? && m.pc.free != {} && |ids| <= |m.pc.free| && Distinct(ids)
    requires forall j :: 0 <= j < |ids| ==> ids[j] in m.db.history
    requires a == m.(db := Schedule(m.db, ids, m.pc.self), pc := NextTask(m.pc.self, m.pc.free, ids, 0))
    requires AllScheduling(a.db, ids)
    ensures Drive(a, fate, n) == e && e.pc.Idle?
    ensures Dispatched(m.db, e.db, m.pc.self, m.pc.free, ids, CounterOf(m), Expiry(m), fate)
    ensures EngineOf(e, m.pc.self) == EngineOf(m, m.pc.self).(counter := CounterOf(m) + |ids|)
  {
    e, n := BatchIsHandedOut(a, fate);
    var free, c, expiresAt := m.pc.free, CounterOf(m), Expiry(m);
    assert CounterOf(a) == c && Expiry(a) == expiresAt && a.pc.ids == ids && a.pc.free == free;
    assert HandedOut(a.db, e.db, ids, |ids|, free, c, expiresAt, fate);
    ClaimedAndHanded(m.db, e.db, m.pc.self, free, ids, c, expiresAt, fate);
  }

  /** A tick has its effect, whatever its fate and however long it takes. */
  lemma TickHasEffect(s: Sys, self: NodeId, alive: set<NodeId>, fate: Fate, k: nat)
    returns (swept: Db, ids: seq<TaskId>)
    requires Consistent(s.db) && Drive(Begun(s, self, alive), fate, k).pc.Idle?
    ensures TickEffect(s, Drive(Begun(s, self, alive), fate, k), self, alive, fate, swept, ids)
  {
    var b := Begun(s, self, alive);
    var m, n;
    m, swept, n := SweepsRun(s, self, alive, fate);
    if fate.expired == Commit {
      var e, c;
      e, ids, c := ListedTickRuns(s, m, fate, self, alive, swept);
      n := DriveThrough(b, m, e, fate, n, c);
    } else {
      ids := [];
      NothingDispatched(swept, self, FreeIn(swept, alive), EngineOf(s, self).counter, Expiry(s), fate);
    }
    OneOutcome(b, fate, k, n);
  }

  // ---- consequences -----------------------------------------------------------------------

  lemma ServedIsNotScheduling(w: Db, d: Db, t: TaskId, self: NodeId, v: NodeId, expiresAt: int, r: Reception)
    requires Served(w, d, t, self, v, expiresAt, r) && r != Untouched
    ensures !LatestIn(d, t, {Scheduling})
  {
  }

  lemma KeptIsNotScheduling(db: Db, swept: Db, d: Db, alive: set<NodeId>, now: int, ks: set<Sweep>, t: TaskId)
    requires Consistent(db) && IsSwept(db, swept, alive, now, ks) && StaleSweep in ks && Kept(swept, d, t)
    ensures !LatestIn(d, t, {Scheduling})
  {
    if t in swept.history {
      assert IsSweptTask(db, swept, alive, now, ks, t);
      LastOfSwept(db, swept, alive, now, ks, t);
    }
  }

  /** After a first tick of a leader whose transactions commit nothing is SCHEDULING. */
  lemma NothingStaysScheduling(s: Sys, e: Sys, self: NodeId, alive: set<NodeId>, fate: Fate,
                               swept: Db, ids: seq<TaskId>)
    requires Consistent(s.db) && !EngineOf(s, self).recovered && Commits(fate)
    requires TickEffect(s, e, self, alive, fate, swept, ids)
    ensures NothingScheduling(e.db)
  {
    var free, c := FreeIn(swept, alive), EngineOf(s, self).counter;
    forall t | t in e.db.history
      ensures !LatestIn(e.db, t, {Scheduling})
    {
      if t in ids {
        BatchIsNotScheduling(swept, e.db, self, free, ids, c, Expiry(s), fate, t);
      } else {
        KeptIsNotScheduling(s.db, swept, e.db, alive, s.now, SweepsOf(false, fate), t);
      }
    }
  }

  lemma BatchIsNotScheduling(w: Db, d: Db, self: NodeId, free: set<NodeId>, ids: seq<TaskId>, c: nat,
                             expiresAt: int, fate: Fate, t: TaskId)
    requires Dispatched(w, d, self, free, ids, c, expiresAt, fate) && Commits(fate) && t in ids
    ensures !LatestIn(d, t, {Scheduling})
  {
    var j :| 0 <= j < |ids| && ids[j] == t;
    var v := WorkerAt(free, c, j);
    ServedIsNotScheduling(w, d, t, self, v, expiresAt, Received(fate, j, v));
  }

  predicate PastSweeps(pc: Pc) {
    !pc.SweepStale? && !pc.SweepDead? && !pc.SweepExpired?
  }

  /** Past its sweeps a tick only grants leases that run for the whole lease duration. */
  ghost predicate GrantsOnly(m: Sys, e: Sys) {
    && PastSweeps(e.pc) && e.now == m.now && e.cfg == m.cfg
    && forall t :: t in e.db.leases ==>
         (t in m.db.leases && e.db.leases[t] == m.db.leases[t]) || e.db.leases[t].expiresAt == Expiry(m)
  }

  /** How a step past the sweeps changes the lease table: not at all, by a grant, or by giving one up. */
  lemma LeasesAfterStep(e: Sys, tx: Tx, reached: bool)
    requires PastSweeps(e.pc)
    ensures var o := Advance(e, tx, reached);
            && PastSweeps(o.pc) && o.now == e.now && o.cfg == e.cfg
            && forall t :: t in o.db.leases ==>
                 (t in e.db.leases && o.db.leases[t] == e.db.leases[t]) || o.db.leases[t].expiresAt == Expiry(e)
  {
  }

  lemma GrantsOnlyStep(m: Sys, e: Sys, fate: Fate)
    requires GrantsOnly(m, e)
    ensures GrantsOnly(m, Next(e, fate))
  {
    var step := StepFor(e.pc, fate);
    LeasesAfterStep(e, step.tx, step.reached);
  }

  lemma {:induction false} GrantsOnlyRun(m: Sys, fate: Fate, n: nat)
    requires PastSweeps(m.pc)
    ensures GrantsOnly(m, Drive(m, fate, n))
  {
    if n > 0 {
      GrantsOnlyRun(m, fate, n - 1);
      var e := Drive(m, fate, n - 1);
      GrantsOnlyStep(m, e, fate);
      DriveSucc(m, fate, n - 1);
    }
  }

  /** The expiry sweep of a tick, whatever became of the sweeps before it. */
  lemma ExpirySweepRuns(b: Sys, fate: Fate) returns (m: Sys, n: nat)
    requires fate.expired != Rollback && (b.pc.SweepStale? || b.pc.SweepExpired?)
    ensures Drive(b, fate, n) == m && PastSweeps(m.pc) && m.now == b.now && m.cfg == b.cfg && NoneExpired(m.db, m.now)
  {
    var a, k := b, 0;
    if b.pc.SweepStale? {
      var c := Next(b, fate);
      DriveOne(b, fate);
      a := Next(c, fate);
      k := DriveStep(b, c, a, fate, 1);
    }
    m := Next(a, fate);
    n := DriveStep(b, a, m, fate, k);
  }

  /** After a tick whose expiry sweep took effect no lease is expired, whatever became of everything else. */
  lemma NoneStaysExpired(s: Sys, self: NodeId, alive: set<NodeId>, fate: Fate, k: nat)
    requires fate.expired != Rollback && s.cfg.leaseDuration >= 0
    requires Drive(Begun(s, self, alive), fate, k).pc.Idle?
    ensures NoneExpired(Drive(Begun(s, self, alive), fate, k).db, s.now)
  {
    var b := Begun(s, self, alive);
    var m, n := ExpirySweepRuns(b, fate);
    DriveMore(b, fate, n, k);
    IdleIsFinal(b, fate, k, n + k);
    GrantsOnlyRun(m, fate, k);
    LeaseSpanTruncates(s.cfg.leaseDuration);
  }
}
