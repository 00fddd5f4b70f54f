/**
  The three recovery sweeps taken together: applied at one instant with one set of alive workers,
  their combined effect depends only on which of them ran, not on order or repetition, and all
  three together leave no task behind.
 */
module Recovery {
  import opened Tasks
  import opened History
  import opened Operations
  import opened StoreInvariant

  datatype Sweep = StaleSweep | DeadSweep | ExpiredSweep

  function Apply(db: Db, alive: set<NodeId>, now: int, k: Sweep): Db {
    match k
    case StaleSweep => RecoverStaleScheduling(db)
    case DeadSweep => RecoverDeadWorkerLeases(db, alive)
    case ExpiredSweep => RecoverExpiredLeases(db, now)
  }

  function ApplyAll(db: Db, alive: set<NodeId>, now: int, ks: seq<Sweep>): Db {
    if ks == [] then db else Apply(ApplyAll(db, alive, now, ks[..|ks| - 1]), alive, now, ks[|ks| - 1])
  }

  function Kinds(ks: seq<Sweep>): set<Sweep> {
    set k | k in ks
  }

  /** Histories that agree in everything but the error text. */
  predicate SameWords(g: seq<Record>, h: seq<Record>) {
    && |g| == |h|
    && forall i :: 0 <= i < |g| ==> g[i].status == h[i].status && g[i].worker == h[i].worker
  }

  predicate Same(d: Db, e: Db) {
    && d.tasks == e.tasks && d.leases == e.leases && d.history.Keys == e.history.Keys
    && forall t :: t in d.history ==> SameWords(d.history[t], e.history[t])
  }

  /** The sweeps of `ks` take away task t's lease. */
  predicate Loses(db: Db, alive: set<NodeId>, now: int, ks: set<Sweep>, t: TaskId) {
    && t in db.leases
    && ((DeadSweep in ks && db.leases[t].worker !in alive) || (ExpiredSweep in ks && db.leases[t].expiresAt < now))
  }

  /** What the sweeps of `ks` append to task t's history, up to error text. */
  function Suffix(db: Db, alive: set<NodeId>, now: int, ks: set<Sweep>, t: TaskId): seq<Record> {
    if Loses(db, alive, now, ks, t) then [Entry(WorkerLost, Some(db.leases[t].worker)), QUEUED]
    else if StaleSweep in ks && LatestIn(db, t, {Scheduling}) then [QUEUED]
    else []
  }

  /** Task t in `d` is what the sweeps of `ks` make of it, described from `db` alone. */
  ghost predicate IsSweptTask(db: Db, d: Db, alive: set<NodeId>, now: int, ks: set<Sweep>, t: TaskId)
    requires t in db.history && t in d.history
  {
    && LeaseOf(d, t) == (if Loses(db, alive, now, ks, t) then None else LeaseOf(db, t))
    && SameWords(d.history[t], db.history[t] + Suffix(db, alive, now, ks, t))
  }

  /** `d` is `db` after the sweeps of `ks`. */
  ghost predicate IsSwept(db: Db, d: Db, alive: set<NodeId>, now: int, ks: set<Sweep>)
    requires WellKeyed(db)
  {
    && Consistent(d) && d.tasks == db.tasks
    && forall t :: t in db.tasks ==> IsSweptTask(db, d, alive, now, ks, t)
  }

  lemma SameWordsAppend(g: seq<Record>, h: seq<Record>, x: seq<Record>, y: seq<Record>)
    requires SameWords(g, h) && SameWords(x, y)
    ensures SameWords(g + x, h + y)
  {
  }

  /** After the sweeps a task is SCHEDULING only if it was and no stale sweep ran. */
  lemma LastOfSwept(db: Db, d: Db, alive: set<NodeId>, now: int, ks: set<Sweep>, t: TaskId)
    requires Consistent(db) && t in db.tasks && t in d.history && IsSweptTask(db, d, alive, now, ks, t)
    ensures LatestIn(d, t, {Scheduling}) <==> LatestIn(db, t, {Scheduling}) && StaleSweep !in ks
  {
    LeaseAgreesWithStatus(db, t);
    assert TaskOkIn(db, t);
    var h, g := db.history[t] + Suffix(db, alive, now, ks, t), d.history[t];
    assert |g| > 0 ==> g[|g| - 1].status == h[|h| - 1].status;
  }

  lemma SweptStaleTask(db: Db, d: Db, alive: set<NodeId>, now: int, ks: set<Sweep>, t: TaskId)
    requires t in db.history && t in d.history && t in d.tasks && IsSweptTask(db, d, alive, now, ks, t)
    requires LatestIn(db, t, {Scheduling}) ==> t !in db.leases
    requires LatestIn(d, t, {Scheduling}) <==> LatestIn(db, t, {Scheduling}) && StaleSweep !in ks
    ensures IsSweptTask(db, RecoverStaleScheduling(d), alive, now, ks + {StaleSweep}, t)
  {
    var h, g := db.history[t], d.history[t];
    assert Loses(db, alive, now, ks + {StaleSweep}, t) == Loses(db, alive, now, ks, t);
    if LatestIn(d, t, {Scheduling}) {
      var r := Record(Queued, None, STALE);
      assert Suffix(db, alive, now, ks, t) == [] && h + [] == h;
      SameWordsAppend(g, h, [r], [QUEUED]);
      assert RecoverStaleScheduling(d).history[t] == g + [r];
      assert Suffix(db, alive, now, ks + {StaleSweep}, t) == [QUEUED];
    } else {
      assert RecoverStaleScheduling(d).history[t] == g;
      assert Suffix(db, alive, now, ks + {StaleSweep}, t) == Suffix(db, alive, now, ks, t);
    }
  }

  lemma SweptLostTask(db: Db, d: Db, alive: set<NodeId>, now: int, ks: set<Sweep>, k: Sweep, t: TaskId)
    requires t in db.history && t in d.history && IsSweptTask(db, d, alive, now, ks, t) && k != StaleSweep
    requires t in db.leases ==> !LatestIn(db, t, {Scheduling})
    ensures IsSweptTask(db, Apply(d, alive, now, k), alive, now, ks + {k}, t)
  {
    var h, g, e := db.history[t], d.history[t], Apply(d, alive, now, k);
    if t in d.leases && t !in e.leases {
      var w := db.leases[t].worker;
      var error := if k == DeadSweep then NOT_ALIVE else EXPIRED;
      assert Suffix(db, alive, now, ks, t) == [] && h + [] == h;
      SameWordsAppend(g, h, [Record(WorkerLost, Some(w), error), QUEUED], [Entry(WorkerLost, Some(w)), QUEUED]);
      assert e.history[t] == g + [Record(WorkerLost, Some(w), error), QUEUED];
      assert Suffix(db, alive, now, ks + {k}, t) == [Entry(WorkerLost, Some(w)), QUEUED];
    } else {
      assert e.history[t] == g;
      assert Loses(db, alive, now, ks + {k}, t) == Loses(db, alive, now, ks, t);
      assert Suffix(db, alive, now, ks + {k}, t) == Suffix(db, alive, now, ks, t);
    }
  }

  lemma SweepStep(db: Db, d: Db, alive: set<NodeId>, now: int, ks: set<Sweep>, k: Sweep)
    requires Consistent(db) && IsSwept(db, d, alive, now, ks)
    ensures IsSwept(db, Apply(d, alive, now, k), alive, now, ks + {k})
  {
    StaleKeeps(d);
    LoseLeasesKeeps(d, DeadTasks(d, alive), NOT_ALIVE);
    LoseLeasesKeeps(d, ExpiredTasks(d, now), EXPIRED);
    forall t | t in db.tasks
      ensures IsSweptTask(db, Apply(d, alive, now, k), alive, now, ks + {k}, t)
    {
      LeaseAgreesWithStatus(db, t);
      LastOfSwept(db, d, alive, now, ks, t);
      if k == StaleSweep {
        SweptStaleTask(db, d, alive, now, ks, t);
      } else {
        SweptLostTask(db, d, alive, now, ks, k, t);
      }
    }
  }

  lemma {:induction false} SweepsHaveClosedForm(db: Db, alive: set<NodeId>, now: int, ks: seq<Sweep>)
    requires Consistent(db)
    ensures IsSwept(db, ApplyAll(db, alive, now, ks), alive, now, Kinds(ks))
  {
    if ks == [] {
      assert forall t :: t in db.tasks ==> db.history[t] + [] == db.history[t];
    } else {
      var init, k := ks[..|ks| - 1], ks[|ks| - 1];
      SweepsHaveClosedForm(db, alive, now, init);
      var d := ApplyAll(db, alive, now, init);
      assert Kinds(ks) == Kinds(init) + {k} by {
        assert ks == init + [k];
      }
      SweepStep(db, d, alive, now, Kinds(init), k);
    }
  }

  /** The sweeps commute and are idempotent: any two sequences of the same sweeps have the same effect. */
  lemma SweepOrderIsIrrelevant(db: Db, alive: set<NodeId>, now: int, ks: seq<Sweep>, ls: seq<Sweep>)
    requires Consistent(db)
    requires forall k :: k in ks <==> k in ls
    ensures Same(ApplyAll(db, alive, now, ks), ApplyAll(db, alive, now, ls))
  {
    SweepsHaveClosedForm(db, alive, now, ks);
    SweepsHaveClosedForm(db, alive, now, ls);
    assert Kinds(ks) == Kinds(ls);
    var d, e := ApplyAll(db, alive, now, ks), ApplyAll(db, alive, now, ls);
    forall t | t in db.tasks
      ensures LeaseOf(d, t) == LeaseOf(e, t) && SameWords(d.history[t], e.history[t])
    {
      assert IsSweptTask(db, d, alive, now, Kinds(ks), t) && IsSweptTask(db, e, alive, now, Kinds(ks), t);
    }
    SameLeases(d, e);
  }

  lemma SameLeases(d: Db, e: Db)
    requires WellKeyed(d) && WellKeyed(e) && d.tasks == e.tasks
    requires forall t :: t in d.tasks ==> LeaseOf(d, t) == LeaseOf(e, t)
    ensures d.leases == e.leases
  {
    assert forall t :: t in d.leases ==> t in d.tasks && LeaseOf(d, t) == LeaseOf(e, t);
    assert forall t :: t in e.leases ==> t in d.tasks && LeaseOf(d, t) == LeaseOf(e, t);
  }

  lemma {:induction false} SameWordsSameCounts(g: seq<Record>, h: seq<Record>, s: Status)
    requires SameWords(g, h)
    ensures Count(g, s) == Count(h, s)
  {
    if g != [] {
      SameWordsSameCounts(g[..|g| - 1], h[..|h| - 1], s);
    }
  }

  /** Whatever sweeps run, however often, a revoked lease costs exactly one WORKER_LOST record and no budget. */
  lemma RevokedOnce(db: Db, alive: set<NodeId>, now: int, ks: seq<Sweep>, t: TaskId)
    requires Consistent(db) && t in db.tasks
    ensures var d := ApplyAll(db, alive, now, ks);
            && t in d.history
            && Count(d.history[t], WorkerLost) ==
               Count(db.history[t], WorkerLost) + (if t in db.leases && t !in d.leases then 1 else 0)
            && Count(d.history[t], Failed) == Count(db.history[t], Failed)
            && (t in db.leases && t !in d.leases <==> Loses(db, alive, now, Kinds(ks), t))
  {
    SweepsHaveClosedForm(db, alive, now, ks);
    var d := ApplyAll(db, alive, now, ks);
    var h, x := db.history[t], Suffix(db, alive, now, Kinds(ks), t);
    assert IsSweptTask(db, d, alive, now, Kinds(ks), t);
    forall s | s in {WorkerLost, Failed}
      ensures Count(d.history[t], s) ==
              Count(h, s) + (if Loses(db, alive, now, Kinds(ks), t) && s == WorkerLost then 1 else 0)
    {
      SameWordsSameCounts(d.history[t], h + x, s);
      CountSuffix(h, x, s);
    }
  }

  lemma CountTwo(h: seq<Record>, x: seq<Record>, s: Status)
    requires s != Queued && |x| == 2 && x[1] == QUEUED
    ensures Count(h + x, s) == Count(h, s) + (if x[0].status == s then 1 else 0)
  {
    assert h + x == h + [x[0]] + [QUEUED];
    CountAppend(h + [x[0]], QUEUED, s);
    CountAppend(h, x[0], s);
  }

  lemma CountSuffix(h: seq<Record>, x: seq<Record>, s: Status)
    requires s != Queued && (x == [] || x == [QUEUED] || (|x| == 2 && x[1] == QUEUED))
    ensures Count(h + x, s) == Count(h, s) + (if |x| == 2 && x[0].status == s then 1 else 0)
  {
    if |x| == 2 {
      CountTwo(h, x, s);
    } else if |x| == 1 {
      CountAppend(h, QUEUED, s);
    } else {
      assert h + x == h;
    }
  }

  /** Nothing is left behind: a task that can still run is claimable or in the hands of a live worker. */
  ghost predicate NoTaskLost(db: Db, alive: set<NodeId>, now: int) {
    forall t :: t in db.tasks && t in db.history && db.tasks[t].maxRetries > 0
                && !LatestIn(db, t, {Completed, Failed}) ==>
      || Eligible(db, t)
      || (t in db.leases && db.leases[t].expiresAt >= now && db.leases[t].worker in alive)
  }

  /** A consistent store without SCHEDULING tasks and with only live, unexpired leases has lost nothing. */
  lemma NothingLeftBehind(db: Db, alive: set<NodeId>, now: int)
    requires Consistent(db)
    requires forall t :: t in db.history ==> !LatestIn(db, t, {Scheduling})
    requires forall t :: t in db.leases ==> db.leases[t].worker in alive && db.leases[t].expiresAt >= now
    ensures NoTaskLost(db, alive, now)
  {
    forall t | t in db.tasks
      ensures Eligible(db, t) || t in db.leases || LatestIn(db, t, {Completed, Failed}) || db.tasks[t].maxRetries <= 0
    {
      assert TaskOkIn(db, t);
      ModeOfLatest(db.history[t]);
    }
  }

  /** A task that went through all three sweeps is not SCHEDULING, and its lease, if any, is live and unexpired. */
  lemma FullySwept(db: Db, d: Db, alive: set<NodeId>, now: int, ks: set<Sweep>, t: TaskId)
    requires Consistent(db) && t in db.tasks && t in d.history && IsSweptTask(db, d, alive, now, ks, t)
    requires StaleSweep in ks && DeadSweep in ks && ExpiredSweep in ks
    ensures !LatestIn(d, t, {Scheduling})
    ensures t in d.leases ==> d.leases[t].worker in alive && d.leases[t].expiresAt >= now
  {
    LastOfSwept(db, d, alive, now, ks, t);
    assert t in d.leases ==> LeaseOf(d, t) == Some(d.leases[t]);
  }

  /** On takeover the three sweeps, in any order, leave no task behind. */
  lemma TakeoverLosesNothing(db: Db, alive: set<NodeId>, now: int, ks: seq<Sweep>)
    requires Consistent(db)
    requires StaleSweep in ks && DeadSweep in ks && ExpiredSweep in ks
    ensures NoTaskLost(ApplyAll(db, alive, now, ks), alive, now)
  {
    SweepsHaveClosedForm(db, alive, now, ks);
    var d, kinds := ApplyAll(db, alive, now, ks), Kinds(ks);
    forall t | t in db.tasks
      ensures !LatestIn(d, t, {Scheduling})
      ensures t in d.leases ==> d.leases[t].worker in alive && d.leases[t].expiresAt >= now
    {
      assert IsSweptTask(db, d, alive, now, kinds, t);
      FullySwept(db, d, alive, now, kinds, t);
    }
    NothingLeftBehind(d, alive, now);
  }
}
