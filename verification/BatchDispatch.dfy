/**
  What a tick that is left alone makes of the batch it has claimed, whatever becomes of its transactions
  and calls: each task in turn gets a free worker of its own, and what follows depends on its fate alone.
 */
module BatchDispatch {
  import opened Tasks
  import opened Operations
  import opened RoundRobin
  import opened Scheduler
  import opened TickRun

  /** What becomes of a task handed to a worker: nothing, it is leased, or it comes back. */
  datatype Reception = Untouched | Leased | Returned

  /** As the fate of the tick has it, for the j-th task of the batch and worker w. */
  function ReceptionOf(fate: Fate, j: nat, w: NodeId): Reception {
    if fate.assign(j) == Rollback then Untouched
    else if fate.assign(j) == Commit && w !in fate.reachable && fate.lost(j) != Rollback then Returned
    else Leased
  }

  /** What that appends to the task's history. */
  function Handing(w: NodeId, r: Reception): seq<Record> {
    match r
    case Untouched => []
    case Leased => [Entry(Assigned, Some(w))]
    case Returned => [Entry(Assigned, Some(w)), Record(WorkerLost, Some(w), "dispatch failed"), QUEUED]
  }

  /** And the lease it leaves, if the task had `lease` before. */
  function LeaseLeft(lease: Option<Lease>, w: NodeId, expiresAt: int, r: Reception): Option<Lease> {
    match r
    case Untouched => lease
    case Leased => Some(Lease(w, expiresAt))
    case Returned => None
  }

  /** Task t handed to worker w. */
  function Hand(db: Db, t: TaskId, w: NodeId, expiresAt: int, r: Reception): Db
    requires t in db.history
  {
    db.(history := db.history[t := db.history[t] + Handing(w, r)],
        leases := match r
                  case Untouched => db.leases
                  case Leased => db.leases[t := Lease(w, expiresAt)]
                  case Returned => db.leases - {t})
  }

  // ---- one task ---------------------------------------------------------------------------

  /** `a` is `m` after the strategy chose a worker for the next task. */
  ghost predicate Picks(m: Sys, a: Sys)
    requires m.pc.NextTask? && m.pc.free != {}
  {
    && a.pc == Assign(m.pc.self, m.pc.free, m.pc.ids, m.pc.i, Chosen(m.pc.free, CounterOf(m)))
    && a.db == m.db && a.cfg == m.cfg && a.now == m.now
    && EngineOf(a, m.pc.self) == EngineOf(m, m.pc.self).(counter := CounterOf(m) + 1)
  }

  lemma PickStep(m: Sys, fate: Fate)
    requires m.pc.NextTask? && m.pc.free != {} && m.pc.i < |m.pc.ids|
    ensures Picks(m, Next(m, fate))
  {
  }

  function Assigning(db: Db, t: TaskId, w: NodeId, expiresAt: int): Db
    requires t in db.history
  {
    UpsertLease(InsertStatus(db, t, Entry(Assigned, Some(w))), t, w, expiresAt)
  }

  /** `a` once its task was assigned, with the tick at `pc`. */
  function AfterAssign(a: Sys, pc: Pc): Sys
    requires a.pc.Assign? && a.pc.i < |a.pc.ids| && a.pc.ids[a.pc.i] in a.db.history
  {
    a.(db := Assigning(a.db, a.pc.ids[a.pc.i], a.pc.w, Expiry(a)), pc := pc)
  }

  lemma AssignStep(a: Sys, fate: Fate)
    requires a.pc.Assign? && a.pc.i < |a.pc.ids| && LatestIn(a.db, a.pc.ids[a.pc.i], {Scheduling})
    ensures var next := NextTask(a.pc.self, a.pc.free, a.pc.ids, a.pc.i + 1);
            Next(a, fate) ==
            match fate.assign(a.pc.i)
            case Rollback => a.(pc := next)
            case Unacked => AfterAssign(a, next)
            case Commit => AfterAssign(a, Send(a.pc.self, a.pc.free, a.pc.ids, a.pc.i, a.pc.w))
  {
  }

  lemma SendStep(b: Sys, fate: Fate)
    requires b.pc.Send?
    ensures Next(b, fate) ==
            b.(pc := if b.pc.w in fate.reachable then NextTask(b.pc.self, b.pc.free, b.pc.ids, b.pc.i + 1)
                     else GiveUp(b.pc.self, b.pc.free, b.pc.ids, b.pc.i, b.pc.w))
  {
  }

  lemma GiveUpStep(g: Sys, fate: Fate, db: Db, expiresAt: int)
    requires g.pc.GiveUp? && g.pc.i < |g.pc.ids| && g.pc.ids[g.pc.i] in db.history
    requires g.db == Assigning(db, g.pc.ids[g.pc.i], g.pc.w, expiresAt)
    ensures Next(g, fate) ==
            g.(db := if fate.lost(g.pc.i) == Rollback then g.db
                     else Hand(db, g.pc.ids[g.pc.i], g.pc.w, expiresAt, Returned),
               pc := NextTask(g.pc.self, g.pc.free, g.pc.ids, g.pc.i + 1))
  {
    var t, w := g.pc.ids[g.pc.i], g.pc.w;
    var r := Record(WorkerLost, Some(w), "dispatch failed");
    var d := InsertStatus(DeleteLease(InsertStatus(g.db, t, r), t, w), t, QUEUED);
    assert LatestIn(g.db, t, {Assigned, Running});
    LossAfterAssign(db, t, w, expiresAt);
    assert MarkWorkerLost(g.db, t, w, "dispatch failed") == Accepted(d);
  }

  lemma LossAfterAssign(db: Db, t: TaskId, w: NodeId, expiresAt: int)
    requires t in db.history
    ensures var r := Record(WorkerLost, Some(w), "dispatch failed");
            var g := Assigning(db, t, w, expiresAt);
            InsertStatus(DeleteLease(InsertStatus(g, t, r), t, w), t, QUEUED) == Hand(db, t, w, expiresAt, Returned)
  {
    var r := Record(WorkerLost, Some(w), "dispatch failed");
    var h := db.history[t];
    assert h + [Entry(Assigned, Some(w))] + [r] + [QUEUED] == h + Handing(w, Returned);
    assert db.leases[t := Lease(w, expiresAt)] - {t} == db.leases - {t};
  }

  lemma UntouchedHand(db: Db, t: TaskId, w: NodeId, expiresAt: int)
    requires t in db.history
    ensures Hand(db, t, w, expiresAt, Untouched) == db
  {
    assert db.history[t] + [] == db.history[t];
    assert db.history[t := db.history[t]] == db.history;
  }

  /** `e` is `m` after the next task of its batch was handed out. */
  ghost predicate HandsNext(m: Sys, e: Sys, fate: Fate)
    requires m.pc.NextTask? && m.pc.free != {} && m.pc.i < |m.pc.ids| && m.pc.ids[m.pc.i] in m.db.history
  {
    var w := Chosen(m.pc.free, CounterOf(m));
    && e.db == Hand(m.db, m.pc.ids[m.pc.i], w, Expiry(m), ReceptionOf(fate, m.pc.i, w))
    && e.pc == NextTask(m.pc.self, m.pc.free, m.pc.ids, m.pc.i + 1)
    && e.cfg == m.cfg && e.now == m.now
    && EngineOf(e, m.pc.self) == EngineOf(m, m.pc.self).(counter := CounterOf(m) + 1)
  }

  lemma UnsentHands(m: Sys, a: Sys, fate: Fate)
    requires m.pc.NextTask? && m.pc.free != {} && m.pc.i < |m.pc.ids| && Picks(m, a)
    requires LatestIn(m.db, m.pc.ids[m.pc.i], {Scheduling}) && fate.assign(m.pc.i) != Commit
    ensures HandsNext(m, Next(a, fate), fate)
  {
    AssignStep(a, fate);
    UntouchedHand(m.db, m.pc.ids[m.pc.i], a.pc.w, Expiry(m));
  }

  /** `a` about to call the worker its task was assigned to. */
  function AboutToSend(a: Sys): Sys
    requires a.pc.Assign? && a.pc.i < |a.pc.ids| && a.pc.ids[a.pc.i] in a.db.history
  {
    AfterAssign(a, Send(a.pc.self, a.pc.free, a.pc.ids, a.pc.i, a.pc.w))
  }

  lemma ReachedHands(m: Sys, a: Sys, fate: Fate)
    requires m.pc.NextTask? && m.pc.free != {} && m.pc.i < |m.pc.ids| && m.pc.ids[m.pc.i] in m.db.history
    requires Picks(m, a) && a.pc.w in fate.reachable && fate.assign(m.pc.i) == Commit
    ensures HandsNext(m, Next(AboutToSend(a), fate), fate)
  {
    SendStep(AboutToSend(a), fate);
  }

  lemma UnreachedHands(m: Sys, a: Sys, fate: Fate) returns (n: nat)
    requires m.pc.NextTask? && m.pc.free != {} && m.pc.i < |m.pc.ids| && m.pc.ids[m.pc.i] in m.db.history
    requires Picks(m, a) && a.pc.w !in fate.reachable && fate.assign(m.pc.i) == Commit
    ensures HandsNext(m, Drive(AboutToSend(a), fate, n), fate)
  {
    var b := AboutToSend(a);
    var g := b.(pc := GiveUp(a.pc.self, a.pc.free, a.pc.ids, a.pc.i, a.pc.w));
    SendStep(b, fate);
    GiveUpStep(g, fate, m.db, Expiry(m));
    DriveOne(b, fate);
    n := DriveStep(b, g, Next(g, fate), fate, 1);
  }

  /** From the assignment on, when it was acknowledged. */
  lemma SentTaskIsHanded(m: Sys, a: Sys, fate: Fate) returns (e: Sys, n: nat)
    requires m.pc.NextTask? && m.pc.free != {} && m.pc.i < |m.pc.ids| && m.pc.ids[m.pc.i] in m.db.history
    requires Picks(m, a) && fate.assign(m.pc.i) == Commit
    ensures Drive(AboutToSend(a), fate, n) == e && HandsNext(m, e, fate)
  {
    var b := AboutToSend(a);
    if a.pc.w in fate.reachable {
      ReachedHands(m, a, fate);
      DriveOne(b, fate);
      e, n := Next(b, fate), 1;
    } else {
      n := UnreachedHands(m, a, fate);
      e := Drive(b, fate, n);
    }
  }

  lemma PickedTaskIsHanded(m: Sys, a: Sys, fate: Fate) returns (e: Sys, n: nat)
    requires m.pc.NextTask? && m.pc.free != {} && m.pc.i < |m.pc.ids| && Picks(m, a)
    requires LatestIn(m.db, m.pc.ids[m.pc.i], {Scheduling})
    ensures Drive(a, fate, n) == e && HandsNext(m, e, fate)
  {
    DriveOne(a, fate);
    if fate.assign(m.pc.i) != Commit {
      UnsentHands(m, a, fate);
      e, n := Next(a, fate), 1;
    } else {
      AssignStep(a, fate);
      var k;
      e, k := SentTaskIsHanded(m, a, fate);
      n := DriveThrough(a, AboutToSend(a), e, fate, 1, k);
    }
  }

  /** Pick, assign, send, give up: as far as it comes. */
  lemma TaskIsHanded(m: Sys, fate: Fate) returns (e: Sys, n: nat)
    requires m.pc.NextTask? && m.pc.free != {} && m.pc.i < |m.pc.ids|
    requires LatestIn(m.db, m.pc.ids[m.pc.i], {Scheduling})
    ensures Drive(m, fate, n) == e && HandsNext(m, e, fate)
  {
    var a := Next(m, fate);
    PickStep(m, fate);
    DriveOne(m, fate);
    var k;
    e, k := PickedTaskIsHanded(m, a, fate);
    n := DriveThrough(m, a, e, fate, 1, k);
  }

  // ---- the whole batch --------------------------------------------------------------------

  ghost predicate Distinct(ids: seq<TaskId>) {
    forall i, j :: 0 <= i < j < |ids| ==> ids[i] != ids[j]
  }

  /** In `d` task t was handed to worker w, counting from `db`. */
  ghost predicate Handed(db: Db, d: Db, t: TaskId, w: NodeId, expiresAt: int, r: Reception) {
    && t in db.history && t in d.history && d.history[t] == db.history[t] + Handing(w, r)
    && LeaseOf(d, t) == LeaseLeft(LeaseOf(db, t), w, expiresAt, r)
  }

  ghost predicate Kept(db: Db, d: Db, t: TaskId) {
    && LeaseOf(d, t) == LeaseOf(db, t)
    && (t in db.history <==> t in d.history)
    && (t in db.history ==> d.history[t] == db.history[t])
  }

  /** In `d` the first k tasks were handed to the strategy's choices from counter c on; the rest is as in `db`. */
  ghost predicate HandedOut(db: Db, d: Db, ids: seq<TaskId>, k: nat, free: set<NodeId>, c: nat,
                            expiresAt: int, fate: Fate)
    requires free != {} && k <= |ids|
  {
    && d.tasks == db.tasks
    && (forall j :: 0 <= j < k ==>
          var w := Chosen(free, c + j); Handed(db, d, ids[j], w, expiresAt, ReceptionOf(fate, j, w)))
    && (forall t :: t !in ids[..k] ==> Kept(db, d, t))
  }

  /** Handing task u to a worker does to u what it should and leaves every other task as it was. */
  lemma HandingOne(db: Db, d: Db, u: TaskId, w: NodeId, expiresAt: int, r: Reception)
    requires u in d.history && Kept(db, d, u)
    ensures Handed(db, Hand(d, u, w, expiresAt, r), u, w, expiresAt, r)
  {
  }

  lemma HandingKeeps(d: Db, u: TaskId, w: NodeId, expiresAt: int, r: Reception, t: TaskId)
    requires u in d.history && t != u
    ensures Kept(d, Hand(d, u, w, expiresAt, r), t)
  {
  }

  lemma OneMoreHanded(db: Db, d: Db, ids: seq<TaskId>, k: nat, free: set<NodeId>, c: nat,
                      expiresAt: int, fate: Fate)
    requires free != {} && k < |ids| && Distinct(ids) && ids[k] in d.history
    requires HandedOut(db, d, ids, k, free, c, expiresAt, fate)
    ensures var w := Chosen(free, c + k);
            HandedOut(db, Hand(d, ids[k], w, expiresAt, ReceptionOf(fate, k, w)), ids, k + 1, free, c, expiresAt, fate)
  {
    var u, w := ids[k], Chosen(free, c + k);
    var r := ReceptionOf(fate, k, w);
    var e := Hand(d, u, w, expiresAt, r);
    assert u !in ids[..k];
    forall j | 0 <= j < k + 1
      ensures var v := Chosen(free, c + j); Handed(db, e, ids[j], v, expiresAt, ReceptionOf(fate, j, v))
    {
      if j < k {
        HandingKeeps(d, u, w, expiresAt, r, ids[j]);
      } else {
        HandingOne(db, d, u, w, expiresAt, r);
      }
    }
    forall t | t !in ids[..k + 1]
      ensures Kept(db, e, t)
    {
      assert ids[..k + 1] == ids[..k] + [u];
      HandingKeeps(d, u, w, expiresAt, r, t);
    }
  }

  /** Where the tick stands after handing out k tasks of the batch it started at `s`. */
  ghost predicate Stands(s: Sys, e: Sys, k: nat, fate: Fate)
    requires s.pc.NextTask? && s.pc.free != {} && k <= |s.pc.ids|
  {
    && e.cfg == s.cfg && e.now == s.now && e.pc == NextTask(s.pc.self, s.pc.free, s.pc.ids, k)
    && EngineOf(e, s.pc.self) == EngineOf(s, s.pc.self).(counter := CounterOf(s) + k)
    && HandedOut(s.db, e.db, s.pc.ids, k, s.pc.free, CounterOf(s), Expiry(s), fate)
  }

  lemma OneMoreStands(s: Sys, m: Sys, e: Sys, k: nat, fate: Fate)
    requires s.pc.NextTask? && s.pc.free != {} && k < |s.pc.ids| && Distinct(s.pc.ids)
    requires Stands(s, m, k, fate) && s.pc.ids[k] in m.db.history && HandsNext(m, e, fate)
    ensures Stands(s, e, k + 1, fate)
  {
    var ids, free, c, expiresAt := s.pc.ids, s.pc.free, CounterOf(s), Expiry(s);
    var w := Chosen(free, c + k);
    assert CounterOf(m) == c + k && Expiry(m) == expiresAt;
    assert e.db == Hand(m.db, ids[k], w, expiresAt, ReceptionOf(fate, k, w));
    OneMoreHanded(s.db, m.db, ids, k, free, c, expiresAt, fate);
  }

  ghost predicate AllScheduling(db: Db, ids: seq<TaskId>) {
    forall j :: 0 <= j < |ids| ==> LatestIn(db, ids[j], {Scheduling})
  }

  /** The next task of the batch is untouched so far. */
  lemma NextIsScheduling(s: Sys, m: Sys, k: nat, fate: Fate)
    requires s.pc.NextTask? && s.pc.free != {} && k < |s.pc.ids| && Distinct(s.pc.ids)
    requires AllScheduling(s.db, s.pc.ids) && Stands(s, m, k, fate)
    ensures LatestIn(m.db, s.pc.ids[k], {Scheduling})
  {
    assert s.pc.ids[k] !in s.pc.ids[..k];
    assert Kept(s.db, m.db, s.pc.ids[k]) && LatestIn(s.db, s.pc.ids[k], {Scheduling});
  }

  lemma {:induction false} RestIsHandedOut(s: Sys, m: Sys, k: nat, fate: Fate) returns (e: Sys, n: nat)
    requires s.pc.NextTask? && s.pc.free != {} && k <= |s.pc.ids| && Distinct(s.pc.ids)
    requires AllScheduling(s.db, s.pc.ids) && Stands(s, m, k, fate)
    ensures Drive(m, fate, n) == e && Stands(s, e, |s.pc.ids|, fate)
    decreases |s.pc.ids| - k
  {
    if k == |s.pc.ids| {
      e, n := m, 0;
    } else {
      NextIsScheduling(s, m, k, fate);
      var o, a := TaskIsHanded(m, fate);
      OneMoreStands(s, m, o, k, fate);
      var b;
      e, b := RestIsHandedOut(s, o, k + 1, fate);
      n := DriveThrough(m, o, e, fate, a, b);
    }
  }

  lemma BatchEnds(s: Sys, m: Sys, fate: Fate, k: nat) returns (n: nat)
    requires Drive(s, fate, k) == m && m.pc.NextTask? && m.pc.i >= |m.pc.ids|
    ensures Drive(s, fate, n) == m.(pc := Idle)
  {
    n := DriveStep(s, m, m.(pc := Idle), fate, k);
  }

  /** The batch in the hands of a tick is handed out completely, and the tick ends. */
  lemma BatchIsHandedOut(s: Sys, fate: Fate) returns (e: Sys, n: nat)
    requires s.pc.NextTask? && s.pc.i == 0 && s.pc.free != {} && Distinct(s.pc.ids)
    requires AllScheduling(s.db, s.pc.ids)
    ensures Drive(s, fate, n) == e && e.pc.Idle? && e.cfg == s.cfg && e.now == s.now
    ensures EngineOf(e, s.pc.self) == EngineOf(s, s.pc.self).(counter := CounterOf(s) + |s.pc.ids|)
    ensures HandedOut(s.db, e.db, s.pc.ids, |s.pc.ids|, s.pc.free, CounterOf(s), Expiry(s), fate)
  {
    assert Stands(s, s, 0, fate);
    var m, k := RestIsHandedOut(s, s, 0, fate);
    e := m.(pc := Idle);
    n := BatchEnds(s, m, fate, k);
  }
}
