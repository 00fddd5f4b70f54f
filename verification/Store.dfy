/**
  The Postgres-backed store: each method is one transaction over the three tables, written in the
  order of its statements and proved to have the effect of the corresponding operation.
 */
module Store {
  import opened Tasks
  import opened Operations
  import opened Claim
  import opened StatusTable
  import opened RoundRobin

  lemma LoseNone(db: Db, error: string)
    ensures LoseLeases(db, Members([]), error) == db
  {
  }

  /** One more task in a sweep that drops leases. */
  lemma LoseOneMore(db: Db, done: set<TaskId>, t: TaskId, error: string)
    requires t in db.leases && t in db.history && t !in done
    ensures var w := db.leases[t].worker;
            var d := InsertStatus(LoseLeases(db, done, error), t, Record(WorkerLost, Some(w), error));
            LoseLeases(db, done + {t}, error) == InsertStatus(DeleteLease(d, t, w), t, QUEUED)
  {
    var w := db.leases[t].worker;
    var d := InsertStatus(LoseLeases(db, done, error), t, Record(WorkerLost, Some(w), error));
    var e := InsertStatus(DeleteLease(d, t, w), t, QUEUED);
    var g := LoseLeases(db, done + {t}, error);
    assert g.leases == e.leases;
    assert e.history[t] == db.history[t] + [Record(WorkerLost, Some(w), error)] + [QUEUED]
                        == db.history[t] + [Record(WorkerLost, Some(w), error), QUEUED];
    assert g.history == e.history;
  }

  lemma AppendNone(db: Db, r: Record)
    ensures AppendEach(db, Members([]), r) == db
  {
  }

  lemma AppendOneMore(db: Db, done: set<TaskId>, t: TaskId, r: Record)
    requires t in db.history && t !in done
    ensures AppendEach(db, done + {t}, r) == InsertStatus(AppendEach(db, done, r), t, r)
  {
    assert AppendEach(db, done + {t}, r).history == InsertStatus(AppendEach(db, done, r), t, r).history;
  }

  lemma MembersSnoc(ids: seq<TaskId>, i: nat)
    requires i < |ids|
    ensures Members(ids[..i + 1]) == Members(ids[..i]) + {ids[i]}
  {
    assert ids[..i + 1] == ids[..i] + [ids[i]];
  }

  datatype LeaseRow = LeaseRow(task: TaskId, lease: Lease)

  class PostgresStore {
    const leaseDuration: int
    var tasks: map<TaskId, Task>
    var rows: seq<StatusRow>
    var leases: map<TaskId, Lease>
    var clock: int
    var nextId: nat

    ghost predicate Valid()
      reads this
    {
      && Chronological(rows)
      && (forall i :: 0 <= i < |rows| ==> rows[i].createdAt <= clock && rows[i].id < nextId)
      && (forall i :: 0 <= i < |rows| ==> rows[i].task in tasks)
      && leases.Keys <= tasks.Keys
    }

    ghost function View(): Db
      reads this
    {
      ViewOf(tasks, rows, leases)
    }

    constructor (leaseDuration: int, now: int)
      ensures Valid() && View() == Db(map[], map[], map[])
      ensures clock == now && this.leaseDuration == leaseDuration
    {
      this.leaseDuration := leaseDuration;
      tasks, rows, leases, clock, nextId := map[], [], map[], now, 0;
    }

    /** The database clock moves on between transactions. */
    method Elapse(d: nat)
      requires Valid()
      modifies `clock
      ensures Valid() && clock == old(clock) + d
    {
      clock := clock + d;
    }

    method InsertStatus(t: TaskId, r: Record)
      requires Valid() && t in tasks
      modifies `rows, `nextId
      ensures Valid() && View() == Operations.InsertStatus(old(View()), t, r)
    {
      var row := StatusRow(clock, nextId, t, r);
      ViewAfterInsert(tasks, rows, leases, row);
      rows := rows + [row];
      nextId := nextId + 1;
    }

    method LatestStatus(t: TaskId) returns (s: Option<Status>)
      requires Valid()
      ensures s == Latest(HistoryOf(rows, t))
    {
      NewestIsLastInserted(rows, t);
      var newest := NewestOf(rows, t);
      s := if newest.Some? then Some(newest.value.record.status) else None;
    }

    method LatestStatusIn(t: TaskId, allowed: set<Status>) returns (ok: bool)
      requires Valid()
      ensures t in tasks ==> ok == LatestIn(View(), t, allowed)
      ensures ok ==> Latest(HistoryOf(rows, t)).Some?
    {
      var s := LatestStatus(t);
      ok := s.Some? && s.value in allowed;
    }

    method DeleteLease(t: TaskId, w: NodeId)
      requires Valid()
      modifies `leases
      ensures Valid() && View() == Operations.DeleteLease(old(View()), t, w)
    {
      if t in leases && leases[t].worker == w {
        leases := leases - {t};
      }
    }

    /** Tasks arrive from outside, each with a first QUEUED row. */
    method Submit(t: TaskId, task: Task) returns (ok: bool)
      requires Valid()
      modifies `tasks, `rows, `nextId
      ensures Valid() && ok == (t !in old(tasks))
      ensures var db := old(View());
              View() == if ok then db.(tasks := db.tasks[t := task], history := db.history[t := [QUEUED]]) else db
    {
      ok := t !in tasks;
      if ok {
        var row := StatusRow(clock, nextId, t, QUEUED);
        ViewAfterSubmit(tasks, rows, leases, task, row);
        tasks, rows, nextId := tasks[t := task], rows + [row], nextId + 1;
      }
    }

    method RenewLease(t: TaskId, w: NodeId) returns (ok: bool)
      requires Valid()
      modifies `leases
      ensures Valid()
      ensures var o := Operations.RenewLease(old(View()), t, w, clock + LeaseSpan(leaseDuration));
              ok == o.Accepted? && View() == After(old(View()), o)
      ensures ok ==> LeasedTo(View(), t, w) && IsTruncation(leases[t].expiresAt - clock, leaseDuration)
    {
      LeaseSpanTruncates(leaseDuration);
      ok := t in leases && leases[t].worker == w;
      if ok {
        leases := leases[t := Lease(w, clock + LeaseSpan(leaseDuration))];
      }
    }

    method MarkAssigned(t: TaskId, w: NodeId) returns (ok: bool)
      requires Valid()
      modifies `rows, `nextId, `leases
      ensures Valid()
      ensures var o := Operations.MarkAssigned(old(View()), t, w, clock + LeaseSpan(leaseDuration));
              ok == o.Accepted? && View() == After(old(View()), o)
      ensures ok ==> LeasedTo(View(), t, w) && IsTruncation(leases[t].expiresAt - clock, leaseDuration)
    {
      LeaseSpanTruncates(leaseDuration);
      if t !in tasks {
        return false;
      }
      ok := LatestStatusIn(t, {Scheduling});
      if ok {
        InsertStatus(t, Entry(Assigned, Some(w)));
        leases := leases[t := Lease(w, clock + LeaseSpan(leaseDuration))];
      }
    }

    method MarkRunning(t: TaskId, w: NodeId) returns (ok: bool)
      requires Valid()
      modifies `rows, `nextId
      ensures Valid()
      ensures var o := Operations.MarkRunning(old(View()), t, w);
              ok == o.Accepted? && View() == After(old(View()), o)
    {
      if t !in leases || leases[t].worker != w {
        return false;
      }
      ok := LatestStatusIn(t, {Assigned, Running});
      if ok {
        InsertStatus(t, Entry(Running, Some(w)));
      }
    }

    method MarkCompleted(t: TaskId, w: NodeId) returns (ok: bool)
      requires Valid()
      modifies `rows, `nextId, `leases
      ensures Valid()
      ensures var o := Operations.MarkCompleted(old(View()), t, w);
              ok == o.Accepted? && View() == After(old(View()), o)
    {
      if t !in leases || leases[t].worker != w {
        return false;
      }
      ok := LatestStatusIn(t, {Running});
      if ok {
        InsertStatus(t, Entry(Completed, Some(w)));
        DeleteLease(t, w);
      }
    }

    method MarkFailed(t: TaskId, w: NodeId, error: string) returns (ok: bool)
      requires Valid()
      modifies `rows, `nextId, `leases
      ensures Valid()
      ensures var o := Operations.MarkFailed(old(View()), t, w, error);
              ok == o.Accepted? && View() == After(old(View()), o)
    {
      if t !in leases || leases[t].worker != w {
        return false;
      }
      ok := LatestStatusIn(t, {Assigned, Running});
      if ok {
        InsertStatus(t, Record(Failed, Some(w), error));
        DeleteLease(t, w);
        FailedCountsAgree(rows, t);
        var counts := FailedCounts(rows);
        var failed := if t in counts then counts[t] else 0;
        if failed < tasks[t].maxRetries {
          InsertStatus(t, QUEUED);
        }
      }
    }

    method MarkWorkerLost(t: TaskId, w: NodeId, error: string) returns (ok: bool)
      requires Valid()
      modifies `rows, `nextId, `leases
      ensures Valid()
      ensures var o := Operations.MarkWorkerLost(old(View()), t, w, error);
              ok == o.Accepted? && View() == After(old(View()), o)
    {
      if t !in tasks {
        return false;
      }
      ok := LatestStatusIn(t, {Assigned, Running});
      if ok {
        InsertStatus(t, Record(WorkerLost, Some(w), error));
        DeleteLease(t, w);
        InsertStatus(t, QUEUED);
      }
    }

    /** The tables once the leases in `done` were taken away from those of `before`. */
    ghost predicate Swept(before: Db, done: set<TaskId>, error: string)
      reads this
    {
      Valid() && View() == LoseLeases(before, done, error)
    }

    /** The body of the lease sweeps: record the loss, drop the lease, requeue. */
    method LoseOne(t: TaskId, error: string, ghost before: Db, ghost done: set<TaskId>)
      requires Swept(before, done, error) && t in before.leases.Keys - done
      modifies `rows, `nextId, `leases
      ensures Swept(before, done + {t}, error)
    {
      assert leases == before.leases - done;
      assert t in View().history && t in before.history;
      LoseOneMore(before, done, t, error);
      var w := leases[t].worker;
      assert w == before.leases[t].worker;
      InsertStatus(t, Record(WorkerLost, Some(w), error));
      DeleteLease(t, w);
      InsertStatus(t, QUEUED);
    }

    /** The loop shared by the two lease sweeps, over the selected rows in whatever order they come. */
    method LoseEach(todo: set<TaskId>, error: string) returns (count: nat)
      requires Valid() && todo <= leases.Keys
      modifies `rows, `nextId, `leases
      ensures Valid() && View() == LoseLeases(old(View()), todo, error) && count == |todo|
    {
      ghost var before := View();
      var ids := Enumerate(todo);
      LoseNone(before, error);
      count := 0;
      while count < |ids|
        invariant count <= |ids| && Swept(before, Members(ids[..count]), error)
      {
        MembersSnoc(ids, count);
        LoseOne(ids[count], error, before, Members(ids[..count]));
        count := count + 1;
      }
      assert ids[..count] == ids;
    }

    method RecoverExpiredLeases() returns (count: nat)
      requires Valid()
      modifies `rows, `nextId, `leases
      ensures Valid() && View() == Operations.RecoverExpiredLeases(old(View()), clock)
      ensures count == |ExpiredTasks(old(View()), clock)|
    {
      var expired := set t | t in leases && leases[t].expiresAt < clock;
      assert expired == ExpiredTasks(View(), clock);
      count := LoseEach(expired, EXPIRED);
    }

    method CollectDead(alive: map<NodeId, Member>) returns (dead: set<TaskId>)
      ensures dead == DeadTasks(View(), alive.Keys)
    {
      dead := {};
      var rest := leases.Keys;
      while rest != {}
        invariant rest <= leases.Keys
        invariant forall t :: t in dead <==> t in leases.Keys - rest && leases[t].worker !in alive
        decreases |rest|
      {
        var t :| t in rest;
        if leases[t].worker !in alive {
          dead := dead + {t};
        }
        rest := rest - {t};
      }
    }

    method RecoverDeadWorkerLeases(alive: map<NodeId, Member>) returns (count: nat)
      requires Valid()
      modifies `rows, `nextId, `leases
      ensures Valid() && View() == Operations.RecoverDeadWorkerLeases(old(View()), alive.Keys)
      ensures count == |DeadTasks(old(View()), alive.Keys)|
    {
      var dead := CollectDead(alive);
      count := LoseEach(dead, NOT_ALIVE);
    }

    /** The tables once `r` was appended to each task of `done` in those of `before`. */
    ghost predicate Appended(before: Db, done: set<TaskId>, r: Record)
      reads this
    {
      Valid() && View() == AppendEach(before, done, r)
    }

    method InsertOne(t: TaskId, r: Record, ghost before: Db, ghost done: set<TaskId>)
      requires Appended(before, done, r) && t in tasks && t !in done
      modifies `rows, `nextId
      ensures Appended(before, done + {t}, r)
    {
      assert t in View().history && t in before.history;
      AppendOneMore(before, done, t, r);
      InsertStatus(t, r);
    }

    /** The loop of inserts shared by claiming and stale recovery. */
    method InsertEach(ids: seq<TaskId>, r: Record)
      requires Valid() && (forall i :: 0 <= i < |ids| ==> ids[i] in tasks)
      requires forall i, j :: 0 <= i < j < |ids| ==> ids[i] != ids[j]
      modifies `rows, `nextId
      ensures Valid() && View() == AppendEach(old(View()), Members(ids), r)
    {
      ghost var before := View();
      AppendNone(before, r);
      var i := 0;
      while i < |ids|
        invariant i <= |ids| && Appended(before, Members(ids[..i]), r)
      {
        MembersSnoc(ids, i);
        InsertOne(ids[i], r, before, Members(ids[..i]));
        i := i + 1;
      }
      assert ids[..i] == ids;
    }

    /** A set in some order. */
    method Enumerate(s: set<TaskId>) returns (ids: seq<TaskId>)
      ensures Members(ids) == s && |ids| == |s|
      ensures forall i, j :: 0 <= i < j < |ids| ==> ids[i] != ids[j]
    {
      ids := [];
      var rest := s;
      while rest != {}
        invariant rest <= s && |ids| + |rest| == |s|
        invariant forall t :: t in ids <==> t in s - rest
        invariant forall i, j :: 0 <= i < j < |ids| ==> ids[i] != ids[j]
        decreases |rest|
      {
        var t :| t in rest;
        ids := ids + [t];
        rest := rest - {t};
      }
    }

    method RecoverStaleScheduling() returns (count: nat)
      requires Valid()
      modifies `rows, `nextId
      ensures Valid() && View() == Operations.RecoverStaleScheduling(old(View()))
      ensures count == |StaleTasks(old(View()))|
    {
      var latest := DistinctLatest(rows);
      var stale := set t | t in tasks && t in latest && latest[t].record.status == Scheduling && t !in leases;
      forall t
        ensures t in stale <==> t in StaleTasks(View())
      {
        NewestIsLastInserted(rows, t);
        DistinctIsNewest(rows, t);
      }
      assert stale == StaleTasks(View());
      var ids := Enumerate(stale);
      assert forall i :: 0 <= i < |ids| ==> ids[i] in stale;
      InsertEach(ids, Record(Queued, None, STALE));
      count := |ids|;
    }

    method Oldest(s: set<TaskId>) returns (t: TaskId)
      requires s <= tasks.Keys && s != {}
      ensures IsOldest(View(), s, t)
    {
      t :| t in s;
      var rest := s - {t};
      while rest != {}
        invariant rest <= s && t in s
        invariant forall u :: u in s - rest && u != t ==> Older(View(), t, u)
        decreases |rest|
      {
        var u :| u in rest;
        if tasks[u].createdAt < tasks[t].createdAt || (tasks[u].createdAt == tasks[t].createdAt && u < t) {
          t := u;
        }
        forall v | v in s - (rest - {u}) && v != t
          ensures Older(View(), t, v)
        {
          assert v == u || v in s - rest;
        }
        rest := rest - {u};
      }
    }

    /** The WHERE clause of claim_queued.sql. */
    method FilterClaimable() returns (eligible: set<TaskId>)
      requires Valid()
      ensures eligible == EligibleTasks(View())
    {
      eligible := set t | t in tasks && Claimable(tasks, rows, t);
      forall t | t in tasks
        ensures Claimable(tasks, rows, t) <==> Eligible(View(), t)
      {
        ClaimableIsEligible(tasks, rows, leases, t);
      }
    }

    /** Its ORDER BY and LIMIT clauses. */
    method TakeOldest(s: set<TaskId>, limit: nat) returns (ids: seq<TaskId>)
      requires s <= tasks.Keys
      ensures IsCut(View(), s, limit, ids)
    {
      ids := [];
      var rest := s;
      while |ids| < limit && rest != {}
        invariant rest <= s && |ids| + |rest| == |s| && |ids| <= limit
        invariant forall t :: t in ids <==> t in s - rest
        invariant forall i :: 0 <= i < |ids| ==> ids[i] in s
        invariant forall i, j :: 0 <= i < j < |ids| ==> Older(View(), ids[i], ids[j])
        invariant forall i, u :: 0 <= i < |ids| && u in rest ==> Older(View(), ids[i], u)
        decreases |rest|
      {
        var t := Oldest(rest);
        ids := ids + [t];
        rest := rest - {t};
      }
    }

    /** A negative LIMIT is an error of the query. */
    method ClaimQueued(scheduler: NodeId, batchSize: int) returns (r: Option<seq<TaskId>>)
      requires Valid()
      modifies `rows, `nextId
      ensures Valid()
      ensures batchSize < 0 ==> r == None && View() == old(View())
      ensures batchSize >= 0 ==>
                && r == Some(SelectQueued(old(View()), batchSize))
                && View() == Schedule(old(View()), r.value, scheduler)
    {
      if batchSize < 0 {
        return None;
      }
      var eligible := FilterClaimable();
      var ids := TakeOldest(eligible, batchSize);
      ClaimTakesOldest(View(), batchSize, ids);
      InsertEach(ids, Entry(Scheduling, Some(scheduler)));
      r := Some(ids);
    }

    /** The rows of the lease table, in whatever order. */
    method ActiveLeases() returns (active: seq<LeaseRow>)
      ensures |active| == |leases|
      ensures forall t, l :: (t in leases && leases[t] == l) <==> LeaseRow(t, l) in active
    {
      active := [];
      var rest := leases.Keys;
      while rest != {}
        invariant rest <= leases.Keys && |active| + |rest| == |leases|
        invariant forall t, l :: (t in leases.Keys - rest && leases[t] == l) <==> LeaseRow(t, l) in active
        decreases |rest|
      {
        var t :| t in rest;
        active := active + [LeaseRow(t, leases[t])];
        rest := rest - {t};
      }
    }
  }
}
