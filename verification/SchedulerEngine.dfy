/**
  The scheduler engine of one node, over the store and the round-robin strategy.  A tick left alone takes
  exactly the steps of the small-step system that the fate of its transactions dictates, so everything
  proved about runs and about the effect of a tick holds of it.
 */
module SchedulerEngine {
  import opened Tasks
  import opened RoundRobin
  import opened Store
  import opened TickRun
  import Sched = Scheduler
  import Guarantees
  import BatchDispatch
  import TickEffects

  /** Members are keyed by their own id. */
  ghost predicate Keyed(members: map<NodeId, Member>) {
    forall id :: id in members ==> members[id].id == id
  }

  function HoldersOf(active: seq<LeaseRow>): set<NodeId> {
    set row | row in active :: row.lease.worker
  }

  lemma HoldersAreBusy(active: seq<LeaseRow>, db: Db)
    requires forall t, l :: (t in db.leases && db.leases[t] == l) <==> LeaseRow(t, l) in active
    ensures HoldersOf(active) == Sched.Busy(db)
  {
    forall t | t in db.leases
      ensures db.leases[t].worker in HoldersOf(active)
    {
      assert LeaseRow(t, db.leases[t]) in active;
    }
    forall row | row in active
      ensures row.lease.worker in Sched.Busy(db)
    {
      assert LeaseRow(row.task, row.lease) in active;
    }
  }

  class Engine {
    const selfId: NodeId
    const cfg: Sched.Config
    const store: PostgresStore
    const strategy: Strategy
    var didLeaderRecovery: bool

    constructor (selfId: NodeId, cfg: Sched.Config, store: PostgresStore, strategy: Strategy)
      requires store.Valid() && store.leaseDuration == cfg.leaseDuration
      ensures Valid() && !didLeaderRecovery && this.selfId == selfId && this.cfg == cfg
      ensures this.store == store && this.strategy == strategy
    {
      this.selfId, this.cfg, this.store, this.strategy := selfId, cfg, store, strategy;
      didLeaderRecovery := false;
    }

    ghost predicate Valid()
      reads store
    {
      store.Valid() && store.leaseDuration == cfg.leaseDuration
    }

    /** The system state with this engine's tick at `pc`; `others` are the other nodes' engines. */
    ghost function At(pc: Sched.Pc, others: map<NodeId, Sched.Engine>): Sched.Sys
      reads this, store, strategy
    {
      Sched.Sys(cfg, store.View(), store.clock, others[selfId := Sched.Engine(didLeaderRecovery, strategy.counter)], pc)
    }

    method AliveWorkers(members: map<NodeId, Member>) returns (alive: map<NodeId, Member>)
      ensures alive == members - {selfId}
    {
      alive := map[];
      var rest := members.Keys;
      while rest != {}
        invariant rest <= members.Keys
        invariant alive == map id | id in members.Keys - rest && id != selfId :: members[id]
        decreases |rest|
      {
        var id :| id in rest;
        if id != selfId {
          alive := alive[id := members[id]];
        }
        rest := rest - {id};
      }
    }

    method FreeWorkers(alive: map<NodeId, Member>) returns (free: map<NodeId, Member>)
      ensures free == alive - Sched.Busy(store.View())
    {
      var active := store.ActiveLeases();
      free := alive;
      var i := 0;
      while i < |active|
        invariant 0 <= i <= |active|
        invariant free == alive - HoldersOf(active[..i])
      {
        free := free - {active[i].lease.worker};
        assert HoldersOf(active[..i + 1]) == HoldersOf(active[..i]) + {active[i].lease.worker} by {
          assert active[..i + 1] == active[..i] + [active[i]];
        }
        i := i + 1;
      }
      assert active[..i] == active;
      HoldersAreBusy(active, store.View());
    }

    /** The strategy's choice for task i. */
    method PickWorker(ids: seq<TaskId>, i: nat, workers: map<NodeId, Member>, ghost fate: Fate,
                      ghost others: map<NodeId, Sched.Engine>)
      returns (w: NodeId)
      requires Keyed(workers) && workers != map[] && i < |ids|
      modifies strategy
      ensures Next(old(At(Sched.NextTask(selfId, workers.Keys, ids, i), others)), fate) ==
              At(Sched.Assign(selfId, workers.Keys, ids, i, w), others)
    {
      var picked := strategy.Pick(workers);
      w := picked.value.id;
    }

    method AssignWorker(ids: seq<TaskId>, i: nat, w: NodeId, fate: Fate,
                        ghost free: set<NodeId>, ghost others: map<NodeId, Sched.Engine>)
      returns (ok: bool)
      requires Valid() && i < |ids|
      modifies store`rows, store`nextId, store`leases
      ensures Valid()
      ensures Next(old(At(Sched.Assign(selfId, free, ids, i, w), others)), fate) ==
              At(if ok then Sched.Send(selfId, free, ids, i, w) else Sched.NextTask(selfId, free, ids, i + 1), others)
    {
      ok := false;
      if fate.assign(i) != Sched.Rollback {
        ok := store.MarkAssigned(ids[i], w);
        ok := ok && fate.assign(i) == Sched.Commit;
      }
    }

    method GiveUpOn(ids: seq<TaskId>, i: nat, w: NodeId, fate: Fate,
                    ghost free: set<NodeId>, ghost others: map<NodeId, Sched.Engine>)
      requires Valid() && i < |ids|
      modifies store`rows, store`nextId, store`leases
      ensures Valid()
      ensures Next(old(At(Sched.GiveUp(selfId, free, ids, i, w), others)), fate) ==
              At(Sched.NextTask(selfId, free, ids, i + 1), others)
    {
      if fate.lost(i) != Sched.Rollback {
        var lost := store.MarkWorkerLost(ids[i], w, "dispatch failed");
      }
    }

    /** The AssignTask call and its failure path. */
    method Deliver(ids: seq<TaskId>, i: nat, w: NodeId, fate: Fate,
                   ghost free: set<NodeId>, ghost others: map<NodeId, Sched.Engine>)
      returns (ghost n: nat)
      requires Valid() && i < |ids|
      modifies store`rows, store`nextId, store`leases
      ensures Valid()
      ensures Drive(old(At(Sched.Send(selfId, free, ids, i, w), others)), fate, n) ==
              At(Sched.NextTask(selfId, free, ids, i + 1), others)
    {
      ghost var s := At(Sched.Send(selfId, free, ids, i, w), others);
      ghost var m := Next(s, fate);
      DriveOne(s, fate);
      n := 1;
      if w !in fate.reachable {
        assert m == At(Sched.GiveUp(selfId, free, ids, i, w), others);
        GiveUpOn(ids, i, w, fate, free, others);
        n := DriveStep(s, m, At(Sched.NextTask(selfId, free, ids, i + 1), others), fate, n);
      }
    }

    /** One round of the dispatch loop. */
    method DispatchOne(ids: seq<TaskId>, i: nat, workers: map<NodeId, Member>, fate: Fate,
                       ghost others: map<NodeId, Sched.Engine>)
      returns (ghost n: nat)
      requires Valid() && Keyed(workers) && workers != map[] && i < |ids|
      modifies store`rows, store`nextId, store`leases, strategy
      ensures Valid()
      ensures Drive(old(At(Sched.NextTask(selfId, workers.Keys, ids, i), others)), fate, n) ==
              At(Sched.NextTask(selfId, workers.Keys, ids, i + 1), others)
    {
      ghost var s := At(Sched.NextTask(selfId, workers.Keys, ids, i), others);
      var w := PickWorker(ids, i, workers, fate, others);
      ghost var m := At(Sched.Assign(selfId, workers.Keys, ids, i, w), others);
      DriveOne(s, fate);
      var ok := AssignWorker(ids, i, w, fate, workers.Keys, others);
      ghost var o := At(if ok then Sched.Send(selfId, workers.Keys, ids, i, w)
                        else Sched.NextTask(selfId, workers.Keys, ids, i + 1), others);
      n := DriveStep(s, m, o, fate, 1);
      if ok {
        ghost var k := Deliver(ids, i, w, fate, workers.Keys, others);
        n := DriveThrough(s, o, At(Sched.NextTask(selfId, workers.Keys, ids, i + 1), others), fate, n, k);
      }
    }

    method DispatchClaimedTasks(ids: seq<TaskId>, workers: map<NodeId, Member>, fate: Fate,
                                ghost others: map<NodeId, Sched.Engine>)
      returns (ghost n: nat)
      requires Valid() && Keyed(workers) && workers != map[]
      modifies store`rows, store`nextId, store`leases, strategy
      ensures Valid()
      ensures Drive(old(At(Sched.NextTask(selfId, workers.Keys, ids, 0), others)), fate, n) == At(Sched.Idle, others)
    {
      ghost var s := At(Sched.NextTask(selfId, workers.Keys, ids, 0), others);
      n := DriveNone(s, fate);
      var i := 0;
      while i < |ids|
        invariant 0 <= i <= |ids| && Valid()
        invariant Drive(s, fate, n) == At(Sched.NextTask(selfId, workers.Keys, ids, i), others)
      {
        ghost var m := At(Sched.NextTask(selfId, workers.Keys, ids, i), others);
        ghost var k := DispatchOne(ids, i, workers, fate, others);
        i := i + 1;
        n := DriveThrough(s, m, At(Sched.NextTask(selfId, workers.Keys, ids, i), others), fate, n, k);
      }
      n := BatchDispatch.BatchEnds(s, At(Sched.NextTask(selfId, workers.Keys, ids, i), others), fate, n);
    }

    method SweepStaleScheduling(fate: Fate, ghost alive: set<NodeId>, ghost others: map<NodeId, Sched.Engine>)
      requires Valid()
      modifies store`rows, store`nextId
      ensures Valid()
      ensures Next(old(At(Sched.SweepStale(selfId, alive), others)), fate) ==
              At(Sched.SweepDead(selfId, alive, fate.stale != Sched.Rollback), others)
    {
      if fate.stale != Sched.Rollback {
        var stale := store.RecoverStaleScheduling();
      }
    }

    method SweepDeadWorkers(fate: Fate, alive: map<NodeId, Member>, ghost staleDone: bool,
                            ghost others: map<NodeId, Sched.Engine>)
      requires Valid()
      modifies store`rows, store`nextId, store`leases, `didLeaderRecovery
      ensures Valid() && didLeaderRecovery
      ensures Next(old(At(Sched.SweepDead(selfId, alive.Keys, staleDone), others)), fate) ==
              At(Sched.SweepExpired(selfId, alive.Keys, staleDone && fate.dead != Sched.Rollback), others)
    {
      if fate.dead != Sched.Rollback {
        var dead := store.RecoverDeadWorkerLeases(alive);
      }
      didLeaderRecovery := true;
    }

    /** Both sweeps are tried once, and marked done whether or not they succeeded. */
    method RecoverOnLeadership(alive: map<NodeId, Member>, fate: Fate, ghost others: map<NodeId, Sched.Engine>)
      returns (ghost n: nat)
      requires Valid()
      modifies store`rows, store`nextId, store`leases, `didLeaderRecovery
      ensures Valid() && didLeaderRecovery
      ensures var swept := fate.stale != Sched.Rollback && fate.dead != Sched.Rollback;
              Drive(old(At(Sched.SweepStale(selfId, alive.Keys), others)), fate, n) ==
              At(Sched.SweepExpired(selfId, alive.Keys, swept), others)
    {
      ghost var s := At(Sched.SweepStale(selfId, alive.Keys), others);
      ghost var staleDone := fate.stale != Sched.Rollback;
      SweepStaleScheduling(fate, alive.Keys, others);
      ghost var m := At(Sched.SweepDead(selfId, alive.Keys, staleDone), others);
      DriveOne(s, fate);
      SweepDeadWorkers(fate, alive, staleDone, others);
      ghost var swept := staleDone && fate.dead != Sched.Rollback;
      n := DriveStep(s, m, At(Sched.SweepExpired(selfId, alive.Keys, swept), others), fate, 1);
    }

    method SweepExpiredLeases(fate: Fate, ghost alive: set<NodeId>, ghost swept: bool,
                              ghost others: map<NodeId, Sched.Engine>)
      requires Valid()
      modifies store`rows, store`nextId, store`leases
      ensures Valid()
      ensures Next(old(At(Sched.SweepExpired(selfId, alive, swept), others)), fate) ==
              At(if fate.expired == Sched.Commit then Sched.ListFree(selfId, alive, swept) else Sched.Idle, others)
    {
      if fate.expired != Sched.Rollback {
        var expired := store.RecoverExpiredLeases();
      }
    }

    /** No workers also if the query failed. */
    method ListFreeWorkers(fate: Fate, alive: map<NodeId, Member>, ghost swept: bool,
                           ghost others: map<NodeId, Sched.Engine>)
      returns (workers: map<NodeId, Member>, claimCount: int)
      requires Keyed(alive)
      ensures Keyed(workers) && claimCount == Sched.Min(cfg.batchSize, |workers|)
      ensures Next(At(Sched.ListFree(selfId, alive.Keys, swept), others), fate) ==
              At(if |workers| == 0 || claimCount == 0 then Sched.Idle
                 else Sched.ClaimTasks(selfId, workers.Keys), others)
    {
      workers := map[];
      if fate.listing == Sched.Commit {
        workers := FreeWorkers(alive);
        assert workers.Keys == alive.Keys - Sched.Busy(store.View());
      }
      claimCount := Sched.Min(cfg.batchSize, |workers|);
    }

    /** Nothing to dispatch also if the claim failed, even when it took effect. */
    method ClaimBatch(fate: Fate, workers: map<NodeId, Member>, claimCount: int,
                      ghost others: map<NodeId, Sched.Engine>)
      returns (ids: seq<TaskId>)
      requires Valid() && claimCount == Sched.Min(cfg.batchSize, |workers.Keys|)
      modifies store`rows, store`nextId
      ensures Valid()
      ensures Next(old(At(Sched.ClaimTasks(selfId, workers.Keys), others)), fate) ==
              At(if ids == [] then Sched.Idle else Sched.NextTask(selfId, workers.Keys, ids, 0), others)
    {
      ids := [];
      if fate.claim != Sched.Rollback {
        var claimed := store.ClaimQueued(selfId, claimCount);
        ids := if claimed.Some? && fate.claim == Sched.Commit then claimed.value else [];
      }
    }

    /** From the expiry sweep to the end of the tick. */
    method RecoverAndDispatch(alive: map<NodeId, Member>, fate: Fate, ghost swept: bool,
                              ghost others: map<NodeId, Sched.Engine>)
      returns (ghost n: nat)
      requires Valid() && Keyed(alive)
      modifies store`rows, store`nextId, store`leases, strategy
      ensures Valid()
      ensures Drive(old(At(Sched.SweepExpired(selfId, alive.Keys, swept), others)), fate, n) == At(Sched.Idle, others)
    {
      ghost var s := At(Sched.SweepExpired(selfId, alive.Keys, swept), others);
      SweepExpiredLeases(fate, alive.Keys, swept, others);
      DriveOne(s, fate);
      n := 1;
      if fate.expired == Sched.Commit {
        ghost var m := At(Sched.ListFree(selfId, alive.Keys, swept), others);
        ghost var k := ClaimAndDispatch(alive, fate, swept, others);
        n := DriveThrough(s, m, At(Sched.Idle, others), fate, n, k);
      }
    }

    /** From the lease listing to the end of the tick. */
    method ClaimAndDispatch(alive: map<NodeId, Member>, fate: Fate, ghost swept: bool,
                            ghost others: map<NodeId, Sched.Engine>)
      returns (ghost n: nat)
      requires Valid() && Keyed(alive)
      modifies store`rows, store`nextId, store`leases, strategy
      ensures Valid()
      ensures Drive(old(At(Sched.ListFree(selfId, alive.Keys, swept), others)), fate, n) == At(Sched.Idle, others)
    {
      ghost var s := At(Sched.ListFree(selfId, alive.Keys, swept), others);
      var workers, claimCount := ListFreeWorkers(fate, alive, swept, others);
      DriveOne(s, fate);
      n := 1;
      if |workers| == 0 || claimCount == 0 {
        return;
      }
      assert |workers| == |workers.Keys|;
      ghost var m := At(Sched.ClaimTasks(selfId, workers.Keys), others);
      var ids := ClaimBatch(fate, workers, claimCount, others);
      ghost var o := At(if ids == [] then Sched.Idle else Sched.NextTask(selfId, workers.Keys, ids, 0), others);
      n := DriveStep(s, m, o, fate, n);
      if ids != [] {
        ghost var k := DispatchClaimedTasks(ids, workers, fate, others);
        n := DriveThrough(s, o, At(Sched.Idle, others), fate, n, k);
      }
    }

    /** A tick has something to do: this node leads and has workers. */
    predicate Works(leads: bool, members: map<NodeId, Member>) {
      leads && members.Keys - {selfId} != {}
    }

    /** The entry of a tick: a follower forgets its recovery, a leader looks for workers. */
    method Begin(leads: bool, members: map<NodeId, Member>) returns (alive: map<NodeId, Member>)
      requires Keyed(members)
      modifies `didLeaderRecovery
      ensures Keyed(alive) && (leads ==> alive.Keys == members.Keys - {selfId})
      ensures didLeaderRecovery == (leads && old(didLeaderRecovery))
    {
      alive := map[];
      if leads {
        alive := AliveWorkers(members);
      } else {
        didLeaderRecovery := false;
      }
      assert leads ==> alive.Keys == members.Keys - {selfId};
    }

    /** The steps of a tick.  `leads` is the election's answer. */
    method RunTick(leads: bool, members: map<NodeId, Member>, fate: Fate, ghost others: map<NodeId, Sched.Engine>)
      returns (ghost n: nat)
      requires Valid() && Keyed(members)
      modifies store`rows, store`nextId, store`leases, strategy, `didLeaderRecovery
      ensures Valid()
      ensures var begun := Sched.Do(old(At(Sched.Idle, others)), Sched.StartTick(selfId, leads, members.Keys));
              Drive(begun, fate, n) == At(Sched.Idle, others)
      ensures didLeaderRecovery == (leads && (old(didLeaderRecovery) || Works(leads, members)))
      ensures !Works(leads, members) ==>
                store.View() == old(store.View()) && strategy.counter == old(strategy.counter)
    {
      ghost var entry := EntryOf(selfId, leads, members.Keys - {selfId}, didLeaderRecovery);
      StartTickIs(At(Sched.Idle, others), selfId, leads, members.Keys, others,
                  Sched.Engine(didLeaderRecovery, strategy.counter));
      var alive := Begin(leads, members);
      ghost var s := At(entry, others);
      n := 0;
      if !leads || |alive| == 0 {
        return;
      }
      ghost var swept := false;
      if !didLeaderRecovery {
        n := RecoverOnLeadership(alive, fate, others);
        swept := fate.stale != Sched.Rollback && fate.dead != Sched.Rollback;
      }
      ghost var m := At(Sched.SweepExpired(selfId, alive.Keys, swept), others);
      ghost var k := RecoverAndDispatch(alive, fate, swept, others);
      n := DriveThrough(s, m, At(Sched.Idle, others), fate, n, k);
    }

    /**
      One tick.  It is a run of the system, so it keeps the system's invariant.  A leader with workers sweeps, claims
      and hands out as `TickEffect` says for its fate, `swept` being the tables in between and `ids` the batch; a first
      tick whose transactions commit leaves nothing SCHEDULING; and no lease is left expired once the expiry sweep
      took effect.  Without the lead or without workers the tables stay as they are.
     */
    method Tick(leads: bool, members: map<NodeId, Member>, fate: Fate, ghost others: map<NodeId, Sched.Engine>)
      returns (ghost swept: Db, ghost ids: seq<TaskId>)
      requires Valid() && Keyed(members)
      modifies store`rows, store`nextId, store`leases, strategy, `didLeaderRecovery
      ensures Valid()
      ensures old(Sched.SysOk(At(Sched.Idle, others))) ==> Sched.SysOk(At(Sched.Idle, others))
      ensures Works(leads, members) && old(Sched.SysOk(At(Sched.Idle, others))) ==>
                && TickEffects.TickEffect(old(At(Sched.Idle, others)), At(Sched.Idle, others), selfId,
                                          members.Keys - {selfId}, fate, swept, ids)
                && (!old(didLeaderRecovery) && Commits(fate) ==> Sched.NothingScheduling(store.View()))
      ensures Works(leads, members) && fate.expired != Sched.Rollback && cfg.leaseDuration >= 0 ==>
                TickEffects.NoneExpired(store.View(), store.clock)
      ensures didLeaderRecovery == (leads && (old(didLeaderRecovery) || Works(leads, members)))
      ensures !Works(leads, members) ==>
                store.View() == old(store.View()) && strategy.counter == old(strategy.counter)
    {
      ghost var s := At(Sched.Idle, others);
      ghost var n := RunTick(leads, members, fate, others);
      TickIsSafe(s, selfId, leads, members.Keys, fate, n);
      swept, ids := TickAchieves(s, selfId, leads, members.Keys, fate, n);
    }
  }

  /** Where a tick begins. */
  function EntryOf(self: NodeId, leads: bool, alive: set<NodeId>, recovered: bool): Sched.Pc {
    if !leads || alive == {} then Sched.Idle
    else if recovered then Sched.SweepExpired(self, alive, false)
    else Sched.SweepStale(self, alive)
  }

  lemma StartTickIs(s: Sched.Sys, self: NodeId, leads: bool, members: set<NodeId>,
                    others: map<NodeId, Sched.Engine>, e: Sched.Engine)
    requires s.pc.Idle? && s.engines == others[self := e]
    ensures Sched.Do(s, Sched.StartTick(self, leads, members)) ==
            s.(engines := others[self := e.(recovered := leads && e.recovered)],
               pc := EntryOf(self, leads, members - {self}, e.recovered))
  {
    assert others[self := e][self := e.(recovered := false)] == others[self := e.(recovered := false)];
  }

  /** A tick is a run of the system. */
  lemma TickIsSafe(s: Sched.Sys, self: NodeId, leads: bool, members: set<NodeId>, fate: Fate, n: nat)
    ensures Sched.SysOk(s) ==> Sched.SysOk(Drive(Sched.Do(s, Sched.StartTick(self, leads, members)), fate, n))
  {
    if Sched.SysOk(s) {
      var b := Sched.Do(s, Sched.StartTick(self, leads, members));
      Sched.StepKeeps(s, Sched.StartTick(self, leads, members));
      var steps := DriveIsRun(b, fate, n);
      Guarantees.RunExtends(b, steps);
    }
  }

  lemma TickAchieves(s: Sched.Sys, self: NodeId, leads: bool, members: set<NodeId>, fate: Fate, n: nat)
    returns (swept: Db, ids: seq<TaskId>)
    requires s.pc.Idle? && Drive(Sched.Do(s, Sched.StartTick(self, leads, members)), fate, n).pc.Idle?
    ensures var e := Drive(Sched.Do(s, Sched.StartTick(self, leads, members)), fate, n);
            var alive := members - {self};
            leads && alive != {} ==>
              && (Sched.SysOk(s) ==>
                    && TickEffects.TickEffect(s, e, self, alive, fate, swept, ids)
                    && (!Sched.EngineOf(s, self).recovered && Commits(fate) ==> Sched.NothingScheduling(e.db)))
              && (fate.expired != Sched.Rollback && s.cfg.leaseDuration >= 0 ==> TickEffects.NoneExpired(e.db, s.now))
  {
    var alive := members - {self};
    var b := Sched.Do(s, Sched.StartTick(self, leads, members));
    var e := Drive(b, fate, n);
    swept, ids := s.db, [];
    if leads && alive != {} {
      assert b == TickEffects.Begun(s, self, alive);
      if Sched.SysOk(s) {
        swept, ids := TickEffects.TickHasEffect(s, self, alive, fate, n);
        if !Sched.EngineOf(s, self).recovered && Commits(fate) {
          TickEffects.NothingStaysScheduling(s, e, self, alive, fate, swept, ids);
        }
      }
      if fate.expired != Sched.Rollback && s.cfg.leaseDuration >= 0 {
        TickEffects.NoneStaysExpired(s, self, alive, fate, n);
      }
    }
  }
}
