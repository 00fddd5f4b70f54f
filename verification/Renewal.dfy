/**
  Lease renewal: how long a lease survives, in terms of when it was last granted or renewed,
  and how many missed renewals the configured cadence tolerates.
 */
module Renewal {
  import opened Tasks
  import opened Operations
  import opened StoreInvariant
  import opened Scheduler
  import opened Guarantees

  function Span(s: Sys): int {
    LeaseSpan(s.cfg.leaseDuration)
  }

  /** When task t's lease was last granted or renewed by `w`, if it was granted at `granted`. */
  ghost function LastGrant(s: Sys, steps: seq<Step>, t: TaskId, w: NodeId, granted: int): int {
    if steps == [] then granted
    else
      var init := steps[..|steps| - 1];
      if steps[|steps| - 1] == Worker(Renew(t, w)) then Exec(s, init).now else LastGrant(s, init, t, w, granted)
  }

  ghost predicate HeldThroughout(s: Sys, steps: seq<Step>, t: TaskId, w: NodeId) {
    forall n :: 0 <= n <= |steps| ==> LeasedTo(Exec(s, steps[..n]).db, t, w)
  }

  /** No step changes the expiry of a lease that it leaves in place, except a renewal by its owner. */
  lemma ExpiryAfterStep(s: Sys, step: Step, t: TaskId, w: NodeId)
    requires SysOk(s) && LeasedTo(s.db, t, w) && LeasedTo(Do(s, step).db, t, w)
    ensures Do(s, step).cfg == s.cfg
    ensures Do(s, step).db.leases[t].expiresAt ==
            if step == Worker(Renew(t, w)) then s.now + Span(s) else s.db.leases[t].expiresAt
  {
    LeaseAgreesWithStatus(s.db, t);
  }

  /** While a lease is held its expiry is the last grant plus the lease duration in whole seconds. */
  lemma {:induction false} ExpiryTracksGrant(s: Sys, steps: seq<Step>, t: TaskId, w: NodeId, granted: int)
    requires SysOk(s) && HeldThroughout(s, steps, t, w)
    requires LeasedTo(s.db, t, w) && s.db.leases[t].expiresAt == granted + Span(s)
    ensures LeasedTo(Exec(s, steps).db, t, w) && Exec(s, steps).cfg == s.cfg
    ensures Exec(s, steps).db.leases[t].expiresAt == LastGrant(s, steps, t, w, granted) + Span(s)
    ensures IsTruncation(Span(s), s.cfg.leaseDuration)
  {
    LeaseSpanTruncates(s.cfg.leaseDuration);
    assert steps[..|steps|] == steps;
    assert LeasedTo(Exec(s, steps[..|steps|]).db, t, w);
    if steps != [] {
      var init := steps[..|steps| - 1];
      assert forall n :: 0 <= n <= |init| ==> init[..n] == steps[..n];
      ExpiryTracksGrant(s, init, t, w, granted);
      RunExtends(s, init);
      ExpiryAfterStep(Exec(s, init), steps[|steps| - 1], t, w);
    }
  }

  /** An expiry sweep at the end of such a run revokes the lease exactly when the lease duration has been exceeded. */
  lemma RevokedOnlyWhenOverdue(s: Sys, steps: seq<Step>, t: TaskId, w: NodeId, granted: int)
    requires SysOk(s) && HeldThroughout(s, steps, t, w)
    requires LeasedTo(s.db, t, w) && s.db.leases[t].expiresAt == granted + Span(s)
    ensures var e := Exec(s, steps);
            t !in RecoverExpiredLeases(e.db, e.now).leases <==>
            e.now - LastGrant(s, steps, t, w, granted) > Span(s)
    ensures IsTruncation(Span(s), s.cfg.leaseDuration)
  {
    ExpiryTracksGrant(s, steps, t, w, granted);
  }

  // ---- cadence ----------------------------------------------------------------------------

  /** Renewals missed in a row at the end of `ok`; attempt j of the renewal loop succeeds iff ok[j]. */
  function TrailingMisses(ok: seq<bool>): (k: nat)
    ensures k <= |ok|
  {
    if ok == [] || ok[|ok| - 1] then 0 else TrailingMisses(ok[..|ok| - 1]) + 1
  }

  /** When attempt j (counting from 0) of a loop started at `start` with period `r` fires. */
  function FiresAt(start: int, r: nat, j: nat): int {
    start + (j + 1) * r
  }

  /** The last grant after the attempts `ok`: the original one or the last successful renewal. */
  function GrantAfter(granted: int, start: int, r: nat, ok: seq<bool>): int {
    var k := TrailingMisses(ok);
    if k == |ok| then granted else FiresAt(start, r, |ok| - 1 - k)
  }

  /** The times at which the successful attempts of `ok` fire, in order. */
  function Fired(start: int, r: nat, ok: seq<bool>): seq<int> {
    if ok == [] then []
    else
      var l := |ok| - 1;
      Fired(start, r, ok[..l]) + (if ok[l] then [FiresAt(start, r, l)] else [])
  }

  /** The times at which the run renews task t's lease for `w`, in order. */
  ghost function RenewedAt(s: Sys, steps: seq<Step>, t: TaskId, w: NodeId): seq<int> {
    if steps == [] then []
    else
      var init := steps[..|steps| - 1];
      RenewedAt(s, init, t, w) + (if steps[|steps| - 1] == Worker(Renew(t, w)) then [Exec(s, init).now] else [])
  }

  function LastOr(times: seq<int>, granted: int): int {
    if times == [] then granted else times[|times| - 1]
  }

  lemma {:induction false} LastGrantIsLastRenewal(s: Sys, steps: seq<Step>, t: TaskId, w: NodeId, granted: int)
    ensures LastGrant(s, steps, t, w, granted) == LastOr(RenewedAt(s, steps, t, w), granted)
  {
    if steps != [] {
      LastGrantIsLastRenewal(s, steps[..|steps| - 1], t, w, granted);
    }
  }

  lemma {:induction false} GrantAfterIsLastFired(granted: int, start: int, r: nat, ok: seq<bool>)
    ensures GrantAfter(granted, start, r, ok) == LastOr(Fired(start, r, ok), granted)
  {
    if ok != [] {
      GrantAfterIsLastFired(granted, start, r, ok[..|ok| - 1]);
    }
  }

  /**
    The run keeps the lease in w's hands and renews it exactly when the attempts of `ok` succeed, of which at most
    the last k were missed; the next attempt is not overdue.
   */
  ghost predicate OnCadence(s: Sys, steps: seq<Step>, t: TaskId, w: NodeId, start: int, r: nat, ok: seq<bool>, k: nat) {
    && HeldThroughout(s, steps, t, w)
    && RenewedAt(s, steps, t, w) == Fired(start, r, ok)
    && TrailingMisses(ok) <= k
    && Exec(s, steps).now <= FiresAt(start, r, |ok|)
  }

  /** An expiry sweep at the end of the run leaves task t its lease. */
  ghost predicate Spared(s: Sys, steps: seq<Step>, t: TaskId) {
    t in RecoverExpiredLeases(Exec(s, steps).db, Exec(s, steps).now).leases
  }

  lemma {:induction false} AllMissed(start: int, r: nat, ok: seq<bool>)
    requires forall j :: 0 <= j < |ok| ==> !ok[j]
    ensures TrailingMisses(ok) == |ok| && Fired(start, r, ok) == []
  {
    if ok != [] {
      AllMissed(start, r, ok[..|ok| - 1]);
    }
  }

  lemma Scale(a: nat, b: nat, r: nat)
    requires a <= b
    ensures a * r <= b * r
  {
  }

  lemma GapIsBounded(granted: int, start: int, r: nat, k: nat, ok: seq<bool>, n: nat)
    requires granted <= start && |ok| == n && TrailingMisses(ok) <= k
    ensures FiresAt(start, r, n) - GrantAfter(granted, start, r, ok) <= (start - granted) + (k + 1) * r
  {
    var m := TrailingMisses(ok);
    if m == |ok| {
      Scale(n + 1, k + 1, r);
    } else {
      Scale(m + 1, k + 1, r);
      assert (n + 1) * r - (n - 1 - m + 1) * r == (m + 1) * r;
    }
  }

  /** A loop whose delay and k + 1 periods fit in the lease duration is never caught by an expiry sweep. */
  lemma CadenceSpares(s: Sys, steps: seq<Step>, t: TaskId, w: NodeId, granted: int,
                      start: int, r: nat, ok: seq<bool>, k: nat)
    requires SysOk(s) && LeasedTo(s.db, t, w) && s.db.leases[t].expiresAt == granted + Span(s)
    requires granted <= start && (start - granted) + (k + 1) * r <= Span(s)
    requires OnCadence(s, steps, t, w, start, r, ok, k)
    ensures Spared(s, steps, t)
  {
    LastGrantIsLastRenewal(s, steps, t, w, granted);
    GrantAfterIsLastFired(granted, start, r, ok);
    GapIsBounded(granted, start, r, k, ok, |ok|);
    RevokedOnlyWhenOverdue(s, steps, t, w, granted);
  }

  lemma SweepStepSpares(e: Sys, t: TaskId, w: NodeId, tx: Tx, reached: bool)
    requires e.pc.SweepExpired? && LeasedTo(e.db, t, w) && t in RecoverExpiredLeases(e.db, e.now).leases
    ensures LeasedTo(Do(e, Proceed(tx, reached)).db, t, w)
  {
  }

  lemma HeldOneMore(s: Sys, steps: seq<Step>, step: Step, t: TaskId, w: NodeId)
    requires HeldThroughout(s, steps, t, w) && LeasedTo(Exec(s, steps + [step]).db, t, w)
    ensures HeldThroughout(s, steps + [step], t, w)
  {
    var all := steps + [step];
    assert all[..|all|] == all;
    assert forall n :: 0 <= n <= |steps| ==> all[..n] == steps[..n];
  }

  /** So the expiry sweep of a tick in the run itself leaves the lease in w's hands. */
  lemma TickSpares(s: Sys, steps: seq<Step>, t: TaskId, w: NodeId, granted: int,
                   start: int, r: nat, ok: seq<bool>, k: nat, tx: Tx, reached: bool)
    requires SysOk(s) && LeasedTo(s.db, t, w) && s.db.leases[t].expiresAt == granted + Span(s)
    requires granted <= start && (start - granted) + (k + 1) * r <= Span(s)
    requires OnCadence(s, steps, t, w, start, r, ok, k) && Exec(s, steps).pc.SweepExpired?
    ensures HeldThroughout(s, steps + [Proceed(tx, reached)], t, w)
  {
    CadenceSpares(s, steps, t, w, granted, start, r, ok, k);
    assert steps[..|steps|] == steps && LeasedTo(Exec(s, steps[..|steps|]).db, t, w);
    SweepStepSpares(Exec(s, steps), t, w, tx, reached);
    ExecSnoc(s, steps, Proceed(tx, reached));
    HeldOneMore(s, steps, Proceed(tx, reached), t, w);
  }

  /** The run that stretches the first gap the most: time passes until k attempts were missed and the next is due. */
  lemma WorstCase(s: Sys, t: TaskId, w: NodeId, granted: int, start: int, r: nat, k: nat)
    returns (steps: seq<Step>, ok: seq<bool>)
    requires SysOk(s) && LeasedTo(s.db, t, w) && s.db.leases[t].expiresAt == granted + Span(s) && s.now <= start
    ensures OnCadence(s, steps, t, w, start, r, ok, k)
    ensures Spared(s, steps, t) <==> (start - granted) + (k + 1) * r <= Span(s)
  {
    ok := seq(k, _ => false);
    AllMissed(start, r, ok);
    var wait := Elapse(FiresAt(start, r, k) - s.now);
    steps := [wait];
    ExecOne(s, wait);
    assert steps[..0] == [] && steps[..1] == steps;
    assert RenewedAt(s, [], t, w) == [];
  }

  /**
    A renewal loop with period `r`, started `start - granted` after the grant, keeps the lease from every expiry sweep
    in every run with at most k consecutive misses if and only if that delay plus k + 1 periods fit in the lease
    duration in whole seconds.
   */
  lemma ToleratedMisses(s: Sys, t: TaskId, w: NodeId, granted: int, start: int, r: nat, k: nat)
    requires SysOk(s) && LeasedTo(s.db, t, w) && s.db.leases[t].expiresAt == granted + Span(s)
    requires granted <= start && s.now <= start
    ensures (forall steps, ok :: OnCadence(s, steps, t, w, start, r, ok, k) ==> Spared(s, steps, t)) <==>
            (start - granted) + (k + 1) * r <= Span(s)
    ensures IsTruncation(Span(s), s.cfg.leaseDuration)
  {
    LeaseSpanTruncates(s.cfg.leaseDuration);
    var worst, missed := WorstCase(s, t, w, granted, start, r, k);
    if (start - granted) + (k + 1) * r <= Span(s) {
      forall steps, ok | OnCadence(s, steps, t, w, start, r, ok, k)
        ensures Spared(s, steps, t)
      {
        CadenceSpares(s, steps, t, w, granted, start, r, ok, k);
      }
    }
  }
}
