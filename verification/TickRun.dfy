/**
  A tick on its own: with the fate of its transactions and calls given, every step of it is determined.
 */
module TickRun {
  import opened Tasks
  import opened Scheduler

  /**
    How the transactions of a tick end, those of the dispatch loop by position in the batch, and which workers its
    calls reach.  A transaction that rolls back leaves the store alone, one whose reply is lost takes effect; the
    engine sees an error in both cases.
   */
  datatype Fate = Fate(stale: Tx, dead: Tx, expired: Tx, listing: Tx, claim: Tx,
                       assign: nat -> Tx, lost: nat -> Tx, reachable: set<NodeId>)

  /** Every transaction of the tick commits. */
  ghost predicate Commits(fate: Fate) {
    && fate.stale == Commit && fate.dead == Commit && fate.expired == Commit
    && fate.listing == Commit && fate.claim == Commit
    && forall i: nat :: fate.assign(i) == Commit && fate.lost(i) == Commit
  }

  /** The next step of a tick at `pc`. */
  function StepFor(pc: Pc, fate: Fate): Step {
    match pc
    case SweepStale(_, _) => Proceed(fate.stale, true)
    case SweepDead(_, _, _) => Proceed(fate.dead, true)
    case SweepExpired(_, _, _) => Proceed(fate.expired, true)
    case ListFree(_, _, _) => Proceed(fate.listing, true)
    case ClaimTasks(_, _) => Proceed(fate.claim, true)
    case Assign(_, _, _, i, _) => Proceed(fate.assign(i), true)
    case Send(_, _, _, _, w) => Proceed(Commit, w in fate.reachable)
    case GiveUp(_, _, _, i, _) => Proceed(fate.lost(i), true)
    case _ => Proceed(Commit, true)
  }

  ghost function Next(s: Sys, fate: Fate): Sys {
    Do(s, StepFor(s.pc, fate))
  }

  ghost function Iterate<S>(f: S -> S, s: S, n: nat): S {
    if n == 0 then s else f(Iterate(f, s, n - 1))
  }

  lemma {:induction false} IterateMore<S>(f: S -> S, s: S, a: nat, b: nat)
    ensures Iterate(f, s, a + b) == Iterate(f, Iterate(f, s, a), b)
  {
    if b > 0 {
      IterateMore(f, s, a, b - 1);
    }
  }

  ghost function Stepper(fate: Fate): Sys -> Sys {
    (s: Sys) => Next(s, fate)
  }

  /** The system after n steps of the tick, with nothing else happening. */
  ghost function Drive(s: Sys, fate: Fate, n: nat): Sys {
    Iterate(Stepper(fate), s, n)
  }

  lemma DriveNone(s: Sys, fate: Fate) returns (n: nat)
    ensures Drive(s, fate, n) == s
  {
    n := 0;
  }

  lemma DriveOne(s: Sys, fate: Fate)
    ensures Drive(s, fate, 1) == Next(s, fate)
  {
    assert Iterate(Stepper(fate), s, 0) == s;
  }

  lemma DriveSucc(s: Sys, fate: Fate, n: nat)
    ensures Drive(s, fate, n + 1) == Next(Drive(s, fate, n), fate)
  {
  }

  lemma DriveMore(s: Sys, fate: Fate, a: nat, b: nat)
    ensures Drive(s, fate, a + b) == Drive(Drive(s, fate, a), fate, b)
  {
    IterateMore(Stepper(fate), s, a, b);
  }

  /** One tick part after another. */
  lemma DriveThrough(s: Sys, m: Sys, e: Sys, fate: Fate, a: nat, b: nat) returns (n: nat)
    requires Drive(s, fate, a) == m && Drive(m, fate, b) == e
    ensures Drive(s, fate, n) == e
  {
    DriveMore(s, fate, a, b);
    n := a + b;
  }

  /** One more step. */
  lemma DriveStep(s: Sys, m: Sys, e: Sys, fate: Fate, a: nat) returns (n: nat)
    requires Drive(s, fate, a) == m && Next(m, fate) == e
    ensures Drive(s, fate, n) == e
  {
    n := a + 1;
  }

  lemma {:induction false} IdleStays(s: Sys, fate: Fate, n: nat)
    requires s.pc.Idle?
    ensures Drive(s, fate, n) == s
  {
    if n > 0 {
      IdleStays(s, fate, n - 1);
    }
  }

  lemma IdleIsFinal(s: Sys, fate: Fate, a: nat, b: nat)
    requires Drive(s, fate, a).pc.Idle? && a <= b
    ensures Drive(s, fate, b) == Drive(s, fate, a)
  {
    var e := Drive(s, fate, a);
    DriveMore(s, fate, a, b - a);
    IdleStays(e, fate, b - a);
  }

  /** A tick has one outcome. */
  lemma OneOutcome(s: Sys, fate: Fate, a: nat, b: nat)
    requires Drive(s, fate, a).pc.Idle? && Drive(s, fate, b).pc.Idle?
    ensures Drive(s, fate, a) == Drive(s, fate, b)
  {
    if a <= b {
      IdleIsFinal(s, fate, a, b);
    } else {
      IdleIsFinal(s, fate, b, a);
    }
  }

  /** Such a tick is a run of the system. */
  lemma {:induction false} DriveIsRun(s: Sys, fate: Fate, n: nat) returns (steps: seq<Step>)
    ensures |steps| == n && Drive(s, fate, n) == Exec(s, steps)
  {
    if n == 0 {
      steps := [];
    } else {
      var init := DriveIsRun(s, fate, n - 1);
      var step := StepFor(Exec(s, init).pc, fate);
      ExecSnoc(s, init, step);
      steps := init + [step];
    }
  }
}
