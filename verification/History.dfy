/**
  The life of one task: every status history the store can produce is a word of one automaton.
  The automaton remembers the worker of the current assignment; the lemmas of this module
  turn acceptance into statements about the records themselves.
 */
module History {
  import opened Tasks

  datatype Mode =
    | Start
    | InQueue
    | InScheduling
    | Held(worker: NodeId, running: bool)
    | Done
    | AfterFailure
    | AfterLoss
    | Bad

  function Delta(m: Mode, r: Record): Mode {
    match r.status
    case Queued =>
      if r.worker == None && m in {Start, InScheduling, AfterFailure, AfterLoss} then InQueue else Bad
    case Scheduling =>
      if r.worker.Some? && m == InQueue then InScheduling else Bad
    case Assigned =>
      if r.worker.Some? && m == InScheduling then Held(r.worker.value, false) else Bad
    case Running =>
      if m.Held? && r.worker == Some(m.worker) then Held(m.worker, true) else Bad
    case Failed =>
      if m.Held? && r.worker == Some(m.worker) then AfterFailure else Bad
    case WorkerLost =>
      if m.Held? && r.worker == Some(m.worker) then AfterLoss else Bad
    case Completed =>
      if m.Held? && m.running && r.worker == Some(m.worker) then Done else Bad
  }

  function Run(h: seq<Record>): Mode {
    if h == [] then Start else Delta(Run(h[..|h| - 1]), h[|h| - 1])
  }

  lemma RunAppend(h: seq<Record>, r: Record)
    ensures Run(h + [r]) == Delta(Run(h), r)
  {
    assert (h + [r])[..|h|] == h;
  }

  /** The latest status of an accepted history determines its mode up to the worker. */
  lemma ModeOfLatest(h: seq<Record>)
    requires Run(h) != Bad
    ensures Run(h) == Start <==> Latest(h) == None
    ensures Run(h) == InQueue <==> Latest(h) == Some(Queued)
    ensures Run(h) == InScheduling <==> Latest(h) == Some(Scheduling)
    ensures Run(h).Held? && !Run(h).running <==> Latest(h) == Some(Assigned)
    ensures Run(h).Held? && Run(h).running <==> Latest(h) == Some(Running)
    ensures Run(h) == AfterFailure <==> Latest(h) == Some(Failed)
    ensures Run(h) == AfterLoss <==> Latest(h) == Some(WorkerLost)
    ensures Run(h) == Done <==> Latest(h) == Some(Completed)
  {
  }

  /** Acceptance is closed under prefixes. */
  lemma {:induction false} PrefixAccepted(h: seq<Record>, n: nat)
    requires n <= |h| && Run(h) != Bad
    ensures Run(h[..n]) != Bad
  {
    if n == |h| {
      assert h[..n] == h;
    } else {
      PrefixAccepted(h[..|h| - 1], n);
      assert h[..|h| - 1][..n] == h[..n];
    }
  }

  /** The worker named by the last ASSIGNED record among the first `n`. */
  function LastAssignee(h: seq<Record>, n: nat): Option<NodeId>
    requires n <= |h|
  {
    if n == 0 then None
    else if h[n - 1].status == Assigned then h[n - 1].worker
    else LastAssignee(h, n - 1)
  }

  /** Which status may directly follow which. */
  predicate Follows(s: Status, next: Status) {
    match s
    case Queued => next == Scheduling
    case Scheduling => next in {Assigned, Queued}
    case Assigned => next in {Running, Failed, WorkerLost}
    case Running => next in {Running, Failed, WorkerLost, Completed}
    case Failed => next == Queued
    case WorkerLost => next == Queued
    case Completed => false
  }

  /** The life cycle stated on the records alone, without an automaton. */
  ghost predicate Lawful(h: seq<Record>) {
    && (h != [] ==> h[0].status == Queued)
    && (forall i :: 0 < i < |h| ==> Follows(h[i - 1].status, h[i].status))
    && (forall i :: 0 <= i < |h| ==> LawfulWorker(h, i))
  }

  ghost predicate LawfulWorker(h: seq<Record>, i: nat)
    requires i < |h|
  {
    match h[i].status
    case Queued => h[i].worker == None
    case Scheduling => h[i].worker.Some?
    case Assigned => h[i].worker.Some?
    case _ => h[i].worker.Some? && h[i].worker == LastAssignee(h, i)
  }

  lemma {:induction false} LastAssigneePrefix(h: seq<Record>, k: nat, n: nat)
    requires n <= k <= |h|
    ensures LastAssignee(h[..k], n) == LastAssignee(h, n)
  {
    if n > 0 {
      LastAssigneePrefix(h, k, n - 1);
    }
  }

  /** In an accepted history the automaton's worker is the last assignee. */
  lemma {:induction false} HolderIsLastAssignee(h: seq<Record>)
    requires Run(h).Held?
    ensures LastAssignee(h, |h|) == Some(Run(h).worker)
  {
    var p := h[..|h| - 1];
    if h[|h| - 1].status != Assigned {
      HolderIsLastAssignee(p);
      LastAssigneePrefix(h, |h| - 1, |h| - 1);
    }
  }

  lemma LawfulPrefix(h: seq<Record>)
    requires h != []
    ensures Lawful(h) <==>
            && Lawful(h[..|h| - 1])
            && (if |h| == 1 then h[0].status == Queued else Follows(h[|h| - 2].status, h[|h| - 1].status))
            && LawfulWorker(h, |h| - 1)
  {
    var p := h[..|h| - 1];
    forall i | 0 <= i < |p|
      ensures LawfulWorker(p, i) <==> LawfulWorker(h, i)
    {
      LastAssigneePrefix(h, |p|, i);
    }
    assert forall i :: 0 <= i < |p| ==> p[i] == h[i];
    if Lawful(h) {
      assert forall i :: 0 < i < |p| ==> Follows(h[i - 1].status, h[i].status);
    }
  }

  /** The automaton accepts exactly the lawful histories. */
  lemma {:induction false} AcceptsLawful(h: seq<Record>)
    ensures Run(h) != Bad <==> Lawful(h)
  {
    if h != [] {
      var p := h[..|h| - 1];
      AcceptsLawful(p);
      LawfulPrefix(h);
      LastAssigneePrefix(h, |p|, |p|);
      if Run(p) != Bad {
        ModeOfLatest(p);
        if Run(p).Held? {
          HolderIsLastAssignee(p);
        }
      }
    }
  }

  /**
    Conservation: every assignment is ended by exactly one COMPLETED, FAILED or WORKER_LOST record
    or is still held, and every QUEUED record is consumed by exactly one SCHEDULING record or is the latest.
   */
  lemma {:induction false} Conservation(h: seq<Record>)
    requires Run(h) != Bad
    ensures Count(h, Assigned) ==
            Count(h, Completed) + Count(h, Failed) + Count(h, WorkerLost) + (if Run(h).Held? then 1 else 0)
    ensures Count(h, Queued) == Count(h, Scheduling) + (if Run(h) == InQueue then 1 else 0)
    ensures Count(h, Completed) == if Run(h) == Done then 1 else 0
  {
    if h != [] {
      Conservation(h[..|h| - 1]);
    }
  }
}
