/**
  The local election state of a node and its transitions, each taken under the state's lock.
 */
module LocalElection {
  import opened Tasks

  datatype Phase = Idle | Electing | WaitingCoordinator | HasLeader

  /** Leader 0 stands for none. */
  datatype Local = Local(term: nat, leader: nat, phase: Phase)

  const INITIAL := Local(0, 0, Idle)

  predicate InElection(s: Local) {
    s.phase in {Electing, WaitingCoordinator}
  }

  function UpdateTerm(s: Local, term: nat): Local {
    if term > s.term then Local(term, 0, Idle) else s
  }

  function BeginElection(s: Local): Local {
    if InElection(s) then s else Local(s.term + 1, 0, Electing)
  }

  predicate CanWait(s: Local, term: nat) {
    s.term == term && s.phase == Electing
  }

  function EnterWaitingCoordinator(s: Local, term: nat): Local {
    if CanWait(s, term) then s.(phase := WaitingCoordinator) else s
  }

  predicate Accepts(s: Local, leader: NodeId, term: nat) {
    term >= s.term && !(term == s.term && s.leader != 0 && leader < s.leader)
  }

  function SetLeader(s: Local, leader: NodeId, term: nat): Local {
    if Accepts(s, leader, term) then Local(term, leader, HasLeader) else s
  }

  function ClearLeaderIfMatches(s: Local, leader: NodeId): Local {
    if s.leader != leader then s
    else s.(leader := 0, phase := if s.phase == HasLeader then Idle else s.phase)
  }

  predicate CanReset(s: Local, term: nat) {
    s.term == term && InElection(s)
  }

  function ResetElection(s: Local, term: nat): Local {
    if CanReset(s, term) then s.(phase := Idle) else s
  }

  /** A leader is known exactly in the phase that says so. */
  predicate WellFormed(s: Local) {
    s.phase == HasLeader <==> s.leader != 0
  }

}

/** The state object of the engine: the same transitions on fields updated in place. */
module ElectionState {
  import opened Tasks
  import opened LocalElection
  import L = LocalElection

  class State {
    var leaderId: nat
    var term: nat
    var phase: Phase

    ghost function Value(): Local
      reads this
    {
      Local(term, leaderId, phase)
    }

    constructor ()
      ensures Value() == INITIAL
    {
      leaderId, term, phase := 0, 0, Idle;
    }

    method IsLeader(selfId: NodeId) returns (r: bool)
      ensures r <==> Value().leader == selfId
    {
      r := leaderId == selfId;
    }

    method UpdateTerm(t: nat)
      modifies this
      ensures Value() == L.UpdateTerm(old(Value()), t)
      ensures t <= old(term) ==> Value() == old(Value())
      ensures t > old(term) ==> term == t && leaderId == 0 && phase == Idle
    {
      if t > term {
        term := t;
        leaderId := 0;
        phase := Idle;
      }
    }

    method BeginElection() returns (t: nat, ok: bool)
      modifies this
      ensures Value() == L.BeginElection(old(Value()))
      ensures ok <==> !InElection(old(Value()))
      ensures t == if ok then term else 0
      ensures ok <==> old(phase) != Electing && old(phase) != WaitingCoordinator
      ensures if ok then term == old(term) + 1 && leaderId == 0 && phase == Electing else Value() == old(Value())
    {
      if phase == Electing || phase == WaitingCoordinator {
        return 0, false;
      }
      leaderId := 0;
      term := term + 1;
      phase := Electing;
      return term, true;
    }

    method EnterWaitingCoordinator(t: nat) returns (ok: bool)
      modifies this
      ensures Value() == L.EnterWaitingCoordinator(old(Value()), t)
      ensures ok <==> CanWait(old(Value()), t)
      ensures ok <==> old(term) == t && old(phase) == Electing
      ensures Value() == Local(old(term), old(leaderId), if ok then WaitingCoordinator else old(phase))
    {
      if term != t {
        return false;
      }
      if phase != Electing {
        return false;
      }
      phase := WaitingCoordinator;
      return true;
    }

    method SetLeader(leader: NodeId, t: nat) returns (ok: bool)
      modifies this
      ensures Value() == L.SetLeader(old(Value()), leader, t)
      ensures ok <==> Accepts(old(Value()), leader, t)
      ensures ok <==> old(term) < t || (old(term) == t && old(leaderId) <= leader)
      ensures Value() == if ok then Local(t, leader, HasLeader) else old(Value())
    {
      if t < term {
        return false;
      }
      if t == term && leaderId != 0 && leader < leaderId {
        return false;
      }
      term := t;
      leaderId := leader;
      phase := HasLeader;
      return true;
    }

    method ClearLeaderIfMatches(leader: NodeId) returns (ok: bool)
      modifies this
      ensures Value() == L.ClearLeaderIfMatches(old(Value()), leader)
      ensures ok <==> old(leaderId) == leader
      ensures Value() == if !ok then old(Value())
                         else Local(old(term), 0, if old(phase) == HasLeader then Idle else old(phase))
    {
      if leaderId != leader {
        return false;
      }
      leaderId := 0;
      if phase == HasLeader {
        phase := Idle;
      }
      return true;
    }

    method ResetElection(t: nat) returns (ok: bool)
      modifies this
      ensures Value() == L.ResetElection(old(Value()), t)
      ensures ok <==> CanReset(old(Value()), t)
      ensures ok <==> old(term) == t && (old(phase) == Electing || old(phase) == WaitingCoordinator)
      ensures Value() == Local(old(term), old(leaderId), if ok then Idle else old(phase))
    {
      if term != t {
        return false;
      }
      if phase == Electing || phase == WaitingCoordinator {
        phase := Idle;
        return true;
      }
      return false;
    }
  }
}

/**
  What a node makes of the announcements and election requests it hears: each acts as a join in the
  lexicographic order of (term, leader), so order and repetition do not matter.
 */
module Convergence {
  import opened Tasks
  import opened LocalElection

  /** A request carries a term only; an announcement also a leader. */
  datatype Input = Requested(term: nat) | Announced(leader: NodeId, term: nat)

  function LeaderIn(x: Input): nat {
    if x.Announced? then x.leader else 0
  }

  function Feed(s: Local, x: Input): Local {
    match x
    case Requested(term) => UpdateTerm(s, term)
    case Announced(leader, term) => SetLeader(s, leader, term)
  }

  function FeedAll(s: Local, xs: seq<Input>): Local {
    if xs == [] then s else Feed(FeedAll(s, xs[..|xs| - 1]), xs[|xs| - 1])
  }

  /** (t, l) comes no later than (u, m). */
  predicate UpTo(t: nat, l: nat, u: nat, m: nat) {
    t < u || (t == u && l <= m)
  }

  /** `r` is the least upper bound of the start and the inputs, with the phase that goes with it. */
  ghost predicate IsJoin(s: Local, xs: seq<Input>, r: Local) {
    && UpTo(s.term, s.leader, r.term, r.leader)
    && (forall x :: x in xs ==> UpTo(x.term, LeaderIn(x), r.term, r.leader))
    && (|| (r.term == s.term && r.leader == s.leader)
        || (exists x :: x in xs && r.term == x.term && r.leader == LeaderIn(x)))
    && r.phase == (if r.leader != 0 then HasLeader else if r.term > s.term then Idle else s.phase)
  }

  lemma {:induction false} FeedAllIsJoin(s: Local, xs: seq<Input>)
    requires WellFormed(s)
    ensures IsJoin(s, xs, FeedAll(s, xs))
  {
    if xs != [] {
      var init, x := xs[..|xs| - 1], xs[|xs| - 1];
      FeedAllIsJoin(s, init);
      assert xs == init + [x];
      var m, r := FeedAll(s, init), FeedAll(s, xs);
      assert r == Feed(m, x);
      assert forall y :: y in xs <==> y in init || y == x;
    }
  }

  lemma JoinIsUnique(s: Local, xs: seq<Input>, ys: seq<Input>, r: Local, q: Local)
    requires IsJoin(s, xs, r) && IsJoin(s, ys, q)
    requires forall x :: x in xs <==> x in ys
    ensures r == q
  {
  }

  /** Any two sequences of the same inputs, in any order and with any repetition, leave a node in the same state. */
  lemma OrderIsIrrelevant(s: Local, xs: seq<Input>, ys: seq<Input>)
    requires WellFormed(s)
    requires forall x :: x in xs <==> x in ys
    ensures FeedAll(s, xs) == FeedAll(s, ys)
  {
    FeedAllIsJoin(s, xs);
    FeedAllIsJoin(s, ys);
    JoinIsUnique(s, xs, ys, FeedAll(s, xs), FeedAll(s, ys));
  }

  /** The announcement is at or above the start state and every input. */
  ghost predicate Dominates(a: Input, s: Local, xs: seq<Input>) {
    && a.Announced? && a in xs
    && UpTo(s.term, s.leader, a.term, a.leader)
    && forall x :: x in xs ==> UpTo(x.term, LeaderIn(x), a.term, a.leader)
  }

  /** Nodes that hear a dominating announcement agree on it, whatever else they heard and wherever they started. */
  lemma HearersAgree(a: Input, s: Local, xs: seq<Input>, n: NodeId)
    requires WellFormed(s) && Dominates(a, s, xs)
    ensures FeedAll(s, xs) == Local(a.term, a.leader, HasLeader)
    ensures FeedAll(s, xs).leader == n <==> n == a.leader
  {
    FeedAllIsJoin(s, xs);
  }
}
