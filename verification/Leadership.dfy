/**
  Leadership of one term.  A node that holds itself leader declared itself in exactly that term; two
  nodes may do so in the same term, and the results here say when that comes about and what ends it.
 */
module Leadership {
  import opened Tasks
  import opened LocalElection
  import opened Election
  import opened ElectionGuarantees

  /** Node n holds itself leader of term t. */
  predicate SelfLed(s: Net, n: NodeId, t: nat) {
    n in s.nodes && s.nodes[n].st.leader == n && s.nodes[n].st.term == t
  }

  /** Two nodes hold themselves leader of term t. */
  ghost predicate Rivals(s: Net, m: NodeId, n: NodeId, t: nat) {
    m != n && SelfLed(s, m, t) && SelfLed(s, n, t)
  }

  ghost predicate NoRivals(s: Net) {
    forall m, n, t :: !Rivals(s, m, n, t)
  }

  // ---- a self-held leader declared its own term -------------------------------------------

  /** The node declared itself in this term, in some incarnation. */
  ghost predicate DeclaredIn(declared: set<Mint>, n: NodeId, t: nat) {
    exists i: nat :: Mint(n, i, t) in declared
  }

  /** Requests come from below, so whatever answers them goes below. */
  predicate Downward(n: NodeId, th: Thread) {
    (th.Asked? || th.Replying? ==> th.asker < n) && (th.ReAnnouncing? ==> th.to < n)
  }

  ghost predicate NodeOwns(n: NodeId, nd: Node, declared: set<Mint>) {
    && (nd.st.leader == n ==> DeclaredIn(declared, n, nd.st.term))
    && forall a :: a in nd.threads ==> Downward(n, nd.threads[a])
  }

  /** An announcement that reaches its own sender carries a term the sender declared. */
  ghost predicate MsgOwns(m: Msg, declared: set<Mint>) {
    && (m.Request? ==> m.from < m.to)
    && (m.Announce? && m.to == m.from ==> DeclaredIn(declared, m.from, m.term))
  }

  ghost predicate OwnTerms(s: Net) {
    && (forall n :: n in s.nodes ==> NodeOwns(n, s.nodes[n], s.declared))
    && (forall m :: m in s.msgs ==> MsgOwns(m, s.declared))
  }

  ghost predicate EffectOwns(n: NodeId, e: Effect, declared: set<Mint>) {
    && NodeOwns(n, e.node, declared + e.declared)
    && forall m :: m in e.sent ==> m.from == n && MsgOwns(m, declared + e.declared)
  }

  lemma DeclaredGrows(declared: set<Mint>, more: set<Mint>, n: NodeId, t: nat)
    requires DeclaredIn(declared, n, t)
    ensures DeclaredIn(declared + more, n, t)
  {
    var i: nat :| Mint(n, i, t) in declared;
    assert Mint(n, i, t) in declared + more;
  }

  lemma ElectionOwns(n: NodeId, nd: Node, tid: nat, c: Choice, msgs: set<Msg>, begun: seq<Mint>, declared: set<Mint>)
    requires NodeOk(n, nd, begun, declared) && NodeOwns(n, nd, declared)
    requires tid in nd.threads && InElectionCode(nd.threads[tid])
    ensures EffectOwns(n, RunElection(n, nd, tid, nd.threads[tid], c, msgs), declared)
  {
    var th := nd.threads[tid];
    var e := RunElection(n, nd, tid, th, c, msgs);
    if th.Declaring? && Accepts(nd.st, n, th.term) {
      assert Mint(n, nd.inc, th.term) in declared + e.declared;
    } else {
      assert declared + e.declared == declared;
    }
    if th.Announcing? {
      assert Mint(n, nd.inc, th.term) in declared;
    }
  }

  lemma WaiterOwns(n: NodeId, nd: Node, tid: nat, c: Choice, declared: set<Mint>)
    requires NodeOwns(n, nd, declared) && tid in nd.threads && InWaiterCode(nd.threads[tid])
    ensures EffectOwns(n, RunWaiter(nd, tid, nd.threads[tid], c), declared)
  {
    assert declared + {} == declared;
  }

  lemma HandlerOwns(n: NodeId, nd: Node, tid: nat, c: Choice, declared: set<Mint>)
    requires NodeOwns(n, nd, declared) && tid in nd.threads
    requires !InElectionCode(nd.threads[tid]) && !InWaiterCode(nd.threads[tid])
    ensures EffectOwns(n, RunHandler(n, nd, tid, nd.threads[tid], c), declared)
  {
    assert declared + {} == declared;
    assert Downward(n, nd.threads[tid]);
  }

  lemma ReceiveOwns(n: NodeId, nd: Node, m: Msg, declared: set<Mint>)
    requires NodeOwns(n, nd, declared) && MsgOwns(m, declared) && m.to == n
    ensures EffectOwns(n, Quiet(Receive(nd, m)), declared)
  {
    assert declared + {} == declared;
  }

  lemma SpawnOwns(n: NodeId, nd: Node, d: Node, th: Thread, declared: set<Mint>)
    requires NodeOwns(n, nd, declared) && Downward(n, th)
    requires d.st == nd.st && d.threads == nd.threads[nd.next := th]
    ensures EffectOwns(n, Quiet(d), declared)
  {
    assert declared + {} == declared;
  }

  lemma NodeStepOwns(s: Net, step: Step)
    requires NetOk(s) && OwnTerms(s) && !step.Boot? && step.n in s.nodes
    ensures EffectOwns(step.n, NodeStep(s, step), s.declared)
  {
    var n, nd := step.n, s.nodes[step.n];
    assert s.declared + {} == s.declared;
    match step
    case Run(_, tid, c) =>
      if tid in nd.threads {
        assert NodeOk(n, nd, s.begun, s.declared);
        if InElectionCode(nd.threads[tid]) {
          ElectionOwns(n, nd, tid, c, s.msgs, s.begun, s.declared);
        } else if InWaiterCode(nd.threads[tid]) {
          WaiterOwns(n, nd, tid, c, s.declared);
        } else {
          HandlerOwns(n, nd, tid, c, s.declared);
        }
      }
    case Deliver(_, m) =>
      if m in s.msgs && m.to == n {
        ReceiveOwns(n, nd, m, s.declared);
      }
    case TakeElect(_) =>
      if nd.electC != [] {
        SpawnOwns(n, nd, NodeStep(s, step).node, Starting, s.declared);
      }
    case Joined(_, _) => SpawnOwns(n, nd, Spawn(nd, Starting), Starting, s.declared);
    case Left(_, id) =>
      var th := if nd.st.leader == id then LeaderLost(id) else MemberLost(id);
      SpawnOwns(n, nd, Spawn(nd, th), th, s.declared);
  }

  lemma MergeOwns(s: Net, n: NodeId, e: Effect)
    requires OwnTerms(s) && EffectOwns(n, e, s.declared)
    ensures OwnTerms(Merge(s, n, e))
  {
    forall k | k in s.nodes && k != n
      ensures NodeOwns(k, s.nodes[k], s.declared + e.declared)
    {
      if s.nodes[k].st.leader == k {
        DeclaredGrows(s.declared, e.declared, k, s.nodes[k].st.term);
      }
    }
    forall m | m in s.msgs
      ensures MsgOwns(m, s.declared + e.declared)
    {
      if m.Announce? && m.to == m.from {
        DeclaredGrows(s.declared, e.declared, m.from, m.term);
      }
    }
  }

  lemma {:induction false} RunsOwnTheirTerms(steps: seq<Step>)
    ensures OwnTerms(Exec(EMPTY, steps))
  {
    if steps != [] {
      var init, step := steps[..|steps| - 1], steps[|steps| - 1];
      var s := Exec(EMPTY, init);
      RunsOwnTheirTerms(init);
      EmptyIsOk();
      RunsAreSafe(EMPTY, init);
      if !step.Boot? && step.n in s.nodes {
        NodeStepOwns(s, step);
        MergeOwns(s, step.n, NodeStep(s, step));
      }
    }
  }

  /** Whoever holds itself leader of a term declared itself in that very term, which it had begun. */
  lemma SelfLedDeclaredItsTerm(s: Net, n: NodeId, t: nat) returns (inc: nat)
    requires Reachable(s) && SelfLed(s, n, t)
    ensures Mint(n, inc, t) in s.declared && Mint(n, inc, t) in s.begun
  {
    var steps :| s == Exec(EMPTY, steps);
    RunsOwnTheirTerms(steps);
    ReachableIsOk(s);
    assert NodeOwns(n, s.nodes[n], s.declared);
    inc :| Mint(n, inc, t) in s.declared;
  }

  /** Rivals each began and declared the term they share: a term begun by one node has one self-held leader. */
  lemma RivalsBothBegan(s: Net, m: NodeId, n: NodeId, t: nat) returns (i: nat, j: nat)
    requires Reachable(s) && Rivals(s, m, n, t)
    ensures Mint(m, i, t) in s.declared && Mint(n, j, t) in s.declared
    ensures Mint(m, i, t) in s.begun && Mint(n, j, t) in s.begun
  {
    i := SelfLedDeclaredItsTerm(s, m, t);
    j := SelfLedDeclaredItsTerm(s, n, t);
  }

  // ---- how rivals come about --------------------------------------------------------------

  /** The step lets node n take the lead of term t: it declares, or hears a declaration of its own, and accepts it. */
  predicate TakesLead(s: Net, step: Step, n: NodeId, t: nat) {
    && step.n == n && n in s.nodes && Accepts(s.nodes[n].st, n, t)
    && match step
       case Run(_, tid, _) => tid in s.nodes[n].threads && s.nodes[n].threads[tid] == Declaring(t)
       case Deliver(_, m) => m in s.msgs && m.to == n && m.Announce? && m.from == n && m.term == t
       case _ => false
  }

  /** Waiters leave the lead alone, and of the handlers only that of a lost leader clears it. */
  lemma WaitersAndHandlersTakeNoLead(n: NodeId, nd: Node, tid: nat, th: Thread, c: Choice)
    ensures var st := RunWaiter(nd, tid, th, c).node.st; st.term == nd.st.term && st.leader == nd.st.leader
    ensures var st := RunHandler(n, nd, tid, th, c).node.st;
            && st.term == nd.st.term
            && st.leader == if th.LeaderLost? && th.lost == nd.st.leader then 0 else nd.st.leader
  {
  }

  lemma ElectionTakesLead(n: NodeId, nd: Node, tid: nat, th: Thread, c: Choice, msgs: set<Msg>, t: nat)
    requires nd.st.leader != n || nd.st.term != t
    ensures var st := RunElection(n, nd, tid, th, c, msgs).node.st;
            st.leader == n && st.term == t <==> th == Declaring(t) && Accepts(nd.st, n, t)
  {
  }

  lemma GoroutineTakesLead(n: NodeId, nd: Node, tid: nat, c: Choice, msgs: set<Msg>, t: nat)
    requires nd.st.leader != n || nd.st.term != t
    ensures var st := RunThread(n, nd, tid, c, msgs).node.st;
            st.leader == n && st.term == t <==>
            tid in nd.threads && nd.threads[tid] == Declaring(t) && Accepts(nd.st, n, t)
  {
    if tid in nd.threads {
      WaitersAndHandlersTakeNoLead(n, nd, tid, nd.threads[tid], c);
      ElectionTakesLead(n, nd, tid, nd.threads[tid], c, msgs, t);
    }
  }

  /** A node becomes self-held leader of a term by such a step and by no other. */
  lemma LeadIsTaken(s: Net, step: Step, n: NodeId, t: nat)
    requires !SelfLed(s, n, t)
    ensures SelfLed(Do(s, step), n, t) <==> TakesLead(s, step, n, t)
  {
    if step.Run? && step.n == n && n in s.nodes {
      GoroutineTakesLead(n, s.nodes[n], step.tid, step.choice, s.msgs, t);
    }
  }

  /** A node takes the lead of a term that another one already holds. */
  ghost predicate SecondTakesLead(s: Net, step: Step) {
    exists m, t :: m != step.n && SelfLed(s, m, t) && TakesLead(s, step, step.n, t)
  }

  /** From a state without rivals a step makes rivals if and only if it is a second taking of the lead. */
  lemma RivalsArise(s: Net, step: Step)
    requires NoRivals(s)
    ensures NoRivals(Do(s, step)) <==> !SecondTakesLead(s, step)
  {
    var e := Do(s, step);
    if m, t :| m != step.n && SelfLed(s, m, t) && TakesLead(s, step, step.n, t) {
      assert !Rivals(s, m, step.n, t);
      LeadIsTaken(s, step, step.n, t);
      assert Rivals(e, m, step.n, t);
    }
    if m, n, t :| Rivals(e, m, n, t) {
      assert !Rivals(s, m, n, t);
      var k, o := if n == step.n then n else m, if n == step.n then m else n;
      LeadIsTaken(s, step, k, t);
      assert o != step.n && SelfLed(s, o, t);
    }
  }

  lemma RivalsAriseAt(s: Net, steps: seq<Step>, k: nat)
    requires k < |steps| && NoRivals(Exec(s, steps[..k]))
    ensures NoRivals(Exec(s, steps[..k + 1])) <==> !SecondTakesLead(Exec(s, steps[..k]), steps[k])
  {
    assert steps[..k + 1][..k] == steps[..k];
    RivalsArise(Exec(s, steps[..k]), steps[k]);
  }

  lemma {:induction false} NoRivalsUpTo(s: Net, steps: seq<Step>, k: nat)
    requires NoRivals(s) && k <= |steps|
    requires forall j :: 0 <= j < k ==> !SecondTakesLead(Exec(s, steps[..j]), steps[j])
    ensures NoRivals(Exec(s, steps[..k]))
    decreases k
  {
    if k > 0 {
      NoRivalsUpTo(s, steps, k - 1);
      RivalsAriseAt(s, steps, k - 1);
    }
  }

  /** A run has at most one self-held leader per term throughout if and only if no step of it is such a taking. */
  lemma OneLeaderPerTerm(s: Net, steps: seq<Step>)
    requires NoRivals(s)
    ensures (forall k :: 0 <= k <= |steps| ==> NoRivals(Exec(s, steps[..k]))) <==>
            (forall k :: 0 <= k < |steps| ==> !SecondTakesLead(Exec(s, steps[..k]), steps[k]))
  {
    if forall k :: 0 <= k <= |steps| ==> NoRivals(Exec(s, steps[..k])) {
      forall k | 0 <= k < |steps|
        ensures !SecondTakesLead(Exec(s, steps[..k]), steps[k])
      {
        RivalsAriseAt(s, steps, k);
      }
    }
    if forall k :: 0 <= k < |steps| ==> !SecondTakesLead(Exec(s, steps[..k]), steps[k]) {
      forall k | 0 <= k <= |steps|
        ensures NoRivals(Exec(s, steps[..k]))
      {
        NoRivalsUpTo(s, steps, k);
      }
    }
  }

  // ---- what ends it -----------------------------------------------------------------------

  /** The step takes node n, self-held leader of term t, out of that lead. */
  predicate GivesUpLead(s: Net, step: Step, n: NodeId, t: nat) {
    && step.n == n && n in s.nodes
    && match step
       case Boot(_) => true
       case Run(_, tid, _) =>
         tid in s.nodes[n].threads && (s.nodes[n].threads[tid].Starting? || s.nodes[n].threads[tid] == LeaderLost(n))
       case Deliver(_, m) =>
         && m in s.msgs && m.to == n && !m.Answer?
         && (m.term > t || (m.Announce? && m.term == t && m.from > n))
       case _ => false
  }

  lemma ElectionGivesUpLead(n: NodeId, nd: Node, tid: nat, c: Choice, msgs: set<Msg>,
                            begun: seq<Mint>, declared: set<Mint>)
    requires NodeOk(n, nd, begun, declared) && nd.st.leader == n && tid in nd.threads
    ensures var st := RunElection(n, nd, tid, nd.threads[tid], c, msgs).node.st;
            !(st.leader == n && st.term == nd.st.term) <==> nd.threads[tid].Starting?
  {
    assert ThreadOk(n, nd.inc, nd.st.term, nd.threads[tid], begun, declared);
  }

  /** Among the goroutines of a self-held leader only a new election and the handler of its own loss end its lead. */
  lemma GoroutineGivesUpLead(n: NodeId, nd: Node, tid: nat, c: Choice, msgs: set<Msg>,
                             begun: seq<Mint>, declared: set<Mint>)
    requires NodeOk(n, nd, begun, declared) && nd.st.leader == n
    ensures var st := RunThread(n, nd, tid, c, msgs).node.st;
            !(st.leader == n && st.term == nd.st.term) <==>
            tid in nd.threads && (nd.threads[tid].Starting? || nd.threads[tid] == LeaderLost(n))
  {
    if tid in nd.threads {
      WaitersAndHandlersTakeNoLead(n, nd, tid, nd.threads[tid], c);
      ElectionGivesUpLead(n, nd, tid, c, msgs, begun, declared);
    }
  }

  lemma MessageGivesUpLead(n: NodeId, nd: Node, m: Msg)
    requires nd.st.leader == n
    ensures var st := Receive(nd, m).st;
            !(st.leader == n && st.term == nd.st.term) <==>
            !m.Answer? && (m.term > nd.st.term || (m.Announce? && m.term == nd.st.term && m.from > n))
  {
  }

  /**
    A self-held leader stops being one by restarting, by starting another election, by its own reported loss, or by
    hearing of a later term or of a higher leader of its term; and by nothing else.
   */
  lemma LeadIsGivenUp(s: Net, step: Step, n: NodeId, t: nat)
    requires Reachable(s) && SelfLed(s, n, t)
    ensures !SelfLed(Do(s, step), n, t) <==> GivesUpLead(s, step, n, t)
  {
    ReachableIsOk(s);
    assert NodeOk(n, s.nodes[n], s.begun, s.declared);
    if step.n == n {
      match step
      case Run(_, tid, c) => GoroutineGivesUpLead(n, s.nodes[n], tid, c, s.msgs, s.begun, s.declared);
      case Deliver(_, m) => MessageGivesUpLead(n, s.nodes[n], m);
      case _ =>
    }
  }

  /** Between rivals the higher id wins: the announcement of one unseats the other exactly if it comes from above. */
  lemma HigherRivalWins(s: Net, m: Msg, t: nat)
    requires m.Announce? && m in s.msgs && m.term == t && Rivals(s, m.from, m.to, t)
    ensures var e := Do(s, Deliver(m.to, m));
            && SelfLed(e, m.from, t)
            && (SelfLed(e, m.to, t) <==> m.from < m.to)
            && (m.from > m.to ==> e.nodes[m.to].st == Local(t, m.from, HasLeader))
  {
  }

  // ---- rivals exist -----------------------------------------------------------------------

  /** `e` differs from `s` at most in node n. */
  ghost predicate OnlyNode(s: Net, e: Net, n: NodeId) {
    forall k :: k != n ==> (k in e.nodes <==> k in s.nodes) && (k in s.nodes ==> e.nodes[k] == s.nodes[k])
  }

  lemma BeginsAlone(s: Net, n: NodeId) returns (e: Net)
    requires Reachable(s) && n !in s.nodes
    ensures Reachable(e) && OnlyNode(s, e, n) && n in e.nodes
    ensures e.nodes[n] == Node(0, Local(1, 0, Electing), map[0 := Begun(1)], 1, [], [])
  {
    ReachableStep(s, Boot(n));
    e := Do(s, Boot(n));
    ReachableStep(e, Run(n, 0, Go));
    e := Do(e, Run(n, 0, Go));
  }

  /** A freshly booted node that sees no higher member declares itself in its first term. */
  lemma DeclaresAlone(s: Net, n: NodeId) returns (e: Net)
    requires Reachable(s) && n !in s.nodes
    ensures Reachable(e) && OnlyNode(s, e, n) && n in e.nodes && e.nodes[n].st == Local(1, n, HasLeader)
  {
    e := BeginsAlone(s, n);
    ReachableStep(e, Run(n, 0, NoHigher));
    e := Do(e, Run(n, 0, NoHigher));
    assert e.nodes[n].threads[0] == Declaring(1);
    ReachableStep(e, Run(n, 0, Go));
    e := Do(e, Run(n, 0, Go));
  }

  /** Two nodes can hold themselves leader of the same term until one hears the other. */
  lemma TwoLeadersInOneTerm() returns (s: Net)
    ensures Reachable(s) && 1 in s.nodes && 2 in s.nodes
    ensures s.nodes[1].st == Local(1, 1, HasLeader) && s.nodes[2].st == Local(1, 2, HasLeader)
  {
    assert EMPTY == Exec(EMPTY, []);
    s := DeclaresAlone(EMPTY, 1);
    s := DeclaresAlone(s, 2);
  }
}
