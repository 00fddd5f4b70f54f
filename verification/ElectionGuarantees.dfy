/**
  What holds of terms, leaders and elections in every run of the protocol.
 */
module ElectionGuarantees {
  import opened Tasks
  import opened LocalElection
  import opened Election

  lemma EmptyIsOk()
    ensures NetOk(EMPTY)
  {
  }

  ghost predicate Reachable(s: Net) {
    exists steps :: s == Exec(EMPTY, steps)
  }

  lemma ReachableStep(s: Net, step: Step)
    requires Reachable(s)
    ensures Reachable(Do(s, step))
  {
    var steps :| s == Exec(EMPTY, steps);
    assert (steps + [step])[..|steps|] == steps;
    assert Do(s, step) == Exec(EMPTY, steps + [step]);
  }

  lemma ReachableIsOk(s: Net)
    requires Reachable(s)
    ensures NetOk(s)
  {
    var steps :| s == Exec(EMPTY, steps);
    EmptyIsOk();
    RunsAreSafe(EMPTY, steps);
  }

  // ---- terms ------------------------------------------------------------------------------

  /** Below any minted term every positive term was minted too. */
  lemma {:induction false} NoGapBelow(begun: seq<Mint>, t: nat, u: nat)
    requires MintsOk(begun)
    requires Minted(begun, t) && 1 <= u <= t
    ensures Minted(begun, u)
    decreases t
  {
    if u < t {
      var i :| 0 <= i < |begun| && begun[i].term == t;
      assert MintOk(begun, i);
      MintedGrows(begun[..i], begun[i..], t - 1);
      assert begun[..i] + begun[i..] == begun;
      NoGapBelow(begun, t - 1, u);
    }
  }

  /** The i-th election begun has a term of at most i + 1. */
  lemma {:induction false} MintedAtMostIndex(begun: seq<Mint>, i: nat)
    requires MintsOk(begun)
    requires i < |begun|
    ensures begun[i].term <= i + 1
    decreases i
  {
    assert MintOk(begun, i);
    if begun[i].term > 1 {
      var j :| 0 <= j < |begun[..i]| && begun[..i][j].term == begun[i].term - 1;
      MintedAtMostIndex(begun, j);
    }
  }

  /** `t` is held by some node or carried by some message. */
  ghost predicate InUse(s: Net, t: nat) {
    || (exists n :: n in s.nodes && s.nodes[n].st.term == t)
    || (exists m :: m in s.msgs && m.term == t)
  }

  /**
    Every term in use was minted by a successful BeginElection, and so was every smaller one;
    hence the number of elections begun bounds every term.
   */
  lemma TermsAreMinted(s: Net, t: nat, u: nat)
    requires Reachable(s) && InUse(s, t) && 1 <= u <= t
    ensures Minted(s.begun, u)
    ensures t <= |s.begun|
  {
    ReachableIsOk(s);
    if n :| n in s.nodes && s.nodes[n].st.term == t {
      assert NodeOk(n, s.nodes[n], s.begun, s.declared);
    } else {
      var m :| m in s.msgs && m.term == t;
      assert MsgOk(m, s.nodes, s.begun, s.declared);
    }
    NoGapBelow(s.begun, t, u);
    var i :| 0 <= i < |s.begun| && s.begun[i].term == t;
    MintedAtMostIndex(s.begun, i);
  }

  /** No message is ahead of the incarnation that sent it. */
  lemma MessagesLagSenders(s: Net, m: Msg)
    requires Reachable(s) && m in s.msgs
    ensures m.from in s.nodes && m.inc <= s.nodes[m.from].inc
    ensures m.inc == s.nodes[m.from].inc ==> m.term <= s.nodes[m.from].st.term
  {
    ReachableIsOk(s);
    assert MsgOk(m, s.nodes, s.begun, s.declared);
  }

  /** The elections one incarnation begins have strictly increasing terms. */
  lemma OwnTermsIncrease(s: Net, i: nat, j: nat)
    requires Reachable(s) && i < j < |s.begun|
    requires s.begun[i].node == s.begun[j].node && s.begun[i].inc == s.begun[j].inc
    ensures s.begun[i].term < s.begun[j].term
  {
    ReachableIsOk(s);
    assert MintOk(s.begun, j);
  }

  // ---- leaders ----------------------------------------------------------------------------

  /** Whoever is recorded or announced as leader declared itself, in an election it had begun. */
  lemma LeadersDeclaredThemselves(s: Net, l: NodeId)
    requires Reachable(s)
    requires || (exists n :: n in s.nodes && s.nodes[n].st.leader == l)
             || (exists m :: m in s.msgs && m.Announce? && m.from == l)
    ensures exists c :: c in s.declared && c.node == l && c in s.begun
  {
    ReachableIsOk(s);
    if n :| n in s.nodes && s.nodes[n].st.leader == l {
      assert NodeOk(n, s.nodes[n], s.begun, s.declared);
    } else {
      var m :| m in s.msgs && m.Announce? && m.from == l;
      assert MsgOk(m, s.nodes, s.begun, s.declared);
    }
    var c :| c in s.declared && c.node == l;
  }

  /** A leader is known exactly in the phase that says so. */
  lemma PhaseMatchesLeader(s: Net, n: NodeId)
    requires Reachable(s) && n in s.nodes
    ensures s.nodes[n].st.phase == HasLeader <==> s.nodes[n].st.leader != 0
  {
    ReachableIsOk(s);
    assert NodeOk(n, s.nodes[n], s.begun, s.declared);
  }

  // ---- elections over time ----------------------------------------------------------------

  /** Incarnations never go back, and within one the term never falls. */
  ghost predicate Later(s: Net, t: Net, n: NodeId) {
    n in s.nodes ==>
      && n in t.nodes && s.nodes[n].inc <= t.nodes[n].inc
      && (s.nodes[n].inc == t.nodes[n].inc ==> s.nodes[n].st.term <= t.nodes[n].st.term)
  }

  lemma StepIsLater(s: Net, step: Step, n: NodeId)
    requires NetOk(s)
    ensures Later(s, Do(s, step), n)
  {
    if !step.Boot? && step.n in s.nodes {
      NodeStepIsGood(s, step);
    }
  }

  lemma {:induction false} RunIsLater(s: Net, steps: seq<Step>, n: NodeId)
    requires NetOk(s)
    ensures NetOk(Exec(s, steps)) && Later(s, Exec(s, steps), n)
  {
    RunsAreSafe(s, steps);
    if steps != [] {
      RunIsLater(s, steps[..|steps| - 1], n);
      StepIsLater(Exec(s, steps[..|steps| - 1]), steps[|steps| - 1], n);
    }
  }

  /** An election whose term has been passed can never again wait, reset or declare in that incarnation. */
  lemma SupersededStaysSuperseded(s: Net, steps: seq<Step>, n: NodeId, t: nat)
    requires NetOk(s) && n in s.nodes && t < s.nodes[n].st.term
    ensures n in Exec(s, steps).nodes
    ensures Exec(s, steps).nodes[n].inc == s.nodes[n].inc ==>
              var st := Exec(s, steps).nodes[n].st; !CanWait(st, t) && !CanReset(st, t) && !Accepts(st, n, t)
  {
    RunIsLater(s, steps, n);
  }

  /** Events never run ahead of the state, so a coordinator event restarts an election only if the leader is gone. */
  lemma EventsAreNotAhead(s: Net, n: NodeId, tid: nat, c: Choice)
    requires Reachable(s) && n in s.nodes && tid in s.nodes[n].threads
    requires s.nodes[n].threads[tid].Checking?
    ensures var nd := s.nodes[n];
            var d := RunThread(n, nd, tid, c, s.msgs).node;
            (tid in d.threads && d.threads[tid].Resetting?) <==> nd.threads[tid].seen == 0
    ensures forall e :: e in s.nodes[n].internalC ==> e.term <= s.nodes[n].st.term
  {
    ReachableIsOk(s);
    assert NodeOk(n, s.nodes[n], s.begun, s.declared);
  }

  /** Each election in flight at a node is run by one goroutine, which began it. */
  lemma ElectionsHaveOneOwner(s: Net, n: NodeId, a: nat, b: nat)
    requires Reachable(s) && n in s.nodes
    requires a in s.nodes[n].threads && b in s.nodes[n].threads && a != b
    ensures var nd := s.nodes[n];
            ElectionTerm(nd.threads[a]).Some? ==>
              && Mint(n, nd.inc, ElectionTerm(nd.threads[a]).value) in s.begun
              && ElectionTerm(nd.threads[a]).value <= nd.st.term
              && ElectionTerm(nd.threads[a]) != ElectionTerm(nd.threads[b])
  {
    ReachableIsOk(s);
    assert NodeOk(n, s.nodes[n], s.begun, s.declared);
  }

  /** `n` can only declare itself with a term that a requester of term `t` without a leader accepts. */
  ghost predicate DeclarationsReach(st: Local, n: NodeId, t: nat) {
    forall u: nat :: Accepts(st, n, u) ==>
      u >= t && forall r: Local :: r.term == t && r.leader == 0 ==> Accepts(r, n, u)
  }

  /** Once a node has handled a request of term t, whatever its phase, its declarations reach the requester. */
  lemma HandledRequestIsDominated(s: Net, m: Msg, steps: seq<Step>)
    requires NetOk(s) && m.Request? && m in s.msgs && m.to in s.nodes
    ensures var e := Exec(Do(s, Deliver(m.to, m)), steps);
            && m.to in e.nodes
            && (e.nodes[m.to].inc == s.nodes[m.to].inc ==> DeclarationsReach(e.nodes[m.to].st, m.to, m.term))
  {
    var d := Do(s, Deliver(m.to, m));
    StepKeeps(s, Deliver(m.to, m));
    assert d.nodes[m.to].st.term >= m.term && d.nodes[m.to].inc == s.nodes[m.to].inc;
    RunIsLater(d, steps, m.to);
  }

  /** A declaration is recorded only by the node itself, in its current incarnation, when its state accepts it. */
  lemma DeclarationsAreAccepted(s: Net, step: Step, c: Mint)
    requires c in Do(s, step).declared && c !in s.declared
    ensures c.node in s.nodes && c.inc == s.nodes[c.node].inc && Accepts(s.nodes[c.node].st, c.node, c.term)
  {
    if step.Run? && step.n in s.nodes {
      if c in RunThread(step.n, s.nodes[step.n], step.tid, step.choice, s.msgs).declared {
        OnlyDeclaringDeclares(step.n, s.nodes[step.n], step.tid, step.choice, s.msgs, c);
      }
    }
  }

  lemma WaitersAndHandlersDeclareNothing(n: NodeId, nd: Node, tid: nat, th: Thread, choice: Choice)
    ensures RunWaiter(nd, tid, th, choice).declared == {} && RunHandler(n, nd, tid, th, choice).declared == {}
  {
  }

  lemma OnlyDeclaringDeclares(n: NodeId, nd: Node, tid: nat, choice: Choice, msgs: set<Msg>, c: Mint)
    requires c in RunThread(n, nd, tid, choice, msgs).declared
    ensures c.node == n && c.inc == nd.inc && Accepts(nd.st, n, c.term)
  {
    var th := nd.threads[tid];
    WaitersAndHandlersDeclareNothing(n, nd, tid, th, choice);
    assert c in RunElection(n, nd, tid, th, choice, msgs).declared;
  }

  /** After handling a request of term t, every declaration the node makes in that incarnation has term t or more. */
  lemma LaterDeclarationsReach(s: Net, m: Msg, steps: seq<Step>, step: Step, c: Mint)
    requires NetOk(s) && m.Request? && m in s.msgs && m.to in s.nodes
    requires var e := Exec(Do(s, Deliver(m.to, m)), steps);
             c in Do(e, step).declared && c !in e.declared
    requires c.node == m.to && c.inc == s.nodes[m.to].inc
    ensures c.term >= m.term
    ensures forall r: Local :: r.term == m.term && r.leader == 0 ==> Accepts(r, m.to, c.term)
  {
    var d := Do(s, Deliver(m.to, m));
    StepKeeps(s, Deliver(m.to, m));
    RunIsLater(d, steps, m.to);
    DeclarationsAreAccepted(Exec(d, steps), step, c);
    HandledRequestIsDominated(s, m, steps);
  }

  /** Seen from the requester: an answer in hand means the answering node's declarations reach it. */
  lemma AnswerDominatesRequest(s: Net, a: Msg)
    requires Reachable(s) && a in s.msgs && a.Answer? && a.from in s.nodes && s.nodes[a.from].inc == a.inc
    ensures a.asked <= a.term <= s.nodes[a.from].st.term
    ensures DeclarationsReach(s.nodes[a.from].st, a.from, a.asked)
  {
    ReachableIsOk(s);
    assert MsgOk(a, s.nodes, s.begun, s.declared);
  }

  // ---- the bully wins ---------------------------------------------------------------------

  /** Recorded leaders are nodes that booted, so none exceeds the highest node. */
  lemma LeaderIsANode(s: Net, k: NodeId)
    requires Reachable(s) && k in s.nodes && s.nodes[k].st.leader != 0
    ensures exists n :: n in s.nodes && n == s.nodes[k].st.leader
  {
    ReachableIsOk(s);
    assert NodeOk(k, s.nodes[k], s.begun, s.declared);
    var c :| c in s.declared && c.node == s.nodes[k].st.leader;
    assert c in s.begun;
    assert Reached(s.nodes, c.node, c.inc, c.term);
  }

  /** An announcement of the highest node is adopted by every node that is not already in a later term. */
  lemma HighestIsAdopted(s: Net, m: Msg)
    requires Reachable(s) && m.Announce? && m in s.msgs && m.to in s.nodes
    requires forall n :: n in s.nodes ==> n <= m.from
    ensures var st := Do(s, Deliver(m.to, m)).nodes[m.to].st;
            st == Local(m.term, m.from, HasLeader) <==>
            s.nodes[m.to].st.term <= m.term
  {
    if s.nodes[m.to].st.leader != 0 {
      LeaderIsANode(s, m.to);
    }
  }

  lemma DeclaringWins(n: NodeId, nd: Node, tid: nat, c: Choice, msgs: set<Msg>)
    requires tid in nd.threads && nd.threads[tid].Declaring? && nd.threads[tid].term <= nd.st.term
    ensures var t, e := nd.threads[tid].term, RunThread(n, nd, tid, c, msgs);
            if nd.st.term == t && nd.st.leader <= n
            then e.node.st == Local(t, n, HasLeader) && e.declared == {Mint(n, nd.inc, t)}
            else e.node.st == nd.st
  {
  }

  /** A goroutine about to declare wins exactly if its term is not passed and no higher node leads it. */
  lemma DeclarationWins(s: Net, n: NodeId, tid: nat, c: Choice)
    requires Reachable(s) && n in s.nodes && tid in s.nodes[n].threads && s.nodes[n].threads[tid].Declaring?
    ensures var t, e := s.nodes[n].threads[tid].term, Do(s, Run(n, tid, c));
            n in e.nodes && e.nodes[n].st == Local(t, n, HasLeader) && Mint(n, s.nodes[n].inc, t) in e.declared <==>
            s.nodes[n].st.term == t && s.nodes[n].st.leader <= n
  {
    ReachableIsOk(s);
    assert NodeOk(n, s.nodes[n], s.begun, s.declared);
    DeclaringWins(n, s.nodes[n], tid, c, s.msgs);
  }

  // ---- an election under interference -----------------------------------------------------

  /** Goroutine `tid` runs the election of term t, which nothing has answered or overtaken. */
  predicate Campaigning(nd: Node, tid: nat, t: nat) {
    && nd.st == Local(t, 0, Electing)
    && tid in nd.threads && nd.threads[tid] in {Begun(t), Sending(t), Declaring(t)}
  }

  /** No restart of n, no answer to this election, no request of a later term, no announcement of this one or later. */
  predicate Uncontested(step: Step, n: NodeId, tid: nat, t: nat) {
    match step
    case Boot(k) => k != n
    case Run(k, id, c) => k == n && id == tid ==> !c.Heard?
    case Deliver(k, m) => k == n ==> (m.Request? ==> m.term <= t) && (m.Announce? ==> m.term < t)
    case _ => true
  }

  /** The election of term t was declared won, or is still on its way there. */
  predicate Winning(s: Net, n: NodeId, inc: nat, tid: nat, t: nat) {
    || Mint(n, inc, t) in s.declared
    || (n in s.nodes && s.nodes[n].inc == inc && Campaigning(s.nodes[n], tid, t))
  }

  /** Its own goroutine can only move the election forward. */
  lemma CampaignProceeds(n: NodeId, nd: Node, tid: nat, c: Choice, msgs: set<Msg>, t: nat)
    requires Campaigning(nd, tid, t) && !c.Heard?
    ensures var e := RunElection(n, nd, tid, nd.threads[tid], c, msgs);
            Mint(n, nd.inc, t) in e.declared || (e.node.inc == nd.inc && Campaigning(e.node, tid, t))
  {
  }

  /** Other goroutines work for older elections, which cannot touch this one. */
  lemma OtherElectionIsHarmless(n: NodeId, nd: Node, id: nat, c: Choice, msgs: set<Msg>,
                                tid: nat, t: nat, begun: seq<Mint>, declared: set<Mint>)
    requires NodeOk(n, nd, begun, declared) && Campaigning(nd, tid, t)
    requires id in nd.threads && id != tid && InElectionCode(nd.threads[id])
    ensures var e := RunElection(n, nd, id, nd.threads[id], c, msgs);
            e.node.inc == nd.inc && Campaigning(e.node, tid, t)
  {
    assert ThreadOk(n, nd.inc, t, nd.threads[id], begun, declared);
    assert ElectionTerm(nd.threads[id]) != ElectionTerm(nd.threads[tid]);
  }

  lemma OtherWaiterIsHarmless(n: NodeId, nd: Node, id: nat, c: Choice,
                              tid: nat, t: nat, begun: seq<Mint>, declared: set<Mint>)
    requires NodeOk(n, nd, begun, declared) && Campaigning(nd, tid, t)
    requires id in nd.threads && InWaiterCode(nd.threads[id])
    ensures var e := RunWaiter(nd, id, nd.threads[id], c); e.node.inc == nd.inc && Campaigning(e.node, tid, t)
  {
    assert ElectionTerm(nd.threads[id]) != ElectionTerm(nd.threads[tid]);
  }

  lemma HandlerIsHarmless(n: NodeId, nd: Node, id: nat, c: Choice, tid: nat, t: nat,
                          begun: seq<Mint>, declared: set<Mint>)
    requires NodeOk(n, nd, begun, declared) && Campaigning(nd, tid, t)
    requires id in nd.threads && !InElectionCode(nd.threads[id]) && !InWaiterCode(nd.threads[id])
    ensures var e := RunHandler(n, nd, id, nd.threads[id], c); e.node.inc == nd.inc && Campaigning(e.node, tid, t)
  {
    assert tid < nd.next;
  }

  lemma GoroutineIsHarmless(n: NodeId, nd: Node, id: nat, c: Choice, msgs: set<Msg>,
                            tid: nat, t: nat, begun: seq<Mint>, declared: set<Mint>)
    requires NodeOk(n, nd, begun, declared) && Campaigning(nd, tid, t) && (id == tid ==> !c.Heard?)
    ensures var e := RunThread(n, nd, id, c, msgs);
            Mint(n, nd.inc, t) in e.declared || (e.node.inc == nd.inc && Campaigning(e.node, tid, t))
  {
    if id == tid {
      CampaignProceeds(n, nd, tid, c, msgs, t);
    } else if id in nd.threads {
      if InElectionCode(nd.threads[id]) {
        OtherElectionIsHarmless(n, nd, id, c, msgs, tid, t, begun, declared);
      } else if InWaiterCode(nd.threads[id]) {
        OtherWaiterIsHarmless(n, nd, id, c, tid, t, begun, declared);
      } else {
        HandlerIsHarmless(n, nd, id, c, tid, t, begun, declared);
      }
    }
  }

  lemma MessageIsHarmless(nd: Node, m: Msg, tid: nat, t: nat)
    requires Campaigning(nd, tid, t) && tid < nd.next
    requires (m.Request? ==> m.term <= t) && (m.Announce? ==> m.term < t)
    ensures var d := Receive(nd, m); d.inc == nd.inc && Campaigning(d, tid, t)
  {
  }

  /** What an uncontested step of node n does to the campaign. */
  lemma NodeStepIsHarmless(s: Net, step: Step, n: NodeId, tid: nat, t: nat)
    requires NetOk(s) && n in s.nodes && Campaigning(s.nodes[n], tid, t)
    requires step.n == n && !step.Boot? && Uncontested(step, n, tid, t)
    ensures var e := NodeStep(s, step);
            Mint(n, s.nodes[n].inc, t) in e.declared || (e.node.inc == s.nodes[n].inc && Campaigning(e.node, tid, t))
  {
    var nd := s.nodes[n];
    assert NodeOk(n, nd, s.begun, s.declared);
    assert tid < nd.next;
    match step
    case Run(_, id, c) => GoroutineIsHarmless(n, nd, id, c, s.msgs, tid, t, s.begun, s.declared);
    case Deliver(_, m) => MessageIsHarmless(nd, m, tid, t);
    case _ =>
  }

  lemma UncontestedStepWins(s: Net, step: Step, n: NodeId, inc: nat, tid: nat, t: nat)
    requires NetOk(s) && Winning(s, n, inc, tid, t) && Uncontested(step, n, tid, t)
    ensures Winning(Do(s, step), n, inc, tid, t)
  {
    if Mint(n, inc, t) !in s.declared && step.n == n {
      NodeStepIsHarmless(s, step, n, tid, t);
    }
  }

  /**
    An election that is neither answered nor overtaken ends, if it ends, in its declaration, whatever else its
    node and the network do in between: older elections, waiters, handlers and membership events cannot stop it.
   */
  lemma {:induction false} UncontestedElectionWins(s: Net, steps: seq<Step>, n: NodeId, tid: nat, t: nat)
    requires NetOk(s) && n in s.nodes && Campaigning(s.nodes[n], tid, t)
    requires forall i :: 0 <= i < |steps| ==> Uncontested(steps[i], n, tid, t)
    ensures Winning(Exec(s, steps), n, s.nodes[n].inc, tid, t)
  {
    if steps != [] {
      var init := steps[..|steps| - 1];
      UncontestedElectionWins(s, init, n, tid, t);
      RunsAreSafe(s, init);
      UncontestedStepWins(Exec(s, init), steps[|steps| - 1], n, s.nodes[n].inc, tid, t);
    }
  }
}
