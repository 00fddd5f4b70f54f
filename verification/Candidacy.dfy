/**
  When an election may end in a declaration: not once a higher node has answered it, and not before it
  found no higher member or heard from none in time.
 */
module Candidacy {
  import opened Tasks
  import opened LocalElection
  import opened Election
  import opened ElectionGuarantees

  /** No goroutine of the node is about to declare term t, and only those of `may` can still come to that. */
  ghost predicate SilentNode(nd: Node, t: nat, may: set<nat>) {
    && t <= nd.st.term
    && forall a :: a in nd.threads ==>
         nd.threads[a] != Declaring(t) && (nd.threads[a] == Begun(t) || nd.threads[a] == Sending(t) ==> a in may)
  }

  /** The same of the named incarnation, if the node still runs it. */
  ghost predicate Silent(s: Net, n: NodeId, inc: nat, t: nat, may: set<nat>) {
    && n in s.nodes && inc <= s.nodes[n].inc
    && (s.nodes[n].inc == inc ==> SilentNode(s.nodes[n], t, may))
  }

  /** The choices that turn an election into a declaration. */
  predicate Settles(c: Choice) {
    c == NoHigher || c == GiveUp
  }

  lemma ElectionStaysSilent(n: NodeId, nd: Node, tid: nat, c: Choice, msgs: set<Msg>, t: nat, may: set<nat>)
    requires SilentNode(nd, t, may) && tid in nd.threads && InElectionCode(nd.threads[tid])
    requires tid in may ==> !Settles(c)
    ensures var e := RunElection(n, nd, tid, nd.threads[tid], c, msgs);
            SilentNode(e.node, t, may) && Mint(n, nd.inc, t) !in e.declared
  {
  }

  lemma OthersStaySilent(n: NodeId, nd: Node, tid: nat, c: Choice, t: nat, may: set<nat>)
    requires SilentNode(nd, t, may) && tid in nd.threads && !InElectionCode(nd.threads[tid])
    ensures var e := if InWaiterCode(nd.threads[tid]) then RunWaiter(nd, tid, nd.threads[tid], c)
                     else RunHandler(n, nd, tid, nd.threads[tid], c);
            SilentNode(e.node, t, may) && e.declared == {}
  {
  }

  lemma RunStaysSilent(n: NodeId, nd: Node, tid: nat, c: Choice, msgs: set<Msg>, t: nat, may: set<nat>)
    requires SilentNode(nd, t, may) && (tid in may ==> !Settles(c))
    ensures var e := RunThread(n, nd, tid, c, msgs); SilentNode(e.node, t, may) && Mint(n, nd.inc, t) !in e.declared
  {
    if tid in nd.threads {
      if InElectionCode(nd.threads[tid]) {
        ElectionStaysSilent(n, nd, tid, c, msgs, t, may);
      } else {
        OthersStaySilent(n, nd, tid, c, t, may);
      }
    }
  }

  lemma NodeStaysSilent(s: Net, step: Step, t: nat, may: set<nat>)
    requires !step.Boot? && step.n in s.nodes && SilentNode(s.nodes[step.n], t, may)
    requires step.Run? && step.tid in may ==> !Settles(step.choice)
    ensures SilentNode(NodeStep(s, step).node, t, may)
    ensures Mint(step.n, s.nodes[step.n].inc, t) !in NodeStep(s, step).declared
  {
    match step
    case Run(n, tid, c) => RunStaysSilent(n, s.nodes[n], tid, c, s.msgs, t, may);
    case _ =>
  }

  lemma SilentStep(s: Net, step: Step, n: NodeId, inc: nat, t: nat, may: set<nat>)
    requires NetOk(s) && Silent(s, n, inc, t, may)
    requires step.Run? && step.n == n && step.tid in may ==> !Settles(step.choice)
    ensures Silent(Do(s, step), n, inc, t, may)
    ensures Mint(n, inc, t) in Do(s, step).declared <==> Mint(n, inc, t) in s.declared
  {
    if Mint(n, inc, t) in Do(s, step).declared && Mint(n, inc, t) !in s.declared {
      DeclarationIsOwn(s, step, Mint(n, inc, t));
    }
    if !step.Boot? && step.n in s.nodes {
      NodeStepIsGood(s, step);
      if step.n == n && s.nodes[n].inc == inc {
        NodeStaysSilent(s, step, t, may);
      }
    }
  }

  lemma DeclarationIsOwn(s: Net, step: Step, c: Mint)
    requires c in Do(s, step).declared && c !in s.declared
    ensures step.Run? && step.n == c.node && c.node in s.nodes && c.inc == s.nodes[c.node].inc
  {
    if step.Run? && step.n in s.nodes {
      OnlyDeclaringDeclares(step.n, s.nodes[step.n], step.tid, step.choice, s.msgs, c);
    }
  }

  lemma {:induction false} SilentRun(s: Net, steps: seq<Step>, n: NodeId, inc: nat, t: nat, may: set<nat>)
    requires NetOk(s) && Silent(s, n, inc, t, may)
    requires forall i :: 0 <= i < |steps| ==>
               steps[i].Run? && steps[i].n == n && steps[i].tid in may ==> !Settles(steps[i].choice)
    ensures Silent(Exec(s, steps), n, inc, t, may)
    ensures Mint(n, inc, t) in Exec(s, steps).declared <==> Mint(n, inc, t) in s.declared
  {
    if steps != [] {
      var init := steps[..|steps| - 1];
      SilentRun(s, init, n, inc, t, may);
      RunsAreSafe(s, init);
      SilentStep(Exec(s, init), steps[|steps| - 1], n, inc, t, may);
    }
  }

  /** The answer of a higher node to the request of election t of this incarnation. */
  predicate AnswersFromAbove(a: Msg, n: NodeId, inc: nat, t: nat) {
    a.Answer? && a.to == n && a.toInc == inc && a.asked == t && a.from > n
  }

  lemma AnsweredIsSilent(s: Net, n: NodeId, tid: nat, t: nat, a: Msg)
    requires NetOk(s) && n in s.nodes && tid in s.nodes[n].threads && s.nodes[n].threads[tid] == Sending(t)
    requires a in s.msgs && AnswersFromAbove(a, n, s.nodes[n].inc, t)
    ensures var e := Do(s, Run(n, tid, Heard(a)));
            Silent(e, n, s.nodes[n].inc, t, {}) && e.declared == s.declared
  {
    var nd := s.nodes[n];
    assert NodeOk(n, nd, s.begun, s.declared);
    assert ThreadOk(n, nd.inc, nd.st.term, nd.threads[tid], s.begun, s.declared);
    assert forall b :: b in nd.threads && b != tid ==> ElectionTerm(nd.threads[b]) != Some(t);
    HeardRuns(n, nd, tid, t, a, s.msgs);
  }

  lemma HeardRuns(n: NodeId, nd: Node, tid: nat, t: nat, a: Msg, msgs: set<Msg>)
    requires tid in nd.threads && nd.threads[tid] == Sending(t) && t <= nd.st.term
    requires a in msgs && AnswersFromAbove(a, n, nd.inc, t)
    requires forall b :: b in nd.threads && b != tid ==> ElectionTerm(nd.threads[b]) != Some(t)
    ensures var e := RunThread(n, nd, tid, Heard(a), msgs);
            SilentNode(e.node, t, {}) && e.node.inc == nd.inc && e.node.st == nd.st && e.declared == {}
  {
  }

  /** Once a higher node has answered an election, no step of any continuation declares it. */
  lemma AnsweredNeverDeclares(s: Net, n: NodeId, tid: nat, t: nat, a: Msg, steps: seq<Step>)
    requires Reachable(s) && n in s.nodes && tid in s.nodes[n].threads && s.nodes[n].threads[tid] == Sending(t)
    requires a in s.msgs && AnswersFromAbove(a, n, s.nodes[n].inc, t)
    ensures var e := Exec(Do(s, Run(n, tid, Heard(a))), steps);
            Mint(n, s.nodes[n].inc, t) in e.declared <==> Mint(n, s.nodes[n].inc, t) in s.declared
  {
    ReachableIsOk(s);
    StepKeeps(s, Run(n, tid, Heard(a)));
    AnsweredIsSilent(s, n, tid, t, a);
    SilentRun(Do(s, Run(n, tid, Heard(a))), steps, n, s.nodes[n].inc, t, {});
  }

  lemma AnsweredRuns(n: NodeId, nd: Node, tid: nat, t: nat, a: Msg, c: Choice, msgs: set<Msg>)
    requires tid in nd.threads && nd.threads[tid] == Sending(t) && a in msgs && AnswersFromAbove(a, n, nd.inc, t)
    ensures var e := RunThread(n, nd, tid, Heard(a), msgs);
            var f := RunThread(n, e.node, tid, c, msgs);
            && e.sent == {} && f.sent == {} && e.begun == [] && f.begun == []
            && if nd.st.term == t && nd.st.phase == Electing then f.node.st == nd.st.(phase := WaitingCoordinator)
               else f.node.st == nd.st && tid !in f.node.threads
  {
  }

  /** An answered election waits for the coordinator of its term, or ends if it was overtaken. */
  lemma AnsweredWaits(s: Net, n: NodeId, tid: nat, t: nat, a: Msg, c: Choice)
    requires n in s.nodes && tid in s.nodes[n].threads && s.nodes[n].threads[tid] == Sending(t)
    requires a in s.msgs && AnswersFromAbove(a, n, s.nodes[n].inc, t)
    ensures var st, e := s.nodes[n].st, Do(Do(s, Run(n, tid, Heard(a))), Run(n, tid, c));
            && n in e.nodes && e.msgs == s.msgs && e.begun == s.begun
            && if st.term == t && st.phase == Electing then e.nodes[n].st == st.(phase := WaitingCoordinator)
               else e.nodes[n].st == st && tid !in e.nodes[n].threads
  {
    AnsweredRuns(n, s.nodes[n], tid, t, a, c, s.msgs);
  }

  /**
    An election in flight is not declared, in any run, as long as its goroutine has neither found no higher member nor
    run out of time waiting for an answer.
   */
  lemma UnsettledNeverDeclares(s: Net, n: NodeId, tid: nat, t: nat, steps: seq<Step>)
    requires Reachable(s) && n in s.nodes && tid in s.nodes[n].threads
    requires s.nodes[n].threads[tid] == Begun(t) || s.nodes[n].threads[tid] == Sending(t)
    requires forall i :: 0 <= i < |steps| ==>
               steps[i] != Run(n, tid, NoHigher) && steps[i] != Run(n, tid, GiveUp)
    ensures Mint(n, s.nodes[n].inc, t) in Exec(s, steps).declared <==> Mint(n, s.nodes[n].inc, t) in s.declared
  {
    var nd := s.nodes[n];
    ReachableIsOk(s);
    assert NodeOk(n, nd, s.begun, s.declared);
    assert ThreadOk(n, nd.inc, nd.st.term, nd.threads[tid], s.begun, s.declared);
    assert forall b :: b in nd.threads && b != tid ==> ElectionTerm(nd.threads[b]) != Some(t);
    SilentRun(s, steps, n, nd.inc, t, {tid});
  }
}
