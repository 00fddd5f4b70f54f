/**
  The bully election across nodes.  Each node runs goroutines over its local state, an election-request
  channel and an internal event channel; requests, answers and announcements travel through a bag from
  which they may be delivered in any order, any number of times or never.  Every access to the local
  state is its own step, so goroutines interleave between any two of them.
 */
module Election {
  import opened Tasks
  import opened LocalElection

  datatype Event = Coordinator(term: nat, leader: NodeId) | Retry(term: nat, node: NodeId)

  /** A goroutine and the point it has reached. */
  datatype Thread =
    | Starting                                          // startElection, before BeginElection
    | Begun(term: nat)                                  // about to look for higher members
    | Sending(term: nat)                                // sendToHigher
    | Answered(term: nat)                               // about to enter the waiting phase
    | Waiting(term: nat)                                // waitForCoordinator
    | Woken(term: nat, event: Event)                    // an event that is not stale was taken
    | Checking(term: nat, eventTerm: nat, seen: nat)    // the leader was read, the term not yet
    | Resetting(term: nat)                              // about to reset and start over
    | Declaring(term: nat)                              // declareLeader, before SetLeader
    | Announcing(term: nat)                             // broadcasting its declaration
    | Asked(asker: NodeId, askerInc: nat, term: nat)          // OnStartElection, after UpdateTerm
    | Replying(asker: NodeId, askerInc: nat, term: nat)       // about to return the current term
    | ReAnnouncing(to: NodeId)                          // answering a request while leader
    | Signalling(term: nat, leader: NodeId)             // OnAnnounceLeader, after SetLeader
    | LeaderLost(lost: NodeId)                          // handleNodeLost, the lost node was leader
    | MemberLost(lost: NodeId)                          // handleNodeLost, it was not
    | LossNoticed(lost: NodeId)                         // while waiting; about to read the term
    | Retrying(term: nat, lost: NodeId)                 // about to signal a retry

  datatype Node = Node(inc: nat, st: Local, threads: map<nat, Thread>, next: nat,
                       electC: seq<NodeId>, internalC: seq<Event>)

  /** Messages carry the sender and its incarnation. */
  datatype Msg =
    | Request(from: NodeId, inc: nat, to: NodeId, term: nat)
    | Answer(from: NodeId, inc: nat, to: NodeId, term: nat, toInc: nat, asked: nat)
    | Announce(from: NodeId, inc: nat, to: NodeId, term: nat)

  /** A term begun, and a term in which a node declared itself. */
  datatype Mint = Mint(node: NodeId, inc: nat, term: nat)

  datatype Net = Net(nodes: map<NodeId, Node>, msgs: set<Msg>, begun: seq<Mint>, declared: set<Mint>)

  /** What the scheduler of goroutines and the outside world decide. */
  datatype Choice =
    | Go
    | NoHigher
    | SendTo(to: NodeId)
    | Heard(answer: Msg)
    | GiveUp
    | Take
    | Cancel

  datatype Step =
    | Boot(n: NodeId)
    | Run(n: NodeId, tid: nat, choice: Choice)
    | Deliver(n: NodeId, msg: Msg)
    | TakeElect(n: NodeId)
    | Joined(n: NodeId, id: NodeId)
    | Left(n: NodeId, id: NodeId)

  const ELECT_CAP := 1
  const INTERNAL_CAP := 8

  datatype Effect = Effect(node: Node, sent: set<Msg>, begun: seq<Mint>, declared: set<Mint>)

  function Quiet(nd: Node): Effect {
    Effect(nd, {}, [], {})
  }

  function Put(nd: Node, tid: nat, th: Thread): Node {
    nd.(threads := nd.threads[tid := th])
  }

  function End(nd: Node, tid: nat): Node {
    nd.(threads := nd.threads - {tid})
  }

  function Spawn(nd: Node, th: Thread): Node {
    nd.(threads := nd.threads[nd.next := th], next := nd.next + 1)
  }

  /** One election, from BeginElection to declaring or waiting. */
  function RunElection(n: NodeId, nd: Node, tid: nat, th: Thread, c: Choice, msgs: set<Msg>): Effect {
    match th
    case Starting =>
      if InElection(nd.st) then Quiet(End(nd, tid))
      else
        var st := BeginElection(nd.st);
        Effect(Put(nd.(st := st), tid, Begun(st.term)), {}, [Mint(n, nd.inc, st.term)], {})
    case Begun(term) => Quiet(Put(nd, tid, if c == NoHigher then Declaring(term) else Sending(term)))
    case Sending(term) =>
      if c.SendTo? && c.to > n then Effect(nd, {Request(n, nd.inc, c.to, term)}, [], {})
      else if c.Heard? && c.answer in msgs && IsAnswerTo(c.answer, n, nd.inc, term)
      then Quiet(Put(nd, tid, Answered(term)))
      else if c == GiveUp then Quiet(Put(nd, tid, Declaring(term)))
      else Quiet(nd)
    case Answered(term) =>
      if CanWait(nd.st, term)
      then Quiet(Put(nd.(st := EnterWaitingCoordinator(nd.st, term)), tid, Waiting(term)))
      else Quiet(End(nd, tid))
    case Declaring(term) =>
      if Accepts(nd.st, n, term)
      then Effect(Put(nd.(st := SetLeader(nd.st, n, term)), tid, Announcing(term)), {}, [], {Mint(n, nd.inc, term)})
      else Quiet(End(nd, tid))
    case Announcing(term) =>
      if c.SendTo? then Effect(nd, {Announce(n, nd.inc, c.to, term)}, [], {}) else Quiet(End(nd, tid))
    case _ => Quiet(nd)
  }

  /** A higher node answered this very request. */
  predicate IsAnswerTo(a: Msg, n: NodeId, inc: nat, term: nat) {
    a.Answer? && a.to == n && a.toInc == inc && a.asked == term && a.from > n
  }

  /** waitForCoordinator. */
  function RunWaiter(nd: Node, tid: nat, th: Thread, c: Choice): Effect {
    match th
    case Waiting(term) =>
      if c == Take && nd.internalC != [] then
        var ev := nd.internalC[0];
        var rest := nd.(internalC := nd.internalC[1..]);
        Quiet(if ev.term < term then rest else Put(rest, tid, Woken(term, ev)))
      else if c == GiveUp then Quiet(Put(nd, tid, Resetting(term)))
      else if c == Cancel then Quiet(End(nd.(st := ResetElection(nd.st, term)), tid))
      else Quiet(nd)
    case Woken(term, ev) =>
      Quiet(Put(nd, tid, if ev.Coordinator? then Checking(term, ev.term, nd.st.leader) else Resetting(term)))
    case Checking(term, eventTerm, leader) =>
      Quiet(if leader == 0 || nd.st.term < eventTerm then Put(nd, tid, Resetting(term)) else End(nd, tid))
    case Resetting(term) => Quiet(Put(nd.(st := ResetElection(nd.st, term)), tid, Starting))
    case _ => Quiet(nd)
  }

  /** The handlers of requests, announcements and membership events. */
  function RunHandler(n: NodeId, nd: Node, tid: nat, th: Thread, c: Choice): Effect {
    match th
    case Asked(asker, askerInc, term) =>
      var replying := Put(nd, tid, Replying(asker, askerInc, term));
      Quiet(if nd.st.leader == n then Spawn(replying, ReAnnouncing(asker))
            else if |nd.electC| < ELECT_CAP then replying.(electC := nd.electC + [asker])
            else replying)
    case Replying(asker, askerInc, term) =>
      Effect(End(nd, tid), {Answer(n, nd.inc, asker, nd.st.term, askerInc, term)}, [], {})
    case ReAnnouncing(to) =>
      if c == Go then Effect(nd, {Announce(n, nd.inc, to, nd.st.term)}, [], {}) else Quiet(End(nd, tid))
    case Signalling(term, leader) =>
      if |nd.internalC| < INTERNAL_CAP
      then Quiet(End(nd.(internalC := nd.internalC + [Coordinator(term, leader)]), tid))
      else Quiet(nd)
    case LeaderLost(lost) => Quiet(Put(nd.(st := ClearLeaderIfMatches(nd.st, lost)), tid, Starting))
    case MemberLost(lost) =>
      Quiet(if nd.st.phase == WaitingCoordinator && lost > n then Put(nd, tid, LossNoticed(lost)) else End(nd, tid))
    case LossNoticed(lost) => Quiet(Put(nd, tid, Retrying(nd.st.term, lost)))
    case Retrying(term, lost) =>
      var ended := End(nd, tid);
      Quiet(if |nd.internalC| < INTERNAL_CAP then ended.(internalC := nd.internalC + [Retry(term, lost)]) else ended)
    case _ => Quiet(nd)
  }

  predicate InElectionCode(th: Thread) {
    th.Starting? || th.Begun? || th.Sending? || th.Answered? || th.Declaring? || th.Announcing?
  }

  predicate InWaiterCode(th: Thread) {
    th.Waiting? || th.Woken? || th.Checking? || th.Resetting?
  }

  function RunThread(n: NodeId, nd: Node, tid: nat, c: Choice, msgs: set<Msg>): Effect {
    if tid !in nd.threads then Quiet(nd)
    else if InElectionCode(nd.threads[tid]) then RunElection(n, nd, tid, nd.threads[tid], c, msgs)
    else if InWaiterCode(nd.threads[tid]) then RunWaiter(nd, tid, nd.threads[tid], c)
    else RunHandler(n, nd, tid, nd.threads[tid], c)
  }

  function Receive(nd: Node, m: Msg): Node {
    match m
    case Request(from, inc, _, term) => Spawn(nd.(st := UpdateTerm(nd.st, term)), Asked(from, inc, term))
    case Announce(from, _, _, term) =>
      if Accepts(nd.st, from, term)
      then Spawn(nd.(st := SetLeader(nd.st, from, term)), Signalling(term, from))
      else nd
    case Answer(_, _, _, _, _, _) => nd
  }

  function OnJoin(n: NodeId, nd: Node, id: NodeId): Node {
    if id != n && (nd.st.leader == 0 || id > nd.st.leader) then Spawn(nd, Starting) else nd
  }

  function OnLeave(nd: Node, id: NodeId): Node {
    Spawn(nd, if nd.st.leader == id then LeaderLost(id) else MemberLost(id))
  }

  function Fresh(inc: nat): Node {
    Node(inc, INITIAL, map[0 := Starting], 1, [], [])
  }

  function Merge(s: Net, n: NodeId, e: Effect): Net {
    Net(s.nodes[n := e.node], s.msgs + e.sent, s.begun + e.begun, s.declared + e.declared)
  }

  /** A node that boots again starts a new incarnation: its goroutines, channels and term are gone. */
  function Do(s: Net, step: Step): Net {
    if step.Boot? then
      s.(nodes := s.nodes[step.n := Fresh(if step.n in s.nodes then s.nodes[step.n].inc + 1 else 0)])
    else if step.n !in s.nodes then s
    else Merge(s, step.n, NodeStep(s, step))
  }

  function NodeStep(s: Net, step: Step): Effect
    requires !step.Boot? && step.n in s.nodes
  {
    var nd := s.nodes[step.n];
    match step
    case Run(n, tid, c) => RunThread(n, nd, tid, c, s.msgs)
    case Deliver(n, m) => Quiet(if m in s.msgs && m.to == n then Receive(nd, m) else nd)
    case TakeElect(_) => Quiet(if nd.electC == [] then nd else Spawn(nd.(electC := nd.electC[1..]), Starting))
    case Joined(n, id) => Quiet(OnJoin(n, nd, id))
    case Left(_, id) => Quiet(OnLeave(nd, id))
  }

  const EMPTY := Net(map[], {}, [], {})

  function Exec(s: Net, steps: seq<Step>): Net {
    if steps == [] then s else Do(Exec(s, steps[..|steps| - 1]), steps[|steps| - 1])
  }

  // ---- invariant --------------------------------------------------------------------------

  /** Some node began an election with this term. */
  ghost predicate Minted(begun: seq<Mint>, t: nat) {
    exists i :: 0 <= i < |begun| && begun[i].term == t
  }

  /** The node has declared itself leader at some time, in some incarnation. */
  ghost predicate HasDeclared(declared: set<Mint>, n: nat) {
    exists c :: c in declared && c.node == n
  }

  /** The term of the election a goroutine works for. */
  function ElectionTerm(th: Thread): Option<nat> {
    match th
    case Begun(t) => Some(t)
    case Sending(t) => Some(t)
    case Answered(t) => Some(t)
    case Waiting(t) => Some(t)
    case Woken(t, _) => Some(t)
    case Checking(t, _, _) => Some(t)
    case Resetting(t) => Some(t)
    case Declaring(t) => Some(t)
    case Announcing(t) => Some(t)
    case _ => None
  }

  ghost predicate ThreadOk(n: NodeId, inc: nat, term: nat, th: Thread, begun: seq<Mint>, declared: set<Mint>) {
    && (ElectionTerm(th).Some? ==> 1 <= ElectionTerm(th).value <= term && Mint(n, inc, ElectionTerm(th).value) in begun)
    && (th.Announcing? ==> Mint(n, inc, th.term) in declared)
    && (th.Woken? ==> th.event.term <= term)
    && (th.Checking? ==> th.eventTerm <= term)
    && (th.Asked? || th.Replying? ==> 1 <= th.term <= term)
    && (th.ReAnnouncing? ==> 1 <= term && HasDeclared(declared, n))
    && (th.Signalling? || th.Retrying? ==> th.term <= term)
  }

  ghost predicate LocalOk(st: Local, begun: seq<Mint>, declared: set<Mint>) {
    && WellFormed(st)
    && (st.term == 0 || Minted(begun, st.term))
    && (st.leader != 0 ==> 1 <= st.term && HasDeclared(declared, st.leader))
  }

  /** No two goroutines of a node work for the same election. */
  ghost predicate OneOwner(threads: map<nat, Thread>) {
    forall a, b :: a in threads && b in threads && a != b && ElectionTerm(threads[a]).Some? ==>
      ElectionTerm(threads[a]) != ElectionTerm(threads[b])
  }

  ghost predicate NodeOk(n: NodeId, nd: Node, begun: seq<Mint>, declared: set<Mint>) {
    && LocalOk(nd.st, begun, declared)
    && (forall a :: a in nd.threads ==> a < nd.next && ThreadOk(n, nd.inc, nd.st.term, nd.threads[a], begun, declared))
    && OneOwner(nd.threads)
    && (forall e :: e in nd.internalC ==> e.term <= nd.st.term)
  }

  /** The term is not beyond what the named incarnation of the node has reached. */
  ghost predicate Reached(nodes: map<NodeId, Node>, n: NodeId, inc: nat, term: nat) {
    && n in nodes && inc <= nodes[n].inc
    && (inc == nodes[n].inc ==> term <= nodes[n].st.term)
  }

  ghost predicate MsgOk(m: Msg, nodes: map<NodeId, Node>, begun: seq<Mint>, declared: set<Mint>) {
    && Reached(nodes, m.from, m.inc, m.term)
    && Minted(begun, m.term)
    && (m.Announce? ==> HasDeclared(declared, m.from))
    && (m.Answer? ==> 1 <= m.asked <= m.term)
  }

  /** The i-th election begun extends the terms minted before it by at most one. */
  ghost predicate MintOk(begun: seq<Mint>, i: nat)
    requires i < |begun|
  {
    && begun[i].term >= 1
    && (begun[i].term == 1 || Minted(begun[..i], begun[i].term - 1))
    && forall j :: 0 <= j < i && begun[j].node == begun[i].node && begun[j].inc == begun[i].inc ==>
         begun[j].term < begun[i].term
  }

  ghost predicate MintsOk(begun: seq<Mint>) {
    forall i :: 0 <= i < |begun| ==> MintOk(begun, i)
  }

  ghost predicate NodesOk(s: Net) {
    forall n :: n in s.nodes ==> NodeOk(n, s.nodes[n], s.begun, s.declared)
  }

  ghost predicate MsgsOk(s: Net) {
    forall m :: m in s.msgs ==> MsgOk(m, s.nodes, s.begun, s.declared)
  }

  ghost predicate MintsReached(s: Net) {
    forall b :: b in s.begun ==> Reached(s.nodes, b.node, b.inc, b.term)
  }

  ghost predicate DeclaredBegun(s: Net) {
    forall c :: c in s.declared ==> c in s.begun
  }

  ghost predicate NetOk(s: Net) {
    NodesOk(s) && MsgsOk(s) && MintsOk(s.begun) && MintsReached(s) && DeclaredBegun(s)
  }

  // ---- growth -----------------------------------------------------------------------------

  lemma MintedGrows(begun: seq<Mint>, more: seq<Mint>, t: nat)
    requires Minted(begun, t)
    ensures Minted(begun + more, t)
  {
    var i :| 0 <= i < |begun| && begun[i].term == t;
    assert (begun + more)[i] == begun[i];
  }

  lemma ThreadStaysOk(n: NodeId, inc: nat, t: nat, u: nat, th: Thread,
                      begun: seq<Mint>, more: seq<Mint>, declared: set<Mint>, claims: set<Mint>)
    requires ThreadOk(n, inc, t, th, begun, declared) && t <= u
    ensures ThreadOk(n, inc, u, th, begun + more, declared + claims)
  {
  }

  lemma LocalStaysOk(st: Local, begun: seq<Mint>, more: seq<Mint>, declared: set<Mint>, claims: set<Mint>)
    requires LocalOk(st, begun, declared)
    ensures LocalOk(st, begun + more, declared + claims)
  {
    if st.term != 0 {
      MintedGrows(begun, more, st.term);
    }
  }

  lemma NodeStaysOk(n: NodeId, nd: Node, begun: seq<Mint>, more: seq<Mint>, declared: set<Mint>, claims: set<Mint>)
    requires NodeOk(n, nd, begun, declared)
    ensures NodeOk(n, nd, begun + more, declared + claims)
  {
    LocalStaysOk(nd.st, begun, more, declared, claims);
    forall a | a in nd.threads
      ensures ThreadOk(n, nd.inc, nd.st.term, nd.threads[a], begun + more, declared + claims)
    {
      ThreadStaysOk(n, nd.inc, nd.st.term, nd.st.term, nd.threads[a], begun, more, declared, claims);
    }
  }

  // ---- one node's step --------------------------------------------------------------------

  /** What a node's step may do, as seen from the rest of the network. */
  ghost predicate Good(n: NodeId, nd: Node, e: Effect, begun: seq<Mint>, declared: set<Mint>) {
    && e.node.inc == nd.inc && nd.st.term <= e.node.st.term
    && NodeOk(n, e.node, begun + e.begun, declared + e.declared)
    && (forall m :: m in e.sent ==>
          && m.from == n && m.inc == nd.inc && m.term <= e.node.st.term && Minted(begun, m.term)
          && (m.Announce? ==> HasDeclared(declared, n)) && (m.Answer? ==> 1 <= m.asked <= m.term))
    && (e.begun == [] || (e.begun == [Mint(n, nd.inc, nd.st.term + 1)] && e.node.st.term == nd.st.term + 1))
    && (forall c :: c in e.declared ==> c in begun)
  }

  /** A step that sets goroutine `tid` to `th`, leaves the others alone and does not lower the term. */
  lemma OneThreadChanged(n: NodeId, nd: Node, d: Node, tid: nat, th: Thread,
                         begun: seq<Mint>, more: seq<Mint>, declared: set<Mint>, claims: set<Mint>)
    requires NodeOk(n, nd, begun, declared)
    requires d.inc == nd.inc && nd.st.term <= d.st.term && nd.next <= d.next && tid < d.next
    requires d.threads == nd.threads[tid := th]
    requires LocalOk(d.st, begun + more, declared + claims)
    requires ThreadOk(n, nd.inc, d.st.term, th, begun + more, declared + claims)
    requires ElectionTerm(th).Some? ==>
               || (tid in nd.threads && ElectionTerm(th) == ElectionTerm(nd.threads[tid]))
               || ElectionTerm(th).value > nd.st.term
    requires forall e :: e in d.internalC ==> e.term <= d.st.term
    ensures NodeOk(n, d, begun + more, declared + claims)
  {
    forall a | a in d.threads
      ensures a < d.next && ThreadOk(n, d.inc, d.st.term, d.threads[a], begun + more, declared + claims)
      ensures a != tid && ElectionTerm(th).Some? ==> ElectionTerm(d.threads[a]) != ElectionTerm(th)
    {
      if a != tid {
        ThreadStaysOk(n, nd.inc, nd.st.term, d.st.term, nd.threads[a], begun, more, declared, claims);
      }
    }
  }

  /** A step that ends goroutine `tid` and keeps the term. */
  lemma OneThreadEnded(n: NodeId, nd: Node, d: Node, tid: nat, begun: seq<Mint>, declared: set<Mint>)
    requires NodeOk(n, nd, begun, declared)
    requires d.inc == nd.inc && d.st.term == nd.st.term && nd.next == d.next
    requires d.threads == nd.threads - {tid}
    requires LocalOk(d.st, begun, declared)
    requires forall e :: e in d.internalC ==> e.term <= d.st.term
    ensures NodeOk(n, d, begun + [], declared + {})
  {
    assert begun + [] == begun && declared + {} == declared;
  }

  /** A step of goroutine `tid` that neither mints, declares nor sends. */
  lemma QuietChange(n: NodeId, nd: Node, d: Node, tid: nat, th: Thread, begun: seq<Mint>, declared: set<Mint>)
    requires NodeOk(n, nd, begun, declared)
    requires d.inc == nd.inc && nd.st.term <= d.st.term && nd.next <= d.next && tid < d.next
    requires d.threads == nd.threads[tid := th]
    requires LocalOk(d.st, begun, declared)
    requires ThreadOk(n, nd.inc, d.st.term, th, begun, declared)
    requires ElectionTerm(th).Some? ==> tid in nd.threads && ElectionTerm(th) == ElectionTerm(nd.threads[tid])
    requires forall e :: e in d.internalC ==> e.term <= d.st.term
    ensures Good(n, nd, Quiet(d), begun, declared)
  {
    assert begun + [] == begun && declared + {} == declared;
    OneThreadChanged(n, nd, d, tid, th, begun, [], declared, {});
  }

  lemma QuietEnd(n: NodeId, nd: Node, d: Node, tid: nat, begun: seq<Mint>, declared: set<Mint>)
    requires NodeOk(n, nd, begun, declared)
    requires d.inc == nd.inc && d.st.term == nd.st.term && nd.next == d.next
    requires d.threads == nd.threads - {tid}
    requires LocalOk(d.st, begun, declared)
    requires forall e :: e in d.internalC ==> e.term <= d.st.term
    ensures Good(n, nd, Quiet(d), begun, declared)
  {
    OneThreadEnded(n, nd, d, tid, begun, declared);
  }

  lemma NoChange(n: NodeId, nd: Node, begun: seq<Mint>, declared: set<Mint>)
    requires NodeOk(n, nd, begun, declared)
    ensures Good(n, nd, Quiet(nd), begun, declared)
  {
    NodeStaysOk(n, nd, begun, [], declared, {});
  }

  lemma MintIsMinted(begun: seq<Mint>, b: Mint)
    requires b in begun
    ensures Minted(begun, b.term)
  {
    var i :| 0 <= i < |begun| && begun[i] == b;
  }

  lemma StartIsGood(n: NodeId, nd: Node, tid: nat, c: Choice, msgs: set<Msg>, begun: seq<Mint>, declared: set<Mint>)
    requires NodeOk(n, nd, begun, declared) && tid in nd.threads && nd.threads[tid].Starting?
    ensures Good(n, nd, RunElection(n, nd, tid, nd.threads[tid], c, msgs), begun, declared)
  {
    if InElection(nd.st) {
      QuietEnd(n, nd, End(nd, tid), tid, begun, declared);
    } else {
      var e := RunElection(n, nd, tid, nd.threads[tid], c, msgs);
      MintIsMinted(begun + e.begun, Mint(n, nd.inc, nd.st.term + 1));
      OneThreadChanged(n, nd, e.node, tid, Begun(nd.st.term + 1), begun, e.begun, declared, {});
    }
  }

  lemma DeclareIsGood(n: NodeId, nd: Node, tid: nat, c: Choice, msgs: set<Msg>, begun: seq<Mint>, declared: set<Mint>)
    requires NodeOk(n, nd, begun, declared) && tid in nd.threads && nd.threads[tid].Declaring?
    ensures Good(n, nd, RunElection(n, nd, tid, nd.threads[tid], c, msgs), begun, declared)
  {
    var term := nd.threads[tid].term;
    if Accepts(nd.st, n, term) {
      var e := RunElection(n, nd, tid, nd.threads[tid], c, msgs);
      assert begun + [] == begun;
      MintIsMinted(begun, Mint(n, nd.inc, term));
      assert Mint(n, nd.inc, term) in declared + e.declared;
      OneThreadChanged(n, nd, e.node, tid, Announcing(term), begun, [], declared, e.declared);
    } else {
      QuietEnd(n, nd, End(nd, tid), tid, begun, declared);
    }
  }

  lemma ElectionIsGood(n: NodeId, nd: Node, tid: nat, c: Choice, msgs: set<Msg>, begun: seq<Mint>, declared: set<Mint>)
    requires NodeOk(n, nd, begun, declared) && tid in nd.threads && InElectionCode(nd.threads[tid])
    ensures Good(n, nd, RunElection(n, nd, tid, nd.threads[tid], c, msgs), begun, declared)
  {
    var th := nd.threads[tid];
    var e := RunElection(n, nd, tid, th, c, msgs);
    if th.Starting? {
      StartIsGood(n, nd, tid, c, msgs, begun, declared);
    } else if th.Declaring? {
      DeclareIsGood(n, nd, tid, c, msgs, begun, declared);
    } else {
      NoChange(n, nd, begun, declared);
      MintIsMinted(begun, Mint(n, nd.inc, th.term));
      if e.node.threads == nd.threads - {tid} {
        QuietEnd(n, nd, e.node, tid, begun, declared);
      } else if e.sent == {} && tid in e.node.threads {
        QuietChange(n, nd, e.node, tid, e.node.threads[tid], begun, declared);
      }
    }
  }

  lemma WaiterIsGood(n: NodeId, nd: Node, tid: nat, c: Choice, begun: seq<Mint>, declared: set<Mint>)
    requires NodeOk(n, nd, begun, declared) && tid in nd.threads && InWaiterCode(nd.threads[tid])
    ensures Good(n, nd, RunWaiter(nd, tid, nd.threads[tid], c), begun, declared)
  {
    var d := RunWaiter(nd, tid, nd.threads[tid], c).node;
    assert forall e :: e in d.internalC ==> e in nd.internalC;
    if tid in d.threads {
      assert d.threads == nd.threads[tid := d.threads[tid]];
      assert nd.threads[tid].Waiting? && d.threads[tid].Woken? ==> d.threads[tid].event in nd.internalC;
      QuietChange(n, nd, d, tid, d.threads[tid], begun, declared);
    } else {
      QuietEnd(n, nd, d, tid, begun, declared);
    }
  }

  lemma AskedIsGood(n: NodeId, nd: Node, tid: nat, c: Choice, begun: seq<Mint>, declared: set<Mint>)
    requires NodeOk(n, nd, begun, declared) && tid in nd.threads && nd.threads[tid].Asked?
    ensures Good(n, nd, RunHandler(n, nd, tid, nd.threads[tid], c), begun, declared)
  {
    var th := nd.threads[tid];
    var replying := Put(nd, tid, Replying(th.asker, th.askerInc, th.term));
    QuietChange(n, nd, replying, tid, replying.threads[tid], begun, declared);
    assert begun + [] == begun && declared + {} == declared;
    if nd.st.leader == n {
      var spawned := ReAnnouncing(th.asker);
      QuietChange(n, replying, Spawn(replying, spawned), nd.next, spawned, begun, declared);
    } else {
      QuietChange(n, nd, RunHandler(n, nd, tid, th, c).node, tid, replying.threads[tid], begun, declared);
    }
  }

  lemma SenderIsGood(n: NodeId, nd: Node, tid: nat, c: Choice, begun: seq<Mint>, declared: set<Mint>)
    requires NodeOk(n, nd, begun, declared) && tid in nd.threads
    requires nd.threads[tid].Replying? || nd.threads[tid].ReAnnouncing?
    ensures Good(n, nd, RunHandler(n, nd, tid, nd.threads[tid], c), begun, declared)
  {
    NoChange(n, nd, begun, declared);
    QuietEnd(n, nd, End(nd, tid), tid, begun, declared);
  }

  lemma SignalIsGood(n: NodeId, nd: Node, tid: nat, c: Choice, begun: seq<Mint>, declared: set<Mint>)
    requires NodeOk(n, nd, begun, declared) && tid in nd.threads
    requires nd.threads[tid].Signalling? || nd.threads[tid].Retrying?
    ensures Good(n, nd, RunHandler(n, nd, tid, nd.threads[tid], c), begun, declared)
  {
    var d := RunHandler(n, nd, tid, nd.threads[tid], c).node;
    if tid in d.threads {
      NoChange(n, nd, begun, declared);
    } else {
      assert nd.threads[tid].term <= nd.st.term;
      assert forall e :: e in d.internalC ==> e in nd.internalC || e.term == nd.threads[tid].term;
      QuietEnd(n, nd, d, tid, begun, declared);
    }
  }

  lemma HandlerIsGood(n: NodeId, nd: Node, tid: nat, c: Choice, begun: seq<Mint>, declared: set<Mint>)
    requires NodeOk(n, nd, begun, declared) && tid in nd.threads
    requires !InElectionCode(nd.threads[tid]) && !InWaiterCode(nd.threads[tid])
    ensures Good(n, nd, RunHandler(n, nd, tid, nd.threads[tid], c), begun, declared)
  {
    var th := nd.threads[tid];
    match th
    case Asked(_, _, _) => AskedIsGood(n, nd, tid, c, begun, declared);
    case Replying(_, _, _) => SenderIsGood(n, nd, tid, c, begun, declared);
    case ReAnnouncing(_) => SenderIsGood(n, nd, tid, c, begun, declared);
    case Signalling(_, _) => SignalIsGood(n, nd, tid, c, begun, declared);
    case Retrying(_, _) => SignalIsGood(n, nd, tid, c, begun, declared);
    case LeaderLost(_) => QuietChange(n, nd, RunHandler(n, nd, tid, th, c).node, tid, Starting, begun, declared);
    case LossNoticed(lost) =>
      QuietChange(n, nd, RunHandler(n, nd, tid, th, c).node, tid, Retrying(nd.st.term, lost), begun, declared);
    case MemberLost(lost) =>
      QuietEnd(n, nd, End(nd, tid), tid, begun, declared);
      QuietChange(n, nd, Put(nd, tid, LossNoticed(lost)), tid, LossNoticed(lost), begun, declared);
  }

  lemma RunIsGood(n: NodeId, nd: Node, tid: nat, c: Choice, msgs: set<Msg>, begun: seq<Mint>, declared: set<Mint>)
    requires NodeOk(n, nd, begun, declared)
    ensures Good(n, nd, RunThread(n, nd, tid, c, msgs), begun, declared)
  {
    if tid !in nd.threads {
      NoChange(n, nd, begun, declared);
    } else if InElectionCode(nd.threads[tid]) {
      ElectionIsGood(n, nd, tid, c, msgs, begun, declared);
    } else if InWaiterCode(nd.threads[tid]) {
      WaiterIsGood(n, nd, tid, c, begun, declared);
    } else {
      HandlerIsGood(n, nd, tid, c, begun, declared);
    }
  }

  lemma SpawnIsGood(n: NodeId, nd: Node, th: Thread, begun: seq<Mint>, declared: set<Mint>)
    requires NodeOk(n, nd, begun, declared)
    requires th.Starting? || th.LeaderLost? || th.MemberLost?
    ensures Good(n, nd, Quiet(Spawn(nd, th)), begun, declared)
  {
    QuietChange(n, nd, Spawn(nd, th), nd.next, th, begun, declared);
  }

  lemma ReceiveIsGood(n: NodeId, nd: Node, m: Msg, nodes: map<NodeId, Node>, begun: seq<Mint>, declared: set<Mint>)
    requires NodeOk(n, nd, begun, declared) && MsgOk(m, nodes, begun, declared) && m.term >= 1
    ensures Good(n, nd, Quiet(Receive(nd, m)), begun, declared)
  {
    var d := Receive(nd, m);
    if d == nd {
      NoChange(n, nd, begun, declared);
    } else {
      assert forall e :: e in d.internalC ==> e.term <= nd.st.term <= d.st.term;
      QuietChange(n, nd, d, nd.next, d.threads[nd.next], begun, declared);
    }
  }

  lemma NodeStepIsGood(s: Net, step: Step)
    requires NetOk(s) && !step.Boot? && step.n in s.nodes
    ensures Good(step.n, s.nodes[step.n], NodeStep(s, step), s.begun, s.declared)
  {
    var n, nd := step.n, s.nodes[step.n];
    NoChange(n, nd, s.begun, s.declared);
    match step
    case Run(_, tid, c) => RunIsGood(n, nd, tid, c, s.msgs, s.begun, s.declared);
    case Deliver(_, m) =>
      if m in s.msgs {
        MintedIsPositive(s, m.term);
        ReceiveIsGood(n, nd, m, s.nodes, s.begun, s.declared);
      }
    case TakeElect(_) =>
      if nd.electC != [] {
        SpawnIsGood(n, nd.(electC := nd.electC[1..]), Starting, s.begun, s.declared);
      }
    case Joined(_, id) => SpawnIsGood(n, nd, Starting, s.begun, s.declared);
    case Left(_, id) =>
      var th := if nd.st.leader == id then LeaderLost(id) else MemberLost(id);
      SpawnIsGood(n, nd, th, s.begun, s.declared);
  }

  lemma MintedIsPositive(s: Net, t: nat)
    requires NetOk(s) && Minted(s.begun, t)
    ensures t >= 1
  {
    var i :| 0 <= i < |s.begun| && s.begun[i].term == t;
    assert MintOk(s.begun, i);
  }

  // ---- the network's step -----------------------------------------------------------------

  lemma ReachedStays(s: Net, n: NodeId, e: Effect, m: NodeId, inc: nat, term: nat)
    requires n in s.nodes && e.node.inc == s.nodes[n].inc && s.nodes[n].st.term <= e.node.st.term
    requires Reached(s.nodes, m, inc, term)
    ensures Reached(s.nodes[n := e.node], m, inc, term)
  {
  }

  lemma MergeKeepsMsgs(s: Net, n: NodeId, e: Effect)
    requires MsgsOk(s) && n in s.nodes && Good(n, s.nodes[n], e, s.begun, s.declared)
    ensures MsgsOk(Merge(s, n, e))
  {
    forall m | m in Merge(s, n, e).msgs
      ensures MsgOk(m, Merge(s, n, e).nodes, s.begun + e.begun, s.declared + e.declared)
    {
      MintedGrows(s.begun, e.begun, m.term);
      if m in s.msgs {
        ReachedStays(s, n, e, m.from, m.inc, m.term);
      }
    }
  }

  /** One more mint, above everything its incarnation minted and at most one above what was minted at all. */
  lemma MintsGrow(begun: seq<Mint>, b: Mint)
    requires MintsOk(begun)
    requires b.term >= 1 && (b.term == 1 || Minted(begun, b.term - 1))
    requires forall a :: a in begun && a.node == b.node && a.inc == b.inc ==> a.term < b.term
    ensures MintsOk(begun + [b])
  {
    var all := begun + [b];
    forall i | 0 <= i < |all|
      ensures MintOk(all, i)
    {
      if i < |begun| {
        assert all[..i] == begun[..i];
        assert MintOk(begun, i);
      } else {
        assert all[..i] == begun;
      }
    }
  }

  lemma MergeKeepsMints(s: Net, n: NodeId, more: seq<Mint>)
    requires MintsOk(s.begun) && MintsReached(s) && NodesOk(s) && n in s.nodes
    requires more == [] || more == [Mint(n, s.nodes[n].inc, s.nodes[n].st.term + 1)]
    ensures MintsOk(s.begun + more)
  {
    if more == [] {
      assert s.begun + more == s.begun;
    } else {
      assert NodeOk(n, s.nodes[n], s.begun, s.declared);
      MintsGrow(s.begun, more[0]);
    }
  }

  lemma MergeKeepsReached(s: Net, n: NodeId, e: Effect)
    requires MintsReached(s) && n in s.nodes && Good(n, s.nodes[n], e, s.begun, s.declared)
    ensures MintsReached(Merge(s, n, e))
  {
    forall b | b in s.begun + e.begun
      ensures Reached(Merge(s, n, e).nodes, b.node, b.inc, b.term)
    {
      if b in s.begun {
        ReachedStays(s, n, e, b.node, b.inc, b.term);
      }
    }
  }

  lemma MergeKeepsNodes(s: Net, n: NodeId, e: Effect)
    requires NodesOk(s) && NodeOk(n, e.node, s.begun + e.begun, s.declared + e.declared)
    ensures NodesOk(Merge(s, n, e))
  {
    forall k | k in s.nodes && k != n
      ensures NodeOk(k, s.nodes[k], s.begun + e.begun, s.declared + e.declared)
    {
      NodeStaysOk(k, s.nodes[k], s.begun, e.begun, s.declared, e.declared);
    }
  }

  lemma MergeKeepsDeclared(s: Net, n: NodeId, e: Effect)
    requires DeclaredBegun(s) && forall c :: c in e.declared ==> c in s.begun
    ensures DeclaredBegun(Merge(s, n, e))
  {
  }

  lemma MergeKeeps(s: Net, n: NodeId, e: Effect)
    requires NetOk(s) && n in s.nodes && Good(n, s.nodes[n], e, s.begun, s.declared)
    ensures NetOk(Merge(s, n, e))
  {
    MergeKeepsNodes(s, n, e);
    MergeKeepsMsgs(s, n, e);
    MergeKeepsMints(s, n, e.begun);
    MergeKeepsReached(s, n, e);
    MergeKeepsDeclared(s, n, e);
  }

  lemma FreshIsOk(n: NodeId, inc: nat, begun: seq<Mint>, declared: set<Mint>)
    ensures NodeOk(n, Fresh(inc), begun, declared)
  {
  }

  /** A new incarnation is ahead of everything said about the old ones. */
  lemma ReachedAfterBoot(nodes: map<NodeId, Node>, n: NodeId, nd: Node, m: NodeId, inc: nat, term: nat)
    requires Reached(nodes, m, inc, term) && (n in nodes ==> nodes[n].inc < nd.inc)
    ensures Reached(nodes[n := nd], m, inc, term)
  {
  }

  lemma BootKeeps(s: Net, n: NodeId)
    requires NetOk(s)
    ensures NetOk(Do(s, Boot(n)))
  {
    var t := Do(s, Boot(n));
    var nd := t.nodes[n];
    FreshIsOk(n, nd.inc, s.begun, s.declared);
    forall m | m in s.msgs
      ensures MsgOk(m, t.nodes, s.begun, s.declared)
    {
      ReachedAfterBoot(s.nodes, n, nd, m.from, m.inc, m.term);
    }
    forall b | b in s.begun
      ensures Reached(t.nodes, b.node, b.inc, b.term)
    {
      ReachedAfterBoot(s.nodes, n, nd, b.node, b.inc, b.term);
    }
  }

  lemma StepKeeps(s: Net, step: Step)
    requires NetOk(s)
    ensures NetOk(Do(s, step))
  {
    if step.Boot? {
      BootKeeps(s, step.n);
    } else if step.n in s.nodes {
      NodeStepIsGood(s, step);
      MergeKeeps(s, step.n, NodeStep(s, step));
    }
  }

  /** Every state of every run, restarts included, satisfies the invariant. */
  lemma {:induction false} RunsAreSafe(s: Net, steps: seq<Step>)
    requires NetOk(s)
    ensures NetOk(Exec(s, steps))
  {
    if steps != [] {
      RunsAreSafe(s, steps[..|steps| - 1]);
      StepKeeps(Exec(s, steps[..|steps| - 1]), steps[|steps| - 1]);
    }
  }
}
