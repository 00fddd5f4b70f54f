/**
  What each event leads to at a node that is left alone to handle it: requests, announcements, members
  that join or leave, timeouts and the events a waiting election takes.
 */
module ElectionEffects {
  import opened Tasks
  import opened LocalElection
  import opened Election
  import opened ElectionGuarantees

  // ---- following one goroutine ------------------------------------------------------------

  /** The network after goroutine `tid` of node n took the choices `cs`, with nothing else happening. */
  function Follow(s: Net, n: NodeId, tid: nat, cs: seq<Choice>): Net {
    if cs == [] then s else Do(Follow(s, n, tid, cs[..|cs| - 1]), Run(n, tid, cs[|cs| - 1]))
  }

  /** One effect after another. */
  function Then(e: Effect, f: Effect): Effect {
    Effect(f.node, e.sent + f.sent, e.begun + f.begun, e.declared + f.declared)
  }

  /** The same seen from the node alone. */
  function Play(n: NodeId, e: Effect, tid: nat, cs: seq<Choice>, msgs: set<Msg>): Effect {
    if cs == [] then e
    else
      var p := Play(n, e, tid, cs[..|cs| - 1], msgs);
      Then(p, RunThread(n, p.node, tid, cs[|cs| - 1], msgs + p.sent))
  }

  lemma MergeStep(s: Net, n: NodeId, e: Effect, tid: nat, c: Choice)
    ensures Do(Merge(s, n, e), Run(n, tid, c)) == Merge(s, n, Then(e, RunThread(n, e.node, tid, c, s.msgs + e.sent)))
  {
    var f := RunThread(n, e.node, tid, c, s.msgs + e.sent);
    assert Do(Merge(s, n, e), Run(n, tid, c)) == Merge(Merge(s, n, e), n, f);
    MergeMerge(s, n, e, f);
  }

  lemma MergeMerge(s: Net, n: NodeId, e: Effect, f: Effect)
    ensures Merge(Merge(s, n, e), n, f) == Merge(s, n, Then(e, f))
  {
    assert s.nodes[n := e.node][n := f.node] == s.nodes[n := f.node];
    assert s.msgs + e.sent + f.sent == s.msgs + (e.sent + f.sent);
    assert s.begun + e.begun + f.begun == s.begun + (e.begun + f.begun);
    assert s.declared + e.declared + f.declared == s.declared + (e.declared + f.declared);
  }

  lemma {:induction false} FollowIsPlay(s: Net, n: NodeId, e: Effect, tid: nat, cs: seq<Choice>)
    ensures Follow(Merge(s, n, e), n, tid, cs) == Merge(s, n, Play(n, e, tid, cs, s.msgs))
  {
    if cs != [] {
      FollowIsPlay(s, n, e, tid, cs[..|cs| - 1]);
      MergeStep(s, n, Play(n, e, tid, cs[..|cs| - 1], s.msgs), tid, cs[|cs| - 1]);
    }
  }

  lemma MergeNothing(s: Net, n: NodeId)
    requires n in s.nodes
    ensures Merge(s, n, Quiet(s.nodes[n])) == s
  {
    assert s.nodes[n := s.nodes[n]] == s.nodes;
  }

  /** A goroutine that took `cs` and then `c`. */
  lemma PlaySnoc(n: NodeId, e: Effect, tid: nat, cs: seq<Choice>, c: Choice, msgs: set<Msg>)
    ensures var p := Play(n, e, tid, cs, msgs);
            Play(n, e, tid, cs + [c], msgs) == Then(p, RunThread(n, p.node, tid, c, msgs + p.sent))
  {
    assert (cs + [c])[..|cs|] == cs;
  }

  lemma PlayOne(n: NodeId, nd: Node, tid: nat, c: Choice, msgs: set<Msg>)
    ensures Play(n, Quiet(nd), tid, [c], msgs) == RunThread(n, nd, tid, c, msgs)
  {
    PlaySnoc(n, Quiet(nd), tid, [], c, msgs);
    assert [] + [c] == [c];
    assert msgs + {} == msgs;
    ThenQuiet(nd, RunThread(n, nd, tid, c, msgs));
  }

  lemma ThenQuiet(nd: Node, f: Effect)
    ensures Then(Quiet(nd), f) == f
  {
    assert {} + f.sent == f.sent && [] + f.begun == f.begun && {} + f.declared == f.declared;
  }

  /** A goroutine that only changed its node so far takes one more step. */
  lemma PlayOn(n: NodeId, nd: Node, tid: nat, cs: seq<Choice>, c: Choice, msgs: set<Msg>, d: Node)
    requires Play(n, Quiet(nd), tid, cs, msgs) == Quiet(d)
    ensures Play(n, Quiet(nd), tid, cs + [c], msgs) == RunThread(n, d, tid, c, msgs)
  {
    PlaySnoc(n, Quiet(nd), tid, cs, c, msgs);
    assert msgs + {} == msgs;
    ThenQuiet(d, RunThread(n, d, tid, c, msgs));
  }

  lemma SpawnedRuns(s: Net, x: Step, d: Node, tid: nat, cs: seq<Choice>)
    requires !x.Boot? && x.n in s.nodes && NodeStep(s, x) == Quiet(d)
    ensures Follow(Do(s, x), x.n, tid, cs) == Merge(s, x.n, Play(x.n, Quiet(d), tid, cs, s.msgs))
  {
    FollowIsPlay(s, x.n, Quiet(d), tid, cs);
  }

  /** A message delivered and then handled by the goroutine it starts. */
  lemma DeliveryRuns(s: Net, n: NodeId, m: Msg, tid: nat, cs: seq<Choice>, f: Effect)
    requires n in s.nodes && m in s.msgs && m.to == n && f == Play(n, Quiet(Receive(s.nodes[n], m)), tid, cs, s.msgs)
    ensures Follow(Do(s, Deliver(n, m)), n, tid, cs) == Merge(s, n, f)
  {
    SpawnedRuns(s, Deliver(n, m), Receive(s.nodes[n], m), tid, cs);
  }

  lemma GoroutineRuns(s: Net, n: NodeId, tid: nat, cs: seq<Choice>)
    requires n in s.nodes
    ensures Follow(s, n, tid, cs) == Merge(s, n, Play(n, Quiet(s.nodes[n]), tid, cs, s.msgs))
  {
    MergeNothing(s, n);
    FollowIsPlay(s, n, Quiet(s.nodes[n]), tid, cs);
  }

  // ---- beginning an election --------------------------------------------------------------

  /** From `s` to `e` node n began an election, the next term's, and nothing was sent or declared. */
  ghost predicate Begins(s: Net, e: Net, n: NodeId)
    requires n in s.nodes
  {
    var nd, term := s.nodes[n], s.nodes[n].st.term + 1;
    && n in e.nodes && e.nodes[n].inc == nd.inc && e.nodes[n].st == Local(term, 0, Electing)
    && e.begun == s.begun + [Mint(n, nd.inc, term)] && e.declared == s.declared && e.msgs == s.msgs
  }

  /** The state, the mints, the declarations and the messages are as they were. */
  ghost predicate Unmoved(s: Net, e: Net, n: NodeId)
    requires n in s.nodes
  {
    && n in e.nodes && e.nodes[n].inc == s.nodes[n].inc && e.nodes[n].st == s.nodes[n].st
    && e.begun == s.begun && e.declared == s.declared && e.msgs == s.msgs
  }

  /** An election begins unless one is going on. */
  ghost predicate Elects(s: Net, e: Net, n: NodeId)
    requires n in s.nodes
  {
    if s.nodes[n].st.phase == Electing || s.nodes[n].st.phase == WaitingCoordinator then Unmoved(s, e, n)
    else Begins(s, e, n)
  }

  /** What an effect says of the state of a node that stood at `nd`. */
  predicate BeginsAt(n: NodeId, nd: Node, f: Effect) {
    && f.node.inc == nd.inc && f.node.st == Local(nd.st.term + 1, 0, Electing)
    && f.begun == [Mint(n, nd.inc, nd.st.term + 1)] && f.sent == {} && f.declared == {}
  }

  predicate UnmovedAt(nd: Node, f: Effect) {
    f.node.inc == nd.inc && f.node.st == nd.st && f.begun == [] && f.sent == {} && f.declared == {}
  }

  predicate ElectsAt(n: NodeId, nd: Node, f: Effect) {
    if InElection(nd.st) then UnmovedAt(nd, f) else BeginsAt(n, nd, f)
  }

  lemma MergeBegins(s: Net, n: NodeId, f: Effect)
    requires n in s.nodes && BeginsAt(n, s.nodes[n], f)
    ensures Begins(s, Merge(s, n, f), n)
  {
  }

  lemma MergeUnmoved(s: Net, n: NodeId, f: Effect)
    requires n in s.nodes && UnmovedAt(s.nodes[n], f)
    ensures Unmoved(s, Merge(s, n, f), n)
  {
  }

  lemma MergeElects(s: Net, n: NodeId, f: Effect)
    requires n in s.nodes && ElectsAt(n, s.nodes[n], f)
    ensures Elects(s, Merge(s, n, f), n)
  {
    if InElection(s.nodes[n].st) {
      MergeUnmoved(s, n, f);
    } else {
      MergeBegins(s, n, f);
    }
  }

  lemma StartingRuns(n: NodeId, d: Node, tid: nat, msgs: set<Msg>)
    requires tid in d.threads && d.threads[tid] == Starting
    ensures ElectsAt(n, d, RunThread(n, d, tid, Go, msgs))
  {
  }

  // ---- members ----------------------------------------------------------------------------

  lemma JoinRuns(n: NodeId, nd: Node, id: NodeId, msgs: set<Msg>)
    requires nd.next !in nd.threads
    ensures var f := Play(n, Quiet(OnJoin(n, nd, id)), nd.next, [Go], msgs);
            if id != n && (nd.st.leader == 0 || id > nd.st.leader) then ElectsAt(n, nd, f) else f == Quiet(nd)
  {
    var d := OnJoin(n, nd, id);
    PlayOne(n, d, nd.next, Go, msgs);
    if id != n && (nd.st.leader == 0 || id > nd.st.leader) {
      StartingRuns(n, d, nd.next, msgs);
    }
  }

  /** A member that joins starts an election iff it is another node and there is no leader or it is above the leader. */
  lemma JoinHandled(s: Net, n: NodeId, id: NodeId)
    requires Reachable(s) && n in s.nodes
    ensures var nd := s.nodes[n];
            var e := Follow(Do(s, Joined(n, id)), n, nd.next, [Go]);
            if id != n && (nd.st.leader == 0 || id > nd.st.leader) then Elects(s, e, n) else e == s
  {
    var nd := s.nodes[n];
    var d := OnJoin(n, nd, id);
    FreshThread(s, n);
    SpawnedRuns(s, Joined(n, id), d, nd.next, [Go]);
    JoinRuns(n, nd, id, s.msgs);
    if id != n && (nd.st.leader == 0 || id > nd.st.leader) {
      MergeElects(s, n, Play(n, Quiet(d), nd.next, [Go], s.msgs));
    } else {
      MergeNothing(s, n);
    }
  }

  /** Goroutine numbers are not reused, and a leader is known exactly in the leader phase. */
  lemma FreshThread(s: Net, n: NodeId)
    requires Reachable(s) && n in s.nodes
    ensures s.nodes[n].next !in s.nodes[n].threads && s.nodes[n].next + 1 !in s.nodes[n].threads
    ensures WellFormed(s.nodes[n].st)
  {
    ReachableIsOk(s);
    assert NodeOk(n, s.nodes[n], s.begun, s.declared);
  }

  lemma LeaderLostRuns(n: NodeId, nd: Node, id: NodeId, msgs: set<Msg>)
    requires WellFormed(nd.st) && nd.st.leader == id
    ensures BeginsAt(n, nd, Play(n, Quiet(OnLeave(nd, id)), nd.next, [Go, Go], msgs))
  {
    var d, tid := OnLeave(nd, id), nd.next;
    PlayOne(n, d, tid, Go, msgs);
    var c := RunThread(n, d, tid, Go, msgs).node;
    assert RunThread(n, d, tid, Go, msgs) == Quiet(c) && c.st == Local(nd.st.term, 0, Idle);
    assert tid in c.threads && c.threads[tid] == Starting;
    PlayOn(n, d, tid, [Go], Go, msgs, c);
    assert [Go] + [Go] == [Go, Go];
    StartingRuns(n, c, tid, msgs);
  }

  /** The loss of the recorded leader clears it and starts an election of the next term. */
  lemma LeaderLossHandled(s: Net, n: NodeId, id: NodeId)
    requires Reachable(s) && n in s.nodes && s.nodes[n].st.leader == id
    ensures Begins(s, Follow(Do(s, Left(n, id)), n, s.nodes[n].next, [Go, Go]), n)
  {
    var nd := s.nodes[n];
    FreshThread(s, n);
    SpawnedRuns(s, Left(n, id), OnLeave(nd, id), nd.next, [Go, Go]);
    LeaderLostRuns(n, nd, id, s.msgs);
    MergeBegins(s, n, Play(n, Quiet(OnLeave(nd, id)), nd.next, [Go, Go], s.msgs));
  }

  lemma MemberLostRuns(n: NodeId, nd: Node, id: NodeId, msgs: set<Msg>)
    requires nd.next !in nd.threads && nd.st.leader != id
    ensures var retries := nd.st.phase == WaitingCoordinator && id > n && |nd.internalC| < 8;
            Play(n, Quiet(OnLeave(nd, id)), nd.next, [Go, Go, Go], msgs) ==
            Quiet(nd.(next := nd.next + 1,
                      internalC := nd.internalC + if retries then [Retry(nd.st.term, id)] else []))
  {
    var a, tid := OnLeave(nd, id), nd.next;
    PlayOne(n, a, tid, Go, msgs);
    var b := RunThread(n, a, tid, Go, msgs).node;
    assert RunThread(n, a, tid, Go, msgs) == Quiet(b);
    PlayOn(n, a, tid, [Go], Go, msgs, b);
    var c := RunThread(n, b, tid, Go, msgs).node;
    assert RunThread(n, b, tid, Go, msgs) == Quiet(c);
    PlayOn(n, a, tid, [Go] + [Go], Go, msgs, c);
    assert [Go] + [Go] + [Go] == [Go, Go, Go];
    assert nd.threads[tid := MemberLost(id)] - {tid} == nd.threads;
    MemberLostEnds(n, nd, id, msgs);
  }

  lemma MemberLostEnds(n: NodeId, nd: Node, id: NodeId, msgs: set<Msg>)
    requires nd.next !in nd.threads && nd.st.leader != id
    ensures var tid := nd.next;
            var b := RunThread(n, OnLeave(nd, id), tid, Go, msgs).node;
            var c := RunThread(n, b, tid, Go, msgs).node;
            var retries := nd.st.phase == WaitingCoordinator && id > n && |nd.internalC| < 8;
            RunThread(n, c, tid, Go, msgs) ==
            Quiet(nd.(next := nd.next + 1,
                      internalC := nd.internalC + if retries then [Retry(nd.st.term, id)] else []))
  {
    var tid, a := nd.next, OnLeave(nd, id);
    assert a.threads - {tid} == nd.threads;
    assert nd.internalC + [] == nd.internalC;
    if nd.st.phase == WaitingCoordinator && id > n {
      var b := Put(a, tid, LossNoticed(id));
      assert RunThread(n, a, tid, Go, msgs).node == b;
      NoticeRuns(n, a, tid, id, msgs);
      RetryingRuns(n, Put(b, tid, Retrying(nd.st.term, id)), tid, id, msgs);
      assert Put(b, tid, Retrying(nd.st.term, id)).threads - {tid} == nd.threads;
    } else {
      assert RunThread(n, a, tid, Go, msgs).node == nd.(next := nd.next + 1);
    }
  }

  lemma NoticeRuns(n: NodeId, a: Node, tid: nat, id: NodeId, msgs: set<Msg>)
    ensures var b := Put(a, tid, LossNoticed(id));
            RunThread(n, b, tid, Go, msgs) == Quiet(Put(b, tid, Retrying(a.st.term, id)))
  {
  }

  lemma RetryingRuns(n: NodeId, c: Node, tid: nat, id: NodeId, msgs: set<Msg>)
    requires tid in c.threads && c.threads[tid] == Retrying(c.st.term, id)
    ensures RunThread(n, c, tid, Go, msgs) ==
            Quiet(c.(threads := c.threads - {tid},
                     internalC := if |c.internalC| < 8 then c.internalC + [Retry(c.st.term, id)] else c.internalC))
  {
  }

  /**
    The loss of any other member leaves term, leader and phase alone and begins no election.  It queues a retry of the
    current term iff the node waits for a coordinator, the lost member is above it and the channel has room.
   */
  lemma OtherLossHandled(s: Net, n: NodeId, id: NodeId)
    requires Reachable(s) && n in s.nodes && s.nodes[n].st.leader != id
    ensures var nd := s.nodes[n];
            var e := Follow(Do(s, Left(n, id)), n, nd.next, [Go, Go, Go]);
            var retries := nd.st.phase == WaitingCoordinator && id > n && |nd.internalC| < 8;
            && Unmoved(s, e, n) && e.nodes[n].threads == nd.threads && e.nodes[n].electC == nd.electC
            && e.nodes[n].internalC == nd.internalC + if retries then [Retry(nd.st.term, id)] else []
  {
    var nd := s.nodes[n];
    FreshThread(s, n);
    SpawnedRuns(s, Left(n, id), OnLeave(nd, id), nd.next, [Go, Go, Go]);
    MemberLostRuns(n, nd, id, s.msgs);
  }

  // ---- requests and announcements ---------------------------------------------------------

  /** The state of a node that has heard of term t. */
  function Heeding(st: Local, t: nat): Local {
    if t > st.term then Local(t, 0, Idle) else st
  }

  /** What handling request m does: its term is heeded, it is answered and, unless this node leads, queued. */
  function Requested(n: NodeId, nd: Node, m: Msg): Effect
    requires m.Request?
  {
    var st := Heeding(nd.st, m.term);
    var lead := st.leader == n;
    Effect(nd.(st := st, next := if lead then nd.next + 2 else nd.next + 1,
               threads := if lead then nd.threads[nd.next + 1 := ReAnnouncing(m.from)] else nd.threads,
               electC := if !lead && nd.electC == [] then [m.from] else nd.electC),
           {Answer(n, nd.inc, m.from, st.term, m.inc, m.term)}, [], {})
  }

  lemma AskedRuns(n: NodeId, nd: Node, m: Msg, msgs: set<Msg>)
    requires m.Request? && nd.next !in nd.threads && nd.next + 1 !in nd.threads
    ensures Play(n, Quiet(Receive(nd, m)), nd.next, [Go, Go], msgs) == Requested(n, nd, m)
  {
    var d, tid := Receive(nd, m), nd.next;
    PlayOne(n, d, tid, Go, msgs);
    var c := RunThread(n, d, tid, Go, msgs).node;
    PlayOn(n, d, tid, [Go], Go, msgs, c);
    assert [Go] + [Go] == [Go, Go];
    assert tid in c.threads && c.threads[tid] == Replying(m.from, m.inc, m.term);
    assert c.threads - {tid} == Requested(n, nd, m).node.threads;
    assert nd.electC == [] ==> nd.electC + [m.from] == [m.from];
  }

  lemma ReAnnounceRuns(n: NodeId, nd: Node, m: Msg, msgs: set<Msg>)
    requires m.Request? && nd.next + 1 !in nd.threads
    ensures var d := Requested(n, nd, m).node;
            RunThread(n, d, nd.next + 1, Go, msgs) ==
            if d.st.leader == n then Effect(d, {Announce(n, nd.inc, m.from, d.st.term)}, [], {}) else Quiet(d)
  {
  }

  /** Until here the request has been handled. */
  lemma RequestRuns(s: Net, n: NodeId, m: Msg)
    requires Reachable(s) && n in s.nodes && m in s.msgs && m.to == n && m.Request?
    ensures Follow(Do(s, Deliver(n, m)), n, s.nodes[n].next, [Go, Go]) == Merge(s, n, Requested(n, s.nodes[n], m))
  {
    var nd := s.nodes[n];
    FreshThread(s, n);
    AskedRuns(n, nd, m, s.msgs);
    DeliveryRuns(s, n, m, nd.next, [Go, Go], Requested(n, nd, m));
  }

  /** A node heeds a request's term and answers with its own; unless it leads, it queues an election of its own. */
  lemma RequestHandled(s: Net, n: NodeId, m: Msg)
    requires Reachable(s) && n in s.nodes && m in s.msgs && m.to == n && m.Request?
    ensures var nd, e := s.nodes[n], Follow(Do(s, Deliver(n, m)), n, s.nodes[n].next, [Go, Go]);
            var st := Heeding(nd.st, m.term);
            && n in e.nodes && e.nodes[n].inc == nd.inc && e.nodes[n].st == st
            && e.nodes[n].electC == (if st.leader != n && nd.electC == [] then [m.from] else nd.electC)
            && e.msgs == s.msgs + {Answer(n, nd.inc, m.from, st.term, m.inc, m.term)}
            && e.begun == s.begun && e.declared == s.declared
  {
    RequestRuns(s, n, m);
  }

  /** After answering, a node announces itself to the asker, with its current term, iff it leads. */
  lemma LeaderReAnnounces(s: Net, n: NodeId, m: Msg)
    requires Reachable(s) && n in s.nodes && m in s.msgs && m.to == n && m.Request?
    ensures var nd, a := s.nodes[n], Follow(Do(s, Deliver(n, m)), n, s.nodes[n].next, [Go, Go]);
            var st, e := Heeding(nd.st, m.term), Do(a, Run(n, nd.next + 1, Go));
            e == if st.leader == n then a.(msgs := a.msgs + {Announce(n, nd.inc, m.from, st.term)}) else a
  {
    RequestRuns(s, n, m);
    FreshThread(s, n);
    ReAnnounceStep(s, n, m);
  }

  lemma ReAnnounceStep(s: Net, n: NodeId, m: Msg)
    requires n in s.nodes && m.Request? && s.nodes[n].next + 1 !in s.nodes[n].threads
    ensures var nd, a := s.nodes[n], Merge(s, n, Requested(n, s.nodes[n], m));
            var st := Heeding(nd.st, m.term);
            Do(a, Run(n, nd.next + 1, Go)) ==
            if st.leader == n then a.(msgs := a.msgs + {Announce(n, nd.inc, m.from, st.term)}) else a
  {
    var nd, f := s.nodes[n], Requested(n, s.nodes[n], m);
    MergeStep(s, n, f, nd.next + 1, Go);
    ReAnnounceRuns(n, nd, m, s.msgs + f.sent);
    MergeSent(s, n, f, RunThread(n, f.node, nd.next + 1, Go, s.msgs + f.sent));
  }

  lemma MergeSent(s: Net, n: NodeId, f: Effect, g: Effect)
    requires g.node == f.node && g.begun == [] && g.declared == {}
    ensures Merge(s, n, Then(f, g)) == Merge(s, n, f).(msgs := Merge(s, n, f).msgs + g.sent)
    ensures g.sent == {} ==> Merge(s, n, Then(f, g)) == Merge(s, n, f)
  {
    assert s.msgs + (f.sent + g.sent) == s.msgs + f.sent + g.sent;
    assert f.begun + [] == f.begun && f.declared + {} == f.declared;
  }

  /** What hearing the announcement of leader l in term t does to a node. */
  function Announced(nd: Node, l: NodeId, t: nat): Node {
    nd.(st := Local(t, l, HasLeader), next := nd.next + 1,
        threads := if |nd.internalC| < 8 then nd.threads else nd.threads[nd.next := Signalling(t, l)],
        internalC := if |nd.internalC| < 8 then nd.internalC + [Coordinator(t, l)] else nd.internalC)
  }

  lemma SignalRuns(n: NodeId, nd: Node, m: Msg, msgs: set<Msg>)
    requires m.Announce? && nd.next !in nd.threads && Accepts(nd.st, m.from, m.term)
    ensures Play(n, Quiet(Receive(nd, m)), nd.next, [Go], msgs) == Quiet(Announced(nd, m.from, m.term))
  {
    var d := Receive(nd, m);
    PlayOne(n, d, nd.next, Go, msgs);
    assert d.threads - {nd.next} == nd.threads;
  }

  /**
    An announcement that is not below the node's own term and leader is adopted and signalled to a waiting election,
    as long as the channel has room; any other is ignored.
   */
  lemma AnnouncementHandled(s: Net, n: NodeId, m: Msg)
    requires Reachable(s) && n in s.nodes && m in s.msgs && m.to == n && m.Announce?
    ensures var nd, e := s.nodes[n], Follow(Do(s, Deliver(n, m)), n, s.nodes[n].next, [Go]);
            if nd.st.term < m.term || (nd.st.term == m.term && nd.st.leader <= m.from) then
              && n in e.nodes && e.nodes[n].inc == nd.inc && e.nodes[n].st == Local(m.term, m.from, HasLeader)
              && e.nodes[n].internalC ==
                 nd.internalC + (if |nd.internalC| < 8 then [Coordinator(m.term, m.from)] else [])
              && e.begun == s.begun && e.declared == s.declared && e.msgs == s.msgs
            else e == s
  {
    var nd := s.nodes[n];
    FreshThread(s, n);
    if Accepts(nd.st, m.from, m.term) {
      SignalRuns(n, nd, m, s.msgs);
      DeliveryRuns(s, n, m, nd.next, [Go], Quiet(Announced(nd, m.from, m.term)));
    } else {
      PlayOne(n, nd, nd.next, Go, s.msgs);
      DeliveryRuns(s, n, m, nd.next, [Go], Quiet(nd));
      MergeNothing(s, n);
    }
  }

  lemma TakenRuns(n: NodeId, nd: Node, msgs: set<Msg>)
    requires nd.next !in nd.threads && nd.electC != []
    ensures var d := Spawn(nd.(electC := nd.electC[1..]), Starting);
            var f := Play(n, Quiet(d), nd.next, [Go], msgs);
            ElectsAt(n, nd, f) && f.node.electC == nd.electC[1..]
  {
    var d := Spawn(nd.(electC := nd.electC[1..]), Starting);
    PlayOne(n, d, nd.next, Go, msgs);
    StartingRuns(n, d, nd.next, msgs);
  }

  /** A queued request starts an election and leaves the queue. */
  lemma QueuedRequestHandled(s: Net, n: NodeId)
    requires Reachable(s) && n in s.nodes && s.nodes[n].electC != []
    ensures var e := Follow(Do(s, TakeElect(n)), n, s.nodes[n].next, [Go]);
            Elects(s, e, n) && e.nodes[n].electC == s.nodes[n].electC[1..]
  {
    var nd := s.nodes[n];
    var d := Spawn(nd.(electC := nd.electC[1..]), Starting);
    FreshThread(s, n);
    SpawnedRuns(s, TakeElect(n), d, nd.next, [Go]);
    TakenRuns(n, nd, s.msgs);
    MergeElects(s, n, Play(n, Quiet(d), nd.next, [Go], s.msgs));
  }

  // ---- waiting for a coordinator ----------------------------------------------------------

  /** The election of term t is given up and a new one begun, unless one of another term is going on. */
  ghost predicate Restarts(s: Net, e: Net, n: NodeId, t: nat)
    requires n in s.nodes
  {
    if InElection(s.nodes[n].st) && s.nodes[n].st.term != t then Unmoved(s, e, n) else Begins(s, e, n)
  }

  predicate RestartsAt(n: NodeId, nd: Node, f: Effect, t: nat) {
    if InElection(nd.st) && nd.st.term != t then UnmovedAt(nd, f) else BeginsAt(n, nd, f)
  }

  lemma MergeRestarts(s: Net, n: NodeId, f: Effect, t: nat)
    requires n in s.nodes && RestartsAt(n, s.nodes[n], f, t)
    ensures Restarts(s, Merge(s, n, f), n, t)
  {
  }

  lemma ResetRuns(n: NodeId, d: Node, tid: nat, msgs: set<Msg>, t: nat)
    requires tid in d.threads && d.threads[tid] == Resetting(t)
    ensures RunThread(n, d, tid, Go, msgs) ==
            Quiet(d.(st := ResetElection(d.st, t), threads := d.threads[tid := Starting]))
  {
  }

  /** A goroutine that has come to resetting, starting from a node in the same state, restarts. */
  lemma ResettingRuns(n: NodeId, nd: Node, tid: nat, cs: seq<Choice>, msgs: set<Msg>, d: Node, t: nat)
    requires Play(n, Quiet(nd), tid, cs, msgs) == Quiet(d) && d.st == nd.st && d.inc == nd.inc
    requires tid in d.threads && d.threads[tid] == Resetting(t)
    ensures RestartsAt(n, nd, Play(n, Quiet(nd), tid, cs + [Go] + [Go], msgs), t)
  {
    var r := RestartSteps(n, nd, d, tid, msgs, t);
    PlayTwice(n, nd, tid, cs, msgs, d, r);
  }

  lemma RestartSteps(n: NodeId, nd: Node, d: Node, tid: nat, msgs: set<Msg>, t: nat) returns (r: Node)
    requires d.st == nd.st && d.inc == nd.inc && tid in d.threads && d.threads[tid] == Resetting(t)
    ensures RunThread(n, d, tid, Go, msgs) == Quiet(r) && RestartsAt(n, nd, RunThread(n, r, tid, Go, msgs), t)
  {
    r := d.(st := ResetElection(d.st, t), threads := d.threads[tid := Starting]);
    ResetRuns(n, d, tid, msgs, t);
    StartingRuns(n, r, tid, msgs);
  }

  lemma PlayTwice(n: NodeId, nd: Node, tid: nat, cs: seq<Choice>, msgs: set<Msg>, d: Node, r: Node)
    requires Play(n, Quiet(nd), tid, cs, msgs) == Quiet(d) && RunThread(n, d, tid, Go, msgs) == Quiet(r)
    ensures Play(n, Quiet(nd), tid, cs + [Go] + [Go], msgs) == RunThread(n, r, tid, Go, msgs)
  {
    PlayOn(n, nd, tid, cs, Go, msgs, d);
    PlayOn(n, nd, tid, cs + [Go], Go, msgs, r);
  }

  /** A wait that times out restarts. */
  lemma TimeoutHandled(s: Net, n: NodeId, tid: nat, t: nat)
    requires n in s.nodes && tid in s.nodes[n].threads && s.nodes[n].threads[tid] == Waiting(t)
    ensures Restarts(s, Follow(s, n, tid, [GiveUp, Go, Go]), n, t)
  {
    var nd := s.nodes[n];
    GoroutineRuns(s, n, tid, [GiveUp, Go, Go]);
    TimeoutRuns(n, nd, tid, t, s.msgs);
    MergeRestarts(s, n, Play(n, Quiet(nd), tid, [GiveUp, Go, Go], s.msgs), t);
  }

  lemma TimeoutRuns(n: NodeId, nd: Node, tid: nat, t: nat, msgs: set<Msg>)
    requires tid in nd.threads && nd.threads[tid] == Waiting(t)
    ensures RestartsAt(n, nd, Play(n, Quiet(nd), tid, [GiveUp, Go, Go], msgs), t)
  {
    PlayOne(n, nd, tid, GiveUp, msgs);
    ResettingRuns(n, nd, tid, [GiveUp], msgs, Put(nd, tid, Resetting(t)), t);
    assert [GiveUp] + [Go] + [Go] == [GiveUp, Go, Go];
  }

  /** A wait that is cancelled ends and gives up its own election, if that is still going on. */
  lemma CancelHandled(s: Net, n: NodeId, tid: nat, t: nat)
    requires n in s.nodes && tid in s.nodes[n].threads && s.nodes[n].threads[tid] == Waiting(t)
    ensures var nd, e := s.nodes[n], Follow(s, n, tid, [Cancel]);
            var st := if nd.st.term == t && InElection(nd.st) then nd.st.(phase := Idle) else nd.st;
            e == s.(nodes := s.nodes[n := nd.(st := st, threads := nd.threads - {tid})])
  {
    var nd := s.nodes[n];
    GoroutineRuns(s, n, tid, [Cancel]);
    PlayOne(n, nd, tid, Cancel, s.msgs);
  }

  lemma TakeRuns(n: NodeId, nd: Node, tid: nat, t: nat, msgs: set<Msg>)
    requires tid in nd.threads && nd.threads[tid] == Waiting(t) && nd.internalC != []
    ensures var ev, rest := nd.internalC[0], nd.(internalC := nd.internalC[1..]);
            Play(n, Quiet(nd), tid, [Take], msgs) == Quiet(if ev.term < t then rest else Put(rest, tid, Woken(t, ev)))
  {
    PlayOne(n, nd, tid, Take, msgs);
  }

  /** A waiting election drops an event of an older term and goes on waiting. */
  lemma StaleEventHandled(s: Net, n: NodeId, tid: nat, t: nat)
    requires n in s.nodes && tid in s.nodes[n].threads && s.nodes[n].threads[tid] == Waiting(t)
    requires s.nodes[n].internalC != [] && s.nodes[n].internalC[0].term < t
    ensures Follow(s, n, tid, [Take]) ==
            s.(nodes := s.nodes[n := s.nodes[n].(internalC := s.nodes[n].internalC[1..])])
  {
    GoroutineRuns(s, n, tid, [Take]);
    TakeRuns(n, s.nodes[n], tid, t, s.msgs);
  }

  lemma RetryRuns(n: NodeId, nd: Node, tid: nat, t: nat, msgs: set<Msg>)
    requires tid in nd.threads && nd.threads[tid] == Waiting(t) && nd.internalC != []
    requires nd.internalC[0].Retry? && nd.internalC[0].term >= t
    ensures RestartsAt(n, nd, Play(n, Quiet(nd), tid, [Take, Go, Go, Go], msgs), t)
  {
    var rest := nd.(internalC := nd.internalC[1..]);
    var w := Put(rest, tid, Woken(t, nd.internalC[0]));
    TakeRuns(n, nd, tid, t, msgs);
    PlayOn(n, nd, tid, [Take], Go, msgs, w);
    assert w.threads[tid := Resetting(t)] == nd.threads[tid := Resetting(t)];
    ResettingRuns(n, nd, tid, [Take] + [Go], msgs, Put(w, tid, Resetting(t)), t);
    assert [Take] + [Go] + [Go] + [Go] == [Take, Go, Go, Go];
  }

  /** A retry event of the current term restarts a waiting election. */
  lemma RetryHandled(s: Net, n: NodeId, tid: nat, t: nat)
    requires n in s.nodes && tid in s.nodes[n].threads && s.nodes[n].threads[tid] == Waiting(t)
    requires s.nodes[n].internalC != [] && s.nodes[n].internalC[0].Retry? && s.nodes[n].internalC[0].term >= t
    ensures Restarts(s, Follow(s, n, tid, [Take, Go, Go, Go]), n, t)
  {
    GoroutineRuns(s, n, tid, [Take, Go, Go, Go]);
    RetryRuns(n, s.nodes[n], tid, t, s.msgs);
    MergeRestarts(s, n, Play(n, Quiet(s.nodes[n]), tid, [Take, Go, Go, Go], s.msgs), t);
  }

  /** A coordinator event was taken and the leader read. */
  lemma CheckingRuns(n: NodeId, nd: Node, tid: nat, t: nat, msgs: set<Msg>)
    requires tid in nd.threads && nd.threads[tid] == Waiting(t) && nd.internalC != []
    requires nd.internalC[0].Coordinator? && t <= nd.internalC[0].term
    ensures Play(n, Quiet(nd), tid, [Take] + [Go], msgs) ==
            Quiet(nd.(internalC := nd.internalC[1..],
                      threads := nd.threads[tid := Checking(t, nd.internalC[0].term, nd.st.leader)]))
  {
    var ev, rest := nd.internalC[0], nd.(internalC := nd.internalC[1..]);
    var w, c := Put(rest, tid, Woken(t, ev)), Put(rest, tid, Checking(t, ev.term, nd.st.leader));
    TakeRuns(n, nd, tid, t, msgs);
    PlayOn(n, nd, tid, [Take], Go, msgs, w);
    assert w.threads[tid := c.threads[tid]] == c.threads;
  }

  lemma CheckRuns(n: NodeId, c: Node, tid: nat, t: nat, u: nat, leader: nat, msgs: set<Msg>)
    requires tid in c.threads && c.threads[tid] == Checking(t, u, leader) && u <= c.st.term
    ensures RunThread(n, c, tid, Go, msgs) == Quiet(if leader == 0 then Put(c, tid, Resetting(t)) else End(c, tid))
  {
  }

  lemma CoordinatorRuns(n: NodeId, nd: Node, tid: nat, t: nat, msgs: set<Msg>)
    requires tid in nd.threads && nd.threads[tid] == Waiting(t) && nd.internalC != []
    requires nd.internalC[0].Coordinator? && t <= nd.internalC[0].term <= nd.st.term
    ensures nd.st.leader != 0 ==>
              Play(n, Quiet(nd), tid, [Take, Go, Go], msgs) ==
              Quiet(nd.(threads := nd.threads - {tid}, internalC := nd.internalC[1..]))
    ensures nd.st.leader == 0 ==> RestartsAt(n, nd, Play(n, Quiet(nd), tid, [Take, Go, Go, Go, Go], msgs), t)
  {
    var c := nd.(internalC := nd.internalC[1..],
                 threads := nd.threads[tid := Checking(t, nd.internalC[0].term, nd.st.leader)]);
    CheckingRuns(n, nd, tid, t, msgs);
    PlayOn(n, nd, tid, [Take] + [Go], Go, msgs, c);
    CheckRuns(n, c, tid, t, nd.internalC[0].term, nd.st.leader, msgs);
    if nd.st.leader != 0 {
      assert [Take] + [Go] + [Go] == [Take, Go, Go];
      assert c.threads - {tid} == nd.threads - {tid};
    } else {
      ResettingRuns(n, nd, tid, [Take] + [Go] + [Go], msgs, Put(c, tid, Resetting(t)), t);
      assert [Take] + [Go] + [Go] + [Go] + [Go] == [Take, Go, Go, Go, Go];
    }
  }

  lemma EventIsNotAhead(s: Net, n: NodeId)
    requires Reachable(s) && n in s.nodes && s.nodes[n].internalC != []
    ensures s.nodes[n].internalC[0].term <= s.nodes[n].st.term
  {
    ReachableIsOk(s);
    assert NodeOk(n, s.nodes[n], s.begun, s.declared) && s.nodes[n].internalC[0] in s.nodes[n].internalC;
  }

  lemma LostCoordinatorHandled(s: Net, n: NodeId, tid: nat, t: nat)
    requires n in s.nodes && tid in s.nodes[n].threads && s.nodes[n].threads[tid] == Waiting(t)
    requires var nd := s.nodes[n];
             && nd.internalC != [] && nd.internalC[0].Coordinator? && t <= nd.internalC[0].term <= nd.st.term
             && nd.st.leader == 0
    ensures Restarts(s, Follow(s, n, tid, [Take, Go, Go, Go, Go]), n, t)
  {
    GoroutineRuns(s, n, tid, [Take, Go, Go, Go, Go]);
    CoordinatorRuns(n, s.nodes[n], tid, t, s.msgs);
    MergeRestarts(s, n, Play(n, Quiet(s.nodes[n]), tid, [Take, Go, Go, Go, Go], s.msgs), t);
  }

  /**
    A coordinator event of the current term ends a waiting election iff a leader is recorded, without touching the
    state; if the leader is gone again it restarts.
   */
  lemma CoordinatorHandled(s: Net, n: NodeId, tid: nat, t: nat)
    requires Reachable(s) && n in s.nodes && tid in s.nodes[n].threads && s.nodes[n].threads[tid] == Waiting(t)
    requires s.nodes[n].internalC != [] && s.nodes[n].internalC[0].Coordinator? && s.nodes[n].internalC[0].term >= t
    ensures var nd := s.nodes[n];
            if nd.st.leader != 0 then
              Follow(s, n, tid, [Take, Go, Go]) ==
              s.(nodes := s.nodes[n := nd.(threads := nd.threads - {tid}, internalC := nd.internalC[1..])])
            else Restarts(s, Follow(s, n, tid, [Take, Go, Go, Go, Go]), n, t)
  {
    var nd := s.nodes[n];
    EventIsNotAhead(s, n);
    if nd.st.leader != 0 {
      GoroutineRuns(s, n, tid, [Take, Go, Go]);
      CoordinatorRuns(n, nd, tid, t, s.msgs);
    } else {
      LostCoordinatorHandled(s, n, tid, t);
    }
  }

  // ---- an election without answers --------------------------------------------------------

  lemma SendingRuns(n: NodeId, nd: Node, tid: nat, t: nat, k: NodeId, msgs: set<Msg>)
    requires tid in nd.threads && nd.threads[tid] == Begun(t)
    ensures var d := Put(nd, tid, Sending(t));
            Play(n, Quiet(nd), tid, [Go, SendTo(k)], msgs) ==
            Effect(d, if k > n then {Request(n, nd.inc, k, t)} else {}, [], {})
  {
    PlayOne(n, nd, tid, Go, msgs);
    PlayOn(n, nd, tid, [Go], SendTo(k), msgs, Put(nd, tid, Sending(t)));
    assert [Go] + [SendTo(k)] == [Go, SendTo(k)];
  }

  /** An election that finds higher members sends its term to them, and to no one else. */
  lemma RequestIsSent(s: Net, n: NodeId, tid: nat, t: nat, k: NodeId)
    requires n in s.nodes && tid in s.nodes[n].threads && s.nodes[n].threads[tid] == Begun(t)
    ensures var e := Follow(s, n, tid, [Go, SendTo(k)]);
            && n in e.nodes && e.nodes[n].inc == s.nodes[n].inc && e.nodes[n].st == s.nodes[n].st
            && e.begun == s.begun && e.declared == s.declared
            && e.msgs == s.msgs + if k > n then {Request(n, s.nodes[n].inc, k, t)} else {}
  {
    GoroutineRuns(s, n, tid, [Go, SendTo(k)]);
    SendingRuns(n, s.nodes[n], tid, t, k, s.msgs);
  }

  /** How an election ends that sees no higher member, or hears from none in time. */
  predicate Unopposed(th: Thread, c: Choice, t: nat) {
    (th == Begun(t) && c == NoHigher) || (th == Sending(t) && c == GiveUp)
  }

  lemma UnopposedRuns(n: NodeId, nd: Node, tid: nat, t: nat, c: Choice, msgs: set<Msg>)
    requires tid in nd.threads && Unopposed(nd.threads[tid], c, t)
    ensures RunThread(n, nd, tid, c, msgs) == Quiet(Put(nd, tid, Declaring(t)))
  {
  }

  lemma DeclareRuns(n: NodeId, d: Node, tid: nat, t: nat, msgs: set<Msg>)
    requires tid in d.threads && d.threads[tid] == Declaring(t) && d.st.term == t && d.st.leader <= n
    ensures RunThread(n, d, tid, Go, msgs) ==
            Effect(d.(st := Local(t, n, HasLeader), threads := d.threads[tid := Announcing(t)]),
                   {}, [], {Mint(n, d.inc, t)})
  {
  }

  lemma AnnounceRuns(n: NodeId, a: Node, tid: nat, t: nat, k: NodeId, msgs: set<Msg>)
    requires tid in a.threads && a.threads[tid] == Announcing(t)
    ensures RunThread(n, a, tid, SendTo(k), msgs) == Effect(a, {Announce(n, a.inc, k, t)}, [], {})
  {
  }

  lemma DeclarationRuns(n: NodeId, nd: Node, tid: nat, t: nat, c: Choice, k: NodeId, msgs: set<Msg>)
    requires tid in nd.threads && Unopposed(nd.threads[tid], c, t) && nd.st.term == t && nd.st.leader <= n
    ensures var f := Play(n, Quiet(nd), tid, [c, Go, SendTo(k)], msgs);
            && f.node.inc == nd.inc && f.node.st == Local(t, n, HasLeader) && f.begun == []
            && f.declared == {Mint(n, nd.inc, t)} && f.sent == {Announce(n, nd.inc, k, t)}
  {
    var d := Put(nd, tid, Declaring(t));
    var a := d.(st := Local(t, n, HasLeader), threads := d.threads[tid := Announcing(t)]);
    UnopposedRuns(n, nd, tid, t, c, msgs);
    PlayOne(n, nd, tid, c, msgs);
    PlayOn(n, nd, tid, [c], Go, msgs, d);
    DeclareRuns(n, d, tid, t, msgs);
    PlaySnoc(n, Quiet(nd), tid, [c] + [Go], SendTo(k), msgs);
    AnnounceRuns(n, a, tid, t, k, msgs + {});
    assert [c] + [Go] + [SendTo(k)] == [c, Go, SendTo(k)];
  }

  /**
    An election that sees no higher member, or hears from none in time, makes its node leader of its term and
    announces that to whoever is a member, as long as the term was not passed and no higher node leads it.
   */
  lemma UnopposedElectionDeclares(s: Net, n: NodeId, tid: nat, t: nat, c: Choice, k: NodeId)
    requires n in s.nodes && tid in s.nodes[n].threads && Unopposed(s.nodes[n].threads[tid], c, t)
    requires s.nodes[n].st.term == t && s.nodes[n].st.leader <= n
    ensures var e := Follow(s, n, tid, [c, Go, SendTo(k)]);
            && n in e.nodes && e.nodes[n].st == Local(t, n, HasLeader) && e.begun == s.begun
            && e.declared == s.declared + {Mint(n, s.nodes[n].inc, t)}
            && e.msgs == s.msgs + {Announce(n, s.nodes[n].inc, k, t)}
  {
    GoroutineRuns(s, n, tid, [c, Go, SendTo(k)]);
    DeclarationRuns(n, s.nodes[n], tid, t, c, k, s.msgs);
  }
}
