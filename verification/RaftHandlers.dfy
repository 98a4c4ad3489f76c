/** Every handler of a node, run inside a cluster, is a composition of elementary
    transitions: each event of a run keeps the invariant and only extends the history. */
module RaftHandlers {
  import opened RaftNode
  import opened RaftCluster
  import opened RaftHistory
  import opened RaftGrowth
  import opened RaftSteps
  import opened RaftLeading

  // ----- the invariant, folded -----

  ghost predicate Asked(c: Cluster, h: History, z: nat) {
    true
  }

  /** `Inv`, with its definition in view only where a proof calls `Unfold` or `Fold`. */
  ghost predicate Sound(c: Cluster, h: History) {
    forall z: nat | Asked(c, h, z) :: Inv(c, h)
  }

  lemma Unfold(c: Cluster, h: History)
    requires Sound(c, h)
    ensures Inv(c, h)
  {
    assert Asked(c, h, 0);
  }

  lemma Fold(c: Cluster, h: History)
    requires Inv(c, h)
    ensures Sound(c, h)
  {
  }

  // ----- giving up a role, timers, restart -----

  ghost predicate SameFrame(a: Node, b: Node) {
    && b.id == a.id && b.lim == a.lim && b.members == a.members && b.baseMembers == a.baseMembers
    && b.base == a.base && |b.next| == |a.next| && |b.match_| == |a.match_|
    && b.log == a.log && b.applied == a.applied && b.readEpoch == a.readEpoch
  }

  ghost predicate SameLead(a: Node, b: Node) {
    && b.role == a.role && b.term == a.term && b.votes == a.votes && b.commit == a.commit
    && b.next == a.next && b.match_ == a.match_ && b.readGate == a.readGate
    && b.readBarrier == a.readBarrier && b.readAcks == a.readAcks && b.readConfirmed == a.readConfirmed
  }

  /** b is a with other timers, or a as a follower of the same or a later term, or a restarted. */
  ghost predicate Relaxed(a: Node, b: Node) {
    && SameFrame(a, b)
    && a.term <= b.term && b.votedFor == (if b.term == a.term then a.votedFor else -1)
    && (SameLead(a, b) || (b.role == Follower && b.readBarrier < 0 && b.readConfirmed < 0))
    && ((b.commit == a.commit && b.lastApplied == a.lastApplied) || (b.commit == 0 && b.lastApplied == 0))
  }

  lemma RelaxedNode(ns: seq<Node>, h: History, v: nat, b: Node)
    requires v < |ns| && Votes(ns, h) && NodeOk(h, ns[v], v, |ns|) && Relaxed(ns[v], b)
    ensures NodeOk(h, b, v, |ns|)
  {
    assert b.term > ns[v].term ==> (v, b.term) !in h.votes;
  }

  lemma KeepRelax(c: Cluster, h: History, v: nat, b: Node)
    requires Sound(c, h) && v < |c.nodes| && Relaxed(c.nodes[v], b)
    ensures Sound(Put(c, v, b), h)
  {
    Unfold(c, h);
    assert NodeOk(h, c.nodes[v], v, |c.nodes|);
    RelaxedNode(c.nodes, h, v, b);
    ExtendsSelf(h);
    if h.safe { MachineRelaxed(h, c.nodes[v], b); }
    KeepNode(c, h, v, b);
    Fold(Put(c, v, b), h);
  }

  lemma MachineRelaxed(h: History, a: Node, b: Node)
    requires MachineOk(h, a) && Relaxed(a, b)
    ensures MachineOk(h, b)
  {
    ExtendsSelf(h);
    if b.commit == a.commit { SettledLogStable(h, h, a.log, b.log, a.term, b.term, a.commit); }
  }

  // ----- broadcasts -----

  lemma AppendMsgOk(ns: seq<Node>, h: History, v: nat, p: nat)
    requires v < |ns| && p < |ns| && p != v && NodeOk(h, ns[v], v, |ns|) && ns[v].role == Leader
    ensures MsgOk(ns, h, AppendMsg(ns[v], p)) && AppendMsg(ns[v], p).AppendEntries?
  {
    var r, m := ns[v], AppendMsg(ns[v], p);
    var k := |m.entries|;
    assert m.entries == r.log[m.prevIndex + 1..m.prevIndex + 1 + k];
  }

  lemma LeaderCommitSettled(c: Cluster, h: History, v: nat)
    requires v < |c.nodes| && Machines(c, h)
    ensures Settled(h, c.nodes[v].term, c.nodes[v].commit)
  {
    assert MachineOk(h, c.nodes[v]);
  }

  lemma SoundSend(c: Cluster, h: History, m: Msg)
    requires Sound(c, h) && |h.counted| == |c.nodes| && MsgOk(c.nodes, h, m) && FreshToken(c, h, TokenOf(m))
    requires m.AppendEntries? && h.safe ==> Settled(h, m.term, m.leaderCommit)
    ensures Sound(Send(c, [m]), h)
  {
    Unfold(c, h);
    KeepSend(c, h, m);
    Fold(Send(c, [m]), h);
  }

  lemma KeepAppendMsg(c: Cluster, h: History, v: nat, p: nat)
    requires Sound(c, h) && v < |c.nodes| && c.nodes[v].role == Leader && p != v && p < |c.nodes|
    ensures Sound(Send(c, [AppendMsg(c.nodes[v], p)]), h)
  {
    NodeOf(c, h, v);
    AppendMsgOk(c.nodes, h, v, p);
    AppendSettled(c, h, v);
    SoundSend(c, h, AppendMsg(c.nodes[v], p));
  }

  lemma AppendSettled(c: Cluster, h: History, v: nat)
    requires Sound(c, h) && v < |c.nodes|
    ensures h.safe ==> Settled(h, c.nodes[v].term, c.nodes[v].commit)
  {
    Unfold(c, h);
    if h.safe { LeaderCommitSettled(c, h, v); }
  }

  lemma SendJoin(c: Cluster, a: seq<Msg>, b: seq<Msg>)
    ensures Send(Send(c, a), b) == Send(c, a + b) && Send(c, []) == c && [] + b == b
  {
    assert c.sent + a + b == c.sent + (a + b);
  }

  lemma BroadcastJoin(c: Cluster, r: Node, i: nat)
    requires i < r.lim.maxNodes
    ensures Send(c, Broadcast(r, i)) ==
            Send(if i != r.id && i in r.members then Send(c, [AppendMsg(r, i)]) else c, Broadcast(r, i + 1))
  {
    SendJoin(c, [AppendMsg(r, i)], Broadcast(r, i + 1));
    SendJoin(c, [], Broadcast(r, i + 1));
  }

  lemma {:induction false} KeepBroadcast(c: Cluster, h: History, v: nat, i: nat)
    requires Sound(c, h) && v < |c.nodes| && c.nodes[v].role == Leader
    ensures Sound(Send(c, Broadcast(c.nodes[v], i)), h)
    decreases c.nodes[v].lim.maxNodes - i
  {
    var r := c.nodes[v];
    NodeOf(c, h, v);
    if i >= r.lim.maxNodes {
      SendJoin(c, [], []);
    } else if i != r.id && i in r.members {
      KeepAppendMsg(c, h, v, i);
      KeepBroadcast(Send(c, [AppendMsg(r, i)]), h, v, i + 1);
      BroadcastJoin(c, r, i);
    } else {
      KeepBroadcast(c, h, v, i + 1);
      BroadcastJoin(c, r, i);
    }
  }

  lemma NodeOf(c: Cluster, h: History, v: nat)
    requires Sound(c, h) && v < |c.nodes|
    ensures |h.counted| == |c.nodes| && NodeOk(h, c.nodes[v], v, |c.nodes|)
  {
    Unfold(c, h);
  }

  /** Ballots of v's current term have gone out to peers below i only. */
  ghost predicate AskedBelow(c: Cluster, v: nat, i: nat)
    requires v < |c.nodes|
  {
    forall x: nat | InFlight(c, x) && TokenOf(c.sent[x]).Token? && TokenOf(c.sent[x]).cand == v
                  && TokenOf(c.sent[x]).term == c.nodes[v].term :: TokenOf(c.sent[x]).voter < i
  }

  /** The vote request become_candidate sends to peer p. */
  function RequestTo(r: Node, p: nat): Msg {
    RequestVote(r.id, p, r.term, LastIndex(r), LastTerm(r))
  }

  lemma KeepRequest(c: Cluster, h: History, v: nat, p: nat)
    requires Sound(c, h) && v < |c.nodes| && c.nodes[v].role == Candidate && v < |h.counted| && h.counted[v] == {v}
             && AskedBelow(c, v, p)
    requires p != v && p < |c.nodes|
    ensures Sound(Send(c, [RequestTo(c.nodes[v], p)]), h)
  {
    Unfold(c, h);
    var r, m := c.nodes[v], RequestTo(c.nodes[v], p);
    assert NodeOk(h, r, v, |c.nodes|);
    assert PollOk(c, h, v);
    assert MsgOk(c.nodes, h, m);
    KeepSend(c, h, m);
    Fold(Send(c, [m]), h);
  }

  lemma AskedNext(c: Cluster, v: nat, p: nat)
    requires v < |c.nodes| && AskedBelow(c, v, p)
    ensures AskedBelow(Send(c, [RequestTo(c.nodes[v], p)]), v, p + 1)
  {
    var d := Send(c, [RequestTo(c.nodes[v], p)]);
    assert forall x: nat | InFlight(d, x) :: x == |c.sent| || (InFlight(c, x) && d.sent[x] == c.sent[x]);
  }

  lemma {:induction false} KeepRequests(c: Cluster, h: History, v: nat, i: nat)
    requires Sound(c, h) && v < |c.nodes| && c.nodes[v].role == Candidate && v < |h.counted| && h.counted[v] == {v}
             && AskedBelow(c, v, i)
    ensures Sound(Send(c, VoteRequests(c.nodes[v], i)), h)
    decreases c.nodes[v].lim.maxNodes - i
  {
    var r := c.nodes[v];
    NodeOf(c, h, v);
    if i >= r.lim.maxNodes {
      SendJoin(c, [], []);
    } else if i != r.id && i in r.members {
      KeepRequest(c, h, v, i);
      AskedNext(c, v, i);
      KeepRequests(Send(c, [RequestTo(r, i)]), h, v, i + 1);
      SendJoin(c, [RequestTo(r, i)], VoteRequests(r, i + 1));
    } else {
      KeepRequests(c, h, v, i + 1);
      SendJoin(c, [], VoteRequests(r, i + 1));
    }
  }

  // ----- commit advance, leadership -----

  lemma {:induction false} FindCommitOk(r: Node, i: int)
    ensures FindCommit(r, i) > r.commit ==> FindCommit(r, i) <= i && Committable(r, FindCommit(r, i))
    decreases i - r.commit
  {
    if i > r.commit && !Committable(r, i) { FindCommitOk(r, i - 1); }
  }

  lemma AdvanceFacts(r: Node, v: nat, n: nat)
    requires NodeShape(r, v, n) && r.role == Leader && v < n
    ensures var i := FindCommit(r, LastIndex(r)); i > r.commit ==> i > 0 && CanCommit(r, i)
    ensures var a := AdvanceCommit(r); a == r.(commit := a.commit, pendingConfig := a.pendingConfig,
                                               lastApplied := a.lastApplied, applied := a.applied)
  {
    var i := FindCommit(r, LastIndex(r));
    FindCommitOk(r, LastIndex(r));
    ApplyFrame(r.(commit := i, pendingConfig := if 0 <= r.pendingConfig <= i then -1 else r.pendingConfig));
  }

  function Advanced(h: History, r: Node): History
    requires FindCommit(r, LastIndex(r)) > r.commit ==> FindCommit(r, LastIndex(r)) > 0
  {
    var i := FindCommit(r, LastIndex(r));
    if i > r.commit then CommitRecorded(h, r, i) else h
  }

  lemma KeepAdvance(c: Cluster, h: History, v: nat) returns (k: History)
    requires Sound(c, h) && v < |c.nodes| && c.nodes[v].role == Leader
    ensures Sound(Put(c, v, AdvanceCommit(c.nodes[v])), k) && Adds(h, k)
  {
    NodeOf(c, h, v);
    AdvanceFacts(c.nodes[v], v, |c.nodes|);
    k := Advanced(h, c.nodes[v]);
    if FindCommit(c.nodes[v], LastIndex(c.nodes[v])) > c.nodes[v].commit {
      SoundCommit(c, h, v, FindCommit(c.nodes[v], LastIndex(c.nodes[v])));
    } else {
      ExtendsSelf(h);
      PutTwice(c, v, c.nodes[v], c.nodes[v]);
    }
  }

  lemma SoundCommit(c: Cluster, h: History, v: nat, n: nat)
    requires Sound(c, h) && v < |c.nodes| && 0 < n && CanCommit(c.nodes[v], n)
    ensures Sound(Put(c, v, CommitTo(c.nodes[v], n)), CommitRecorded(h, c.nodes[v], n))
    ensures Extends(h, CommitRecorded(h, c.nodes[v], n))
  {
    Unfold(c, h);
    KeepCommit(c, h, v, n);
    Fold(Put(c, v, CommitTo(c.nodes[v], n)), CommitRecorded(h, c.nodes[v], n));
  }

  lemma SoundWin(c: Cluster, h: History, v: nat) returns (k: History)
    requires Sound(c, h) && v < |c.nodes| && c.nodes[v].role == Candidate && c.nodes[v].votes >= |c.nodes| / 2 + 1
    ensures Sound(Put(c, v, TakeLead(c.nodes[v])), k) && Adds(h, k)
  {
    Unfold(c, h);
    KeepWin(c, h, v);
    k := Won(h, v, c.nodes[v]);
    Fold(Put(c, v, TakeLead(c.nodes[v])), k);
  }

  lemma PutTwice(c: Cluster, v: nat, a: Node, b: Node)
    requires v < |c.nodes|
    ensures Put(Put(c, v, a), v, b) == Put(c, v, b) && Put(c, v, c.nodes[v]) == c
  {
  }

  /** A leader resets its heartbeat timer and sends to everyone. */
  lemma KeepHeartbeat(c: Cluster, h: History, v: nat, b: Node)
    requires Sound(c, h) && v < |c.nodes| && c.nodes[v].role == Leader && b == c.nodes[v].(heartbeatElapsed := 0)
    ensures Sound(Send(Put(c, v, b), Broadcast(b, 0)), h)
  {
    KeepRelax(c, h, v, b);
    KeepBroadcast(Put(c, v, b), h, v, 0);
  }

  lemma KeepFirstBeat(c: Cluster, h: History, v: nat, b: Node) returns (k: History)
    requires Sound(c, h) && v < |c.nodes| && c.nodes[v].role == Leader
    requires b == AdvanceCommit(c.nodes[v]).(heartbeatElapsed := 0)
    ensures Sound(Send(Put(c, v, b), Broadcast(b, 0)), k) && Adds(h, k)
  {
    NodeOf(c, h, v);
    AdvanceFacts(c.nodes[v], v, |c.nodes|);
    k := KeepAdvance(c, h, v);
    var a := AdvanceCommit(c.nodes[v]);
    KeepHeartbeat(Put(c, v, a), k, v, b);
    PutTwice(c, v, a, b);
  }

  lemma KeepBecomeLeader(c: Cluster, h: History, v: nat, b: Node, out: seq<Msg>) returns (k: History)
    requires Sound(c, h) && v < |c.nodes| && c.nodes[v].role == Candidate && c.nodes[v].votes >= Majority(c.nodes[v])
    requires (b, out) == BecomeLeader(c.nodes[v])
    ensures Sound(Send(Put(c, v, b), out), k) && Adds(h, k)
  {
    NodeOf(c, h, v);
    var h' := SoundWin(c, h, v);
    var a := TakeLead(c.nodes[v]);
    k := KeepFirstBeat(Put(c, v, a), h', v, b);
    PutTwice(c, v, a, b);
    ExtendsTrans(h, h', k);
  }

  lemma ExtendsTrans(h: History, i: History, k: History)
    requires Extends(h, i) && Extends(i, k)
    ensures Extends(h, k)
  {
    forall t | t in h.reigns
      ensures t in k.reigns && k.reigns[t].leader == h.reigns[t].leader && k.reigns[t].quorum == h.reigns[t].quorum
              && h.reigns[t].log <= k.reigns[t].log
              && forall j | |h.reigns[t].log| <= j < |k.reigns[t].log| :: k.reigns[t].log[j].term == t
    {
      assert h.reigns[t].log <= i.reigns[t].log <= k.reigns[t].log;
    }
  }
}
