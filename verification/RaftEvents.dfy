/** Each event of a run keeps the invariant. */
module RaftEvents {
  import opened RaftNode
  import opened RaftCluster
  import opened RaftHistory
  import opened RaftGrowth
  import opened RaftSteps
  import opened RaftLeading
  import opened RaftFollowing
  import opened RaftReading
  import opened RaftHandlers
  import opened RaftBatch

  lemma MsgOf(c: Cluster, h: History, x: nat)
    requires Sound(c, h) && x < |c.sent|
    ensures MsgOk(c.nodes, h, c.sent[x])
  {
    Unfold(c, h);
  }

  lemma SoundGone(c: Cluster, h: History, x: nat)
    requires Sound(c, h)
    ensures Sound(Gone(c, x), h)
  {
    Unfold(c, h);
    KeepGone(c, h, x);
    Fold(Gone(c, x), h);
  }

  /** A message of this node that claims nothing. */
  ghost predicate Neutral(m: Msg) {
    (m.RequestVoteReply? && !m.granted) || (m.AppendEntriesReply? && !m.success)
  }

  lemma SoundNeutral(c: Cluster, h: History, m: Msg)
    requires Sound(c, h) && Neutral(m) && m.from < |c.nodes| && m.to < |c.nodes| && m.from != m.to
    requires m.term <= c.nodes[m.from].term && (m.AppendEntriesReply? ==> m.readEpoch <= c.nodes[m.to].readEpoch)
    ensures Sound(Send(c, [m]), h)
  {
    NodeOf(c, h, m.from);
    SoundSend(c, h, m);
  }

  // ----- RequestVote -----

  /** Once a ballot token is taken off the network nothing else stands for it. */
  lemma TokenSpent(c: Cluster, h: History, x: nat)
    requires Sound(c, h) && InFlight(c, x) && |h.counted| == |c.nodes| && c.sent[x].RequestVote?
    ensures FreshToken(Gone(c, x), h, TokenOf(c.sent[x]))
  {
    Unfold(c, h);
    var t, d := TokenOf(c.sent[x]), Gone(c, x);
    assert MsgOk(c.nodes, h, c.sent[x]);
    assert PollOk(c, h, t.cand);
    assert forall y: nat | InFlight(d, y) :: InFlight(c, y) && y != x;
  }

  lemma FreshTokenPut(c: Cluster, h: History, k: History, t: Token, v: nat, b: Node)
    requires |h.counted| == |c.nodes| && v < |c.nodes| && FreshToken(c, h, t) && k.counted == h.counted
    requires t.Token? ==> t.cand != v
    ensures FreshToken(Put(c, v, b), k, t)
  {
    assert forall y: nat | InFlight(Put(c, v, b), y) :: InFlight(c, y);
  }

  lemma SoundGrant(c: Cluster, h: History, v: nat, m: Msg, b: Node) returns (k: History)
    requires Sound(c, h) && v < |c.nodes| && MsgOk(c.nodes, h, m) && m.RequestVote? && m.to == v
    requires m.term == c.nodes[v].term && (c.nodes[v].votedFor == -1 || c.nodes[v].votedFor == m.from)
    requires UpToDate(c.nodes[v], m.lastIndex, m.lastTerm)
    requires b == c.nodes[v].(votedFor := m.from, electionElapsed := 0)
    ensures Sound(Put(c, v, b), k) && Adds(h, k) && k.counted == h.counted
    ensures (v, m.term) in k.votes && k.votes[(v, m.term)].cand == m.from
  {
    Unfold(c, h);
    KeepGrant(c, h, v, m, b);
    k := Granted(h, c.nodes[v], m.from);
    Fold(Put(c, v, b), k);
  }

  lemma OnGrant(c: Cluster, h: History, v: nat, m: Msg, b: Node) returns (k: History)
    requires Sound(c, h) && |h.counted| == |c.nodes| && v < |c.nodes| && MsgOk(c.nodes, h, m) && m.RequestVote?
             && m.to == v
    requires m.term == c.nodes[v].term && (c.nodes[v].votedFor == -1 || c.nodes[v].votedFor == m.from)
    requires UpToDate(c.nodes[v], m.lastIndex, m.lastTerm) && FreshToken(c, h, TokenOf(m))
    requires b == c.nodes[v].(votedFor := m.from, electionElapsed := 0)
    ensures Sound(Send(Put(c, v, b), [RequestVoteReply(v, m.from, m.term, true)]), k) && Adds(h, k)
  {
    k := SoundGrant(c, h, v, m, b);
    FreshTokenPut(c, h, k, TokenOf(m), v, b);
    SoundSend(Put(c, v, b), k, RequestVoteReply(v, m.from, m.term, true));
  }

  lemma SoundStepDown(c: Cluster, h: History, v: nat, t: nat)
    requires Sound(c, h) && v < |c.nodes|
    ensures Sound(Put(c, v, StepDownIfHigher(c.nodes[v], t)), h)
  {
    if t > c.nodes[v].term {
      KeepRelax(c, h, v, BecomeFollower(c.nodes[v], t));
    } else {
      PutTwice(c, v, c.nodes[v], c.nodes[v]);
    }
  }

  lemma MsgAfter(c: Cluster, h: History, v: nat, b: Node, m: Msg)
    requires v < |c.nodes| && MsgOk(c.nodes, h, m) && NodeGrown(c.nodes[v], b)
    ensures MsgOk(c.nodes[v := b], h, m)
  {
    ExtendsSelf(h);
    MsgStable(c.nodes, h, c.nodes[v := b], h, m);
  }

  /** The vote request m reaches v, already in the term of the decision. */
  lemma DecideVote(c: Cluster, h: History, v: nat, m: Msg) returns (k: History)
    requires Sound(c, h) && |h.counted| == |c.nodes| && v < |c.nodes| && MsgOk(c.nodes, h, m) && m.RequestVote?
             && m.to == v
    requires m.term <= c.nodes[v].term && FreshToken(c, h, TokenOf(m)) && c.nodes[v].id == v
    ensures var (b, reply) := HandleRequestVote(c.nodes[v], m); Sound(Send(Put(c, v, b), [reply]), k) && Adds(h, k)
  {
    var a := c.nodes[v];
    if m.term == a.term && (a.votedFor == -1 || a.votedFor == m.from) && UpToDate(a, m.lastIndex, m.lastTerm) {
      k := OnGrant(c, h, v, m, a.(votedFor := m.from, electionElapsed := 0));
    } else {
      k := h;
      ExtendsSelf(h);
      PutTwice(c, v, a, a);
      SoundNeutral(c, h, RequestVoteReply(v, m.from, a.term, false));
    }
  }

  lemma HigherTermFirst(r: Node, m: Msg)
    ensures var a := StepDownIfHigher(r, m.term); m.term <= a.term && StepDownIfHigher(a, m.term) == a
    ensures m.RequestVote? ==> HandleRequestVote(StepDownIfHigher(r, m.term), m) == HandleRequestVote(r, m)
    ensures m.AppendEntries? ==> HandleAppendEntries(StepDownIfHigher(r, m.term), m) == HandleAppendEntries(r, m)
  {
  }

  lemma OnRequestVote(c: Cluster, h: History, x: nat) returns (k: History)
    requires Sound(c, h) && InFlight(c, x) && c.sent[x].RequestVote? && c.sent[x].to < |c.nodes|
    ensures Sound(Step(c, Deliver(x)), k) && Adds(h, k)
  {
    var m := c.sent[x];
    var v := m.to;
    var r := c.nodes[v];
    var a := StepDownIfHigher(r, m.term);
    NodeOf(c, h, v);
    MsgOf(c, h, x);
    TokenSpent(c, h, x);
    SoundGone(c, h, x);
    SoundStepDown(Gone(c, x), h, v, m.term);
    FreshTokenPut(Gone(c, x), h, h, TokenOf(m), v, a);
    MsgAfter(c, h, v, a, m);
    HigherTermFirst(r, m);
    k := DecideVote(Put(Gone(c, x), v, a), h, v, m);
    PutTwice(Gone(c, x), v, a, HandleRequestVote(r, m).0);
  }

  // ----- RequestVoteReply -----

  lemma SoundCount(c: Cluster, h: History, x: nat, b: Node) returns (k: History)
    requires Sound(c, h) && InFlight(c, x) && c.sent[x].RequestVoteReply? && c.sent[x].granted
             && c.sent[x].to < |c.nodes|
    requires c.nodes[c.sent[x].to].role == Candidate && c.nodes[c.sent[x].to].term == c.sent[x].term
    requires b == c.nodes[c.sent[x].to].(votes := c.nodes[c.sent[x].to].votes + 1)
    ensures Sound(Put(Gone(c, x), c.sent[x].to, b), k) && Adds(h, k)
  {
    CountedFacts(c, h, x);
    k := Tallied(h, c.sent[x].to, c.sent[x].from);
    ExtendsSelf(h);
    SoundGone(c, h, x);
    SoundTally(Gone(c, x), h, c.sent[x].to, k, b);
  }

  lemma CountedFacts(c: Cluster, h: History, x: nat)
    requires Sound(c, h) && Counting(c, x)
    ensures c.sent[x].to < |h.counted|
    ensures var m := c.sent[x]; var v := m.to; var a := c.nodes[v];
            && |Tallied(h, v, m.from).counted| == |c.nodes| && (v, a.term) in h.votes
            && Polls(Put(Gone(c, x), v, a.(votes := a.votes + 1)), Tallied(h, v, m.from))
  {
    Unfold(c, h);
    CountFacts(c, h, x);
  }

  lemma SoundTally(c: Cluster, h: History, v: nat, k: History, b: Node)
    requires Sound(c, h) && v < |c.nodes| == |k.counted| && b == c.nodes[v].(votes := c.nodes[v].votes + 1)
    requires k == h.(counted := k.counted) && (v, b.term) in h.votes && Polls(Put(c, v, b), k)
    ensures Sound(Put(c, v, b), k)
  {
    Unfold(c, h);
    KeepTally(c, h, v, k, b);
    Fold(Put(c, v, b), k);
  }

  lemma OnRequestVoteReply(c: Cluster, h: History, x: nat) returns (k: History)
    requires Sound(c, h) && InFlight(c, x) && c.sent[x].RequestVoteReply? && c.sent[x].to < |c.nodes|
    ensures Sound(Step(c, Deliver(x)), k) && Adds(h, k)
  {
    var m := c.sent[x];
    var v := m.to;
    var r := c.nodes[v];
    if r.role == Candidate && m.term == r.term && m.granted {
      k := OnVoteCounted(c, h, x);
    } else {
      k := h;
      ExtendsSelf(h);
      SoundGone(c, h, x);
      SoundStepDown(Gone(c, x), h, v, m.term);
      SendJoin(Put(Gone(c, x), v, StepDownIfHigher(r, m.term)), [], []);
    }
  }

  lemma OnVoteCounted(c: Cluster, h: History, x: nat) returns (k: History)
    requires Sound(c, h) && InFlight(c, x) && c.sent[x].RequestVoteReply? && c.sent[x].granted
             && c.sent[x].to < |c.nodes|
    requires c.nodes[c.sent[x].to].role == Candidate && c.nodes[c.sent[x].to].term == c.sent[x].term
    ensures Sound(Step(c, Deliver(x)), k) && Adds(h, k)
  {
    var v := c.sent[x].to;
    var a := c.nodes[v].(votes := c.nodes[v].votes + 1);
    var h' := SoundCount(c, h, x, a);
    var d := Put(Gone(c, x), v, a);
    CountStep(c, x);
    if a.votes >= Majority(a) {
      var (b, out) := BecomeLeader(a);
      k := KeepBecomeLeader(d, h', v, b, out);
      ExtendsTrans(h, h', k);
    } else {
      k := h';
    }
  }

  lemma CountStep(c: Cluster, x: nat)
    requires InFlight(c, x) && c.sent[x].RequestVoteReply? && c.sent[x].granted && c.sent[x].to < |c.nodes|
    requires c.nodes[c.sent[x].to].role == Candidate && c.nodes[c.sent[x].to].term == c.sent[x].term
    ensures var v := c.sent[x].to; var a := c.nodes[v].(votes := c.nodes[v].votes + 1); var d := Put(Gone(c, x), v, a);
            Step(c, Deliver(x)) ==
            if a.votes >= Majority(a) then Send(Put(d, v, BecomeLeader(a).0), BecomeLeader(a).1) else d
  {
    var v := c.sent[x].to;
    var a := c.nodes[v].(votes := c.nodes[v].votes + 1);
    PutTwice(Gone(c, x), v, a, BecomeLeader(a).0);
    SendJoin(Put(Gone(c, x), v, a), [], []);
  }

  // ----- AppendEntries -----

  lemma SoundOverlay(c: Cluster, h: History, v: nat, b: Node, n: nat)
    requires Sound(c, h) && v < |c.nodes| && b == c.nodes[v].(log := b.log) && b.role == Follower && b.term in h.reigns
    requires Overlaid(c.nodes[v].log, b.log, h.reigns[b.term].log, n)
    ensures Sound(Put(c, v, b), Acknowledged(h, v, b.term, n)) && Extends(h, Acknowledged(h, v, b.term, n))
  {
    Unfold(c, h);
    KeepOverlay(c, h, v, b, n);
    Fold(Put(c, v, b), Acknowledged(h, v, b.term, n));
  }

  lemma SoundAcceptFacts(c: Cluster, h: History, v: nat, m: Msg)
    requires Sound(c, h) && v < |c.nodes| && m.AppendEntries? && SliceOk(h, m) && PrevMatches(c.nodes[v], m)
    ensures var b := AcceptEntries(c.nodes[v], m);
            b == c.nodes[v].(log := b.log)
            && Overlaid(c.nodes[v].log, b.log, h.reigns[m.term].log, m.prevIndex + |m.entries|)
  {
    Unfold(c, h);
    assert NodeOk(h, c.nodes[v], v, |c.nodes|);
    AcceptOverlays(c.nodes, h, v, m);
  }

  lemma SoundFollow(c: Cluster, h: History, v: nat, n: nat, leaderCommit: int)
    requires Sound(c, h) && v < |c.nodes| && c.nodes[v].role == Follower
    requires c.nodes[v].term in h.reigns && Agree(c.nodes[v].log, h.reigns[c.nodes[v].term].log, n)
    requires h.safe ==> StaysVerified(c.nodes[v], n, leaderCommit) && Settled(h, c.nodes[v].term, leaderCommit)
    ensures Sound(Put(c, v, FollowCommit(c.nodes[v], leaderCommit)), h)
  {
    Unfold(c, h);
    KeepFollow(c, h, v, n, leaderCommit);
    Fold(Put(c, v, FollowCommit(c.nodes[v], leaderCommit)), h);
  }

  lemma SentSettled(c: Cluster, h: History, x: nat)
    requires Sound(c, h) && x < |c.sent| && c.sent[x].AppendEntries?
    ensures h.safe ==> Settled(h, c.sent[x].term, c.sent[x].leaderCommit)
  {
    Unfold(c, h);
  }

  lemma SoundAckReply(c: Cluster, h: History, v: nat, m: Msg)
    requires Sound(c, h) && v < |c.nodes| && m.AppendEntries? && MsgOk(c.nodes, h, m) && m.to == v
    requires c.nodes[v].term == m.term && (v, m.term) in h.acked && m.prevIndex + |m.entries| <= h.acked[(v, m.term)]
    ensures Sound(Send(c, [AppendEntriesReply(v, m.from, m.term, true, m.prevIndex + |m.entries|, m.readEpoch)]), h)
  {
    var reply := AppendEntriesReply(v, m.from, m.term, true, m.prevIndex + |m.entries|, m.readEpoch);
    NodeOf(c, h, v);
    BarrierBefore(c, h, v, m.from, m.readEpoch);
    assert AckOk(c.nodes, h, reply);
    SoundSend(c, h, reply);
  }

  lemma BarrierBefore(c: Cluster, h: History, v: nat, reader: nat, e: nat)
    requires Sound(c, h) && v < |c.nodes|
    ensures (reader, e) in h.barriers ==>
              var b := h.barriers[(reader, e)]; v < |b.terms| && b.terms[v] <= c.nodes[v].term
  {
    Unfold(c, h);
    assert (reader, e) in h.barriers ==> BarrierOk(c.nodes, h, reader, e);
  }

  /** v, a follower in the term of m, takes its entries. */
  lemma OnAccept(c: Cluster, h: History, v: nat, x: nat) returns (k: History)
    requires Sound(c, h) && v < |c.nodes| && x < |c.sent| && c.sent[x].AppendEntries? && c.sent[x].to == v
    requires c.nodes[v].role == Follower && c.nodes[v].term == c.sent[x].term && PrevMatches(c.nodes[v], c.sent[x])
    requires h.safe ==> SafeDelivery(c.nodes[v], c.sent[x])
    ensures var m := c.sent[x]; var b := FollowCommit(AcceptEntries(c.nodes[v], m), m.leaderCommit);
            Sound(Send(Put(c, v, b), [AppendEntriesReply(v, m.from, m.term, true, m.prevIndex + |m.entries|,
                m.readEpoch)]), k)
    ensures Adds(h, k)
  {
    var m := c.sent[x];
    var n := m.prevIndex + |m.entries|;
    MsgOf(c, h, x);
    SoundAcceptFacts(c, h, v, m);
    var a := AcceptEntries(c.nodes[v], m);
    NodeOf(c, h, v);
    if h.safe { AcceptStays(c.nodes[v], m); }
    SoundOverlay(c, h, v, a, n);
    k := Acknowledged(h, v, m.term, n);
    OnAccepted(Put(c, v, a), k, v, x, n);
    PutTwice(c, v, a, FollowCommit(a, m.leaderCommit));
  }

  /** After the entries of a safe message the commit index may follow the leader's. */
  lemma AcceptStays(r: Node, m: Msg)
    requires m.AppendEntries? && r.base <= m.prevIndex && PrevMatches(r, m) && m.term == r.term && SafeDelivery(r, m)
    requires 0 <= m.prevIndex
    ensures StaysVerified(AcceptEntries(r, m), m.prevIndex + |m.entries|, m.leaderCommit)
  {
    PutKeepsCommit(r, m.prevIndex + 1, m.entries);
    PutEnds(r, m.prevIndex + 1, m.entries);
  }

  lemma OnAccepted(c: Cluster, h: History, v: nat, x: nat, n: nat)
    requires Sound(c, h) && v < |c.nodes| && x < |c.sent| && c.sent[x].AppendEntries? && c.sent[x].to == v
    requires c.nodes[v].role == Follower && c.nodes[v].term == c.sent[x].term
             && n == c.sent[x].prevIndex + |c.sent[x].entries|
    requires c.nodes[v].term in h.reigns && Agree(c.nodes[v].log, h.reigns[c.nodes[v].term].log, n)
    requires (v, c.nodes[v].term) in h.acked && n <= h.acked[(v, c.nodes[v].term)]
    requires h.safe ==> StaysVerified(c.nodes[v], n, c.sent[x].leaderCommit)
    ensures var m := c.sent[x]; var b := FollowCommit(c.nodes[v], m.leaderCommit);
            Sound(Send(Put(c, v, b), [AppendEntriesReply(v, m.from, m.term, true, n, m.readEpoch)]), h)
  {
    var m, a := c.sent[x], c.nodes[v];
    var b := FollowCommit(a, m.leaderCommit);
    SentSettled(c, h, x);
    SoundFollow(c, h, v, n, m.leaderCommit);
    FollowFrame(a, m.leaderCommit);
    MsgOf(c, h, x);
    MsgAfter(c, h, v, b, m);
    SoundAckReply(Put(c, v, b), h, v, m);
  }

  lemma FollowFrame(r: Node, leaderCommit: int)
    ensures var b := FollowCommit(r, leaderCommit);
            b == r.(commit := b.commit, lastApplied := b.lastApplied, applied := b.applied)
  {
    ApplyFrame(r.(commit := if leaderCommit < LastIndex(r) then leaderCommit else LastIndex(r)));
  }

  /** The AppendEntries m reaches v, whose term is at least m's. */
  lemma DecideAppend(c: Cluster, h: History, v: nat, x: nat) returns (k: History)
    requires Sound(c, h) && v < |c.nodes| && x < |c.sent| && c.sent[x].AppendEntries? && c.sent[x].to == v
    requires c.sent[x].term <= c.nodes[v].term && (h.safe ==> SafeDelivery(c.nodes[v], c.sent[x]))
    ensures var (b, reply) := HandleAppendEntries(c.nodes[v], c.sent[x]); Sound(Send(Put(c, v, b), [reply]), k)
    ensures Adds(h, k)
  {
    var m, a := c.sent[x], c.nodes[v];
    NodeOf(c, h, v);
    MsgOf(c, h, x);
    if m.term < a.term {
      k := h;
      ExtendsSelf(h);
      PutTwice(c, v, a, a);
      SoundNeutral(c, h, AppendEntriesReply(v, m.from, a.term, false, 0, m.readEpoch));
    } else {
      var b := a.(role := Follower, electionElapsed := 0);
      NotItsLeader(h, a, m, |c.nodes|);
      KeepRelax(c, h, v, b);
      if PrevMatches(b, m) {
        if h.safe { SafeSame(a, b, m); }
        k := OnAccept(Put(c, v, b), h, v, x);
        PutTwice(c, v, b, FollowCommit(AcceptEntries(b, m), m.leaderCommit));
      } else {
        k := h;
        ExtendsSelf(h);
        SoundNeutral(Put(c, v, b), h, AppendEntriesReply(v, m.from, a.term, false, 0, m.readEpoch));
      }
    }
  }

  /** The receiver of an AppendEntries of its own term is not the leader of that term. */
  lemma NotItsLeader(h: History, r: Node, m: Msg, n: nat)
    requires NodeOk(h, r, m.to, n) && m.AppendEntries? && SliceOk(h, m) && m.from != m.to && m.term == r.term
    ensures r.role != Leader && r.readBarrier < 0 && r.readConfirmed < 0
  {
  }

  lemma OnAppendEntries(c: Cluster, h: History, x: nat) returns (k: History)
    requires Sound(c, h) && InFlight(c, x) && c.sent[x].AppendEntries? && c.sent[x].to < |c.nodes|
    requires h.safe ==> SafeDelivery(c.nodes[c.sent[x].to], c.sent[x])
    ensures Sound(Step(c, Deliver(x)), k) && Adds(h, k)
  {
    var m := c.sent[x];
    var v := m.to;
    var r := c.nodes[v];
    var a := StepDownIfHigher(r, m.term);
    SoundGone(c, h, x);
    SoundStepDown(Gone(c, x), h, v, m.term);
    HigherTermFirst(r, m);
    if h.safe { SafeSame(r, a, m); }
    k := DecideAppend(Put(Gone(c, x), v, a), h, v, x);
    PutTwice(Gone(c, x), v, a, HandleAppendEntries(r, m).0);
  }

  // ----- AppendEntriesReply -----

  lemma MatchNode(ns: seq<Node>, h: History, v: nat, m: Msg)
    requires v < |ns| && NodeOk(h, ns[v], v, |ns|) && AckBounds(ns, h) && ns[v].role == Leader
    requires m.AppendEntriesReply? && m.from < |ns| && m.to == v && m.term == ns[v].term && AckOk(ns, h, m)
    ensures var b := RecordMatch(ns[v], m.from, m.matchIndex);
            NodeOk(h, b, v, |ns|) && b == ns[v].(next := b.next, match_ := b.match_)
  {
    var r, b := ns[v], RecordMatch(ns[v], m.from, m.matchIndex);
    assert PeersOk(h, b, |ns|);
  }

  lemma BackoffNode(h: History, r: Node, v: nat, n: nat, p: nat)
    requires NodeOk(h, r, v, n) && p < n && NextOf(r, p) > 1
    ensures NodeOk(h, r.(next := SetAt(r.next, p, NextOf(r, p) - 1)), v, n)
  {
  }

  /** A leader changes only its view of its peers. */
  lemma SoundPeers(c: Cluster, h: History, v: nat, b: Node)
    requires Sound(c, h) && v < |c.nodes| && NodeOk(h, b, v, |c.nodes|) && c.nodes[v].role == Leader
    requires b == c.nodes[v].(next := b.next, match_ := b.match_)
    ensures Sound(Put(c, v, b), h)
  {
    Unfold(c, h);
    ExtendsSelf(h);
    if h.safe { MachineStable(h, h, c.nodes[v], b); }
    KeepNode(c, h, v, b);
    Fold(Put(c, v, b), h);
  }

  lemma SoundEcho(c: Cluster, h: History, v: nat, m: Msg)
    requires Sound(c, h) && v < |c.nodes| && m.AppendEntriesReply? && m.to == v && MsgOk(c.nodes, h, m)
    requires m.success && m.term == c.nodes[v].term
    ensures Sound(Put(c, v, CountReadAck(c.nodes[v], m.from, m.readEpoch)), h)
  {
    Unfold(c, h);
    KeepEcho(c, h, v, m);
    Fold(Put(c, v, CountReadAck(c.nodes[v], m.from, m.readEpoch)), h);
  }

  lemma SoundMatch(c: Cluster, h: History, v: nat, m: Msg)
    requires Sound(c, h) && v < |c.nodes| && m.AppendEntriesReply? && m.to == v && MsgOk(c.nodes, h, m)
    requires m.success && m.term == c.nodes[v].term && c.nodes[v].role == Leader
    ensures var b := RecordMatch(c.nodes[v], m.from, m.matchIndex);
            Sound(Put(c, v, b), h) && b == c.nodes[v].(next := b.next, match_ := b.match_)
  {
    NodeOf(c, h, v);
    BoundsOf(c, h);
    MatchNode(c.nodes, h, v, m);
    SoundPeers(c, h, v, RecordMatch(c.nodes[v], m.from, m.matchIndex));
  }

  lemma BoundsOf(c: Cluster, h: History)
    requires Sound(c, h)
    ensures AckBounds(c.nodes, h)
  {
    Unfold(c, h);
  }

  /** The leader advances its commit index and counts the echo after recording the match. */
  lemma OnMatched(c: Cluster, h: History, v: nat, x: nat) returns (k: History)
    requires Sound(c, h) && v < |c.nodes| && x < |c.sent| && c.sent[x].AppendEntriesReply? && c.sent[x].to == v
    requires c.sent[x].success && c.sent[x].term == c.nodes[v].term && c.nodes[v].role == Leader
    ensures Sound(Put(c, v, CountReadAck(AdvanceCommit(c.nodes[v]), c.sent[x].from, c.sent[x].readEpoch)), k)
    ensures Adds(h, k)
  {
    var m := c.sent[x];
    NodeOf(c, h, v);
    AdvanceFacts(c.nodes[v], v, |c.nodes|);
    k := KeepAdvance(c, h, v);
    var a := AdvanceCommit(c.nodes[v]);
    var d := Put(c, v, a);
    MsgOf(d, k, x);
    SoundEcho(d, k, v, m);
    PutTwice(c, v, a, CountReadAck(a, m.from, m.readEpoch));
  }

  lemma OnSuccess(c: Cluster, h: History, v: nat, x: nat) returns (k: History)
    requires Sound(c, h) && v < |c.nodes| && x < |c.sent| && c.sent[x].AppendEntriesReply? && c.sent[x].to == v
    requires c.sent[x].success && c.sent[x].term == c.nodes[v].term && c.nodes[v].role == Leader
    ensures Sound(Put(c, v, HandleAppendEntriesReply(c.nodes[v], c.sent[x])), k) && Adds(h, k)
  {
    var m := c.sent[x];
    MsgOf(c, h, x);
    SoundMatch(c, h, v, m);
    var a := RecordMatch(c.nodes[v], m.from, m.matchIndex);
    k := OnMatched(Put(c, v, a), h, v, x);
    PutTwice(c, v, a, HandleAppendEntriesReply(c.nodes[v], m));
  }

  lemma OnFailure(c: Cluster, h: History, v: nat, m: Msg)
    requires Sound(c, h) && v < |c.nodes| && m.AppendEntriesReply? && m.from < |c.nodes| && !m.success
    ensures Sound(Put(c, v, HandleAppendEntriesReply(c.nodes[v], m)), h)
  {
    var r := c.nodes[v];
    NodeOf(c, h, v);
    if r.role == Leader && m.term == r.term && NextOf(r, m.from) > 1 {
      BackoffNode(h, r, v, |c.nodes|, m.from);
      SoundPeers(c, h, v, r.(next := SetAt(r.next, m.from, NextOf(r, m.from) - 1)));
    } else {
      SoundStepDown(c, h, v, m.term);
    }
  }

  lemma OnAppendEntriesReply(c: Cluster, h: History, x: nat) returns (k: History)
    requires Sound(c, h) && InFlight(c, x) && c.sent[x].AppendEntriesReply? && c.sent[x].to < |c.nodes|
    ensures Sound(Step(c, Deliver(x)), k) && Adds(h, k)
  {
    var m := c.sent[x];
    var v := m.to;
    var d := Gone(c, x);
    SoundGone(c, h, x);
    MsgOf(c, h, x);
    ExtendsSelf(h);
    if m.success && m.term == c.nodes[v].term && c.nodes[v].role == Leader {
      k := OnSuccess(d, h, v, x);
    } else if m.success {
      k := h;
      SoundStepDown(d, h, v, m.term);
    } else {
      k := h;
      OnFailure(d, h, v, m);
    }
    SendJoin(Put(d, v, HandleAppendEntriesReply(c.nodes[v], m)), [], []);
  }

  // ----- clock, clients, restart -----

  lemma SoundElect(c: Cluster, h: History, v: nat) returns (k: History)
    requires Sound(c, h) && v < |c.nodes| && c.nodes[v].role != Leader
    ensures var d := Put(c, v, StartElection(c.nodes[v]));
            Sound(d, k) && Adds(h, k) && AskedBelow(d, v, 0) && v < |k.counted| && k.counted[v] == {v}
  {
    Unfold(c, h);
    KeepElect(c, h, v);
    TokensOld(c, h, v);
    k := Elected(h, v, c.nodes[v]);
    var d := Put(c, v, StartElection(c.nodes[v]));
    Fold(d, k);
    assert forall y: nat | InFlight(d, y) :: InFlight(c, y);
  }

  lemma OnElection(c: Cluster, h: History, v: nat, b: Node, out: seq<Msg>) returns (k: History)
    requires Sound(c, h) && v < |c.nodes| && c.nodes[v].role != Leader && (b, out) == BecomeCandidate(c.nodes[v])
    ensures Sound(Send(Put(c, v, b), out), k) && Adds(h, k)
  {
    var h' := SoundElect(c, h, v);
    var a := StartElection(c.nodes[v]);
    if a.votes >= Majority(a) {
      k := KeepBecomeLeader(Put(c, v, a), h', v, b, out);
      PutTwice(c, v, a, b);
      ExtendsTrans(h, h', k);
    } else {
      k := h';
      KeepRequests(Put(c, v, a), k, v, 0);
    }
  }

  lemma OnTick(c: Cluster, h: History, v: nat) returns (k: History)
    requires Sound(c, h) && v < |c.nodes|
    ensures Sound(Step(c, TickNode(v)), k) && Adds(h, k)
  {
    var r := c.nodes[v];
    var (b, out) := Tick(r);
    k := h;
    ExtendsSelf(h);
    NodeOf(c, h, v);
    if r.role == Leader {
      var a := r.(heartbeatElapsed := r.heartbeatElapsed + 1);
      KeepRelax(c, h, v, a);
      if a.heartbeatElapsed >= a.heartbeatTimeout {
        KeepHeartbeat(Put(c, v, a), h, v, b);
        PutTwice(c, v, a, b);
      } else {
        SendJoin(Put(c, v, a), [], []);
      }
    } else {
      var a := r.(electionElapsed := r.electionElapsed + 1);
      KeepRelax(c, h, v, a);
      if a.electionElapsed >= a.electionTimeout {
        k := OnElection(Put(c, v, a), h, v, b, out);
        PutTwice(c, v, a, b);
      } else {
        SendJoin(Put(c, v, a), [], []);
      }
    }
  }

  lemma OnSubmit(c: Cluster, h: History, v: nat, x: int) returns (k: History)
    requires Sound(c, h) && v < |c.nodes|
    ensures Sound(Step(c, SubmitTo(v, x)), k) && Adds(h, k)
  {
    var r := c.nodes[v];
    if r.role == Leader {
      var e := Entry(r.term, x, false, false);
      Unfold(c, h);
      KeepAppend(c, h, v, e);
      k := Extended(h, Appended(r, e));
      Fold(Put(c, v, Appended(r, e)), k);
    } else {
      k := h;
      ExtendsSelf(h);
      PutTwice(c, v, r, r);
    }
  }

  lemma SoundOpen(c: Cluster, h: History, v: nat) returns (k: History)
    requires Sound(c, h) && v < |c.nodes| && c.nodes[v].role == Leader && c.nodes[v].readGate <= c.nodes[v].commit
    ensures Sound(Put(c, v, OpenBarrier(c.nodes[v])), k) && Adds(h, k)
    ensures k == BarrierRecorded(c.nodes, h, c.nodes[v])
  {
    Unfold(c, h);
    KeepOpen(c, h, v);
    k := BarrierRecorded(c.nodes, h, c.nodes[v]);
    Fold(Put(c, v, OpenBarrier(c.nodes[v])), k);
  }

  lemma OnRead(c: Cluster, h: History, v: nat) returns (k: History)
    requires Sound(c, h) && v < |c.nodes|
    ensures Sound(Step(c, ReadAt(v)), k) && Adds(h, k)
    ensures c.nodes[v].role == Leader && c.nodes[v].readGate <= c.nodes[v].commit ==>
              k == BarrierRecorded(c.nodes, h, c.nodes[v])
  {
    var r := c.nodes[v];
    if r.role == Leader && r.readGate <= r.commit {
      k := SoundOpen(c, h, v);
      KeepBroadcast(Put(c, v, OpenBarrier(r)), k, v, 0);
    } else {
      k := h;
      ExtendsSelf(h);
      PutTwice(c, v, r, r);
      SendJoin(c, [], []);
    }
  }

  lemma OnRestart(c: Cluster, h: History, v: nat)
    requires Sound(c, h) && v < |c.nodes|
    ensures Sound(Step(c, Restart(v)), h)
  {
    NodeOf(c, h, v);
    KeepRelax(c, h, v, CrashRestart(c.nodes[v]));
  }

  lemma NoSnapshots(c: Cluster, h: History, x: nat)
    requires Sound(c, h) && x < |c.sent|
    ensures !c.sent[x].InstallSnapshot? && !c.sent[x].InstallSnapshotReply?
  {
    MsgOf(c, h, x);
  }

  lemma OnDeliver(c: Cluster, h: History, x: nat) returns (k: History)
    requires Sound(c, h) && InFlight(c, x) && c.sent[x].to < |c.nodes| && (h.safe ==> SafeStep(c, Deliver(x)))
    ensures Sound(Step(c, Deliver(x)), k) && Adds(h, k)
  {
    NoSnapshots(c, h, x);
    match c.sent[x]
    case RequestVote(_, _, _, _, _) => k := OnRequestVote(c, h, x);
    case RequestVoteReply(_, _, _, _) => k := OnRequestVoteReply(c, h, x);
    case AppendEntries(_, _, _, _, _, _, _, _) => k := OnAppendEntries(c, h, x);
    case AppendEntriesReply(_, _, _, _, _, _) => k := OnAppendEntriesReply(c, h, x);
  }

  /** Node v is a leader whose ReadIndex request opens a barrier. */
  predicate CanRead(c: Cluster, v: nat) {
    v < |c.nodes| && c.nodes[v].role == Leader && c.nodes[v].readGate <= c.nodes[v].commit
  }

  /** Every event keeps the invariant and only adds to the history. */
  lemma OnEvent(c: Cluster, h: History, e: Event) returns (k: History)
    requires Sound(c, h) && (h.safe ==> SafeStep(c, e))
    ensures Sound(Step(c, e), k) && Adds(h, k)
    ensures e.ReadAt? && CanRead(c, e.node) ==> k == BarrierRecorded(c.nodes, h, c.nodes[e.node])
  {
    k := h;
    ExtendsSelf(h);
    match e
    case TickNode(v) => if v < |c.nodes| { k := OnTick(c, h, v); }
    case SubmitTo(v, x) => if v < |c.nodes| { k := OnSubmit(c, h, v, x); }
    case ReadAt(v) => if v < |c.nodes| { k := OnRead(c, h, v); }
    case Deliver(x) => if InFlight(c, x) && c.sent[x].to < |c.nodes| { k := OnDeliver(c, h, x); }
    case Lose(x) => if InFlight(c, x) { SoundGone(c, h, x); }
    case Restart(v) => if v < |c.nodes| { OnRestart(c, h, v); }
  }

  const NoHistory := History(map[], map[], map[], map[], [], map[], true)

  lemma FreshIsSound(c: Cluster)
    requires Fresh(c)
    ensures Sound(c, NoHistory.(counted := seq(|c.nodes|, _ => {})))
  {
    var h := NoHistory.(counted := seq(|c.nodes|, _ => {}));
    forall i | 0 <= i < |c.nodes|
      ensures NodeOk(h, c.nodes[i], i, |c.nodes|)
    {
      assert c.nodes[i] == Init(i, |c.nodes|, c.nodes[i].lim, c.nodes[i].electionTimeout, c.nodes[i].heartbeatTimeout);
    }
    assert Polls(c, h);
    Fold(c, h);
  }

  /** k continues h over event e; a ReadIndex request that a leader accepts is on record. */
  ghost predicate Continues(c: Cluster, e: Event, h: History, k: History) {
    && Extends(h, k) && k.safe == (h.safe && SafeStep(c, e))
    && (e.ReadAt? && CanRead(c, e.node) ==> k == BarrierRecorded(c.nodes, h, c.nodes[e.node]))
  }

  /** hs lists a history for every moment of the run. */
  ghost predicate Histories(c: Cluster, es: seq<Event>, hs: seq<History>) {
    && |hs| == |es| + 1 && hs[0].safe
    && (forall i | 0 <= i <= |es| :: Sound(Run(c, es[..i]), hs[i]))
    && (forall i | 0 <= i < |es| :: Continues(Run(c, es[..i]), es[i], hs[i], hs[i + 1]))
  }

  /** The history goes on without the claim that every delivery was safe. */
  lemma Doubted(c: Cluster, h: History)
    requires Sound(c, h)
    ensures Sound(c, h.(safe := false)) && Extends(h, h.(safe := false))
  {
    Unfold(c, h);
    KeepDoubt(c, h);
    Fold(c, h.(safe := false));
  }

  lemma NextHistory(c: Cluster, h: History, e: Event) returns (k: History)
    requires Sound(c, h)
    ensures Sound(Step(c, e), k) && Continues(c, e, h, k)
  {
    if SafeStep(c, e) {
      k := OnEvent(c, h, e);
    } else {
      Doubted(c, h);
      k := OnEvent(c, h.(safe := false), e);
      ExtendsTrans(h, h.(safe := false), k);
    }
  }

  lemma {:induction false} RunHistories(c: Cluster, es: seq<Event>) returns (hs: seq<History>)
    requires Fresh(c)
    ensures Histories(c, es, hs)
    decreases |es|
  {
    if es == [] {
      FreshIsSound(c);
      hs := [NoHistory.(counted := seq(|c.nodes|, _ => {}))];
    } else {
      var n := |es| - 1;
      var front := RunHistories(c, es[..n]);
      assert es[..n][..n] == es[..n];
      var last := NextHistory(Run(c, es[..n]), front[n], es[n]);
      hs := front + [last];
      HistoriesGrow(c, es, front, last);
    }
  }

  lemma HistoriesGrow(c: Cluster, es: seq<Event>, front: seq<History>, last: History)
    requires es != [] && Histories(c, es[..|es| - 1], front) && Sound(Run(c, es), last)
    requires Continues(Run(c, es[..|es| - 1]), es[|es| - 1], front[|es| - 1], last)
    ensures Histories(c, es, front + [last])
  {
    var n, hs := |es| - 1, front + [last];
    assert es[..|es|] == es;
    forall i | 0 <= i <= n
      ensures Sound(Run(c, es[..i]), hs[i])
    {
      SoundPrefix(c, es, n, i, front);
    }
    forall i | 0 <= i < |es|
      ensures Continues(Run(c, es[..i]), es[i], hs[i], hs[i + 1])
    {
      if i < n { ContinuesPrefix(c, es, n, i, front); }
    }
  }

  lemma SoundPrefix(c: Cluster, es: seq<Event>, n: nat, i: nat, hs: seq<History>)
    requires i <= n <= |es| && Histories(c, es[..n], hs)
    ensures Sound(Run(c, es[..i]), hs[i])
  {
    assert es[..n][..i] == es[..i];
  }

  lemma ContinuesPrefix(c: Cluster, es: seq<Event>, n: nat, i: nat, hs: seq<History>)
    requires i < n <= |es| && Histories(c, es[..n], hs)
    ensures Continues(Run(c, es[..i]), es[i], hs[i], hs[i + 1])
  {
    assert es[..n][..i] == es[..i];
    assert Continues(Run(c, es[..n][..i]), es[..n][i], hs[i], hs[i + 1]);
  }

  lemma {:induction false} Later(c: Cluster, es: seq<Event>, hs: seq<History>, i: nat, j: nat)
    requires Histories(c, es, hs) && i <= j <= |es|
    ensures Extends(hs[i], hs[j])
    decreases j
  {
    if i == j {
      ExtendsSelf(hs[i]);
    } else {
      Later(c, es, hs, i, j - 1);
      assert Continues(Run(c, es[..j - 1]), es[j - 1], hs[j - 1], hs[j]);
      ExtendsTrans(hs[i], hs[j - 1], hs[j]);
    }
  }

  /** While every delivery of the run was safe the history says so. */
  lemma {:induction false} SafeSoFar(c: Cluster, es: seq<Event>, hs: seq<History>, i: nat)
    requires Histories(c, es, hs) && i <= |es| && SafeRun(c, es[..i])
    ensures hs[i].safe
    decreases i
  {
    if i > 0 {
      assert es[..i][..i - 1] == es[..i - 1];
      SafeRunPrefix(c, es[..i], i - 1);
      SafeSoFar(c, es, hs, i - 1);
      assert SafeStep(Run(c, es[..i][..i - 1]), es[..i][i - 1]);
      assert Continues(Run(c, es[..i - 1]), es[i - 1], hs[i - 1], hs[i]);
    }
  }
}
