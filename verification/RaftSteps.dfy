/** Elementary transitions of a cluster with its history.  Every handler of
    RaftNode is a composition of these; each lemma shows one keeps `Inv`. */
module RaftSteps {
  import opened RaftNode
  import opened RaftCluster
  import opened RaftHistory
  import opened RaftCompleteness
  import opened RaftGrowth

  lemma ExtendsSelf(h: History)
    ensures Extends(h, h)
  {
  }

  /** Polls survive as long as no message enters the network and no candidate changes. */
  lemma PollsKept(c: Cluster, d: Cluster, h: History, k: History)
    requires |h.counted| == |c.nodes| == |d.nodes| && Polls(c, h)
    requires d.sent == c.sent && c.gone <= d.gone && k.counted == h.counted
    requires forall x | x in h.votes :: x in k.votes && k.votes[x] == h.votes[x]
    requires forall i | 0 <= i < |c.nodes| && d.nodes[i].role == Candidate ::
               c.nodes[i].role == Candidate && d.nodes[i].term == c.nodes[i].term
               && d.nodes[i].votes == c.nodes[i].votes && d.nodes[i].log == c.nodes[i].log
    ensures Polls(d, k)
  {
    assert forall x: nat | InFlight(d, x) :: InFlight(c, x);
    forall i | 0 <= i < |c.nodes|
      ensures PollOk(d, k, i)
    {
      assert PollOk(c, h, i);
    }
  }

  lemma AcksKept(ns: seq<Node>, h: History, v: nat, b: Node)
    requires Acks(ns, h) && v < |ns| && b.term >= ns[v].term && b.log == ns[v].log
    ensures Acks(ns[v := b], h)
  {
    forall x: nat, t: nat, n: nat | Confirmed(h, x, t, n)
      ensures x < |ns| && (Agree(ns[v := b][x].log, h.reigns[t].log, n) || Overwritten(h, t, n, ns[v := b][x].term))
    {
    }
  }

  lemma MachinesKept(c: Cluster, h: History, v: nat, b: Node)
    requires v < |c.nodes| && (h.safe ==> Machines(c, h) && MachineOk(h, b))
    ensures h.safe ==> Machines(Put(c, v, b), h)
  {
  }

  /** A node changes without touching its log or the records. */
  lemma KeepNode(c: Cluster, h: History, v: nat, b: Node)
    requires Inv(c, h) && v < |c.nodes|
    requires NodeGrown(c.nodes[v], b) && b.log == c.nodes[v].log && NodeOk(h, b, v, |c.nodes|)
    requires b.role == Candidate ==>
             c.nodes[v].role == Candidate && b.term == c.nodes[v].term
             && b.votes == c.nodes[v].votes
    requires h.safe ==> MachineOk(h, b)
    ensures Inv(Put(c, v, b), h)
  {
    RecordsKept(c.nodes, h, v, b, c.sent);
    NodesPut(c.nodes, h, v, b);
    PollsKept(c, Put(c, v, b), h, h);
    AcksKept(c.nodes, h, v, b);
    MachinesKept(c, h, v, b);
  }

  lemma NodesPut(ns: seq<Node>, h: History, v: nat, b: Node)
    requires Nodes(ns, h) && v < |ns| && NodeOk(h, b, v, |ns|)
    ensures Nodes(ns[v := b], h)
  {
  }

  lemma RecordsKept(ns: seq<Node>, h: History, v: nat, b: Node, sent: seq<Msg>)
    requires v < |ns| && Reigns(ns, h) && Votes(ns, h) && Msgs(ns, h, sent) && Commits(ns, h) && Barriers(ns, h)
    requires NodeGrown(ns[v], b)
    ensures var ms := ns[v := b];
            Reigns(ms, h) && Votes(ms, h) && Msgs(ms, h, sent) && Commits(ms, h)
            && Barriers(ms, h)
  {
    var ms := ns[v := b];
    ExtendsSelf(h);
    OldReigns(ns, h, ms, h);
    OldVotes(ns, h, ms, h);
    OldMsgs(ns, h, ms, h, sent);
    OldCommits(ns, h, ms, h);
    OldBarriers(ns, h, ms, h);
  }

  lemma KeepGone(c: Cluster, h: History, k: nat)
    requires Inv(c, h)
    ensures Inv(Gone(c, k), h)
  {
    PollsKept(c, Gone(c, k), h, h);
  }

  // ----- messages -----

  /** No other message and no counted vote stands for the same ballot. */
  ghost predicate FreshToken(c: Cluster, h: History, t: Token)
    requires |h.counted| == |c.nodes|
  {
    t.Token? ==>
      && (forall k: nat | InFlight(c, k) :: TokenOf(c.sent[k]) != t)
      && (t.cand < |c.nodes| && c.nodes[t.cand].role == Candidate && c.nodes[t.cand].term == t.term ==>
            t.voter !in h.counted[t.cand])
  }

  lemma PollsSend(c: Cluster, h: History, m: Msg)
    requires |h.counted| == |c.nodes| && Polls(c, h) && FreshToken(c, h, TokenOf(m))
    ensures Polls(Send(c, [m]), h)
  {
    var d := Send(c, [m]);
    assert forall x: nat | InFlight(d, x) :: (InFlight(c, x) && d.sent[x] == c.sent[x]) || d.sent[x] == m;
    forall i | 0 <= i < |c.nodes|
      ensures PollOk(d, h, i)
    {
      assert PollOk(c, h, i);
    }
    forall x: nat, y: nat | InFlight(d, x) && InFlight(d, y) && x != y && TokenOf(d.sent[x]).Token?
      ensures TokenOf(d.sent[x]) != TokenOf(d.sent[y])
    {
      assert x == |c.sent| || InFlight(c, x);
      assert y == |c.sent| || InFlight(c, y);
    }
  }

  lemma KeepSend(c: Cluster, h: History, m: Msg)
    requires Inv(c, h) && MsgOk(c.nodes, h, m) && FreshToken(c, h, TokenOf(m))
    requires m.AppendEntries? && h.safe ==> Settled(h, m.term, m.leaderCommit)
    ensures Inv(Send(c, [m]), h)
  {
    PollsSend(c, h, m);
    MsgsSend(c.nodes, h, c.sent, m);
    if h.safe { MachinesSend(c, h, m); }
  }

  lemma MsgsSend(ns: seq<Node>, h: History, sent: seq<Msg>, m: Msg)
    requires Msgs(ns, h, sent) && MsgOk(ns, h, m)
    ensures Msgs(ns, h, sent + [m])
  {
  }

  lemma MachinesSend(c: Cluster, h: History, m: Msg)
    requires Machines(c, h) && (m.AppendEntries? ==> Settled(h, m.term, m.leaderCommit))
    ensures Machines(Send(c, [m]), h)
  {
  }

  // ----- elections -----

  /** The voter's log keeps what it confirmed, unless overwritten before the term of the ballot. */
  lemma BallotNow(ns: seq<Node>, h: History, v: nat, t: nat, s: nat, n: nat)
    requires AckLogs(ns, h) && v < |ns| && Confirmed(h, v, s, n) && s < t
    requires ns[v].term < t || (ns[v].term == t && t !in h.reigns)
    ensures Agree(ns[v].log, h.reigns[s].log, n) || Overwritten(h, s, n, t - 1)
  {
    if !Agree(ns[v].log, h.reigns[s].log, n) {
      var w :| w in h.reigns && s < w <= ns[v].term && !Agree(h.reigns[w].log, h.reigns[s].log, n);
      assert w <= t - 1;
    }
  }

  lemma BallotKeepsAcks(ns: seq<Node>, h: History, v: nat, t: nat, cand: nat)
    requires AckLogs(ns, h) && AckBallots(h) && Reigns(ns, h) && v < |ns| && (v, t) !in h.votes
    requires t == ns[v].term || t == ns[v].term + 1
    ensures AckBallots(Cast(h, v, t, cand, ns[v].log))
  {
    var k := Cast(h, v, t, cand, ns[v].log);
    forall x: nat, s: nat, n: nat, u: nat | Confirmed(k, x, s, n) && Matters(k, x, u) && s < u
      ensures Agree(k.votes[(x, u)].log, k.reigns[s].log, n) || Overwritten(k, s, n, u - 1)
    {
      assert Confirmed(h, x, s, n);
      if (x, u) == (v, t) {
        assert t in h.reigns ==> ReignOk(ns, h, t);
        BallotNow(ns, h, v, t, s, n);
        OverwrittenSame(h, k, s, n, u - 1);
      } else {
        assert Matters(h, x, u);
        OverwrittenSame(h, k, s, n, u - 1);
      }
    }
  }

  lemma OverwrittenSame(h: History, k: History, t: nat, n: nat, top: int)
    requires k.reigns == h.reigns && t in h.reigns
    ensures Overwritten(h, t, n, top) <==> Overwritten(k, t, n, top)
  {
  }

  /** The vote (v, t) for `cand` is recorded together with v's log. */
  function Cast(h: History, v: nat, t: nat, cand: nat, log: seq<Entry>): History {
    h.(votes := h.votes[(v, t) := Vote(cand, log)])
  }

  lemma ExtendsCast(h: History, v: nat, t: nat, cand: nat, log: seq<Entry>)
    requires (v, t) !in h.votes
    ensures Extends(h, Cast(h, v, t, cand, log))
  {
  }

  function Elected(h: History, v: nat, r: Node): History
    requires v < |h.counted|
  {
    Cast(h, v, r.term + 1, v, r.log).(counted := h.counted[v := {v}])
  }

  lemma PollsElect(c: Cluster, h: History, v: nat)
    requires |h.counted| == |c.nodes| && Polls(c, h) && v < |c.nodes| && c.nodes[v].id == v
    requires (v, c.nodes[v].term + 1) !in h.votes
    ensures Polls(Put(c, v, StartElection(c.nodes[v])), Elected(h, v, c.nodes[v]))
  {
    var d, k := Put(c, v, StartElection(c.nodes[v])), Elected(h, v, c.nodes[v]);
    assert forall x: nat | InFlight(d, x) :: InFlight(c, x);
    forall i | 0 <= i < |c.nodes|
      ensures PollOk(d, k, i)
    {
      assert PollOk(c, h, i);
    }
  }

  /** Node v becomes b, and its vote in its current term may be recorded. */
  ghost predicate Balloted(ns: seq<Node>, h: History, k: History, v: nat, b: Node) {
    && v < |ns| == |k.counted| && Extends(h, k)
    && k.reigns == h.reigns && k.acked == h.acked && k.commits == h.commits && k.barriers == h.barriers
    && (forall x | x in k.votes && x !in h.votes :: x == (v, b.term))
    && (v, b.term) in k.votes && VoteOk(ns[v := b], k, v, b.term)
    && NodeGrown(ns[v], b) && NodeOk(k, b, v, |ns|) && b.log == ns[v].log
    && b.commit == ns[v].commit && b.lastApplied == ns[v].lastApplied && b.applied == ns[v].applied
  }

  lemma KeepVote(c: Cluster, h: History, k: History, v: nat, b: Node)
    requires Inv(c, h) && Balloted(c.nodes, h, k, v, b) && AckBallots(k) && Polls(Put(c, v, b), k)
    ensures Inv(Put(c, v, b), k)
  {
    var ns, ms := c.nodes, c.nodes[v := b];
    OldReigns(ns, h, ms, k);
    OldVotes(ns, h, ms, k);
    OldMsgs(ns, h, ms, k, c.sent);
    OldCommits(ns, h, ms, k);
    OldBarriers(ns, h, ms, k);
    AcksSame(ns, h, k, v, b);
    NodesElect(ns, h, k, v, b);
    if h.safe { MachineStable(h, k, ns[v], b); }
    MachinesGrown(c, h, k, v, b);
  }

  lemma KeepElect(c: Cluster, h: History, v: nat)
    requires Inv(c, h) && v < |c.nodes| && c.nodes[v].role != Leader
    ensures Inv(Put(c, v, StartElection(c.nodes[v])), Elected(h, v, c.nodes[v]))
    ensures Extends(h, Elected(h, v, c.nodes[v]))
  {
    var b, k := StartElection(c.nodes[v]), Elected(h, v, c.nodes[v]);
    assert NodeOk(h, c.nodes[v], v, |c.nodes|);
    ElectBallot(c.nodes, h, v);
    PollsElect(c, h, v);
    BallotKeepsAcks(c.nodes, h, v, b.term, v);
    AckBallotsSame(Cast(h, v, b.term, v, c.nodes[v].log), k);
    KeepVote(c, h, k, v, b);
  }

  lemma ElectBallot(ns: seq<Node>, h: History, v: nat)
    requires v < |ns| == |h.counted| && NodeOk(h, ns[v], v, |ns|) && Votes(ns, h) && ns[v].role != Leader
    ensures (v, ns[v].term + 1) !in h.votes
    ensures Balloted(ns, h, Elected(h, v, ns[v]), v, StartElection(ns[v]))
  {
    assert (v, ns[v].term + 1) !in h.votes;
    ExtendsCast(h, v, ns[v].term + 1, v, ns[v].log);
    NodeElect(h, ns[v], v, |ns|);
    VoteElect(ns, h, v);
  }

  lemma NodeElect(h: History, a: Node, v: nat, n: nat)
    requires NodeOk(h, a, v, n) && a.role != Leader && v < |h.counted| && (v, a.term + 1) !in h.votes
    ensures NodeOk(Elected(h, v, a), StartElection(a), v, n)
  {
    GoodLogStable(h, Elected(h, v, a), a.log);
  }

  lemma TokensOld(c: Cluster, h: History, v: nat)
    requires Inv(c, h) && v < |c.nodes|
    ensures forall x: nat | InFlight(c, x) && TokenOf(c.sent[x]).Token?
            && TokenOf(c.sent[x]).cand == v :: TokenOf(c.sent[x]).term <= c.nodes[v].term
  {
    forall x: nat | InFlight(c, x) && TokenOf(c.sent[x]).Token? && TokenOf(c.sent[x]).cand == v
      ensures TokenOf(c.sent[x]).term <= c.nodes[v].term
    {
      var m := c.sent[x];
      assert MsgOk(c.nodes, h, m);
      if m.RequestVoteReply? && m.granted {
        assert VoteOk(c.nodes, h, m.from, m.term);
        assert VoteOk(c.nodes, h, m.to, m.term);
      }
    }
  }

  lemma VoteElect(ns: seq<Node>, h: History, v: nat)
    requires v < |ns| == |h.counted| && NodeOk(h, ns[v], v, |ns|) && (v, ns[v].term + 1) !in h.votes
    ensures VoteOk(ns[v := StartElection(ns[v])], Elected(h, v, ns[v]), v, ns[v].term + 1)
  {
    GoodLogStable(h, Elected(h, v, ns[v]), ns[v].log);
  }

  lemma AckBallotsSame(h: History, k: History)
    requires AckBallots(h) && k.reigns == h.reigns && k.acked == h.acked && k.votes == h.votes
    ensures AckBallots(k)
  {
    forall x: nat, s: nat, n: nat, u: nat | Confirmed(k, x, s, n) && Matters(k, x, u) && s < u
      ensures Agree(k.votes[(x, u)].log, k.reigns[s].log, n) || Overwritten(k, s, n, u - 1)
    {
      assert Confirmed(h, x, s, n) && Matters(h, x, u);
      OverwrittenSame(h, k, s, n, u - 1);
    }
  }

  /** Acks depend on the reigns, the acknowledgements and the logs only. */
  lemma AcksSame(ns: seq<Node>, h: History, k: History, v: nat, b: Node)
    requires Acks(ns, h) && v < |ns| && b.term >= ns[v].term && b.log == ns[v].log
    requires k.reigns == h.reigns && k.acked == h.acked && AckBallots(k)
    ensures Acks(ns[v := b], k)
  {
    var ms := ns[v := b];
    forall x: nat, t: nat, n: nat | Confirmed(k, x, t, n)
      ensures x < |ms| && (Agree(ms[x].log, k.reigns[t].log, n) || Overwritten(k, t, n, ms[x].term))
    {
      assert Confirmed(h, x, t, n);
      OverwrittenSame(h, k, t, n, ns[x].term);
    }
  }

  /** All nodes but v are as before and the new records concern only v's current term. */
  lemma NodesElect(ns: seq<Node>, h: History, k: History, v: nat, b: Node)
    requires v < |ns| && Nodes(ns, h) && Extends(h, k) && NodeOk(k, b, v, |ns|)
    requires k.reigns == h.reigns && k.commits == h.commits
    requires forall i: nat | i != v && i < |ns| && (i, ns[i].term) in k.votes :: (i, ns[i].term) in h.votes
    ensures Nodes(ns[v := b], k)
  {
    var ms := ns[v := b];
    forall i | 0 <= i < |ms|
      ensures NodeOk(k, ms[i], i, |ms|)
    {
      assert NodeOk(h, ns[i], i, |ns|);
      if i != v { NodeStable(h, k, ns[i], i, |ns|); }
    }
  }

  lemma MachinesGrown(c: Cluster, h: History, k: History, v: nat, b: Node)
    requires v < |c.nodes| && Extends(h, k) && (h.safe ==> Machines(c, h) && MachineOk(k, b))
    ensures k.safe ==> Machines(Put(c, v, b), k)
  {
    if h.safe {
      forall i | 0 <= i < |c.nodes| && i != v
        ensures MachineOk(k, c.nodes[i])
      {
        MachineStable(h, k, c.nodes[i], c.nodes[i]);
      }
      forall j | 0 <= j < |c.sent| && c.sent[j].AppendEntries?
        ensures Settled(k, c.sent[j].term, c.sent[j].leaderCommit)
      {
        SettledStable(h, k, c.sent[j].term, c.sent[j].leaderCommit);
      }
    }
  }

  // ----- votes -----

  function Granted(h: History, r: Node, cand: nat): History {
    if (r.id, r.term) in h.votes then h else Cast(h, r.id, r.term, cand, r.log)
  }

  lemma VoteGrant(ns: seq<Node>, h: History, v: nat, m: Msg)
    requires v < |ns| && NodeOk(h, ns[v], v, |ns|) && Votes(ns, h) && MsgOk(ns, h, m) && m.RequestVote?
    requires m.term == ns[v].term && UpToDate(ns[v], m.lastIndex, m.lastTerm) && (v, m.term) !in h.votes
    ensures VoteOk(ns, Cast(h, v, m.term, m.from, ns[v].log), v, m.term)
  {
    var k := Cast(h, v, m.term, m.from, ns[v].log);
    assert VoteOk(ns, h, m.from, m.term);
    ExtendsCast(h, v, m.term, m.from, ns[v].log);
    GoodLogStable(h, k, ns[v].log);
    assert Below(ns[v].log, m.term - 1);
  }

  lemma KeepGrant(c: Cluster, h: History, v: nat, m: Msg, b: Node)
    requires Inv(c, h) && v < |c.nodes| && MsgOk(c.nodes, h, m) && m.RequestVote? && m.to == v
    requires m.term == c.nodes[v].term && (c.nodes[v].votedFor == -1 || c.nodes[v].votedFor == m.from)
    requires UpToDate(c.nodes[v], m.lastIndex, m.lastTerm)
    requires b == c.nodes[v].(votedFor := m.from, electionElapsed := 0)
    ensures Inv(Put(c, v, b), Granted(h, c.nodes[v], m.from))
    ensures Extends(h, Granted(h, c.nodes[v], m.from))
    ensures (v, m.term) in Granted(h, c.nodes[v], m.from).votes
    ensures Granted(h, c.nodes[v], m.from).votes[(v, m.term)].cand == m.from
  {
    assert NodeOk(h, c.nodes[v], v, |c.nodes|);
    assert PollOk(c, h, v);
    if (v, m.term) in h.votes {
      KeepNode(c, h, v, b);
      ExtendsSelf(h);
    } else {
      KeepNewVote(c, h, v, m, b);
    }
  }

  lemma KeepNewVote(c: Cluster, h: History, v: nat, m: Msg, b: Node)
    requires Inv(c, h) && v < |c.nodes| && MsgOk(c.nodes, h, m) && m.RequestVote? && m.to == v
    requires m.term == c.nodes[v].term && (v, m.term) !in h.votes && c.nodes[v].role != Candidate
    requires UpToDate(c.nodes[v], m.lastIndex, m.lastTerm)
    requires b == c.nodes[v].(votedFor := m.from, electionElapsed := 0)
    ensures Inv(Put(c, v, b), Cast(h, v, m.term, m.from, c.nodes[v].log))
    ensures Extends(h, Cast(h, v, m.term, m.from, c.nodes[v].log))
  {
    var k := Cast(h, v, m.term, m.from, c.nodes[v].log);
    assert NodeOk(h, c.nodes[v], v, |c.nodes|);
    NewVoteNode(c.nodes, h, v, m, b);
    BallotKeepsAcks(c.nodes, h, v, m.term, m.from);
    NewVotePolls(c, h, v, m.from, b);
    KeepVote(c, h, k, v, b);
  }

  lemma NewVotePolls(c: Cluster, h: History, v: nat, cand: nat, b: Node)
    requires |h.counted| == |c.nodes| && Polls(c, h) && v < |c.nodes| && (v, b.term) !in h.votes && b.role != Candidate
    ensures Polls(Put(c, v, b), Cast(h, v, b.term, cand, c.nodes[v].log))
  {
    PollsKept(c, Put(c, v, b), h, Cast(h, v, b.term, cand, c.nodes[v].log));
  }

  lemma NewVoteNode(ns: seq<Node>, h: History, v: nat, m: Msg, b: Node)
    requires v < |ns| && NodeOk(h, ns[v], v, |ns|) && Votes(ns, h) && MsgOk(ns, h, m) && m.RequestVote?
    requires m.term == ns[v].term && UpToDate(ns[v], m.lastIndex, m.lastTerm) && (v, m.term) !in h.votes
    requires b == ns[v].(votedFor := m.from, electionElapsed := 0) && |h.counted| == |ns|
    ensures Balloted(ns, h, Cast(h, v, m.term, m.from, ns[v].log), v, b)
  {
    var k := Cast(h, v, m.term, m.from, ns[v].log);
    ExtendsCast(h, v, m.term, m.from, ns[v].log);
    VoteGrant(ns, h, v, m);
    NodeStable'(h, k, ns[v], b, v, |ns|);
    VoteOkPut(ns, k, v, b, m.term);
  }

  lemma VoteOkPut(ns: seq<Node>, k: History, v: nat, b: Node, t: nat)
    requires v < |ns| && (v, t) in k.votes && VoteOk(ns, k, v, t) && b.term == ns[v].term
    ensures VoteOk(ns[v := b], k, v, t)
  {
  }

  lemma NodeStable'(h: History, k: History, a: Node, b: Node, v: nat, n: nat)
    requires NodeOk(h, a, v, n) && Extends(h, k) && k.reigns == h.reigns && k.commits == h.commits
             && (v, a.term) !in h.votes
    requires (v, a.term) in k.votes && b == a.(votedFor := k.votes[(v, a.term)].cand, electionElapsed := 0)
    ensures NodeOk(k, b, v, n)
  {
    LogStable(h, k, a);
  }

  function Tallied(h: History, v: nat, from: nat): History
    requires v < |h.counted|
  {
    h.(counted := h.counted[v := h.counted[v] + {from}])
  }

  lemma PollsCount(c: Cluster, h: History, x: nat)
    requires |h.counted| == |c.nodes| && Polls(c, h) && InFlight(c, x)
    requires c.sent[x].RequestVoteReply? && c.sent[x].granted && MsgOk(c.nodes, h, c.sent[x])
    requires c.nodes[c.sent[x].to].role == Candidate && c.nodes[c.sent[x].to].term == c.sent[x].term
    ensures var m := c.sent[x]; var v := m.to; var a := c.nodes[v];
            Polls(Put(Gone(c, x), v, a.(votes := a.votes + 1)), Tallied(h, v, m.from))
  {
    var m := c.sent[x];
    var v := m.to;
    var d, k := Put(Gone(c, x), v, c.nodes[v].(votes := c.nodes[v].votes + 1)), Tallied(h, v, m.from);
    assert forall y: nat | InFlight(d, y) :: InFlight(c, y) && y != x;
    assert PollOk(c, h, v);
    assert m.from !in h.counted[v];
    forall i | 0 <= i < |c.nodes|
      ensures PollOk(d, k, i)
    {
      assert PollOk(c, h, i);
    }
  }

  ghost predicate Counting(c: Cluster, x: nat) {
    && InFlight(c, x) && c.sent[x].RequestVoteReply? && c.sent[x].granted && c.sent[x].to < |c.nodes|
    && c.nodes[c.sent[x].to].role == Candidate && c.nodes[c.sent[x].to].term == c.sent[x].term
  }

  lemma CountFacts(c: Cluster, h: History, x: nat)
    requires Inv(c, h) && Counting(c, x)
    ensures var m := c.sent[x]; var v := m.to; var a := c.nodes[v];
            && Polls(Put(Gone(c, x), v, a.(votes := a.votes + 1)), Tallied(h, v, m.from))
            && |Tallied(h, v, m.from).counted| == |c.nodes| && (v, a.term) in h.votes
  {
    PollsCount(c, h, x);
    assert PollOk(c, h, c.sent[x].to);
  }

  lemma TallyFacts(ns: seq<Node>, h: History, v: nat, k: History, b: Node)
    requires v < |ns| && Votes(ns, h) && AckBallots(h) && b == ns[v].(votes := ns[v].votes + 1)
    requires k == h.(counted := k.counted) && |k.counted| == |h.counted| && (v, b.term) in h.votes
    ensures Extends(h, k) && VoteOk(ns[v := b], k, v, b.term) && AckBallots(k)
  {
    ExtendsSelf(h);
    AckBallotsSame(h, k);
    OldVotes(ns, h, ns[v := b], k);
  }

  lemma KeepTally(c: Cluster, h: History, v: nat, k: History, b: Node)
    requires Inv(c, h) && v < |c.nodes| == |k.counted| && b == c.nodes[v].(votes := c.nodes[v].votes + 1)
    requires k == h.(counted := k.counted) && (v, b.term) in h.votes && Polls(Put(c, v, b), k)
    ensures Inv(Put(c, v, b), k)
  {
    assert NodeOk(h, c.nodes[v], v, |c.nodes|);
    NodeTally(h, k, c.nodes[v], b, v, |c.nodes|);
    TallyFacts(c.nodes, h, v, k, b);
    KeepVote(c, h, k, v, b);
  }

  lemma NodeTally(h: History, k: History, a: Node, b: Node, v: nat, n: nat)
    requires NodeOk(h, a, v, n) && b == a.(votes := a.votes + 1) && k == h.(counted := k.counted)
    ensures NodeOk(k, b, v, n)
  {
    ExtendsSelf(h);
    LogStable(h, k, a);
  }

  // ----- giving up the claim that every delivery was safe -----

  lemma DoubtRecords(ns: seq<Node>, h: History, sent: seq<Msg>)
    requires Reigns(ns, h) && Votes(ns, h) && Msgs(ns, h, sent) && Commits(ns, h) && Barriers(ns, h)
    ensures var k := h.(safe := false);
            Reigns(ns, k) && Votes(ns, k) && Msgs(ns, k, sent) && Commits(ns, k) && Barriers(ns, k)
  {
    var k := h.(safe := false);
    ExtendsSelf(h);
    OldReigns(ns, h, ns, k);
    OldVotes(ns, h, ns, k);
    OldMsgs(ns, h, ns, k, sent);
    OldCommits(ns, h, ns, k);
    OldBarriers(ns, h, ns, k);
  }

  lemma DoubtNodes(ns: seq<Node>, h: History)
    requires Nodes(ns, h)
    ensures Nodes(ns, h.(safe := false))
  {
    ExtendsSelf(h);
    forall i | 0 <= i < |ns|
      ensures NodeOk(h.(safe := false), ns[i], i, |ns|)
    {
      assert NodeOk(h, ns[i], i, |ns|);
      NodeStable(h, h.(safe := false), ns[i], i, |ns|);
    }
  }

  lemma DoubtAcks(ns: seq<Node>, h: History)
    requires 0 < |ns| && Acks(ns, h)
    ensures Acks(ns, h.(safe := false))
  {
    var k := h.(safe := false);
    AckBallotsSame(h, k);
    AcksSame(ns, h, k, 0, ns[0]);
    assert ns[0 := ns[0]] == ns;
  }

  lemma KeepDoubt(c: Cluster, h: History)
    requires Inv(c, h)
    ensures Inv(c, h.(safe := false)) && Extends(h, h.(safe := false))
  {
    ExtendsSelf(h);
    DoubtNodes(c.nodes, h);
    DoubtRecords(c.nodes, h, c.sent);
    DoubtAcks(c.nodes, h);
    PollsKept(c, c, h, h.(safe := false));
  }
}
