/** Elementary transitions of a leader: taking office, appending, committing, opening a read barrier. */
module RaftLeading {
  import opened RaftNode
  import opened RaftCluster
  import opened RaftHistory
  import opened RaftCompleteness
  import opened RaftGrowth
  import opened RaftSteps

  /** The leader v of term t now has this log, and confirms all of it itself. */
  function Ruled(h: History, v: nat, t: nat, quorum: set<nat>, log: seq<Entry>): History
    requires 0 < |log|
  {
    h.(reigns := h.reigns[t := Reign(v, quorum, log)], acked := h.acked[(v, t) := |log| - 1])
  }

  /** Node v rules term t of b; its log may have grown by entries of that term. */
  ghost predicate Ruling(ns: seq<Node>, h: History, v: nat, b: Node, quorum: set<nat>) {
    && v < |ns| && b.term == ns[v].term && b.role == Leader && 0 < |b.log|
    && ns[v].log <= b.log && (forall i | |ns[v].log| <= i < |b.log| :: b.log[i].term == b.term)
    && (b.term in h.reigns ==>
          h.reigns[b.term].leader == v && h.reigns[b.term].quorum == quorum && h.reigns[b.term].log == ns[v].log)
  }

  lemma ExtendsRuled(ns: seq<Node>, h: History, v: nat, b: Node, quorum: set<nat>)
    requires Ruling(ns, h, v, b, quorum) && AckBounds(ns, h)
    ensures Extends(h, Ruled(h, v, b.term, quorum, b.log))
  {
    if (v, b.term) in h.acked { assert h.acked[(v, b.term)] < |h.reigns[b.term].log|; }
  }

  lemma AcksRuled(ns: seq<Node>, h: History, v: nat, b: Node, quorum: set<nat>)
    requires Ruling(ns, h, v, b, quorum) && Acks(ns, h) && Votes(ns, h)
    ensures Acks(ns[v := b], Ruled(h, v, b.term, quorum, b.log))
  {
    var k, ms := Ruled(h, v, b.term, quorum, b.log), ns[v := b];
    ExtendsRuled(ns, h, v, b, quorum);
    assert AckBounds(ms, k);
    forall x: nat, t: nat, n: nat | Confirmed(k, x, t, n)
      ensures x < |ms| && (Agree(ms[x].log, k.reigns[t].log, n) || Overwritten(k, t, n, ms[x].term))
    {
      if (x, t) != (v, b.term) {
        ConfirmedBefore(h, k, x, t, n);
        AckLogStable(ns, h, k, v, b, x, t, n);
      }
    }
    forall x: nat, s: nat, n: nat, u: nat | Confirmed(k, x, s, n) && Matters(k, x, u) && s < u
      ensures Agree(k.votes[(x, u)].log, k.reigns[s].log, n) || Overwritten(k, s, n, u - 1)
    {
      assert VoteOk(ns, h, x, u);
      assert (x, s) != (v, b.term);
      ConfirmedBefore(h, k, x, s, n);
      assert Matters(h, x, u);
      AckBallotStable(h, k, x, s, n, u);
    }
  }

  /** What is confirmed now through an acknowledgement that did not change was confirmed before. */
  lemma ConfirmedBefore(h: History, k: History, v: nat, t: nat, n: nat)
    requires Extends(h, k) && Confirmed(k, v, t, n) && (v, t) in h.acked && n <= h.acked[(v, t)]
    requires t in h.reigns && h.acked[(v, t)] < |h.reigns[t].log|
    ensures Confirmed(h, v, t, n)
  {
    assert h.reigns[t].log <= k.reigns[t].log;
  }

  lemma AckBallotStable(h: History, k: History, v: nat, t: nat, n: nat, u: nat)
    requires Extends(h, k) && AckBallots(h) && Confirmed(h, v, t, n) && Matters(h, v, u) && t < u
    ensures t in k.reigns && (v, u) in k.votes
    ensures Agree(k.votes[(v, u)].log, k.reigns[t].log, n) || Overwritten(k, t, n, u - 1)
  {
    assert h.reigns[t].log <= k.reigns[t].log;
    if !Agree(h.votes[(v, u)].log, h.reigns[t].log, n) { OverwrittenStable(h, k, t, n, u - 1, u - 1); }
  }

  lemma AckLogStable(ns: seq<Node>, h: History, k: History, v: nat, b: Node, x: nat, t: nat, n: nat)
    requires Extends(h, k) && AckLogs(ns, h) && Confirmed(h, x, t, n) && v < |ns| && ns[v].log <= b.log
             && ns[v].term <= b.term
    ensures x < |ns| && t in k.reigns
    ensures Agree(ns[v := b][x].log, k.reigns[t].log, n) || Overwritten(k, t, n, ns[v := b][x].term)
  {
    assert h.reigns[t].log <= k.reigns[t].log;
    if !Agree(ns[x].log, h.reigns[t].log, n) { OverwrittenStable(h, k, t, n, ns[x].term, ns[v := b][x].term); }
  }

  lemma NodesRuled(ns: seq<Node>, h: History, v: nat, b: Node, quorum: set<nat>)
    requires Ruling(ns, h, v, b, quorum) && Nodes(ns, h)
    requires Extends(h, Ruled(h, v, b.term, quorum, b.log))
    requires NodeOk(Ruled(h, v, b.term, quorum, b.log), b, v, |ns|)
    ensures Nodes(ns[v := b], Ruled(h, v, b.term, quorum, b.log))
  {
    var k, ms := Ruled(h, v, b.term, quorum, b.log), ns[v := b];
    forall i | 0 <= i < |ms|
      ensures NodeOk(k, ms[i], i, |ms|)
    {
      if i != v {
        assert NodeOk(h, ns[i], i, |ns|);
        NodeStable(h, k, ns[i], i, |ns|);
      }
    }
  }

  lemma KeepRuled(c: Cluster, h: History, v: nat, b: Node, quorum: set<nat>)
    requires Inv(c, h) && Ruling(c.nodes, h, v, b, quorum) && b.readEpoch == c.nodes[v].readEpoch
    requires NodeOk(Ruled(h, v, b.term, quorum, b.log), b, v, |c.nodes|)
    requires ReignOk(c.nodes[v := b], Ruled(h, v, b.term, quorum, b.log), b.term)
    requires b.commit == c.nodes[v].commit && b.lastApplied == c.nodes[v].lastApplied && b.applied == c.nodes[v].applied
    ensures Inv(Put(c, v, b), Ruled(h, v, b.term, quorum, b.log))
    ensures Extends(h, Ruled(h, v, b.term, quorum, b.log))
  {
    ExtendsRuled(c.nodes, h, v, b, quorum);
    RecordsRuled(c.nodes, h, v, b, quorum, c.sent);
    AcksRuled(c.nodes, h, v, b, quorum);
    NodesRuled(c.nodes, h, v, b, quorum);
    RestRuled(c, h, v, b, quorum);
  }

  lemma RecordsRuled(ns: seq<Node>, h: History, v: nat, b: Node, quorum: set<nat>, sent: seq<Msg>)
    requires Reigns(ns, h) && Votes(ns, h) && Msgs(ns, h, sent) && Commits(ns, h) && Barriers(ns, h)
    requires Ruling(ns, h, v, b, quorum) && b.readEpoch == ns[v].readEpoch
    requires Extends(h, Ruled(h, v, b.term, quorum, b.log))
    requires ReignOk(ns[v := b], Ruled(h, v, b.term, quorum, b.log), b.term)
    ensures var ms := ns[v := b]; var k := Ruled(h, v, b.term, quorum, b.log);
            Reigns(ms, k) && Votes(ms, k) && Msgs(ms, k, sent) && Commits(ms, k) && Barriers(ms, k)
  {
    var k, ms := Ruled(h, v, b.term, quorum, b.log), ns[v := b];
    OldReigns(ns, h, ms, k);
    OldVotes(ns, h, ms, k);
    OldMsgs(ns, h, ms, k, sent);
    OldCommits(ns, h, ms, k);
    OldBarriers(ns, h, ms, k);
  }

  lemma RestRuled(c: Cluster, h: History, v: nat, b: Node, quorum: set<nat>)
    requires |h.counted| == |c.nodes| && Polls(c, h) && (h.safe ==> Machines(c, h))
    requires Ruling(c.nodes, h, v, b, quorum) && Extends(h, Ruled(h, v, b.term, quorum, b.log))
    requires b.commit == c.nodes[v].commit && b.lastApplied == c.nodes[v].lastApplied && b.applied == c.nodes[v].applied
    ensures var k := Ruled(h, v, b.term, quorum, b.log);
            Polls(Put(c, v, b), k) && (k.safe ==> Machines(Put(c, v, b), k))
  {
    var k := Ruled(h, v, b.term, quorum, b.log);
    PollsKept(c, Put(c, v, b), h, k);
    if h.safe { MachineStable(h, k, c.nodes[v], b); }
    MachinesGrown(c, h, k, v, b);
  }

  // ----- winning an election -----

  /** No one else has won this term. */
  lemma NoRival(c: Cluster, h: History, v: nat)
    requires |h.counted| == |c.nodes| && v < |c.nodes| && PollOk(c, h, v) && Reigns(c.nodes, h)
    requires c.nodes[v].role == Candidate && c.nodes[v].votes >= |c.nodes| / 2 + 1
    ensures c.nodes[v].term !in h.reigns
  {
    var t := c.nodes[v].term;
    if t in h.reigns {
      var x := QuorumsMeet(h.reigns[t].quorum, h.counted[v], |c.nodes|);
    }
  }

  function Won(h: History, v: nat, r: Node): History
    requires v < |h.counted| && 0 < |TakeLead(r).log|
  {
    Ruled(h, v, r.term, h.counted[v], TakeLead(r).log)
  }

  lemma LeadLog(r: Node)
    requires r.base == 0 && 0 < |r.log| && r.id < |r.match_| && |r.next| == |r.match_|
    ensures var b := TakeLead(r);
            && r.log <= b.log && |b.log| <= |r.log| + 1
            && (forall i | |r.log| <= i < |b.log| :: b.log[i] == Entry(r.term, 0, false, true))
            && b == r.(role := Leader, readBarrier := -1, readConfirmed := -1, next := b.next, match_ := b.match_,
                       log := b.log, readGate := |b.log| - 1)
            && |b.next| == |r.next| && |b.match_| == |r.match_|
            && (forall p | 0 <= p < |b.next| && p in r.members :: b.next[p] == |r.log|)
            && (forall p | 0 <= p < |b.match_| && p in r.members :: b.match_[p] == if p == r.id then |b.log| - 1 else 0)
  {
  }

  lemma GoodLogGrow(h: History, k: History, log: seq<Entry>, grown: seq<Entry>, t: nat)
    requires GoodLog(h, log) && Extends(h, k) && log <= grown && Below(log, t)
    requires t in k.reigns && k.reigns[t].log == grown
    requires forall i | |log| <= i < |grown| :: grown[i].term == t && !grown[i].isConfig
    ensures GoodLog(k, grown) && Below(grown, t)
  {
    GoodLogStable(h, k, log);
    forall i | 0 < i < |grown|
      ensures grown[i].term in k.reigns && Agree(grown, k.reigns[grown[i].term].log, i)
    {
      if i < |log| { assert Agree(log, k.reigns[log[i].term].log, i); }
    }
  }

  lemma WinFacts(c: Cluster, h: History, v: nat)
    requires Inv(c, h) && v < |c.nodes| && c.nodes[v].role == Candidate && c.nodes[v].votes >= |c.nodes| / 2 + 1
    ensures var b := TakeLead(c.nodes[v]);
            && c.nodes[v].term !in h.reigns && 0 < |b.log| && Ruling(c.nodes, h, v, b, h.counted[v])
            && Extends(h, Won(h, v, c.nodes[v]))
            && GoodLog(Won(h, v, c.nodes[v]), b.log) && Below(b.log, b.term)
  {
    var a := c.nodes[v];
    assert NodeOk(h, a, v, |c.nodes|);
    assert PollOk(c, h, v);
    NoRival(c, h, v);
    LeadLog(a);
    ExtendsRuled(c.nodes, h, v, TakeLead(a), h.counted[v]);
    GoodLogGrow(h, Won(h, v, a), a.log, TakeLead(a).log, a.term);
  }

  lemma WinPeers(h: History, k: History, a: Node, n: nat)
    requires NodeOk(h, a, a.id, n) && n <= |a.match_| && a.id < n && 0 < |TakeLead(a).log|
    requires (a.id, a.term) in k.acked && |TakeLead(a).log| - 1 <= k.acked[(a.id, a.term)]
    ensures PeersOk(k, TakeLead(a), n)
  {
    LeadLog(a);
  }

  lemma WinNode(c: Cluster, h: History, v: nat)
    requires Inv(c, h) && v < |c.nodes| && c.nodes[v].role == Candidate && c.nodes[v].votes >= |c.nodes| / 2 + 1
    ensures 0 < |TakeLead(c.nodes[v]).log|
    ensures NodeOk(Won(h, v, c.nodes[v]), TakeLead(c.nodes[v]), v, |c.nodes|)
  {
    var a := c.nodes[v];
    assert NodeOk(h, a, v, |c.nodes|);
    assert PollOk(c, h, v);
    WinFacts(c, h, v);
    assert forall x: nat | (a.term, x) in h.commits :: CommitOk(c.nodes, h, a.term, x);
    WonNode(h, Won(h, v, a), a, |c.nodes|);
  }

  lemma WonNode(h: History, k: History, a: Node, n: nat)
    requires NodeOk(h, a, a.id, n) && a.id < n && a.role == Candidate && 0 < |TakeLead(a).log|
    requires a.id < |h.counted| && k == Won(h, a.id, a) && Extends(h, k)
    requires GoodLog(k, TakeLead(a).log) && Below(TakeLead(a).log, a.term)
    requires (a.id, a.term) in h.votes && a.log == h.votes[(a.id, a.term)].log
    requires forall x: nat :: (a.term, x) !in h.commits
    ensures NodeOk(k, TakeLead(a), a.id, n)
  {
    LeadLog(a);
    WinPeers(h, k, a, n);
  }

  lemma WinReign(c: Cluster, h: History, v: nat)
    requires Inv(c, h) && v < |c.nodes| && c.nodes[v].role == Candidate && c.nodes[v].votes >= |c.nodes| / 2 + 1
    ensures 0 < |TakeLead(c.nodes[v]).log|
    ensures ReignOk(c.nodes[v := TakeLead(c.nodes[v])], Won(h, v, c.nodes[v]), c.nodes[v].term)
  {
    var a := c.nodes[v];
    assert NodeOk(h, a, v, |c.nodes|);
    assert PollOk(c, h, v);
    assert VoteOk(c.nodes, h, v, a.term);
    WinFacts(c, h, v);
    LeadLog(a);
  }

  lemma KeepWin(c: Cluster, h: History, v: nat)
    requires Inv(c, h) && v < |c.nodes| && c.nodes[v].role == Candidate && c.nodes[v].votes >= |c.nodes| / 2 + 1
    ensures 0 < |TakeLead(c.nodes[v]).log|
    ensures Inv(Put(c, v, TakeLead(c.nodes[v])), Won(h, v, c.nodes[v]))
    ensures Extends(h, Won(h, v, c.nodes[v]))
  {
    WinFacts(c, h, v);
    WinNode(c, h, v);
    WinReign(c, h, v);
    LeadLog(c.nodes[v]);
    KeepRuled(c, h, v, TakeLead(c.nodes[v]), h.counted[v]);
  }

  // ----- appending -----

  function Extended(h: History, r: Node): History
    requires r.term in h.reigns && 0 < |r.log|
  {
    Ruled(h, r.id, r.term, h.reigns[r.term].quorum, r.log)
  }

  /** A leader after appending e, as raft_submit leaves it. */
  function Appended(r: Node, e: Entry): Node {
    var a := LogAppend(r, e);
    a.(match_ := SetAt(a.match_, a.id, LastIndex(a)))
  }

  lemma AppendFacts(ns: seq<Node>, h: History, v: nat, e: Entry)
    requires v < |ns| && NodeOk(h, ns[v], v, |ns|) && AckBounds(ns, h)
    requires ns[v].role == Leader && e.term == ns[v].term && !e.isConfig
    ensures var b := Appended(ns[v], e); var k := Extended(h, b);
            && Ruling(ns, h, v, b, h.reigns[b.term].quorum) && Extends(h, k)
            && GoodLog(k, b.log) && Below(b.log, b.term)
  {
    var a, b := ns[v], Appended(ns[v], e);
    ExtendsRuled(ns, h, v, b, h.reigns[b.term].quorum);
    GoodLogGrow(h, Extended(h, b), a.log, b.log, a.term);
  }

  lemma AppendNode(ns: seq<Node>, h: History, v: nat, e: Entry)
    requires v < |ns| && NodeOk(h, ns[v], v, |ns|) && AckBounds(ns, h)
    requires ns[v].role == Leader && e.term == ns[v].term && !e.isConfig
    ensures var b := Appended(ns[v], e); NodeOk(Extended(h, b), b, v, |ns|)
  {
    AppendFacts(ns, h, v, e);
    var b := Appended(ns[v], e);
    assert PeersOk(Extended(h, b), b, |ns|);
  }

  lemma AppendReign(ns: seq<Node>, h: History, v: nat, e: Entry)
    requires v < |ns| && NodeOk(h, ns[v], v, |ns|) && AckBounds(ns, h)
    requires ns[v].role == Leader && e.term == ns[v].term && !e.isConfig && ReignOk(ns, h, ns[v].term)
    ensures var b := Appended(ns[v], e); ReignOk(ns[v := b], Extended(h, b), b.term)
  {
    AppendFacts(ns, h, v, e);
  }

  lemma KeepAppend(c: Cluster, h: History, v: nat, e: Entry)
    requires Inv(c, h) && v < |c.nodes| && c.nodes[v].role == Leader && e.term == c.nodes[v].term && !e.isConfig
    ensures c.nodes[v].term in h.reigns
    ensures Inv(Put(c, v, Appended(c.nodes[v], e)), Extended(h, Appended(c.nodes[v], e)))
    ensures Extends(h, Extended(h, Appended(c.nodes[v], e)))
  {
    assert NodeOk(h, c.nodes[v], v, |c.nodes|);
    AppendFacts(c.nodes, h, v, e);
    AppendNode(c.nodes, h, v, e);
    AppendReign(c.nodes, h, v, e);
    KeepRuled(c, h, v, Appended(c.nodes[v], e), h.reigns[c.nodes[v].term].quorum);
  }

  // ----- committing -----

  /** Applying a settled log only applies committed commands. */
  lemma {:induction false} ApplySettled(h: History, r: Node)
    requires (forall x | x in r.applied :: AppliedOk(h, x)) && r.base == 0 && 0 <= r.lastApplied
    requires r.commit < |r.log| && SettledLog(h, r.log, r.term, r.commit)
    requires forall u: nat, k: nat | (u, k) in h.commits :: u in h.reigns && k < |h.reigns[u].log|
    ensures forall x | x in ApplyCommitted(r).applied :: AppliedOk(h, x)
    decreases r.commit - r.lastApplied
  {
    if r.lastApplied < r.commit {
      var i := r.lastApplied + 1;
      var e := r.log[i];
      var u: nat, k: nat :| (u, k) in h.commits && u <= r.term && 0 < r.commit <= k && u in h.reigns
        && Agree(r.log, h.reigns[u].log, r.commit);
      assert r.log[i] == h.reigns[u].log[i];
      assert !e.isNoop ==> AppliedOk(h, Applied(i, e.command));
      ApplySettled(h, r.(lastApplied := i,
                         applied := if e.isNoop then r.applied else r.applied + [Applied(i, e.command)]));
    }
  }

  function CommitRecorded(h: History, r: Node, n: nat): History {
    h.(commits := h.commits[(r.term, n) := Matching(r, n, |r.match_|)])
  }

  /** The leader found index n on a majority. */
  ghost predicate CanCommit(r: Node, n: int) {
    r.role == Leader && r.commit < n <= LastIndex(r) && Committable(r, n)
  }

  lemma CommitRecordOk(ns: seq<Node>, h: History, v: nat, n: nat)
    requires v < |ns| && Reigns(ns, h) && Commits(ns, h) && NodeOk(h, ns[v], v, |ns|) && CanCommit(ns[v], n) && 0 < n
    ensures Commits(ns, CommitRecorded(h, ns[v], n))
    ensures Extends(h, CommitRecorded(h, ns[v], n)) && (ns[v].term, n) !in h.commits
  {
    var a := ns[v];
    var q := Matching(a, n, |a.match_|);
    var k := CommitRecorded(h, a, n);
    assert forall p | p in q :: Confirmed(k, p, a.term, n);
    assert CommitOk(ns, k, a.term, n);
    OldCommits(ns, h, ns, k);
  }

  lemma KeepCommit(c: Cluster, h: History, v: nat, n: nat)
    requires Inv(c, h) && v < |c.nodes| && 0 < n && CanCommit(c.nodes[v], n)
    ensures Inv(Put(c, v, CommitTo(c.nodes[v], n)), CommitRecorded(h, c.nodes[v], n))
    ensures Extends(h, CommitRecorded(h, c.nodes[v], n))
  {
    var ns, a := c.nodes, c.nodes[v];
    assert NodeOk(h, a, v, |ns|);
    var b, k := CommitTo(a, n), CommitRecorded(h, a, n);
    var p := if 0 <= a.pendingConfig <= n then -1 else a.pendingConfig;
    ApplyFrame(a.(commit := n, pendingConfig := p));
    assert b == a.(commit := n, pendingConfig := p, lastApplied := b.lastApplied, applied := b.applied);
    CommitRecordOk(ns, h, v, n);
    CommitNodes(ns, h, v, n, b);
    if h.safe { CommitMachine(h, a, n); }
    KeepRecord(c, h, k, v, b);
  }

  lemma CommitMachine(h: History, a: Node, n: nat)
    requires MachineOk(h, a) && a.role == Leader && LogOk(h, a) && a.base == 0 && a.commit < n < |a.log| && 0 < n
    requires a.id in a.members && (a.term, n) !in h.commits
    requires forall u: nat, k: nat | (u, k) in h.commits :: u in h.reigns && k < |h.reigns[u].log|
    ensures MachineOk(CommitRecorded(h, a, n), CommitTo(a, n))
  {
    var k := CommitRecorded(h, a, n);
    var p := if 0 <= a.pendingConfig <= n then -1 else a.pendingConfig;
    var r := a.(commit := n, pendingConfig := p);
    ExtendsSelf(h);
    AppliedStable(h, k, a.applied);
    assert (a.term, n) in k.commits && Agree(r.log, k.reigns[a.term].log, n);
    ApplySettled(k, r);
    ApplyFrame(r);
  }

  lemma CommitNodes(ns: seq<Node>, h: History, v: nat, n: nat, b: Node)
    requires v < |ns| && Nodes(ns, h) && CanCommit(ns[v], n) && 0 < n && Extends(h, CommitRecorded(h, ns[v], n))
    requires b == ns[v].(commit := n, pendingConfig := b.pendingConfig, lastApplied := b.lastApplied,
             applied := b.applied)
    ensures Nodes(ns[v := b], CommitRecorded(h, ns[v], n))
  {
    var k, ms := CommitRecorded(h, ns[v], n), ns[v := b];
    assert NodeOk(h, ns[v], v, |ns|);
    forall i | 0 <= i < |ms|
      ensures NodeOk(k, ms[i], i, |ms|)
    {
      assert NodeOk(h, ns[i], i, |ns|);
      if i != v {
        NodeStable(h, k, ns[i], i, |ns|);
      } else {
        LogStable(h, k, ns[v]);
      }
    }
  }

  /** A new commit record, by a leader that keeps its log and term. */
  lemma KeepRecord(c: Cluster, h: History, k: History, v: nat, b: Node)
    requires Inv(c, h) && v < |c.nodes| && Extends(h, k) && NodeGrown(c.nodes[v], b)
    requires k == h.(commits := k.commits) && b.role == Leader
    requires b.log == c.nodes[v].log && b.term == c.nodes[v].term && Nodes(c.nodes[v := b], k) && Commits(c.nodes, k)
    requires h.safe ==> MachineOk(k, b)
    ensures Inv(Put(c, v, b), k)
  {
    RecordsOld(c.nodes, h, k, v, b, c.sent);
    AcksOld(c, h, k, v, b);
    MachinesGrown(c, h, k, v, b);
  }

  lemma AcksOld(c: Cluster, h: History, k: History, v: nat, b: Node)
    requires Acks(c.nodes, h) && |h.counted| == |c.nodes| && Polls(c, h)
    requires v < |c.nodes| && k == h.(commits := k.commits) && b.role == Leader
    requires b.log == c.nodes[v].log && b.term == c.nodes[v].term
    ensures Acks(c.nodes[v := b], k) && Polls(Put(c, v, b), k)
  {
    AckBallotsSame(h, k);
    AcksSame(c.nodes, h, k, v, b);
    PollsKept(c, Put(c, v, b), h, k);
  }

  lemma RecordsOld(ns: seq<Node>, h: History, k: History, v: nat, b: Node, sent: seq<Msg>)
    requires Reigns(ns, h) && Votes(ns, h) && Msgs(ns, h, sent) && Barriers(ns, h) && Commits(ns, k)
    requires v < |ns| && NodeGrown(ns[v], b) && Extends(h, k) && k == h.(commits := k.commits)
    ensures var ms := ns[v := b];
            Reigns(ms, k) && Votes(ms, k) && Msgs(ms, k, sent) && Commits(ms, k)
            && Barriers(ms, k)
  {
    var ms := ns[v := b];
    ExtendsSelf(k);
    OldReigns(ns, h, ms, k);
    OldVotes(ns, h, ms, k);
    OldMsgs(ns, h, ms, k, sent);
    OldCommits(ns, k, ms, k);
    OldBarriers(ns, h, ms, k);
  }
}
