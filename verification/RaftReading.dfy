/** Elementary transitions of the ReadIndex protocol: opening a barrier and counting its echoes. */
module RaftReading {
  import opened RaftNode
  import opened RaftCluster
  import opened RaftHistory
  import opened RaftCompleteness
  import opened RaftGrowth
  import opened RaftSteps

  function TermsOf(ns: seq<Node>): seq<nat> {
    seq(|ns|, i requires 0 <= i < |ns| => ns[i].term)
  }

  function BarrierNow(ns: seq<Node>, h: History, r: Node): Barrier {
    Barrier(r.term, r.commit, TermsOf(ns), h.reigns.Keys, h.commits.Keys)
  }

  function BarrierRecorded(ns: seq<Node>, h: History, r: Node): History {
    h.(barriers := h.barriers[(r.id, r.readEpoch + 1) := BarrierNow(ns, h, r)])
  }

  /** Entries of earlier terms in a leader's log were there at its election. */
  lemma OldEntryBelowGate(ns: seq<Node>, h: History, v: nat, n: nat)
    requires v < |ns| && Reigns(ns, h) && NodeOk(h, ns[v], v, |ns|)
    requires ns[v].role == Leader && n < |ns[v].log| && ns[v].log[n].term < ns[v].term
    ensures n <= ns[v].readGate
  {
    assert ReignOk(ns, h, ns[v].term);
    assert n < |h.votes[(v, ns[v].term)].log|;
  }

  /** A leader past its gate knows every index committed up to its term. */
  lemma GateCovers(ns: seq<Node>, h: History, v: nat, t: nat, n: nat)
    requires Core(ns, h) && v < |ns| && NodeOk(h, ns[v], v, |ns|) && (t, n) in h.commits
    requires ns[v].role == Leader && ns[v].readGate <= ns[v].commit && t <= ns[v].term
    ensures n <= ns[v].commit
  {
    if t < ns[v].term {
      LeaderComplete(ns, h, t, n, ns[v].term);
      EntryTerm(ns, h, t, n);
      OldEntryBelowGate(ns, h, v, n);
    }
  }

  lemma EntryTerm(ns: seq<Node>, h: History, t: nat, n: nat)
    requires Commits(ns, h) && (t, n) in h.commits
    ensures t in h.reigns && n < |h.reigns[t].log| && h.reigns[t].log[n].term == t
  {
    assert CommitOk(ns, h, t, n);
  }

  lemma OpeningQuorums(ns: seq<Node>, h: History)
    requires Reigns(ns, h) && Votes(ns, h)
    ensures forall t | t in h.reigns :: forall p | p in h.reigns[t].quorum :: p < |TermsOf(ns)| && t <= TermsOf(ns)[p]
  {
    forall t | t in h.reigns
      ensures forall p | p in h.reigns[t].quorum :: p < |TermsOf(ns)| && t <= TermsOf(ns)[p]
    {
      assert ReignOk(ns, h, t);
      assert forall p | p in h.reigns[t].quorum :: VoteOk(ns, h, p, t);
    }
  }

  lemma FreshIfNewest(ns: seq<Node>, h: History, v: nat)
    requires Core(ns, h) && v < |ns| && NodeOk(h, ns[v], v, |ns|)
    requires ns[v].role == Leader && ns[v].readGate <= ns[v].commit
    ensures var x := BarrierNow(ns, h, ns[v]); (forall t | t in x.reigns :: t <= x.term) ==> FreshBarrier(x)
  {
    var x := BarrierNow(ns, h, ns[v]);
    if forall t | t in x.reigns :: t <= x.term {
      forall t: nat, n: nat | (t, n) in x.commits
        ensures n <= x.index
      {
        EntryTerm(ns, h, t, n);
        GateCovers(ns, h, v, t, n);
      }
    }
  }

  lemma NewBarrierOk(ns: seq<Node>, h: History, v: nat, b: Node)
    requires Core(ns, h) && v < |ns| && NodeOk(h, ns[v], v, |ns|) && b == OpenBarrier(ns[v])
    requires ns[v].role == Leader && ns[v].readGate <= ns[v].commit
    ensures BarrierOk(ns[v := b], BarrierRecorded(ns, h, ns[v]), v, b.readEpoch)
  {
    OpeningQuorums(ns, h);
    FreshIfNewest(ns, h, v);
    BarrierFits(ns, h, v, b);
  }

  lemma BarrierFits(ns: seq<Node>, h: History, v: nat, b: Node)
    requires v < |ns| && ns[v].id == v && b == OpenBarrier(ns[v])
    requires forall t | t in h.reigns :: forall p | p in h.reigns[t].quorum :: p < |TermsOf(ns)| && t <= TermsOf(ns)[p]
    requires var x := BarrierNow(ns, h, ns[v]); (forall t | t in x.reigns :: t <= x.term) ==> FreshBarrier(x)
    ensures BarrierOk(ns[v := b], BarrierRecorded(ns, h, ns[v]), v, b.readEpoch)
  {
    assert BarrierRecorded(ns, h, ns[v]).barriers[(v, b.readEpoch)] == BarrierNow(ns, h, ns[v]);
  }

  /** In a one-node cluster no other node can lead a later term. */
  lemma AloneIsFresh(ns: seq<Node>, h: History, v: nat, b: Node)
    requires Core(ns, h) && v < |ns| == 1 && NodeOk(h, ns[v], v, |ns|) && b == OpenBarrier(ns[v])
    requires ns[v].role == Leader && ns[v].readGate <= ns[v].commit
    ensures FreshBarrier(BarrierNow(ns, h, ns[v]))
  {
    NewBarrierOk(ns, h, v, b);
    forall t | t in h.reigns
      ensures t <= ns[v].term
    {
      assert ReignOk(ns, h, t);
    }
  }

  lemma OpenNode(ns: seq<Node>, h: History, v: nat, b: Node)
    requires v < |ns| && NodeOk(h, ns[v], v, |ns|) && b == OpenBarrier(ns[v])
    requires ns[v].role == Leader && ns[v].readGate <= ns[v].commit
    requires |ns| == 1 ==> FreshBarrier(BarrierNow(ns, h, ns[v]))
    ensures NodeOk(BarrierRecorded(ns, h, ns[v]), b, v, |ns|)
  {
    GoodLogSame(h, BarrierRecorded(ns, h, ns[v]), ns[v].log);
  }

  lemma GoodLogSame(h: History, k: History, log: seq<Entry>)
    requires GoodLog(h, log) && k.reigns == h.reigns
    ensures GoodLog(k, log)
  {
  }

  lemma ExtendsBarrier(ns: seq<Node>, h: History, v: nat)
    requires v < |ns| && ns[v].id == v && Barriers(ns, h)
    ensures Extends(h, BarrierRecorded(ns, h, ns[v]))
  {
    assert (v, ns[v].readEpoch + 1) !in h.barriers;
  }

  lemma NodesOpen(ns: seq<Node>, h: History, v: nat, b: Node)
    requires v < |ns| && Nodes(ns, h) && Extends(h, BarrierRecorded(ns, h, ns[v]))
    requires NodeOk(BarrierRecorded(ns, h, ns[v]), b, v, |ns|)
    ensures Nodes(ns[v := b], BarrierRecorded(ns, h, ns[v]))
  {
    var k, ms := BarrierRecorded(ns, h, ns[v]), ns[v := b];
    forall i | 0 <= i < |ms|
      ensures NodeOk(k, ms[i], i, |ms|)
    {
      if i != v {
        assert NodeOk(h, ns[i], i, |ns|);
        NodeStable(h, k, ns[i], i, |ns|);
      }
    }
  }

  /** Replies already sent echo older epochs, so the new barrier does not concern them. */
  lemma MsgsOpen(ns: seq<Node>, h: History, v: nat, b: Node, sent: seq<Msg>)
    requires v < |ns| && ns[v].id == v && Msgs(ns, h, sent) && b == OpenBarrier(ns[v])
    ensures Msgs(ns[v := b], BarrierRecorded(ns, h, ns[v]), sent)
  {
    var k, ms := BarrierRecorded(ns, h, ns[v]), ns[v := b];
    forall j | 0 <= j < |sent|
      ensures MsgOk(ms, k, sent[j])
    {
      assert MsgOk(ns, h, sent[j]);
    }
  }

  lemma RecordsOpen(ns: seq<Node>, h: History, v: nat, b: Node)
    requires Reigns(ns, h) && Votes(ns, h) && Commits(ns, h)
    requires v < |ns| && b == OpenBarrier(ns[v]) && Extends(h, BarrierRecorded(ns, h, ns[v]))
    ensures var ms := ns[v := b]; var k := BarrierRecorded(ns, h, ns[v]);
            Reigns(ms, k) && Votes(ms, k)
            && Commits(ms, k)
  {
    var k, ms := BarrierRecorded(ns, h, ns[v]), ns[v := b];
    OldReigns(ns, h, ms, k);
    OldVotes(ns, h, ms, k);
    OldCommits(ns, h, ms, k);
  }

  lemma BarriersOpen(ns: seq<Node>, h: History, v: nat, b: Node)
    requires Barriers(ns, h) && v < |ns| && ns[v].id == v && b == OpenBarrier(ns[v])
    requires Extends(h, BarrierRecorded(ns, h, ns[v]))
    requires BarrierOk(ns[v := b], BarrierRecorded(ns, h, ns[v]), v, b.readEpoch)
    ensures Barriers(ns[v := b], BarrierRecorded(ns, h, ns[v]))
  {
    OldBarriers(ns, h, ns[v := b], BarrierRecorded(ns, h, ns[v]));
  }

  lemma AcksOpen(c: Cluster, h: History, v: nat, b: Node)
    requires Acks(c.nodes, h) && |h.counted| == |c.nodes| && Polls(c, h) && v < |c.nodes|
             && b == OpenBarrier(c.nodes[v])
    ensures var k := BarrierRecorded(c.nodes, h, c.nodes[v]); Acks(c.nodes[v := b], k) && Polls(Put(c, v, b), k)
  {
    var k := BarrierRecorded(c.nodes, h, c.nodes[v]);
    AckBallotsSame(h, k);
    AcksSame(c.nodes, h, k, v, b);
    PollsKept(c, Put(c, v, b), h, k);
  }

  lemma KeepOpen(c: Cluster, h: History, v: nat)
    requires Inv(c, h) && v < |c.nodes| && c.nodes[v].role == Leader && c.nodes[v].readGate <= c.nodes[v].commit
    ensures Inv(Put(c, v, OpenBarrier(c.nodes[v])), BarrierRecorded(c.nodes, h, c.nodes[v]))
    ensures Extends(h, BarrierRecorded(c.nodes, h, c.nodes[v]))
  {
    var ns, b := c.nodes, OpenBarrier(c.nodes[v]);
    var k := BarrierRecorded(ns, h, ns[v]);
    assert NodeOk(h, ns[v], v, |ns|);
    ExtendsBarrier(ns, h, v);
    if |ns| == 1 { AloneIsFresh(ns, h, v, b); }
    NewBarrierOk(ns, h, v, b);
    OpenNode(ns, h, v, b);
    NodesOpen(ns, h, v, b);
    MsgsOpen(ns, h, v, b, c.sent);
    RecordsOpen(ns, h, v, b);
    BarriersOpen(ns, h, v, b);
    AcksOpen(c, h, v, b);
    if h.safe { MachineStable(h, k, ns[v], b); }
    MachinesGrown(c, h, k, v, b);
  }

  // ----- counting echoes -----

  /** A majority of echoes rules out a leader of a later term at opening time. */
  lemma EchoesMeanFresh(ns: seq<Node>, h: History, v: nat, acks: set<nat>)
    requires v < |ns| && NodeOk(h, ns[v], v, |ns|) && Barriers(ns, h) && Reigns(ns, h)
    requires ns[v].readBarrier >= 0 && acks <= AllIds(|ns|) && |acks| >= |ns| / 2 + 1
    requires var b := h.barriers[(v, ns[v].readEpoch)]; forall x | x in acks :: b.terms[x] <= ns[v].term
    ensures FreshBarrier(h.barriers[(v, ns[v].readEpoch)])
  {
    var b := h.barriers[(v, ns[v].readEpoch)];
    assert BarrierOk(ns, h, v, ns[v].readEpoch);
    forall t | t in b.reigns
      ensures t <= b.term
    {
      assert ReignOk(ns, h, t);
      var x := QuorumsMeet(h.reigns[t].quorum, acks, |ns|);
    }
  }

  lemma EchoNode(ns: seq<Node>, h: History, v: nat, m: Msg)
    requires v < |ns| && NodeOk(h, ns[v], v, |ns|) && Barriers(ns, h) && Reigns(ns, h)
    requires m.AppendEntriesReply? && m.to == v && MsgOk(ns, h, m) && m.success && m.term == ns[v].term
    ensures NodeOk(h, CountReadAck(ns[v], m.from, m.readEpoch), v, |ns|)
  {
    var r := ns[v];
    if r.readBarrier >= 0 && m.readEpoch == r.readEpoch {
      var acks := r.readAcks + {m.from};
      assert acks <= AllIds(|ns|);
      assert acks * r.members == acks;
      if |acks| >= Majority(r) { EchoesMeanFresh(ns, h, v, acks); }
    }
  }

  /** Only the fields of the read barrier change. */
  ghost predicate ReadOnly(a: Node, b: Node) {
    b == a.(readAcks := b.readAcks, readConfirmed := b.readConfirmed, readBarrier := b.readBarrier)
  }

  lemma KeepReadOnly(c: Cluster, h: History, v: nat, b: Node)
    requires Inv(c, h) && v < |c.nodes| && ReadOnly(c.nodes[v], b) && NodeOk(h, b, v, |c.nodes|)
    ensures Inv(Put(c, v, b), h)
  {
    ExtendsSelf(h);
    if h.safe { MachineStable(h, h, c.nodes[v], b); }
    KeepNode(c, h, v, b);
  }

  lemma KeepEcho(c: Cluster, h: History, v: nat, m: Msg)
    requires Inv(c, h) && v < |c.nodes| && m.AppendEntriesReply? && m.to == v && MsgOk(c.nodes, h, m)
    requires m.success && m.term == c.nodes[v].term
    ensures Inv(Put(c, v, CountReadAck(c.nodes[v], m.from, m.readEpoch)), h)
  {
    assert NodeOk(h, c.nodes[v], v, |c.nodes|);
    EchoNode(c.nodes, h, v, m);
    KeepReadOnly(c, h, v, CountReadAck(c.nodes[v], m.from, m.readEpoch));
  }
}
