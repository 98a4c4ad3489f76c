/** The safety theorems of Raft, over every run of a cluster. */
module RaftSafety {
  import opened RaftNode
  import opened RaftCluster
  import opened RaftHistory
  import opened RaftCompleteness
  import opened RaftReading
  import opened RaftHandlers
  import opened RaftEvents
  import opened RaftBatch

  /** Node v of the cluster after the first i events. */
  function NodeAt(c: Cluster, es: seq<Event>, i: nat, v: nat): Node
    requires i <= |es| && v < |c.nodes|
  {
    SizeKept(c, es[..i]);
    Run(c, es[..i]).nodes[v]
  }

  lemma {:induction false} SizeKept(c: Cluster, es: seq<Event>)
    ensures |Run(c, es).nodes| == |c.nodes|
    decreases |es|
  {
    if es != [] { SizeKept(c, es[..|es| - 1]); }
  }

  /** What holds of every reachable cluster. */
  lemma SoundAfter(c: Cluster, es: seq<Event>) returns (h: History)
    requires Fresh(c)
    ensures Sound(Run(c, es), h) && (SafeRun(c, es) ==> h.safe)
  {
    var hs := RunHistories(c, es);
    assert es[..|es|] == es;
    h := hs[|es|];
    if SafeRun(c, es) { SafeSoFar(c, es, hs, |es|); }
  }

  /** Election Safety: the leaders of one term, at whatever two moments of a run, are the same node. */
  lemma ElectionSafety(c: Cluster, es: seq<Event>, i: nat, j: nat, v: nat, w: nat)
    requires Fresh(c) && i <= j <= |es| && v < |c.nodes| && w < |c.nodes|
    requires NodeAt(c, es, i, v).role == Leader && NodeAt(c, es, j, w).role == Leader
    requires NodeAt(c, es, i, v).term == NodeAt(c, es, j, w).term
    ensures v == w
  {
    var hs := RunHistories(c, es);
    SizeKept(c, es[..i]);
    SizeKept(c, es[..j]);
    NodeOf(Run(c, es[..i]), hs[i], v);
    NodeOf(Run(c, es[..j]), hs[j], w);
    Later(c, es, hs, i, j);
  }

  /** Log Matching: logs with the same term at an index, at whatever two moments, are identical up to it. */
  lemma LogMatching(c: Cluster, es: seq<Event>, i: nat, j: nat, v: nat, w: nat, n: nat)
    requires Fresh(c) && i <= j <= |es| && v < |c.nodes| && w < |c.nodes|
    requires n < |NodeAt(c, es, i, v).log| && n < |NodeAt(c, es, j, w).log|
    requires NodeAt(c, es, i, v).log[n].term == NodeAt(c, es, j, w).log[n].term
    ensures Agree(NodeAt(c, es, i, v).log, NodeAt(c, es, j, w).log, n)
  {
    var hs := RunHistories(c, es);
    SizeKept(c, es[..i]);
    SizeKept(c, es[..j]);
    NodeOf(Run(c, es[..i]), hs[i], v);
    NodeOf(Run(c, es[..j]), hs[j], w);
    Later(c, es, hs, i, j);
    GoodLogStable(hs[i], hs[j], NodeAt(c, es, i, v).log);
    GoodLogsMatch(hs[j], NodeAt(c, es, i, v).log, NodeAt(c, es, j, w).log, n);
  }

  lemma SettledAt(c: Cluster, h: History, v: nat) returns (t: nat, n: nat)
    requires Sound(c, h) && h.safe && v < |c.nodes| && c.nodes[v].commit > 0
    ensures (t, n) in h.commits && t <= c.nodes[v].term && c.nodes[v].commit <= n && t in h.reigns
    ensures Agree(c.nodes[v].log, h.reigns[t].log, c.nodes[v].commit)
  {
    Unfold(c, h);
    assert MachineOk(h, c.nodes[v]);
    t, n :| (t, n) in h.commits && t <= c.nodes[v].term && c.nodes[v].commit <= n && t in h.reigns
      && Agree(c.nodes[v].log, h.reigns[t].log, c.nodes[v].commit);
  }

  lemma CommitBounds(c: Cluster, h: History, v: nat)
    requires Sound(c, h) && h.safe && v < |c.nodes|
    ensures 0 <= c.nodes[v].commit < |c.nodes[v].log| && GoodLog(h, c.nodes[v].log)
  {
    Unfold(c, h);
    assert MachineOk(h, c.nodes[v]) && NodeOk(h, c.nodes[v], v, |c.nodes|);
  }

  /** Leader Completeness: what any node has committed is in the log of every later leader of its term or above. */
  lemma LeaderCompleteness(c: Cluster, es: seq<Event>, i: nat, j: nat, v: nat, w: nat)
    requires Fresh(c) && i <= j <= |es| && v < |c.nodes| && w < |c.nodes| && SafeRun(c, es[..i])
    requires NodeAt(c, es, j, w).role == Leader && NodeAt(c, es, i, v).term <= NodeAt(c, es, j, w).term
    ensures NodeAt(c, es, i, v).commit >= 0
    ensures Agree(NodeAt(c, es, i, v).log, NodeAt(c, es, j, w).log, NodeAt(c, es, i, v).commit)
  {
    var hs := RunHistories(c, es);
    var a, b := NodeAt(c, es, i, v), NodeAt(c, es, j, w);
    SizeKept(c, es[..i]);
    SizeKept(c, es[..j]);
    Later(c, es, hs, i, j);
    SafeSoFar(c, es, hs, i);
    CommitBounds(Run(c, es[..i]), hs[i], v);
    NodeOf(Run(c, es[..j]), hs[j], w);
    if a.commit > 0 {
      var t, n := SettledAt(Run(c, es[..i]), hs[i], v);
      assert hs[i].reigns[t].log <= hs[j].reigns[t].log;
      CompleteIn(Run(c, es[..j]), hs[j], t, n, b.term);
    }
  }

  lemma CompleteIn(c: Cluster, h: History, t: nat, n: nat, u: nat)
    requires Sound(c, h) && (t, n) in h.commits && u in h.reigns && t <= u
    ensures t in h.reigns && Agree(h.reigns[u].log, h.reigns[t].log, n)
  {
    Unfold(c, h);
    LeaderComplete(c.nodes, h, t, n, u);
  }

  /** Two committed indices lie on one sequence of entries. */
  lemma CommitsAgree(c: Cluster, h: History, t: nat, n: nat, u: nat, k: nat, x: nat)
    requires Sound(c, h) && (t, n) in h.commits && (u, k) in h.commits && x <= n && x <= k
    ensures t in h.reigns && u in h.reigns && Agree(h.reigns[t].log, h.reigns[u].log, x)
  {
    CommitReign(c, h, t, n);
    CommitReign(c, h, u, k);
    if t <= u { CompleteIn(c, h, t, n, u); } else { CompleteIn(c, h, u, k, t); }
  }

  lemma CommitReign(c: Cluster, h: History, t: nat, n: nat)
    requires Sound(c, h) && (t, n) in h.commits
    ensures t in h.reigns
  {
    Unfold(c, h);
    assert CommitOk(c.nodes, h, t, n);
  }

  /** Committed prefixes, of any nodes at any two moments, agree wherever both reach. */
  lemma CommittedPrefixesAgree(c: Cluster, es: seq<Event>, i: nat, j: nat, v: nat, w: nat, x: nat)
    requires Fresh(c) && i <= j <= |es| && v < |c.nodes| && w < |c.nodes| && SafeRun(c, es[..j])
    requires x <= NodeAt(c, es, i, v).commit && x <= NodeAt(c, es, j, w).commit
    ensures Agree(NodeAt(c, es, i, v).log, NodeAt(c, es, j, w).log, x)
  {
    var hs := RunHistories(c, es);
    var a, b := NodeAt(c, es, i, v), NodeAt(c, es, j, w);
    SizeKept(c, es[..i]);
    SizeKept(c, es[..j]);
    Later(c, es, hs, i, j);
    SafeSoFar(c, es, hs, j);
    CommitBounds(Run(c, es[..i]), hs[i], v);
    CommitBounds(Run(c, es[..j]), hs[j], w);
    if x > 0 {
      var t, n := SettledAt(Run(c, es[..i]), hs[i], v);
      var u, k := SettledAt(Run(c, es[..j]), hs[j], w);
      assert hs[i].reigns[t].log <= hs[j].reigns[t].log;
      CommitsAgree(Run(c, es[..j]), hs[j], t, n, u, k, x);
    }
  }

  /** State Machine Safety: in a run whose deliveries were safe no two nodes ever apply different commands at
      one index. */
  lemma StateMachineSafety(c: Cluster, es: seq<Event>, v: nat, w: nat, x: Applied, y: Applied)
    requires Fresh(c) && SafeRun(c, es) && v < |c.nodes| && w < |c.nodes|
    requires x in NodeAt(c, es, |es|, v).applied && y in NodeAt(c, es, |es|, w).applied && x.index == y.index
    ensures x.command == y.command
  {
    var hs := RunHistories(c, es);
    assert es[..|es|] == es;
    SizeKept(c, es);
    var h := hs[|es|];
    SafeSoFar(c, es, hs, |es|);
    var t, n := AppliedFrom(Run(c, es), h, v, x);
    var u, k := AppliedFrom(Run(c, es), h, w, y);
    CommitsAgree(Run(c, es), h, t, n, u, k, x.index);
  }

  lemma AppliedFrom(c: Cluster, h: History, v: nat, x: Applied) returns (t: nat, n: nat)
    requires Sound(c, h) && h.safe && v < |c.nodes| && x in c.nodes[v].applied
    ensures (t, n) in h.commits && t in h.reigns && 0 < x.index <= n < |h.reigns[t].log|
    ensures h.reigns[t].log[x.index].command == x.command
  {
    Unfold(c, h);
    assert MachineOk(h, c.nodes[v]);
    assert AppliedOk(h, x);
    t, n :| (t, n) in h.commits && t in h.reigns && 0 < x.index <= n < |h.reigns[t].log|
      && h.reigns[t].log[x.index].command == x.command && !h.reigns[t].log[x.index].isNoop;
  }

  /** Nothing a leader reads lies outside its log or arrays, and it never needs a snapshot:
      each message to a peer is a slice of its own log. */
  lemma StaysInBounds(c: Cluster, es: seq<Event>, v: nat, p: nat)
    requires Fresh(c) && v < |c.nodes| && p < |c.nodes| && p != v
    requires NodeAt(c, es, |es|, v).role == Leader
    ensures var r := NodeAt(c, es, |es|, v); var m := AppendMsg(r, p);
            && p < |r.next| && p < |r.match_| && r.base == 0
            && 1 <= r.next[p] <= |r.log| && 0 <= r.match_[p] < |r.log|
            && m.AppendEntries? && m.prevIndex + |m.entries| < |r.log|
            && m.entries == r.log[m.prevIndex + 1..m.prevIndex + 1 + |m.entries|]
  {
    var hs := RunHistories(c, es);
    assert es[..|es|] == es;
    SizeKept(c, es);
    NodeOf(Run(c, es), hs[|es|], v);
    AppendMsgOk(Run(c, es).nodes, hs[|es|], v, p);
  }

  /** The premise of State Machine Safety, as a guard the leader could test before sending:
      the entries reach the commit index exactly when the batch limit does. */
  lemma SendReachesCommit(r: Node, p: nat)
    requires p < |r.next| && r.base == 0 && 1 <= r.next[p] <= |r.log| && r.commit <= LastIndex(r)
    ensures var m := AppendMsg(r, p);
            && m.AppendEntries?
            && (m.leaderCommit <= m.prevIndex + |m.entries| <==> r.commit <= r.next[p] - 1 + r.lim.maxBatch)
  {
  }

  /** ReadIndex freshness: when a barrier opened by event i is confirmed at moment j, no node had
      led a later term by then, and the confirmed index covers all that was committed by then. */
  lemma ReadIndexFresh(c: Cluster, es: seq<Event>, i: nat, j: nat, v: nat, k: nat, w: nat)
    requires Fresh(c) && i < j <= |es| && k <= i && v < |c.nodes| && w < |c.nodes|
    requires es[i] == ReadAt(v) && CanRead(Run(c, es[..i]), v)
    requires NodeAt(c, es, j, v).readConfirmed >= 0
    requires NodeAt(c, es, j, v).readEpoch == NodeAt(c, es, i, v).readEpoch + 1
    ensures NodeAt(c, es, k, w).role == Leader ==> NodeAt(c, es, k, w).term <= NodeAt(c, es, i, v).term
    ensures SafeRun(c, es[..k]) ==> NodeAt(c, es, k, w).commit <= NodeAt(c, es, j, v).readConfirmed
    ensures NodeAt(c, es, j, v).role == Leader && NodeAt(c, es, j, v).term == NodeAt(c, es, i, v).term
    ensures NodeAt(c, es, j, v).readConfirmed == NodeAt(c, es, i, v).commit
  {
    var hs := RunHistories(c, es);
    SizeKept(c, es[..i]);
    SizeKept(c, es[..k]);
    NodeOf(Run(c, es[..k]), hs[k], w);
    var b := ConfirmedBarrier(c, es, hs, i, j, v);
    Later(c, es, hs, k, i);
    if SafeRun(c, es[..k]) && NodeAt(c, es, k, w).commit > 0 {
      SafeSoFar(c, es, hs, k);
      var t, n := SettledAt(Run(c, es[..k]), hs[k], w);
      assert (t, n) in b.commits;
    }
  }

  /** The barrier that a confirmed read refers to. */
  lemma ConfirmedBarrier(c: Cluster, es: seq<Event>, hs: seq<History>, i: nat, j: nat, v: nat) returns (b: Barrier)
    requires Histories(c, es, hs) && i < j <= |es| && v < |c.nodes|
    requires es[i] == ReadAt(v) && CanRead(Run(c, es[..i]), v)
    requires NodeAt(c, es, j, v).readConfirmed >= 0
    requires NodeAt(c, es, j, v).readEpoch == NodeAt(c, es, i, v).readEpoch + 1
    ensures b == BarrierNow(Run(c, es[..i]).nodes, hs[i], NodeAt(c, es, i, v)) && FreshBarrier(b)
    ensures b.index == NodeAt(c, es, j, v).readConfirmed >= 0
    ensures NodeAt(c, es, j, v).role == Leader && NodeAt(c, es, j, v).term == b.term
  {
    SizeKept(c, es[..i]);
    SizeKept(c, es[..j]);
    NodeOf(Run(c, es[..i]), hs[i], v);
    NodeOf(Run(c, es[..j]), hs[j], v);
    b := BarrierNow(Run(c, es[..i]).nodes, hs[i], NodeAt(c, es, i, v));
    assert Continues(Run(c, es[..i]), es[i], hs[i], hs[i + 1]);
    Later(c, es, hs, i + 1, j);
    ConfirmedRefers(Run(c, es[..i]).nodes, hs[i], hs[j], v, NodeAt(c, es, j, v));
  }

  lemma ConfirmedRefers(ns: seq<Node>, h: History, k: History, v: nat, r: Node)
    requires v < |ns| && ns[v].id == v == r.id && ReadOk(k, r, |ns|) && r.readConfirmed >= 0
    requires r.readEpoch == ns[v].readEpoch + 1
    requires forall x | x in BarrierRecorded(ns, h, ns[v]).barriers ::
               x in k.barriers && k.barriers[x] == BarrierRecorded(ns, h, ns[v]).barriers[x]
    ensures var b := BarrierNow(ns, h, ns[v]);
            FreshBarrier(b) && r.role == Leader && r.term == b.term && r.readConfirmed == b.index
  {
    assert (v, r.readEpoch) in BarrierRecorded(ns, h, ns[v]).barriers;
  }
}
