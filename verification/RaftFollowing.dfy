/** Elementary transitions of a follower: taking entries from a leader and following its commit index. */
module RaftFollowing {
  import opened RaftNode
  import opened RaftCluster
  import opened RaftHistory
  import opened RaftCompleteness
  import opened RaftGrowth
  import opened RaftSteps
  import opened RaftLeading

  // ----- the log after an accepted AppendEntries -----

  /** Where two logs have equal terms they are identical up to there. */
  ghost predicate Matched(a: seq<Entry>, b: seq<Entry>) {
    forall j: nat | j < |a| && j < |b| && a[j].term == b[j].term :: Agree(a, b, j)
  }

  /** b is what becomes of log a when it is overwritten by leader log `lead` up to index n. */
  ghost predicate Overlaid(a: seq<Entry>, b: seq<Entry>, lead: seq<Entry>, n: nat) {
    && Agree(b, lead, n) && (b == a || b == lead[..n + 1])
    && forall x: nat | Agree(a, lead, x) :: Agree(b, lead, x)
  }

  ghost predicate Asked(z: int) {
    true
  }

  /** b is r with its log overlaid; as one fact. */
  ghost predicate Laid(r: Node, b: Node, lead: seq<Entry>, n: nat) {
    forall z: int {:trigger Asked(z)} :: Asked(z) ==> b == r.(log := b.log) && Overlaid(r.log, b.log, lead, n)
  }

  /** What the AppendEntries loop makes of r with the n entries of the leader's log from i on. */
  function PutSlice(r: Node, i: nat, lead: seq<Entry>, n: nat): Node
    requires i + n <= |lead|
  {
    PutEntries(r, i, lead[i..i + n]).0
  }

  lemma PutStep(r: Node, i: nat, lead: seq<Entry>, n: nat)
    requires i + n < |lead|
    ensures PutSlice(r, i, lead, n + 1) == PutEntry(PutSlice(r, i, lead, n), i + n, lead[i + n])
  {
    assert lead[i..i + n + 1][..n] == lead[i..i + n];
  }

  lemma LaidIs(r: Node, b: Node, lead: seq<Entry>, n: nat)
    requires Laid(r, b, lead, n)
    ensures b == r.(log := b.log) && Overlaid(r.log, b.log, lead, n)
  {
    assert Asked(0);
  }

  lemma LaidSelf(r: Node, lead: seq<Entry>, n: nat)
    requires Agree(r.log, lead, n)
    ensures Laid(r, r, lead, n)
  {
  }

  lemma {:induction false} PutLaid(r: Node, i: nat, lead: seq<Entry>, n: nat)
    requires r.base == 0 && 1 <= i <= |r.log| && i + n <= |lead|
    requires Agree(r.log, lead, i - 1) && Plain(lead) && Matched(r.log, lead)
    ensures Laid(r, PutSlice(r, i, lead, n), lead, i - 1 + n)
    decreases n
  {
    if n == 0 {
      LaidSelf(r, lead, i - 1);
      assert lead[i..i] == [];
    } else {
      PutLaid(r, i, lead, n - 1);
      PutStep(r, i, lead, n - 1);
      PutOne(r, PutSlice(r, i, lead, n - 1), i + n - 1, lead);
    }
  }

  lemma PutOne(r: Node, a: Node, k: nat, lead: seq<Entry>)
    requires r.base == 0 && 0 < k < |lead| && Plain(lead) && Matched(r.log, lead) && Laid(r, a, lead, k - 1)
    ensures Laid(r, PutEntry(a, k, lead[k]), lead, k)
  {
    assert Asked(0);
    var b := PutEntry(a, k, lead[k]);
    if k < |a.log| && a.log[k].term == lead[k].term {
      assert Agree(r.log, lead, k);
    } else {
      assert b.log == a.log[..k] + [lead[k]];
      assert b.log == lead[..k + 1];
    }
  }

  /** The AppendEntries loop overlays the follower's log with the leader's slice and nothing else. */
  lemma PutOverlays(r: Node, i: nat, lead: seq<Entry>, n: nat)
    requires r.base == 0 && 1 <= i <= |r.log| && i + n <= |lead|
    requires Agree(r.log, lead, i - 1) && Plain(lead) && Matched(r.log, lead)
    ensures var b := PutEntries(r, i, lead[i..i + n]).0;
            b == r.(log := b.log) && Overlaid(r.log, b.log, lead, i - 1 + n)
  {
    PutLaid(r, i, lead, n);
    LaidIs(r, PutSlice(r, i, lead, n), lead, i - 1 + n);
  }

  lemma {:induction false} FoldPlain(members: set<nat>, es: seq<Entry>)
    requires Plain(es)
    ensures FoldConfig(members, es) == members
    decreases |es|
  {
    if es != [] { FoldPlain(members, es[..|es| - 1]); }
  }

  lemma PrefixGood(h: History, log: seq<Entry>, n: nat)
    requires GoodLog(h, log) && 0 < n <= |log|
    ensures GoodLog(h, log[..n])
  {
    forall i | 0 < i < n
      ensures log[i].term in h.reigns && Agree(log[..n], h.reigns[log[i].term].log, i)
    {
      assert Agree(log, h.reigns[log[i].term].log, i);
    }
  }

  lemma SliceFits(ns: seq<Node>, h: History, v: nat, m: Msg)
    requires v < |ns| && NodeOk(h, ns[v], v, |ns|) && Reigns(ns, h) && m.AppendEntries? && SliceOk(h, m)
    requires PrevMatches(ns[v], m)
    ensures Agree(ns[v].log, h.reigns[m.term].log, m.prevIndex) && Matched(ns[v].log, h.reigns[m.term].log)
    ensures GoodLog(h, h.reigns[m.term].log) && Below(h.reigns[m.term].log, m.term)
  {
    var a, lead := ns[v].log, h.reigns[m.term].log;
    assert ReignOk(ns, h, m.term);
    forall j: nat | j < |a| && j < |lead| && a[j].term == lead[j].term
      ensures Agree(a, lead, j)
    {
      GoodLogsMatch(h, a, lead, j);
    }
  }

  lemma AcceptIsOverlay(r: Node, m: Msg, lead: seq<Entry>)
    requires m.AppendEntries? && r.base == 0 && r.members == r.baseMembers && 0 <= m.prevIndex
    requires m.prevIndex + |m.entries| < |lead| && m.entries == lead[m.prevIndex + 1..m.prevIndex + 1 + |m.entries|]
    requires Agree(r.log, lead, m.prevIndex) && Matched(r.log, lead) && Plain(r.log) && Plain(lead)
    ensures var b := AcceptEntries(r, m);
            b == r.(log := b.log) && Overlaid(r.log, b.log, lead, m.prevIndex + |m.entries|)
  {
    var b := PutEntries(r, m.prevIndex + 1, m.entries).0;
    PutOverlays(r, m.prevIndex + 1, lead, |m.entries|);
    RecomputePlain(b, r.log, lead, m.prevIndex + |m.entries|);
    AcceptIsPut(r, m, b);
  }

  lemma AcceptIsPut(r: Node, m: Msg, b: Node)
    requires m.AppendEntries? && PutEntries(r, m.prevIndex + 1, m.entries).0 == b && RecomputeMembers(b) == b
    ensures AcceptEntries(r, m) == b
  {
  }

  lemma AcceptOverlays(ns: seq<Node>, h: History, v: nat, m: Msg)
    requires v < |ns| && NodeOk(h, ns[v], v, |ns|) && Reigns(ns, h) && m.AppendEntries? && SliceOk(h, m)
    requires PrevMatches(ns[v], m)
    ensures var b := AcceptEntries(ns[v], m);
            b == ns[v].(log := b.log) && Overlaid(ns[v].log, b.log, h.reigns[m.term].log, m.prevIndex + |m.entries|)
  {
    SliceFits(ns, h, v, m);
    AcceptIsOverlay(ns[v], m, h.reigns[m.term].log);
  }

  lemma RecomputePlain(b: Node, a: seq<Entry>, lead: seq<Entry>, n: nat)
    requires Plain(a) && Plain(lead) && Overlaid(a, b.log, lead, n) && b.members == b.baseMembers
    ensures RecomputeMembers(b) == b
  {
    assert Plain(b.log);
    FoldPlain(b.baseMembers, b.log[1..]);
  }

  lemma OverlayGood(h: History, a: seq<Entry>, b: seq<Entry>, lead: seq<Entry>, n: nat, t: nat)
    requires GoodLog(h, a) && GoodLog(h, lead) && Below(a, t) && Below(lead, t) && Overlaid(a, b, lead, n)
    ensures GoodLog(h, b) && Below(b, t)
  {
    PrefixGood(h, lead, n + 1);
  }

  // ----- the acknowledgement -----

  function Acknowledged(h: History, v: nat, t: nat, n: nat): History {
    if (v, t) in h.acked && n <= h.acked[(v, t)] then h else h.(acked := h.acked[(v, t) := n])
  }

  /** Overlaying with the leader's log keeps a confirmed entry, or the leader overwrites it. */
  lemma OverlayKeeps(ns: seq<Node>, h: History, v: nat, b: seq<Entry>, t: nat, i: nat, s: nat, n: nat)
    requires v < |ns| && AckLogs(ns, h) && Confirmed(h, v, s, n) && s <= t == ns[v].term
    requires t in h.reigns && Overlaid(ns[v].log, b, h.reigns[t].log, i)
    ensures Agree(b, h.reigns[s].log, n) || Overwritten(h, s, n, t)
  {
    if Agree(ns[v].log, h.reigns[s].log, n) {
      if Agree(h.reigns[t].log, h.reigns[s].log, n) {
        assert Agree(ns[v].log, h.reigns[t].log, n);
      } else {
        assert s < t;
      }
    }
  }

  lemma AckLogsAccept(ns: seq<Node>, h: History, v: nat, b: Node, n: nat)
    requires v < |ns| && AckBounds(ns, h) && AckLogs(ns, h) && b.term == ns[v].term && b.term in h.reigns
    requires Overlaid(ns[v].log, b.log, h.reigns[b.term].log, n)
    ensures AckLogs(ns[v := b], Acknowledged(h, v, b.term, n)) && AckBounds(ns[v := b], Acknowledged(h, v, b.term, n))
  {
    var k, ms := Acknowledged(h, v, b.term, n), ns[v := b];
    forall x: nat, t: nat, i: nat | Confirmed(k, x, t, i)
      ensures x < |ms| && (Agree(ms[x].log, k.reigns[t].log, i) || Overwritten(k, t, i, ms[x].term))
    {
      if x == v && t == b.term && i <= n {
        assert Agree(b.log, h.reigns[t].log, i);
      } else {
        assert Confirmed(h, x, t, i);
        if x == v { OverlayKeeps(ns, h, v, b.log, b.term, n, t, i); }
        OverwrittenSame(h, k, t, i, ms[x].term);
      }
    }
  }

  lemma AckBallotsAccept(ns: seq<Node>, h: History, v: nat, t: nat, n: nat)
    requires v < |ns| && AckBallots(h) && Votes(ns, h) && t == ns[v].term
    ensures AckBallots(Acknowledged(h, v, t, n))
  {
    var k := Acknowledged(h, v, t, n);
    forall x: nat, s: nat, i: nat, u: nat | Confirmed(k, x, s, i) && Matters(k, x, u) && s < u
      ensures Agree(k.votes[(x, u)].log, k.reigns[s].log, i) || Overwritten(k, s, i, u - 1)
    {
      assert Matters(h, x, u) && VoteOk(ns, h, x, u);
      assert Confirmed(h, x, s, i);
      OverwrittenSame(h, k, s, i, u - 1);
    }
  }

  lemma ExtendsAck(h: History, v: nat, t: nat, n: nat)
    ensures Extends(h, Acknowledged(h, v, t, n))
  {
  }

  /** A settled log stays settled when a leader's log is laid over it: committed entries are never cut. */
  lemma OverlaySettled(ns: seq<Node>, h: History, a: seq<Entry>, b: seq<Entry>, t: nat, n: nat, i: int)
    requires Core(ns, h) && t in h.reigns && Overlaid(a, b, h.reigns[t].log, n) && SettledLog(h, a, t, i) && 0 <= i
    ensures SettledLog(h, b, t, i) && i < |b|
  {
    if i != 0 {
      var u: nat, k: nat :| (u, k) in h.commits && u <= t && 0 < i <= k && u in h.reigns
          && Agree(a, h.reigns[u].log, i);
      LeaderComplete(ns, h, u, k, t);
      assert Agree(a, h.reigns[t].log, i);
      assert Agree(b, h.reigns[u].log, i);
    }
  }

  lemma AcceptNode(ns: seq<Node>, h: History, v: nat, b: Node, n: nat)
    requires v < |ns| && NodeOk(h, ns[v], v, |ns|) && b == ns[v].(log := b.log) && b.role == Follower
    requires GoodLog(h, b.log) && Below(b.log, b.term)
    ensures NodeOk(Acknowledged(h, v, b.term, n), b, v, |ns|)
  {
    ExtendsAck(h, v, b.term, n);
    GoodLogStable(h, Acknowledged(h, v, b.term, n), b.log);
  }

  lemma NodesAccept(ns: seq<Node>, h: History, v: nat, b: Node, n: nat)
    requires v < |ns| && Nodes(ns, h) && NodeOk(Acknowledged(h, v, b.term, n), b, v, |ns|)
    ensures Nodes(ns[v := b], Acknowledged(h, v, b.term, n))
  {
    var k, ms := Acknowledged(h, v, b.term, n), ns[v := b];
    ExtendsAck(h, v, b.term, n);
    forall i | 0 <= i < |ms|
      ensures NodeOk(k, ms[i], i, |ms|)
    {
      if i != v {
        assert NodeOk(h, ns[i], i, |ns|);
        NodeStable(h, k, ns[i], i, |ns|);
      }
    }
  }

  lemma RecordsAccept(ns: seq<Node>, h: History, v: nat, b: Node, n: nat, sent: seq<Msg>)
    requires Reigns(ns, h) && Votes(ns, h) && Msgs(ns, h, sent) && Commits(ns, h) && Barriers(ns, h)
    requires v < |ns| && NodeGrown(ns[v], b)
    ensures var ms := ns[v := b]; var k := Acknowledged(h, v, b.term, n);
            Reigns(ms, k) && Votes(ms, k) && Msgs(ms, k, sent) && Commits(ms, k) && Barriers(ms, k)
  {
    var k, ms := Acknowledged(h, v, b.term, n), ns[v := b];
    ExtendsAck(h, v, b.term, n);
    OldReigns(ns, h, ms, k);
    OldVotes(ns, h, ms, k);
    OldMsgs(ns, h, ms, k, sent);
    OldCommits(ns, h, ms, k);
    OldBarriers(ns, h, ms, k);
  }

  lemma AcksAccept(ns: seq<Node>, h: History, v: nat, b: Node, n: nat)
    requires v < |ns| && Acks(ns, h) && Votes(ns, h) && b.term == ns[v].term && b.term in h.reigns
    requires Overlaid(ns[v].log, b.log, h.reigns[b.term].log, n)
    ensures Acks(ns[v := b], Acknowledged(h, v, b.term, n))
  {
    AckLogsAccept(ns, h, v, b, n);
    AckBallotsAccept(ns, h, v, b.term, n);
  }

  lemma AcceptMachine(ns: seq<Node>, h: History, r: Node, b: Node, v: nat, n: nat)
    requires Core(ns, h) && b == r.(log := b.log) && b.term in h.reigns && MachineOk(h, r)
    requires Overlaid(r.log, b.log, h.reigns[b.term].log, n)
    ensures MachineOk(Acknowledged(h, v, b.term, n), b)
  {
    var k := Acknowledged(h, v, b.term, n);
    ExtendsAck(h, v, b.term, n);
    OverlaySettled(ns, h, r.log, b.log, b.term, n, b.commit);
    SettledLogStable(h, k, b.log, b.log, b.term, b.term, b.commit);
    AppliedStable(h, k, b.applied);
  }

  lemma PartsAccept(c: Cluster, h: History, v: nat, b: Node, n: nat)
    requires |h.counted| == |c.nodes| && Acks(c.nodes, h) && Votes(c.nodes, h) && Polls(c, h)
    requires v < |c.nodes| && b == c.nodes[v].(log := b.log) && b.role == Follower && b.term in h.reigns
    requires Overlaid(c.nodes[v].log, b.log, h.reigns[b.term].log, n)
    ensures Acks(c.nodes[v := b], Acknowledged(h, v, b.term, n)) && Polls(Put(c, v, b), Acknowledged(h, v, b.term, n))
  {
    AcksAccept(c.nodes, h, v, b, n);
    PollsKept(c, Put(c, v, b), h, Acknowledged(h, v, b.term, n));
  }

  lemma MachinesAccept(c: Cluster, h: History, v: nat, b: Node, n: nat)
    requires Core(c.nodes, h) && (h.safe ==> Machines(c, h))
    requires v < |c.nodes| && b == c.nodes[v].(log := b.log) && b.term in h.reigns
    requires Overlaid(c.nodes[v].log, b.log, h.reigns[b.term].log, n)
    ensures Acknowledged(h, v, b.term, n).safe ==> Machines(Put(c, v, b), Acknowledged(h, v, b.term, n))
  {
    ExtendsAck(h, v, b.term, n);
    if h.safe { AcceptMachine(c.nodes, h, c.nodes[v], b, v, n); }
    MachinesGrown(c, h, Acknowledged(h, v, b.term, n), v, b);
  }

  lemma NodesOverlay(ns: seq<Node>, h: History, v: nat, b: Node, n: nat)
    requires Nodes(ns, h) && Reigns(ns, h) && v < |ns| && b == ns[v].(log := b.log) && b.role == Follower
    requires b.term in h.reigns && Overlaid(ns[v].log, b.log, h.reigns[b.term].log, n)
    ensures Nodes(ns[v := b], Acknowledged(h, v, b.term, n))
  {
    assert NodeOk(h, ns[v], v, |ns|) && ReignOk(ns, h, b.term);
    OverlayGood(h, ns[v].log, b.log, h.reigns[b.term].log, n, b.term);
    AcceptNode(ns, h, v, b, n);
    NodesAccept(ns, h, v, b, n);
  }

  /** A follower's log is overlaid with its leader's and it acknowledges the last index n. */
  lemma KeepOverlay(c: Cluster, h: History, v: nat, b: Node, n: nat)
    requires Inv(c, h) && v < |c.nodes| && b == c.nodes[v].(log := b.log) && b.role == Follower && b.term in h.reigns
    requires Overlaid(c.nodes[v].log, b.log, h.reigns[b.term].log, n)
    ensures Inv(Put(c, v, b), Acknowledged(h, v, b.term, n)) && Extends(h, Acknowledged(h, v, b.term, n))
  {
    NodesOverlay(c.nodes, h, v, b, n);
    RecordsAccept(c.nodes, h, v, b, n, c.sent);
    PartsAccept(c, h, v, b, n);
    MachinesAccept(c, h, v, b, n);
    ExtendsAck(h, v, b.term, n);
  }

  // ----- following the leader's commit index -----

  /** An index up to which the follower's log was verified and which is settled, is settled in its log. */
  lemma FollowSettled(ns: seq<Node>, h: History, log: seq<Entry>, t: nat, n: nat, x: int)
    requires Core(ns, h) && t in h.reigns && Agree(log, h.reigns[t].log, n)
    requires 0 <= x <= n && Settled(h, t, x)
    ensures SettledLog(h, log, t, x)
  {
    if x > 0 {
      var u: nat, k: nat :| (u, k) in h.commits && u <= t && x <= k;
      LeaderComplete(ns, h, u, k, t);
      AgreeVia(log, h.reigns[t].log, h.reigns[u].log, n, k, x);
    }
  }

  lemma AgreeVia(a: seq<Entry>, b: seq<Entry>, c: seq<Entry>, n: nat, k: nat, i: nat)
    requires Agree(a, b, n) && Agree(b, c, k) && i <= n && i <= k
    ensures Agree(a, c, i)
  {
  }

  /** Following the leader's commit index moves the follower's no further than what was verified. */
  predicate StaysVerified(r: Node, n: nat, leaderCommit: int) {
    leaderCommit <= r.commit || leaderCommit <= n || LastIndex(r) <= r.commit || LastIndex(r) <= n
  }

  lemma FollowMachine(ns: seq<Node>, h: History, r: Node, n: nat, leaderCommit: int)
    requires Core(ns, h) && r.term in h.reigns && Agree(r.log, h.reigns[r.term].log, n)
    requires r.base == 0 && StaysVerified(r, n, leaderCommit) && Settled(h, r.term, leaderCommit) && MachineOk(h, r)
    ensures MachineOk(h, FollowCommit(r, leaderCommit))
  {
    if leaderCommit > r.commit {
      var x := if leaderCommit < LastIndex(r) then leaderCommit else LastIndex(r);
      assert r.commit <= x < |r.log| && FollowCommit(r, leaderCommit) == ApplyCommitted(r.(commit := x));
      if x == r.commit {
        FollowApplied(ns, h, r, x);
      } else {
        FollowFurther(ns, h, r, n, leaderCommit, x);
      }
    }
  }

  lemma FollowFurther(ns: seq<Node>, h: History, r: Node, n: nat, leaderCommit: int, x: int)
    requires Core(ns, h) && r.term in h.reigns && Agree(r.log, h.reigns[r.term].log, n) && r.base == 0
    requires Settled(h, r.term, leaderCommit) && MachineOk(h, r)
    requires r.commit < x < |r.log| && x <= n && x <= leaderCommit
    ensures MachineOk(h, ApplyCommitted(r.(commit := x)))
  {
    SettledBelow(h, r.term, leaderCommit, x);
    FollowSettled(ns, h, r.log, r.term, n, x);
    FollowApplied(ns, h, r, x);
  }

  lemma SettledBelow(h: History, t: nat, n: int, x: int)
    requires Settled(h, t, n) && 0 <= x <= n
    ensures Settled(h, t, x)
  {
  }

  lemma FollowApplied(ns: seq<Node>, h: History, r: Node, x: int)
    requires Commits(ns, h) && MachineOk(h, r) && r.base == 0 && r.commit <= x < |r.log|
    requires SettledLog(h, r.log, r.term, x)
    ensures MachineOk(h, ApplyCommitted(r.(commit := x)))
  {
    CommitsBounded(ns, h);
    ApplySettled(h, r.(commit := x));
    ApplyFrame(r.(commit := x));
  }

  lemma CommitsBounded(ns: seq<Node>, h: History)
    requires Commits(ns, h)
    ensures forall u: nat, k: nat | (u, k) in h.commits :: u in h.reigns && k < |h.reigns[u].log|
  {
    assert forall u: nat, k: nat | (u, k) in h.commits :: CommitOk(ns, h, u, k);
  }

  lemma KeepFollow(c: Cluster, h: History, v: nat, n: nat, leaderCommit: int)
    requires Inv(c, h) && v < |c.nodes| && c.nodes[v].role == Follower
    requires c.nodes[v].term in h.reigns && Agree(c.nodes[v].log, h.reigns[c.nodes[v].term].log, n)
    requires h.safe ==> StaysVerified(c.nodes[v], n, leaderCommit) && Settled(h, c.nodes[v].term, leaderCommit)
    ensures Inv(Put(c, v, FollowCommit(c.nodes[v], leaderCommit)), h)
  {
    var ns, r := c.nodes, c.nodes[v];
    var b := FollowCommit(r, leaderCommit);
    assert NodeOk(h, r, v, |ns|);
    if leaderCommit > r.commit {
      ApplyFrame(r.(commit := if leaderCommit < LastIndex(r) then leaderCommit else LastIndex(r)));
    }
    assert b == r.(commit := b.commit, lastApplied := b.lastApplied, applied := b.applied);
    if h.safe { FollowMachine(ns, h, r, n, leaderCommit); }
    KeepNode(c, h, v, b);
  }
}
