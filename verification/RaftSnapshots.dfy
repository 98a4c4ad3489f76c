/** A peer that has fallen behind a leader's compacted log: it is sent the snapshot, and then the log. */
module RaftSnapshots {
  import opened RaftNode

  /** The peer needs entries the leader no longer has. */
  ghost predicate Behind(r: Node, p: nat) {
    && r.role == Leader && r.id in r.members && r.base >= 0 && |r.log| > 0
    && p < |r.next| && p < |r.match_| && r.next[p] <= r.base && r.match_[p] <= r.base
  }

  /** It is sent the leader's snapshot: the compacted index with its term, its value and the membership at it. */
  lemma SendsSnapshot(r: Node, p: nat)
    requires Behind(r, p)
    ensures AppendMsg(r, p) ==
            InstallSnapshot(r.id, p, r.term, r.base, r.log[0].term, r.snapshotValue, r.baseMembers)
  {
  }

  /** The state a leader's snapshot stands for. */
  ghost predicate StandsAtBase(g: Node, r: Node) {
    && g.role == Follower && g.term == r.term
    && g.base == g.commit == g.lastApplied == LastIndex(g) == r.base
    && TermAt(g, g.base) == TermAt(r, r.base) && g.snapshotValue == r.snapshotValue
    && g.members == g.baseMembers == r.baseMembers
  }

  /** A follower that has not committed that far takes it over as a whole, and says so. */
  lemma TakesSnapshot(r: Node, p: nat, f: Node)
    requires Behind(r, p) && f.id == p && f.term <= r.term && f.commit < r.base
    ensures var (g, reply) := HandleInstallSnapshot(f, AppendMsg(r, p));
            StandsAtBase(g, r) && reply == InstallSnapshotReply(p, r.id, r.term, r.base)
  {
  }

  /** One that has keeps its log, its commit index and its applied state. */
  lemma KeepsOwnState(r: Node, p: nat, f: Node)
    requires Behind(r, p) && f.id == p && f.commit >= r.base
    ensures var g := HandleInstallSnapshot(f, AppendMsg(r, p)).0;
            && g.log == f.log && g.base == f.base && g.commit == f.commit && g.lastApplied == f.lastApplied
            && g.snapshotValue == f.snapshotValue && g.members == f.members
  {
  }

  /** Once the leader knows, the peer is next to be sent what follows the snapshot. */
  lemma AppendsAfterSnapshot(r: Node, p: nat)
    requires Behind(r, p)
    ensures var s := HandleInstallSnapshotReply(r, InstallSnapshotReply(p, r.id, r.term, r.base));
            var m := AppendMsg(s, p); var n := LastIndex(r) - r.base;
            && m.AppendEntries? && m.term == r.term && m.prevIndex == r.base && m.prevTerm == TermAt(r, r.base)
            && m.entries == r.log[1..1 + if n <= r.lim.maxBatch then n else r.lim.maxBatch]
  {
    var a := RecordMatch(r, p, r.base);
    var i := FindCommit(a, LastIndex(a));
    ApplyFrame(a.(commit := i, pendingConfig := if 0 <= a.pendingConfig <= i then -1 else a.pendingConfig));
    assert r.log[1..|r.log|] == r.log[1..];
  }

  /** Entries that follow the end of a log are appended to it. */
  lemma {:induction false} PutAtEnd(g: Node, es: seq<Entry>)
    requires |g.log| > 0
    ensures var (b, cut) := PutEntries(g, LastIndex(g) + 1, es); !cut && b.log == g.log + es && b.base == g.base
    decreases |es|
  {
    if es == [] {
      assert g.log + es == g.log;
    } else {
      PutAtEnd(g, es[..|es| - 1]);
      assert g.log + es == g.log + es[..|es| - 1] + [es[|es| - 1]];
    }
  }

  lemma AcceptedAtEnd(g: Node, m: Msg)
    requires |g.log| > 0 && m.AppendEntries? && m.term == g.term && m.prevIndex == LastIndex(g)
    requires m.prevTerm == TermAt(g, LastIndex(g))
    ensures var (k, reply) := HandleAppendEntries(g, m);
            && k.log == g.log + m.entries && k.base == g.base
            && reply == AppendEntriesReply(g.id, m.from, g.term, true, LastIndex(g) + |m.entries|, m.readEpoch)
  {
    var b := g.(role := Follower, electionElapsed := 0);
    PutAtEnd(b, m.entries);
    var a := AcceptEntries(b, m);
    ApplyFrame(a.(commit := if m.leaderCommit < LastIndex(a) then m.leaderCommit else LastIndex(a)));
  }

  /** Snapshot, reply and the next append bring a peer that was behind to the leader's own log from the snapshot
      on, as far as one batch reaches. */
  lemma SnapshotCatchesUp(r: Node, p: nat, f: Node)
    requires Behind(r, p) && f.id == p && f.term <= r.term && f.commit < r.base
    ensures var (g, reply) := HandleInstallSnapshot(f, AppendMsg(r, p));
            var s := HandleInstallSnapshotReply(r, reply);
            var m := AppendMsg(s, p);
            && StandsAtBase(g, r) && m.AppendEntries?
            && var (k, ack) := HandleAppendEntries(g, m);
               var end := if LastIndex(r) <= r.base + r.lim.maxBatch then LastIndex(r) else r.base + r.lim.maxBatch;
               && ack.AppendEntriesReply? && ack.success && ack.matchIndex == end == LastIndex(k)
               && forall i | r.base < i <= end :: EntryAt(k, i) == EntryAt(r, i)
  {
    TakesSnapshot(r, p, f);
    AppendsAfterSnapshot(r, p);
    var g := HandleInstallSnapshot(f, AppendMsg(r, p)).0;
    var s := HandleInstallSnapshotReply(r, InstallSnapshotReply(p, r.id, r.term, r.base));
    AcceptedAtEnd(g, AppendMsg(s, p));
  }
}
