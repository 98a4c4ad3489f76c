/** Why State Machine Safety needs its premise: a follower clamps the leader's commit index to its
    own last index (src/raft.c), not to the last index the message verified, and the batch limit
    lets the two differ. */
module RaftBatch {
  import opened RaftNode
  import opened RaftCluster

  lemma {:induction false} PutKeepsCommit(r: Node, i: int, es: seq<Entry>)
    ensures PutEntries(r, i, es).0.commit == r.commit
    decreases |es|
  {
    if es != [] { PutKeepsCommit(r, i, es[..|es| - 1]); }
  }

  /** The follower as it takes the entries of the message. */
  function Receiving(r: Node, m: Msg): Node
    requires m.AppendEntries?
  {
    StepDownIfHigher(r, m.term).(role := Follower, electionElapsed := 0)
  }

  /** Some entry of the message has another term than the follower's entry at its index. */
  ghost predicate Cuts(r: Node, i: int, es: seq<Entry>) {
    exists k :: 0 <= k < |es| && Conflicts(r, i + k, es[k])
  }

  lemma CutsSnoc(r: Node, i: int, es: seq<Entry>)
    requires es != []
    ensures var n := |es| - 1; Cuts(r, i, es) <==> Cuts(r, i, es[..n]) || Conflicts(r, i + n, es[n])
  {
    var n := |es| - 1;
    if Cuts(r, i, es[..n]) {
      var k :| 0 <= k < n && Conflicts(r, i + k, es[..n][k]);
      assert Conflicts(r, i + k, es[k]);
    }
    if Cuts(r, i, es) {
      var k :| 0 <= k < |es| && Conflicts(r, i + k, es[k]);
      assert k < n ==> Conflicts(r, i + k, es[..n][k]);
    }
  }

  /** Where the loop over the entries ends the log: at the last of them after a cut, else not before
      the follower's own end, and then nothing of its own is lost. */
  lemma {:induction false} PutEnds(r: Node, i: int, es: seq<Entry>)
    requires r.base < i <= LastIndex(r) + 1
    ensures var b := PutEntries(r, i, es).0;
            && b.base == r.base && (Cuts(r, i, es) || r.log <= b.log)
            && LastIndex(b) == if Cuts(r, i, es) || LastIndex(r) < i + |es| - 1 then i + |es| - 1 else LastIndex(r)
    decreases |es|
  {
    if es != [] {
      PutEnds(r, i, es[..|es| - 1]);
      CutsSnoc(r, i, es);
    }
  }

  /** What a follower could check before it takes an AppendEntries. */
  ghost predicate SafeDelivery(r: Node, m: Msg)
    requires m.AppendEntries?
  {
    var verified := m.prevIndex + |m.entries|;
    || m.term < r.term || !PrevMatches(r, m) || m.leaderCommit <= r.commit || m.leaderCommit <= verified
    || LastIndex(r) <= r.commit || LastIndex(r) <= verified || Cuts(r, m.prevIndex + 1, m.entries)
  }

  /** A message moves a follower's commit index no further than the entries it verified if and only if it is stale
      or rejected, it announces no index beyond them or beyond the follower's, the follower's log ends by then or
      is all committed, or one of the entries conflicts with its own. */
  lemma CommitsOnlyVerified(r: Node, m: Msg)
    requires m.AppendEntries? && r.base <= m.prevIndex
    ensures var verified := m.prevIndex + |m.entries|; var after := HandleAppendEntries(r, m).0.commit;
            (after <= r.commit || after <= verified) <==> SafeDelivery(r, m)
  {
    if m.term >= r.term && PrevMatches(r, m) { CommitAfter(r, m); }
  }

  /** Where the commit index of an accepting follower ends up. */
  lemma CommitAfter(r: Node, m: Msg)
    requires m.AppendEntries? && m.term >= r.term && r.base <= m.prevIndex && PrevMatches(r, m)
    ensures var verified := m.prevIndex + |m.entries|;
            var cut := Cuts(r, m.prevIndex + 1, m.entries);
            var last := if cut || LastIndex(r) < verified then verified else LastIndex(r);
            HandleAppendEntries(r, m).0.commit ==
            if m.leaderCommit <= r.commit then r.commit else if m.leaderCommit < last then m.leaderCommit else last
  {
    var b := Receiving(r, m);
    CutsSame(b, r, m.prevIndex + 1, m.entries);
    AcceptEnds(b, m);
    FollowEnds(AcceptEntries(b, m), m.leaderCommit);
  }

  lemma AcceptEnds(b: Node, m: Msg)
    requires m.AppendEntries? && b.base <= m.prevIndex <= LastIndex(b)
    ensures var verified := m.prevIndex + |m.entries|; var a := AcceptEntries(b, m);
            && a.commit == b.commit
            && LastIndex(a) == if Cuts(b, m.prevIndex + 1, m.entries) || LastIndex(b) < verified then verified
                               else LastIndex(b)
  {
    PutKeepsCommit(b, m.prevIndex + 1, m.entries);
    PutEnds(b, m.prevIndex + 1, m.entries);
  }

  lemma FollowEnds(a: Node, leaderCommit: int)
    ensures FollowCommit(a, leaderCommit).commit ==
            if leaderCommit <= a.commit then a.commit
            else if leaderCommit < LastIndex(a) then leaderCommit else LastIndex(a)
  {
    if leaderCommit > a.commit {
      ApplyFrame(a.(commit := if leaderCommit < LastIndex(a) then leaderCommit else LastIndex(a)));
    }
  }

  lemma CutsSame(a: Node, b: Node, i: int, es: seq<Entry>)
    requires a.log == b.log && a.base == b.base
    ensures Cuts(a, i, es) <==> Cuts(b, i, es)
  {
    assert forall k | 0 <= k < |es| :: Conflicts(a, i + k, es[k]) <==> Conflicts(b, i + k, es[k]);
  }

  // ----- over runs -----

  lemma SafeSame(a: Node, b: Node, m: Msg)
    requires m.AppendEntries? && SafeDelivery(a, m)
    requires a.log == b.log && a.base == b.base && a.commit == b.commit && (m.term < a.term ==> m.term < b.term)
    ensures SafeDelivery(b, m)
  {
    CutsSame(a, b, m.prevIndex + 1, m.entries);
  }

  ghost predicate SafeStep(c: Cluster, e: Event) {
    e.Deliver? && InFlight(c, e.msg) && c.sent[e.msg].AppendEntries? && c.sent[e.msg].to < |c.nodes| ==>
      SafeDelivery(c.nodes[c.sent[e.msg].to], c.sent[e.msg])
  }

  /** Every AppendEntries delivered in the run was safe for its receiver. */
  ghost predicate SafeRun(c: Cluster, es: seq<Event>) {
    forall i | 0 <= i < |es| :: SafeStep(Run(c, es[..i]), es[i])
  }

  lemma SafeRunPrefix(c: Cluster, es: seq<Event>, n: nat)
    requires SafeRun(c, es) && n <= |es|
    ensures SafeRun(c, es[..n])
  {
    forall i | 0 <= i < n
      ensures SafeStep(Run(c, es[..n][..i]), es[..n][i])
    {
      assert es[..n][..i] == es[..i];
    }
  }

  lemma StepSends(c: Cluster, e: Event)
    ensures c.sent <= Step(c, e).sent
  {
  }

  lemma {:induction false} SentGrows(c: Cluster, es: seq<Event>, i: nat)
    requires i <= |es|
    ensures Run(c, es[..i]).sent <= Run(c, es).sent
    decreases |es|
  {
    var n := |es| - 1;
    if i < |es| {
      SentGrows(c, es[..n], i);
      StepSends(Run(c, es[..n]), es[n]);
      assert es[..n][..i] == es[..i];
    } else {
      assert es[..i] == es;
    }
  }

  /** Leaders that always send the entries up to the commit index they announce make every delivery safe. */
  lemma SafeSendsMakeSafeRuns(c: Cluster, es: seq<Event>)
    requires SafeSends(Run(c, es))
    ensures SafeRun(c, es)
  {
    forall i | 0 <= i < |es|
      ensures SafeStep(Run(c, es[..i]), es[i])
    {
      SentGrows(c, es, i);
    }
  }
}
