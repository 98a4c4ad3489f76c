/** Facts about nodes, messages and records survive when the cluster moves on
    and its history grows. */
module RaftGrowth {
  import opened RaftNode
  import opened RaftHistory
  import opened RaftCompleteness

  ghost predicate NodeGrown(a: Node, b: Node) {
    a.term <= b.term && a.readEpoch <= b.readEpoch
    && (b.role == Candidate ==> a.term < b.term || a.role == Candidate)
  }

  ghost predicate Grown(ns: seq<Node>, h: History, ms: seq<Node>, k: History) {
    && |ms| == |ns| && Extends(h, k)
    && forall i | 0 <= i < |ns| :: NodeGrown(ns[i], ms[i])
  }

  lemma OldReigns(ns: seq<Node>, h: History, ms: seq<Node>, k: History)
    requires Reigns(ns, h) && Grown(ns, h, ms, k)
    ensures forall t | t in h.reigns && k.reigns[t] == h.reigns[t] :: ReignOk(ms, k, t)
  {
    forall t | t in h.reigns && k.reigns[t] == h.reigns[t]
      ensures ReignOk(ms, k, t)
    {
      assert ReignOk(ns, h, t);
      GoodLogStable(h, k, h.reigns[t].log);
      var l := h.reigns[t].leader;
      assert NodeGrown(ns[l], ms[l]);
    }
  }

  lemma OldVotes(ns: seq<Node>, h: History, ms: seq<Node>, k: History)
    requires Votes(ns, h) && Grown(ns, h, ms, k)
    ensures forall v: nat, t: nat | (v, t) in h.votes :: VoteOk(ms, k, v, t)
  {
    forall v: nat, t: nat | (v, t) in h.votes
      ensures VoteOk(ms, k, v, t)
    {
      assert VoteOk(ns, h, v, t);
      assert NodeGrown(ns[v], ms[v]);
      GoodLogStable(h, k, h.votes[(v, t)].log);
    }
  }

  lemma MsgStable(ns: seq<Node>, h: History, ms: seq<Node>, k: History, m: Msg)
    requires MsgOk(ns, h, m) && Grown(ns, h, ms, k) && k.barriers == h.barriers
    ensures MsgOk(ms, k, m)
  {
    assert NodeGrown(ns[m.from], ms[m.from]) && NodeGrown(ns[m.to], ms[m.to]);
    if m.AppendEntries? {
      assert h.reigns[m.term].log <= k.reigns[m.term].log;
      assert SliceOk(k, m);
    }
  }

  lemma OldMsgs(ns: seq<Node>, h: History, ms: seq<Node>, k: History, sent: seq<Msg>)
    requires Msgs(ns, h, sent) && Grown(ns, h, ms, k) && k.barriers == h.barriers
    ensures Msgs(ms, k, sent)
  {
    forall j | 0 <= j < |sent|
      ensures MsgOk(ms, k, sent[j])
    {
      MsgStable(ns, h, ms, k, sent[j]);
    }
  }

  lemma OldCommits(ns: seq<Node>, h: History, ms: seq<Node>, k: History)
    requires Commits(ns, h) && Grown(ns, h, ms, k)
    ensures forall t: nat, n: nat | (t, n) in h.commits :: CommitOk(ms, k, t, n)
  {
    forall t: nat, n: nat | (t, n) in h.commits
      ensures CommitOk(ms, k, t, n)
    {
      assert CommitOk(ns, h, t, n);
      assert h.reigns[t].log <= k.reigns[t].log;
      assert forall v | v in h.commits[(t, n)] :: Confirmed(h, v, t, n);
    }
  }

  lemma OldBarriers(ns: seq<Node>, h: History, ms: seq<Node>, k: History)
    requires Barriers(ns, h) && Grown(ns, h, ms, k)
    ensures forall i: nat, e: nat | (i, e) in h.barriers :: BarrierOk(ms, k, i, e)
  {
    forall i: nat, e: nat | (i, e) in h.barriers
      ensures BarrierOk(ms, k, i, e)
    {
      assert BarrierOk(ns, h, i, e);
      assert NodeGrown(ns[i], ms[i]);
      forall v | 0 <= v < |ns|
        ensures h.barriers[(i, e)].terms[v] <= ms[v].term
      {
        assert NodeGrown(ns[v], ms[v]);
      }
    }
  }

  // ----- single nodes -----

  lemma LogStable(h: History, k: History, r: Node)
    requires LogOk(h, r) && Extends(h, k)
    requires r.role == Leader ==> k.reigns[r.term] == h.reigns[r.term]
    ensures LogOk(k, r)
  {
    GoodLogStable(h, k, r.log);
  }

  lemma SettledLogStable(h: History, k: History, log: seq<Entry>, grown: seq<Entry>, t: nat, top: nat, n: int)
    requires SettledLog(h, log, t, n) && Extends(h, k) && t <= top && log <= grown
    ensures SettledLog(k, grown, top, n)
  {
    if n != 0 {
      var u: nat, i: nat :| (u, i) in h.commits && u <= t && 0 < n <= i && u in h.reigns
          && Agree(log, h.reigns[u].log, n);
      assert h.reigns[u].log <= k.reigns[u].log;
      assert (u, i) in k.commits && Agree(grown, k.reigns[u].log, n);
    }
  }

  lemma SettledStable(h: History, k: History, t: nat, n: int)
    requires Settled(h, t, n) && Extends(h, k)
    ensures Settled(k, t, n)
  {
    if n != 0 {
      var u: nat, i: nat :| (u, i) in h.commits && u <= t && n <= i;
      assert (u, i) in k.commits;
    }
  }

  lemma AppliedStable(h: History, k: History, xs: seq<Applied>)
    requires (forall x | x in xs :: AppliedOk(h, x)) && Extends(h, k)
    ensures forall x | x in xs :: AppliedOk(k, x)
  {
    forall x | x in xs
      ensures AppliedOk(k, x)
    {
      assert AppliedOk(h, x);
      var u: nat, i: nat :| (u, i) in h.commits && u in h.reigns && 0 < x.index <= i < |h.reigns[u].log|
        && h.reigns[u].log[x.index].command == x.command && !h.reigns[u].log[x.index].isNoop;
      assert h.reigns[u].log <= k.reigns[u].log;
      assert (u, i) in k.commits && u in k.reigns;
    }
  }

  lemma MachineStable(h: History, k: History, a: Node, b: Node)
    requires MachineOk(h, a) && Extends(h, k)
    requires b.commit == a.commit && b.lastApplied == a.lastApplied && b.applied == a.applied
    requires a.log <= b.log && a.term <= b.term
    ensures MachineOk(k, b)
  {
    SettledLogStable(h, k, a.log, b.log, a.term, b.term, a.commit);
    AppliedStable(h, k, a.applied);
  }

  /** An unchanged node keeps its part when the history grows elsewhere. */
  lemma NodeStable(h: History, k: History, r: Node, i: nat, n: nat)
    requires NodeOk(h, r, i, n) && Extends(h, k)
    requires r.role == Leader ==> k.reigns[r.term] == h.reigns[r.term]
    requires (i, r.term) in k.votes ==> (i, r.term) in h.votes
    requires forall x: nat | (r.term, x) in k.commits && r.role == Leader :: (r.term, x) in h.commits
    ensures NodeOk(k, r, i, n)
  {
    LogStable(h, k, r);
  }
}
