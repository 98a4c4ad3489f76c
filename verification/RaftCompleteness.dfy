/** Growth of histories, quorum intersection, and Leader Completeness. */
module RaftCompleteness {
  import opened RaftNode
  import opened RaftHistory

  lemma QuorumsMeet(a: set<nat>, b: set<nat>, n: nat) returns (v: nat)
    requires a <= AllIds(n) && b <= AllIds(n)
    requires |a| >= n / 2 + 1 && |b| >= n / 2 + 1
    ensures v in a && v in b
  {
    SubsetSize(a + b, AllIds(n));
    assert |a + b| == |a| + |b| - |a * b|;
    v :| v in a * b;
  }

  lemma {:induction false} SubsetSize<T>(a: set<T>, b: set<T>)
    requires a <= b
    ensures |a| <= |b|
  {
    if a != {} {
      var x :| x in a;
      SubsetSize(a - {x}, b - {x});
    }
  }

  lemma GoodLogStable(h: History, k: History, log: seq<Entry>)
    requires Extends(h, k) && GoodLog(h, log)
    ensures GoodLog(k, log)
  {
    forall i | 0 < i < |log|
      ensures log[i].term in k.reigns && Agree(log, k.reigns[log[i].term].log, i)
    {
      var t := log[i].term;
      assert Agree(log, h.reigns[t].log, i);
      assert h.reigns[t].log <= k.reigns[t].log;
    }
  }

  lemma OverwrittenStable(h: History, k: History, t: nat, n: nat, top: int, higher: int)
    requires Extends(h, k) && t in h.reigns && n < |h.reigns[t].log| && h.reigns[t].log[n].term == t
    requires Overwritten(h, t, n, top) && top <= higher
    ensures Overwritten(k, t, n, higher)
  {
    var u :| u in h.reigns && t < u <= top && !Agree(h.reigns[u].log, h.reigns[t].log, n);
    assert h.reigns[t].log <= k.reigns[t].log && h.reigns[u].log <= k.reigns[u].log;
    assert u in k.reigns;
  }

  /** Two logs on the same reigns with equal terms at an index are identical up to it. */
  lemma GoodLogsMatch(h: History, a: seq<Entry>, b: seq<Entry>, i: nat)
    requires GoodLog(h, a) && GoodLog(h, b) && i < |a| && i < |b| && a[i].term == b[i].term
    ensures Agree(a, b, i)
  {
    if i > 0 {
      var r := h.reigns[a[i].term].log;
      assert Agree(a, r, i) && Agree(b, r, i);
    }
  }

  /** An up-to-date candidate has every entry of a voter's log that all leaders in between kept. */
  lemma CandidateHasEntry(h: History, cand: seq<Entry>, voter: seq<Entry>, t: nat, n: nat, u: nat)
    requires t in h.reigns && 0 < n < |h.reigns[t].log| && h.reigns[t].log[n].term == t
    requires GoodLog(h, cand) && GoodLog(h, voter) && Below(cand, u - 1) && NotOlder(cand, voter)
    requires Agree(voter, h.reigns[t].log, n)
    requires forall w | w in h.reigns && t < w < u ::
             Sorted(h.reigns[w].log)
             && Agree(h.reigns[w].log, h.reigns[t].log, n)
    ensures Agree(cand, h.reigns[t].log, n)
  {
    var lc, lv := |cand| - 1, |voter| - 1;
    var s := cand[lc].term;
    assert voter[n].term == t <= voter[lv].term;
    assert 0 < lc && s in h.reigns && Agree(cand, h.reigns[s].log, lc);
    if s == voter[lv].term {
      assert Agree(voter, h.reigns[s].log, lv);
    } else {
      var r := h.reigns[s].log;
      assert t < s < u && Agree(r, h.reigns[t].log, n);
      assert r[n].term == t && r[lc].term == s;
    }
  }

  ghost predicate Core(ns: seq<Node>, h: History) {
    Reigns(ns, h) && Votes(ns, h) && Acks(ns, h) && Commits(ns, h)
  }

  /** Leader Completeness: an index committed in term t is in the log of every leader from t on. */
  lemma {:induction false} LeaderComplete(ns: seq<Node>, h: History, t: nat, n: nat, u: nat)
    requires Core(ns, h) && (t, n) in h.commits && u in h.reigns && t <= u
    ensures t in h.reigns && Agree(h.reigns[u].log, h.reigns[t].log, n)
    decreases u
  {
    assert CommitOk(ns, h, t, n) && ReignOk(ns, h, u);
    if t < u {
      forall w | w in h.reigns && t < w < u
        ensures Sorted(h.reigns[w].log) && Agree(h.reigns[w].log, h.reigns[t].log, n)
      {
        assert ReignOk(ns, h, w);
        LeaderComplete(ns, h, t, n, w);
      }
      var r := h.reigns[u];
      var v := QuorumsMeet(h.commits[(t, n)], r.quorum, |ns|);
      assert Confirmed(h, v, t, n) && Matters(h, v, u) && VoteOk(ns, h, v, u) && VoteOk(ns, h, r.leader, u);
      var ballot, start := h.votes[(v, u)].log, h.votes[(r.leader, u)].log;
      assert !Overwritten(h, t, n, u - 1);
      CandidateHasEntry(h, start, ballot, t, n, u);
      assert start <= r.log;
    }
  }
}
