/** What a leader sends, commits and hands over, seen from the outside. */
module RaftReplication {
  import opened RaftNode
  import opened RaftCluster
  import opened RaftHandlers
  import opened RaftEvents
  import opened RaftSafety
  import RaftEchoes

  // ----- one message to every other member -----

  function Receivers(ms: seq<Msg>): (ids: seq<nat>)
    ensures |ids| == |ms|
  {
    seq(|ms|, k requires 0 <= k < |ms| => ms[k].to)
  }

  /** Every other member with id >= i is there once, in the order of ids, and nobody else. */
  ghost predicate OneEach(r: Node, i: nat, ids: seq<nat>) {
    && (forall p: nat :: p in ids <==> i <= p < r.lim.maxNodes && p != r.id && p in r.members)
    && (forall j, k | 0 <= j < k < |ids| :: ids[j] < ids[k])
  }

  lemma OneEachMore(r: Node, i: nat, rest: seq<nat>)
    requires OneEach(r, i + 1, rest) && i < r.lim.maxNodes
    ensures OneEach(r, i, if i != r.id && i in r.members then [i] + rest else rest)
  {
    var ids := [i] + rest;
    assert forall p: nat :: p in ids <==> p == i || p in rest;
    assert forall k | 0 <= k < |rest| :: rest[k] in rest;
  }

  lemma ReceiversMore(m: Msg, ms: seq<Msg>)
    ensures Receivers([m] + ms) == [m.to] + Receivers(ms) && Receivers([] + ms) == Receivers(ms)
  {
    assert [] + ms == ms;
  }

  /** The message for each receiver is the one a leader makes for it. */
  ghost predicate AllAppends(r: Node, ms: seq<Msg>) {
    forall k | 0 <= k < |ms| :: ms[k] == AppendMsg(r, ms[k].to)
  }

  /** A broadcast is one append message to every other member. */
  lemma {:induction false} BroadcastReachesAll(r: Node, i: nat)
    ensures OneEach(r, i, Receivers(Broadcast(r, i))) && AllAppends(r, Broadcast(r, i))
    decreases r.lim.maxNodes - i
  {
    if i < r.lim.maxNodes {
      BroadcastReachesAll(r, i + 1);
      OneEachMore(r, i, Receivers(Broadcast(r, i + 1)));
      ReceiversMore(AppendMsg(r, i), Broadcast(r, i + 1));
    } else {
      assert Receivers([]) == [];
    }
  }

  ghost predicate AllRequests(r: Node, ms: seq<Msg>) {
    forall k | 0 <= k < |ms| :: ms[k] == RequestVote(r.id, ms[k].to, r.term, LastIndex(r), LastTerm(r))
  }

  /** A candidate asks every other member once. */
  lemma {:induction false} CandidateAsksAll(r: Node, i: nat)
    ensures OneEach(r, i, Receivers(VoteRequests(r, i))) && AllRequests(r, VoteRequests(r, i))
    decreases r.lim.maxNodes - i
  {
    if i < r.lim.maxNodes {
      CandidateAsksAll(r, i + 1);
      OneEachMore(r, i, Receivers(VoteRequests(r, i + 1)));
      ReceiversMore(RequestVote(r.id, i, r.term, LastIndex(r), LastTerm(r)), VoteRequests(r, i + 1));
    } else {
      assert Receivers([]) == [];
    }
  }

  // ----- the commit index -----

  /** More than half of the members hold index i, and its entry is of the leader's own term. */
  ghost predicate HeldByMost(r: Node, i: int) {
    && TermAt(r, i) == r.term
    && 2 * |set p: nat | p in r.members && p < |r.match_| && r.match_[p] >= i| > |r.members|
  }

  lemma CommittableIsHeld(r: Node, i: int)
    ensures Committable(r, i) <==> HeldByMost(r, i)
  {
    assert Matching(r, i, |r.match_|) == set p: nat | p in r.members && p < |r.match_| && r.match_[p] >= i;
  }

  lemma {:induction false} FoundHighest(r: Node, i: int)
    ensures var x := FindCommit(r, i);
            && x >= r.commit && (x > r.commit ==> x <= i && HeldByMost(r, x))
            && forall y | x < y <= i :: !HeldByMost(r, y)
    decreases i - r.commit
  {
    if i > r.commit {
      CommittableIsHeld(r, i);
      if !Committable(r, i) { FoundHighest(r, i - 1); }
    }
  }

  /** A leader's commit index becomes the highest index of its own term that most members hold, if that is higher;
      it never goes back. */
  lemma CommitsHighest(r: Node)
    ensures var x := AdvanceCommit(r).commit;
            && x >= r.commit && (x > r.commit ==> x <= LastIndex(r) && HeldByMost(r, x))
            && forall y | x < y <= LastIndex(r) :: !HeldByMost(r, y)
  {
    FoundHighest(r, LastIndex(r));
    var i := FindCommit(r, LastIndex(r));
    ApplyFrame(r.(commit := i, pendingConfig := if 0 <= r.pendingConfig <= i then -1 else r.pendingConfig));
  }

  // ----- membership -----

  ghost predicate MostOf(x: set<nat>, members: set<nat>) {
    x <= members && 2 * |x| > |members|
  }

  lemma UnionSize(x: set<nat>, y: set<nat>, all: set<nat>)
    requires x <= all && y <= all && x * y == {}
    ensures |x| + |y| <= |all|
  {
    assert |x + y| == |x| + |y|;
    RaftEchoes.SizeGrows(x + y, all);
  }

  lemma OneMoreMeets(a: set<nat>, b: set<nat>, x: set<nat>, y: set<nat>)
    requires a <= b && |b| == |a| + 1 && MostOf(x, a) && MostOf(y, b)
    ensures x * y != {}
  {
    if x * y == {} { UnionSize(x, y, b); }
  }

  lemma OneApart(a: set<nat>, b: set<nat>)
    requires |Diff(a, b)| == 1
    ensures (a <= b && |b| == |a| + 1) || (b <= a && |a| == |b| + 1)
  {
    assert (a - b) * (b - a) == {};
    assert a == (a * b) + (a - b) && b == (a * b) + (b - a);
    if |a - b| == 0 { assert a - b == {}; } else { assert |b - a| == 0 && b - a == {}; }
  }

  /** Memberships one node apart have no two disjoint majorities. */
  lemma SingleChangesMeet(a: set<nat>, b: set<nat>, x: set<nat>, y: set<nat>)
    requires |Diff(a, b)| == 1 && MostOf(x, a) && MostOf(y, b)
    ensures x * y != {}
  {
    OneApart(a, b);
    if a <= b {
      OneMoreMeets(a, b, x, y);
    } else {
      OneMoreMeets(b, a, y, x);
      assert x * y == y * x;
    }
  }

  /** A membership change that is taken, no earlier one of this leader being uncommitted, is the next entry of its
      log and in force at once; every majority before it meets every majority after it. */
  lemma ChangeKeepsQuorums(r: Node, command: int, x: set<nat>, y: set<nat>)
    requires var (b, i) := ChangeConfig(r, command); i != -1 && MostOf(x, r.members) && MostOf(y, b.members)
    ensures var (b, i) := ChangeConfig(r, command);
            && r.role == Leader && (r.pendingConfig < 0 || r.pendingConfig <= r.commit)
            && i == LastIndex(r) + 1 && b.log == r.log + [Entry(r.term, command, true, false)]
            && b.members == MaskOf(command) && b.pendingConfig == i && x * y != {}
  {
    SingleChangesMeet(r.members, MaskOf(command), x, y);
  }

  /** Nothing happens to a change that is not taken. */
  lemma ChangeRefused(r: Node, command: int)
    requires r.role == Leader ==> |Diff(r.members, MaskOf(command))| != 1 || 0 <= r.commit < r.pendingConfig
    ensures ChangeConfig(r, command) == (r, -1)
  {
  }

  // ----- submitting -----

  /** The index a client is given is where its command is: whenever any node has an entry of the leader's term
      at that index, it is that command. */
  lemma SubmittedIsFound(c: Cluster, es: seq<Event>, i: nat, j: nat, v: nat, w: nat, x: int)
    requires Fresh(c) && i < j <= |es| && v < |c.nodes| && w < |c.nodes| && es[i] == SubmitTo(v, x)
    requires NodeAt(c, es, i, v).role == Leader
    ensures var a := NodeAt(c, es, i, v); var n := Submit(a, x).1;
            && 0 < n == |a.log|
            && (n < |NodeAt(c, es, j, w).log| && NodeAt(c, es, j, w).log[n].term == a.term ==>
                  NodeAt(c, es, j, w).log[n] == Entry(a.term, x, false, false))
  {
    var a := NodeAt(c, es, i, v);
    var b := NodeAt(c, es, i + 1, v);
    SubmittedAt(c, es, i, v, x);
    var n := |a.log|;
    if n < |NodeAt(c, es, j, w).log| && NodeAt(c, es, j, w).log[n].term == a.term {
      LogMatching(c, es, i + 1, j, v, w, n);
    }
  }

  lemma SubmittedAt(c: Cluster, es: seq<Event>, i: nat, v: nat, x: int)
    requires Fresh(c) && i < |es| && v < |c.nodes| && es[i] == SubmitTo(v, x) && NodeAt(c, es, i, v).role == Leader
    ensures var a := NodeAt(c, es, i, v);
            && NodeAt(c, es, i + 1, v).log == a.log + [Entry(a.term, x, false, false)]
            && Submit(a, x).1 == |a.log| > 0
  {
    var hs := RunHistories(c, es);
    SizeKept(c, es[..i]);
    SizeKept(c, es[..i + 1]);
    NodeOf(Run(c, es[..i]), hs[i], v);
    assert es[..i + 1][..i] == es[..i];
  }
}
