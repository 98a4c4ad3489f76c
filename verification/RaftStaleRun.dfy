/** A run of three nodes, for every batch limit, in which two of them apply different commands at one
    index: without its premise State Machine Safety fails of src/raft.c.

    Node 0 leads term 1, replicates b entries and appends two more unsent.  Node 1 leads term 2 and
    commits another entry at the second of those indices with node 2.  Node 2 leads term 3 and sends
    node 0 more heartbeats than its log is long; node 0 rejects them all, and the rejections, delivered
    together, take its next index back to 1.  The next message carries the b shared entries and a
    commit index beyond them, and node 0 commits its own unsent entries. */
module RaftStaleRun {
  import opened RaftNode
  import opened RaftCluster

  const X := Entry(1, 5, false, false)
  const S := Entry(1, 6, false, false)
  const T := Entry(1, 7, false, false)
  const N2 := Entry(2, 0, false, true)
  const Y := Entry(2, 8, false, false)
  const N3 := Entry(3, 0, false, true)

  const Three: set<nat> := {0, 1, 2}

  // ----- what a cluster can do -----

  ghost predicate Leads(c: Cluster, d: Cluster) {
    exists es: seq<Event> :: Run(c, es) == d
  }

  lemma Then(c: Cluster, d: Cluster, e: Cluster)
    requires Leads(c, d) && Leads(d, e)
    ensures Leads(c, e)
  {
    var xs: seq<Event> :| Run(c, xs) == d;
    var ys: seq<Event> :| Run(d, ys) == e;
    RunJoin(c, xs, ys);
  }

  lemma OneStep(c: Cluster, e: Event)
    ensures Leads(c, Step(c, e))
  {
    assert [e][..0] == [];
    assert Run(c, [e]) == Step(c, e);
  }

  ghost predicate Sane(c: Cluster) {
    |c.nodes| == 3 && forall k | k in c.gone :: k < |c.sent|
  }

  /** Message m is under way at position k. */
  ghost predicate Flies(c: Cluster, k: nat, m: Msg) {
    InFlight(c, k) && c.sent[k] == m
  }

  ghost predicate Asked(z: int) {
    true
  }

  /** Handlers, with their definitions in view only where a proof unfolds them. */
  ghost predicate Gives(r: Node, m: Msg, a: Node, out: seq<Msg>) {
    forall z: int {:trigger Asked(z)} :: Asked(z) ==> Receive(r, m) == (a, out)
  }

  ghost predicate Ticks(r: Node, a: Node, out: seq<Msg>) {
    forall z: int {:trigger Asked(z)} :: Asked(z) ==> Tick(r) == (a, out)
  }

  ghost predicate Takes(r: Node, x: int, a: Node) {
    forall z: int {:trigger Asked(z)} :: Asked(z) ==> Submit(r, x).0 == a
  }

  // ----- the nodes of the run -----

  function Xs(b: nat): seq<Entry> {
    seq(b, _ => X)
  }

  function Log(b: nat, more: seq<Entry>): seq<Entry> {
    [Marker] + Xs(b) + more
  }

  lemma LogIs(b: nat, more: seq<Entry>)
    ensures var l := Log(b, more);
            && |l| == b + 1 + |more| && l[0] == Marker && (forall i | 1 <= i <= b :: l[i] == X)
            && (forall i | 0 <= i < |more| :: l[b + 1 + i] == more[i]) && l[b + 1..] == more && l[1..][..b] == Xs(b)
  {
  }

  /** What has been applied when everything up to n is. */
  function Ap(log: seq<Entry>, n: nat): seq<Applied>
    requires n < |log|
  {
    if n == 0 then [] else Ap(log, n - 1) + if log[n].isNoop then [] else [Applied(n, log[n].command)]
  }

  lemma {:induction false} ApGrows(log: seq<Entry>, more: seq<Entry>, n: nat)
    requires n < |log|
    ensures Ap(log + more, n) == Ap(log, n)
  {
    if n > 0 { ApGrows(log, more, n - 1); }
  }

  lemma {:induction false} ApplyTo(r: Node)
    requires r.base == 0 && 0 <= r.lastApplied <= r.commit < |r.log| && r.applied == Ap(r.log, r.lastApplied)
    ensures ApplyCommitted(r) == r.(lastApplied := r.commit, applied := Ap(r.log, r.commit))
    decreases r.commit - r.lastApplied
  {
    if r.lastApplied < r.commit {
      var i := r.lastApplied + 1;
      var e := r.log[i];
      var s := r.(lastApplied := i, applied := if e.isNoop then r.applied else r.applied + [Applied(i, e.command)]);
      assert s.applied == Ap(r.log, i);
      ApplyTo(s);
    }
  }

  function N(b: nat, id: nat, term: nat, vote: int, log: seq<Entry>, role: Role, commit: nat, votes: int,
             next: seq<int>, match_: seq<int>, gate: int): Node
    requires commit < |log|
  {
    Node(id, Limits(3, b), Three, Three, -1, term, vote, log, 0, 0, role, commit, commit, votes,
         next, match_, gate, 0, 1, 0, 1, -1, {}, -1, 0, Ap(log, commit))
  }

  function Start(b: nat, id: nat): Node {
    N(b, id, 0, -1, [Marker], Follower, 0, 0, [0, 0, 0], [0, 0, 0], 0)
  }

  function A1(b: nat): Node { N(b, 0, 1, 0, [Marker], Candidate, 0, 1, [0, 0, 0], [0, 0, 0], 0) }
  function A2(b: nat, j: nat): Node { N(b, 0, 1, 0, Log(j, []), Leader, 0, 2, [1, 1, 1], [j, 0, 0], 0) }
  function A3(b: nat): Node { N(b, 0, 1, 0, Log(b, [S]), Leader, 0, 2, [1, 1, 1], [b + 1, 0, 0], 0) }
  function A4(b: nat): Node { N(b, 0, 1, 0, Log(b, [S, T]), Leader, 0, 2, [1, 1, 1], [b + 2, 0, 0], 0) }
  function A5(b: nat): Node { N(b, 0, 3, -1, Log(b, [S, T]), Follower, 0, 2, [1, 1, 1], [b + 2, 0, 0], 0) }
  function A6(b: nat): Node { N(b, 0, 3, -1, Log(b, [S, T]), Follower, b + 2, 2, [1, 1, 1], [b + 2, 0, 0], 0) }

  function B1(b: nat): Node { N(b, 1, 1, 0, [Marker], Follower, 0, 0, [0, 0, 0], [0, 0, 0], 0) }
  function B2(b: nat): Node { N(b, 1, 1, 0, Log(b, []), Follower, 0, 0, [0, 0, 0], [0, 0, 0], 0) }
  function B3(b: nat): Node { N(b, 1, 2, 1, Log(b, []), Candidate, 0, 1, [0, 0, 0], [0, 0, 0], 0) }
  function B4(b: nat): Node {
    N(b, 1, 2, 1, Log(b, [N2]), Leader, 0, 2, [b + 1, b + 1, b + 1], [0, b + 1, 0], b + 1)
  }
  function B5(b: nat): Node {
    N(b, 1, 2, 1, Log(b, [N2, Y]), Leader, 0, 2, [b + 1, b + 1, b + 1], [0, b + 2, 0], b + 1)
  }
  function B6(b: nat): Node {
    N(b, 1, 2, 1, Log(b, [N2, Y]), Leader, b + 1, 2, [b + 1, b + 1, b + 2], [0, b + 2, b + 1], b + 1)
  }
  function B7(b: nat): Node {
    N(b, 1, 2, 1, Log(b, [N2, Y]), Leader, b + 2, 2, [b + 1, b + 1, b + 3], [0, b + 2, b + 2], b + 1)
  }
  function B8(b: nat): Node {
    N(b, 1, 3, 2, Log(b, [N2, Y]), Follower, b + 2, 2, [b + 1, b + 1, b + 3], [0, b + 2, b + 2], b + 1)
  }
  function B9(b: nat): Node {
    N(b, 1, 3, 2, Log(b, [N2, Y, N3]), Follower, b + 2, 2, [b + 1, b + 1, b + 3], [0, b + 2, b + 2], b + 1)
  }

  function C1(b: nat): Node { N(b, 2, 1, -1, Log(b, []), Follower, 0, 0, [0, 0, 0], [0, 0, 0], 0) }
  function C2(b: nat): Node { N(b, 2, 2, 1, Log(b, []), Follower, 0, 0, [0, 0, 0], [0, 0, 0], 0) }
  function C3(b: nat): Node { N(b, 2, 2, 1, Log(b, [N2]), Follower, 0, 0, [0, 0, 0], [0, 0, 0], 0) }
  function C4(b: nat): Node { N(b, 2, 2, 1, Log(b, [N2, Y]), Follower, b + 1, 0, [0, 0, 0], [0, 0, 0], 0) }
  function C5(b: nat): Node { N(b, 2, 3, 2, Log(b, [N2, Y]), Candidate, b + 1, 1, [0, 0, 0], [0, 0, 0], 0) }
  function C6(b: nat): Node {
    N(b, 2, 3, 2, Log(b, [N2, Y, N3]), Leader, b + 1, 2, [b + 3, b + 3, b + 3], [0, 0, b + 3], b + 3)
  }
  function C7(b: nat, j: nat): Node {
    N(b, 2, 3, 2, Log(b, [N2, Y, N3]), Leader, b + 3, 2, [b + 3 - j, b + 4, b + 3], [0, b + 3, b + 3], b + 3)
  }

  // ----- helpers about three nodes -----

  ghost predicate Small(r: Node, b: nat) {
    r.lim == Limits(3, b) && r.members == Three && r.id < 3
  }

  function Request(r: Node, p: nat): Msg {
    RequestVote(r.id, p, r.term, LastIndex(r), LastTerm(r))
  }

  lemma Asks(r: Node, b: nat, p: nat, q: nat)
    requires Small(r, b) && p < q < 3 && p != r.id && q != r.id
    ensures VoteRequests(r, 0) == [Request(r, p), Request(r, q)]
  {
    assert VoteRequests(r, 3) == [];
    assert VoteRequests(r, 2) == if r.id == 2 then [] else [Request(r, 2)];
    assert VoteRequests(r, 1) == (if r.id == 1 then [] else [Request(r, 1)]) + VoteRequests(r, 2);
    assert VoteRequests(r, 0) == (if r.id == 0 then [] else [Request(r, 0)]) + VoteRequests(r, 1);
  }

  lemma Sends(r: Node, b: nat, p: nat, q: nat)
    requires Small(r, b) && p < q < 3 && p != r.id && q != r.id
    ensures Broadcast(r, 0) == [AppendMsg(r, p), AppendMsg(r, q)]
  {
    assert Broadcast(r, 3) == [];
    assert Broadcast(r, 2) == if r.id == 2 then [] else [AppendMsg(r, 2)];
    assert Broadcast(r, 1) == (if r.id == 1 then [] else [AppendMsg(r, 1)]) + Broadcast(r, 2);
    assert Broadcast(r, 0) == (if r.id == 0 then [] else [AppendMsg(r, 0)]) + Broadcast(r, 1);
  }

  /** A follower or candidate whose timeout has come stands for election. */
  lemma Stands(r: Node, b: nat, a: Node, p: nat, q: nat)
    requires Small(r, b) && r.role != Leader && r.electionElapsed == 0 && r.electionTimeout == 1
    requires a == r.(term := r.term + 1, role := Candidate, votedFor := r.id, votes := 1)
    requires p < q < 3 && p != r.id && q != r.id
    ensures Ticks(r, a, [Request(a, p), Request(a, q)])
  {
    assert |Three| == 3;
    Asks(a, b, p, q);
  }

  /** A leader's heartbeat. */
  lemma Beats(r: Node, b: nat, p: nat, q: nat)
    requires Small(r, b) && r.role == Leader && r.heartbeatElapsed == 0 && r.heartbeatTimeout == 1
    requires p < q < 3 && p != r.id && q != r.id
    ensures Ticks(r, r, [AppendMsg(r, p), AppendMsg(r, q)])
  {
    Sends(r, b, p, q);
    assert r.(heartbeatElapsed := 0) == r;
  }

  /** A granted vote. */
  lemma Votes(r: Node, m: Msg, a: Node)
    requires m.RequestVote? && m.term > r.term && UpToDate(r, m.lastIndex, m.lastTerm)
    requires a == BecomeFollower(r, m.term).(votedFor := m.from)
    ensures Gives(r, m, a, [RequestVoteReply(r.id, m.from, m.term, true)])
  {
  }

  /** The second vote makes a leader; what it appends and sends is given. */
  lemma Wins(r: Node, b: nat, m: Msg, a: Node, p: nat, q: nat)
    requires Small(r, b) && m.RequestVoteReply? && m.granted && m.term == r.term && r.role == Candidate && r.votes == 1
    requires TakeLead(r.(votes := 2)) == a && AdvanceCommit(a) == a && a.heartbeatElapsed == 0 && Small(a, b)
    requires p < q < 3 && p != r.id && q != r.id && a.id == r.id
    ensures Gives(r, m, a, [AppendMsg(a, p), AppendMsg(a, q)])
  {
    assert |Three| == 3;
    Sends(a, b, p, q);
    assert a.(heartbeatElapsed := 0) == a;
  }

  lemma {:induction false} PutFresh(r: Node, es: seq<Entry>)
    requires r.base == 0 && r.log != [] && forall k | 0 <= k < |es| :: !es[k].isConfig
    ensures PutEntries(r, |r.log|, es) == (r.(log := r.log + es), false)
    decreases |es|
  {
    if es == [] {
      assert r.log + [] == r.log;
    } else {
      var n := |es| - 1;
      PutFresh(r, es[..n]);
      assert r.log + es[..n] + [es[n]] == r.log + es;
    }
  }

  lemma {:induction false} PutSame(r: Node, i: int, es: seq<Entry>)
    requires r.base == 0 && 1 <= i && i + |es| <= |r.log| && forall k | 0 <= k < |es| :: r.log[i + k].term == es[k].term
    ensures PutEntries(r, i, es) == (r, false)
    decreases |es|
  {
    if es != [] { PutSame(r, i, es[..|es| - 1]); }
  }

  /** Entries that continue the follower's log, and a commit index inside it. */
  lemma Extends(r: Node, m: Msg, a: Node)
    requires m.AppendEntries? && m.term >= r.term && r.base == 0 && r.log != [] && m.prevIndex == |r.log| - 1
    requires r.log[m.prevIndex].term == m.prevTerm && (forall k | 0 <= k < |m.entries| :: !m.entries[k].isConfig)
    requires a == StepDownIfHigher(r, m.term).(role := Follower, electionElapsed := 0, log := r.log + m.entries)
    requires m.leaderCommit <= r.commit
    ensures Gives(r, m, a, [AppendEntriesReply(r.id, m.from, m.term, true, m.prevIndex + |m.entries|, m.readEpoch)])
  {
    var b := StepDownIfHigher(r, m.term).(role := Follower, electionElapsed := 0);
    PutFresh(b, m.entries);
  }

  /** A previous entry of another term, or none: rejected. */
  lemma Rejects(r: Node, m: Msg, a: Node)
    requires m.AppendEntries? && m.term >= r.term && r.base == 0 && 0 <= m.prevIndex
    requires m.prevIndex >= |r.log| || r.log[m.prevIndex].term != m.prevTerm
    requires a == StepDownIfHigher(r, m.term).(role := Follower, electionElapsed := 0)
    ensures Gives(r, m, a, [AppendEntriesReply(r.id, m.from, m.term, false, 0, m.readEpoch)])
  {
  }

  /** An acknowledgement that commits index n. */
  lemma Commits(r: Node, m: Msg, s: Node, n: int, a: Node)
    requires m.AppendEntriesReply? && m.term == r.term && r.role == Leader && m.success && r.readBarrier == -1
    requires s == RecordMatch(r, m.from, m.matchIndex) && s.pendingConfig == -1
    requires FindCommit(s, LastIndex(s)) == n > s.commit
    requires a == ApplyCommitted(s.(commit := n)) && a.id in a.members && a.readBarrier == -1
    ensures Gives(r, m, a, [])
  {
  }

  /** As in Extends, with a commit index beyond the follower's. */
  lemma Follows(r: Node, m: Msg, s: Node, a: Node)
    requires m.AppendEntries? && m.term == r.term && r.role == Follower && r.electionElapsed == 0
    requires r.base == 0 && r.log != [] && m.prevIndex == |r.log| - 1
    requires r.log[m.prevIndex].term == m.prevTerm && (forall k | 0 <= k < |m.entries| :: !m.entries[k].isConfig)
    requires s == r.(log := r.log + m.entries) && r.commit < m.leaderCommit <= LastIndex(s)
    requires a == ApplyCommitted(s.(commit := m.leaderCommit))
    ensures Gives(r, m, a, [AppendEntriesReply(r.id, m.from, m.term, true, m.prevIndex + |m.entries|, m.readEpoch)])
  {
    PutFresh(r, m.entries);
    assert r.(role := Follower, electionElapsed := 0) == r;
  }

  /** Entries the follower holds already, and a commit index beyond its whole log. */
  lemma Trusts(r: Node, m: Msg, a: Node)
    requires m.AppendEntries? && m.term == r.term && r.role == Follower && r.electionElapsed == 0
    requires r.base == 0 && r.log != [] && m.prevIndex == 0 && r.log[0].term == m.prevTerm && |m.entries| < |r.log|
    requires forall k | 0 <= k < |m.entries| :: r.log[1 + k].term == m.entries[k].term
    requires r.commit < LastIndex(r) <= m.leaderCommit
    requires a == ApplyCommitted(r.(commit := LastIndex(r)))
    ensures Gives(r, m, a, [AppendEntriesReply(r.id, m.from, m.term, true, |m.entries|, m.readEpoch)])
  {
    PutSame(r, 1, m.entries);
    assert r.(role := Follower, electionElapsed := 0) == r;
  }

  lemma {:induction false} NoCommit(r: Node, i: int)
    requires forall k | r.commit < k <= i :: !Committable(r, k)
    ensures FindCommit(r, i) == r.commit
    decreases i - r.commit
  {
    if i > r.commit { NoCommit(r, i - 1); }
  }

  // ----- the events of the run -----

  function Ack(from: nat, to: nat, term: nat, i: int): Msg {
    AppendEntriesReply(from, to, term, true, i, 0)
  }

  lemma A2Wins(b: nat)
    ensures Gives(A1(b), RequestVoteReply(1, 0, 1, true), A2(b, 0), [AppendMsg(A2(b, 0), 1), AppendMsg(A2(b, 0), 2)])
  {
    var r := A1(b).(votes := 2);
    assert Log(0, []) == [Marker];
    assert ResetPeers(r, r.next, 1) == [1, 1, 1];
    assert ResetPeers(r, r.match_, 0) == [0, 0, 0];
    Wins(A1(b), b, RequestVoteReply(1, 0, 1, true), A2(b, 0), 1, 2);
  }

  lemma A2Takes(b: nat, j: nat)
    ensures Takes(A2(b, j), 5, A2(b, j + 1))
  {
    assert Log(j, []) + [X] == Log(j + 1, []);
  }

  lemma A3Takes(b: nat)
    ensures Takes(A2(b, b), 6, A3(b)) && Takes(A3(b), 7, A4(b))
  {
    assert Log(b, []) + [S] == Log(b, [S]);
    assert Log(b, [S]) + [T] == Log(b, [S, T]);
  }

  /** The message from node 0 with the first b entries. */
  function FirstBatch(b: nat, to: nat): Msg {
    AppendEntries(0, to, 1, 0, 0, 0, Xs(b), 0)
  }

  lemma A4Beats(b: nat)
    ensures Ticks(A4(b), A4(b), [FirstBatch(b, 1), FirstBatch(b, 2)])
  {
    LogIs(b, [S, T]);
    Beats(A4(b), b, 1, 2);
  }

  lemma B2Gets(b: nat)
    ensures Gives(B1(b), FirstBatch(b, 1), B2(b), [Ack(1, 0, 1, b)])
  {
    assert [Marker] + Xs(b) == Log(b, []);
    Extends(B1(b), FirstBatch(b, 1), B2(b));
  }

  lemma C1Gets(b: nat)
    ensures Gives(Start(b, 2), FirstBatch(b, 2), C1(b), [Ack(2, 0, 1, b)])
  {
    assert [Marker] + Xs(b) == Log(b, []);
    Extends(Start(b, 2), FirstBatch(b, 2), C1(b));
  }

  lemma B4Leads(b: nat)
    requires b > 0
    ensures TakeLead(B3(b).(votes := 2)) == B4(b)
  {
    var r := B3(b).(votes := 2);
    LogIs(b, []);
    assert Log(b, []) + [N2] == Log(b, [N2]);
    assert ResetPeers(r, r.next, b + 1) == [b + 1, b + 1, b + 1];
    assert ResetPeers(r, r.match_, 0) == [0, 0, 0];
  }

  lemma B4Waits(b: nat)
    ensures AdvanceCommit(B4(b)) == B4(b)
  {
    LogIs(b, [N2]);
    assert Matching(B4(b), b + 1, 3) == {1};
    assert |Three| == 3;
    NoCommit(B4(b), b + 1);
  }

  lemma B4Wins(b: nat)
    requires b > 0
    ensures var m := AppendEntries(1, 2, 2, b, 1, 0, [N2], 0);
            Gives(B3(b), RequestVoteReply(2, 1, 2, true), B4(b), [AppendMsg(B4(b), 0), m])
  {
    B4Leads(b);
    B4Waits(b);
    Wins(B3(b), b, RequestVoteReply(2, 1, 2, true), B4(b), 0, 2);
    LogIs(b, [N2]);
  }

  lemma B5Takes(b: nat)
    ensures Takes(B4(b), 8, B5(b))
  {
    assert Log(b, [N2]) + [Y] == Log(b, [N2, Y]);
  }

  lemma C3Gets(b: nat)
    requires b > 0
    ensures Gives(C2(b), AppendEntries(1, 2, 2, b, 1, 0, [N2], 0), C3(b), [Ack(2, 1, 2, b + 1)])
  {
    LogIs(b, []);
    assert Log(b, []) + [N2] == Log(b, [N2]);
    Extends(C2(b), AppendEntries(1, 2, 2, b, 1, 0, [N2], 0), C3(b));
  }

  lemma B6Commits(b: nat)
    ensures Gives(B5(b), Ack(2, 1, 2, b + 1), B6(b), [])
  {
    var s := B5(b).(next := [b + 1, b + 1, b + 2], match_ := [0, b + 2, b + 1]);
    LogIs(b, [N2, Y]);
    assert Matching(s, b + 2, 3) == {1};
    assert Matching(s, b + 1, 3) == {1, 2};
    assert |Three| == 3;
    assert FindCommit(s, b + 1) == b + 1;
    ApplyTo(s.(commit := b + 1));
    Commits(B5(b), Ack(2, 1, 2, b + 1), s, b + 1, B6(b));
  }

  lemma B6Beats(b: nat)
    requires b > 0
    ensures Ticks(B6(b), B6(b), [AppendMsg(B6(b), 0), AppendEntries(1, 2, 2, b + 1, 2, b + 1, [Y], 0)])
  {
    LogIs(b, [N2, Y]);
    assert Log(b, [N2, Y])[b + 2..] == [Y];
    Beats(B6(b), b, 0, 2);
  }

  lemma C4Gets(b: nat)
    ensures Gives(C3(b), AppendEntries(1, 2, 2, b + 1, 2, b + 1, [Y], 0), C4(b), [Ack(2, 1, 2, b + 2)])
  {
    var s := C3(b).(log := Log(b, [N2, Y]));
    LogIs(b, [N2]);
    assert Log(b, [N2]) + [Y] == Log(b, [N2, Y]);
    ApplyTo(s.(commit := b + 1));
    Follows(C3(b), AppendEntries(1, 2, 2, b + 1, 2, b + 1, [Y], 0), s, C4(b));
  }

  lemma B7Commits(b: nat)
    ensures Gives(B6(b), Ack(2, 1, 2, b + 2), B7(b), [])
  {
    var s := B6(b).(next := [b + 1, b + 1, b + 3], match_ := [0, b + 2, b + 2]);
    LogIs(b, [N2, Y]);
    assert Matching(s, b + 2, 3) == {1, 2};
    assert |Three| == 3;
    ApplyTo(s.(commit := b + 2));
    Commits(B6(b), Ack(2, 1, 2, b + 2), s, b + 2, B7(b));
  }

  lemma C6Leads(b: nat)
    ensures TakeLead(C5(b).(votes := 2)) == C6(b)
  {
    var r := C5(b).(votes := 2);
    LogIs(b, [N2, Y]);
    assert Log(b, [N2, Y]) + [N3] == Log(b, [N2, Y, N3]);
    ApGrows(Log(b, [N2, Y]), [N3], b + 1);
    assert ResetPeers(r, r.next, b + 3) == [b + 3, b + 3, b + 3];
    assert ResetPeers(r, r.match_, 0) == [0, 0, 0];
  }

  lemma C6Waits(b: nat)
    ensures AdvanceCommit(C6(b)) == C6(b)
  {
    LogIs(b, [N2, Y, N3]);
    assert Matching(C6(b), b + 3, 3) == {2};
    assert |Three| == 3;
    NoCommit(C6(b), b + 3);
  }

  lemma C6Wins(b: nat)
    requires b > 0
    ensures var m := AppendEntries(2, 1, 3, b + 2, 2, b + 1, [N3], 0);
            Gives(C5(b), RequestVoteReply(1, 2, 3, true), C6(b), [Refused(b, b + 1), m])
  {
    C6Leads(b);
    C6Waits(b);
    Wins(C5(b), b, RequestVoteReply(1, 2, 3, true), C6(b), 0, 1);
    LogIs(b, [N2, Y, N3]);
    assert Log(b, [N2, Y, N3])[b + 3..] == [N3];
  }

  lemma B9Gets(b: nat)
    ensures Gives(B8(b), AppendEntries(2, 1, 3, b + 2, 2, b + 1, [N3], 0), B9(b), [Ack(1, 2, 3, b + 3)])
  {
    LogIs(b, [N2, Y]);
    assert Log(b, [N2, Y]) + [N3] == Log(b, [N2, Y, N3]);
    ApGrows(Log(b, [N2, Y]), [N3], b + 2);
    Extends(B8(b), AppendEntries(2, 1, 3, b + 2, 2, b + 1, [N3], 0), B9(b));
  }

  lemma C7Commits(b: nat)
    ensures Gives(C6(b), Ack(1, 2, 3, b + 3), C7(b, 0), [])
  {
    var s := C6(b).(next := [b + 3, b + 4, b + 3], match_ := [0, b + 3, b + 3]);
    LogIs(b, [N2, Y, N3]);
    assert Matching(s, b + 3, 3) == {1, 2};
    assert |Three| == 3;
    ApplyTo(s.(commit := b + 3));
    Commits(C6(b), Ack(1, 2, 3, b + 3), s, b + 3, C7(b, 0));
  }

  /** The message node 0 rejects: its previous entry is of term 2. */
  function Refused(b: nat, commit: int): Msg {
    AppendEntries(2, 0, 3, b + 2, 2, commit, [N3], 0)
  }

  const NACK := AppendEntriesReply(0, 2, 3, false, 0, 0)

  lemma A5Rejects(b: nat, commit: int)
    ensures Gives(A4(b), Refused(b, commit), A5(b), [NACK]) && Gives(A5(b), Refused(b, commit), A5(b), [NACK])
  {
    LogIs(b, [S, T]);
    Rejects(A4(b), Refused(b, commit), A5(b));
    Rejects(A5(b), Refused(b, commit), A5(b));
  }

  lemma C7Beats(b: nat)
    requires b > 0
    ensures Ticks(C7(b, 0), C7(b, 0), [Refused(b, b + 3), AppendMsg(C7(b, 0), 1)])
  {
    LogIs(b, [N2, Y, N3]);
    assert Log(b, [N2, Y, N3])[b + 3..] == [N3];
    Beats(C7(b, 0), b, 0, 1);
  }

  lemma C7Recoils(b: nat, j: nat)
    requires j < b + 2
    ensures Gives(C7(b, j), NACK, C7(b, j + 1), [])
  {
    assert SetAt(C7(b, j).next, 0, b + 3 - j - 1) == C7(b, j + 1).next;
  }

  /** The b shared entries, with a commit index beyond them. */
  function LastBatch(b: nat): Msg {
    AppendEntries(2, 0, 3, 0, 0, b + 3, Xs(b), 0)
  }

  lemma C7Resends(b: nat)
    ensures Ticks(C7(b, b + 2), C7(b, b + 2), [LastBatch(b), AppendMsg(C7(b, b + 2), 1)])
  {
    LogIs(b, [N2, Y, N3]);
    Beats(C7(b, b + 2), b, 0, 1);
  }

  lemma A6Commits(b: nat)
    ensures Gives(A5(b), LastBatch(b), A6(b), [Ack(0, 2, 3, b)])
  {
    LogIs(b, [S, T]);
    ApplyTo(A5(b).(commit := b + 2));
    Trusts(A5(b), LastBatch(b), A6(b));
  }

  // ----- the run -----

  function Begin(b: nat): Cluster {
    Cluster([Start(b, 0), Start(b, 1), Start(b, 2)], [], {})
  }

  /** c is reached from the beginning and has these three nodes. */
  ghost predicate At(b: nat, c: Cluster, x: Node, y: Node, z: Node) {
    Leads(Begin(b), c) && Sane(c) && c.nodes == [x, y, z]
  }

  /** Every message under way in c, but for the one at k, still is in d. */
  ghost predicate Kept(c: Cluster, d: Cluster, k: nat) {
    forall i: nat, m :: Flies(c, i, m) && i != k ==> Flies(d, i, m)
  }

  /** The first two of `out` were sent. */
  ghost predicate Sent(c: Cluster, d: Cluster, out: seq<Msg>) {
    && |d.sent| == |c.sent| + |out|
    && (|out| > 0 ==> Flies(d, |c.sent|, out[0])) && (|out| > 1 ==> Flies(d, |c.sent| + 1, out[1]))
  }

  function Pick(x: Node, y: Node, z: Node, v: nat): Node {
    if v == 0 then x else if v == 1 then y else z
  }

  ghost predicate Put(b: nat, d: Cluster, x: Node, y: Node, z: Node, v: nat, a: Node) {
    At(b, d, if v == 0 then a else x, if v == 1 then a else y, if v == 2 then a else z)
  }

  lemma Stepped(b: nat, c: Cluster, e: Event, x: Node, y: Node, z: Node, v: nat, a: Node, out: seq<Msg>)
    requires At(b, c, x, y, z) && v < 3
    requires var d := Step(c, e); d.nodes == c.nodes[v := a] && d.sent == c.sent + out && Sane(d)
    ensures Put(b, Step(c, e), x, y, z, v, a)
  {
    OneStep(c, e);
    Then(Begin(b), c, Step(c, e));
  }

  lemma Arrive(b: nat, c: Cluster, x: Node, y: Node, z: Node, k: nat, m: Msg, a: Node, out: seq<Msg>)
    returns (d: Cluster)
    requires At(b, c, x, y, z) && Flies(c, k, m) && m.to < 3 && Gives(Pick(x, y, z, m.to), m, a, out)
    ensures Put(b, d, x, y, z, m.to, a) && Kept(c, d, k) && Sent(c, d, out)
  {
    assert Asked(0);
    d := Step(c, Deliver(k));
    Stepped(b, c, Deliver(k), x, y, z, m.to, a, out);
  }

  lemma Beat(b: nat, c: Cluster, x: Node, y: Node, z: Node, v: nat, a: Node, out: seq<Msg>) returns (d: Cluster)
    requires At(b, c, x, y, z) && v < 3 && Ticks(Pick(x, y, z, v), a, out)
    ensures Put(b, d, x, y, z, v, a) && Kept(c, d, |c.sent|) && Sent(c, d, out)
  {
    assert Asked(0);
    d := Step(c, TickNode(v));
    Stepped(b, c, TickNode(v), x, y, z, v, a, out);
  }

  lemma Hand(b: nat, c: Cluster, x: Node, y: Node, z: Node, v: nat, cmd: int, a: Node) returns (d: Cluster)
    requires At(b, c, x, y, z) && v < 3 && Takes(Pick(x, y, z, v), cmd, a)
    ensures Put(b, d, x, y, z, v, a) && Kept(c, d, |c.sent|) && Sent(c, d, [])
  {
    assert Asked(0);
    d := Step(c, SubmitTo(v, cmd));
    Stepped(b, c, SubmitTo(v, cmd), x, y, z, v, a, []);
  }

  lemma BeginFresh(b: nat)
    ensures Fresh(Begin(b)) && At(b, Begin(b), Start(b, 0), Start(b, 1), Start(b, 2))
  {
    assert AllIds(0) == {} && AllIds(1) == {0} && AllIds(2) == {0, 1} && AllIds(3) == Three;
    assert Zeros(3) == [0, 0, 0];
    assert Run(Begin(b), []) == Begin(b);
  }

  /** Node 0 wins term 1 with the vote of node 1. */
  lemma Term1(b: nat) returns (d: Cluster)
    ensures At(b, d, A2(b, 0), B1(b), Start(b, 2))
  {
    var x, y, z := Start(b, 0), Start(b, 1), Start(b, 2);
    BeginFresh(b);
    Stands(x, b, A1(b), 1, 2);
    var ask := Request(A1(b), 1);
    var c1 := Beat(b, Begin(b), x, y, z, 0, A1(b), [ask, Request(A1(b), 2)]);
    Votes(y, ask, B1(b));
    var yes := RequestVoteReply(1, 0, 1, true);
    var c2 := Arrive(b, c1, A1(b), y, z, 0, ask, B1(b), [yes]);
    A2Wins(b);
    d := Arrive(b, c2, A1(b), B1(b), z, |c1.sent|, yes, A2(b, 0), [AppendMsg(A2(b, 0), 1), AppendMsg(A2(b, 0), 2)]);
  }

  /** It takes b commands that will be shared. */
  lemma {:induction false} Fill(b: nat, j: nat) returns (d: Cluster)
    ensures At(b, d, A2(b, j), B1(b), Start(b, 2))
  {
    if j == 0 {
      d := Term1(b);
    } else {
      var c := Fill(b, j - 1);
      A2Takes(b, j - 1);
      d := Hand(b, c, A2(b, j - 1), B1(b), Start(b, 2), 0, 5, A2(b, j));
    }
  }

  /** Two more commands, of which it never sends anything; the b shared entries reach both others. */
  lemma Share(b: nat) returns (d: Cluster)
    ensures At(b, d, A4(b), B2(b), C1(b))
  {
    var y, z := B1(b), Start(b, 2);
    var c := Fill(b, b);
    A3Takes(b);
    var c1 := Hand(b, c, A2(b, b), y, z, 0, 6, A3(b));
    var c2 := Hand(b, c1, A3(b), y, z, 0, 7, A4(b));
    A4Beats(b);
    var c3 := Beat(b, c2, A4(b), y, z, 0, A4(b), [FirstBatch(b, 1), FirstBatch(b, 2)]);
    B2Gets(b);
    var c4 := Arrive(b, c3, A4(b), y, z, |c2.sent|, FirstBatch(b, 1), B2(b), [Ack(1, 0, 1, b)]);
    C1Gets(b);
    d := Arrive(b, c4, A4(b), B2(b), z, |c2.sent| + 1, FirstBatch(b, 2), C1(b), [Ack(2, 0, 1, b)]);
  }

  /** Node 1 wins term 2 with the vote of node 2 and takes a command. */
  lemma Term2(b: nat) returns (d: Cluster, k: nat)
    requires b > 0
    ensures At(b, d, A4(b), B5(b), C3(b)) && Flies(d, k, Ack(2, 1, 2, b + 1))
  {
    var x, z := A4(b), C1(b);
    var c := Share(b);
    Stands(B2(b), b, B3(b), 0, 2);
    var ask := Request(B3(b), 2);
    var c1 := Beat(b, c, x, B2(b), z, 1, B3(b), [Request(B3(b), 0), ask]);
    Votes(C1(b), ask, C2(b));
    var yes := RequestVoteReply(2, 1, 2, true);
    var c2 := Arrive(b, c1, x, B3(b), z, |c.sent| + 1, ask, C2(b), [yes]);
    B4Wins(b);
    var ae := AppendEntries(1, 2, 2, b, 1, 0, [N2], 0);
    var c3 := Arrive(b, c2, x, B3(b), C2(b), |c1.sent|, yes, B4(b), [AppendMsg(B4(b), 0), ae]);
    B5Takes(b);
    var c4 := Hand(b, c3, x, B4(b), C2(b), 1, 8, B5(b));
    C3Gets(b);
    d := Arrive(b, c4, x, B5(b), C2(b), |c2.sent| + 1, ae, C3(b), [Ack(2, 1, 2, b + 1)]);
    k := |c4.sent|;
  }

  /** It commits its command at index b + 2 and applies it. */
  lemma Commit2(b: nat) returns (d: Cluster)
    requires b > 0
    ensures At(b, d, A4(b), B7(b), C4(b))
  {
    var x := A4(b);
    var c, k := Term2(b);
    B6Commits(b);
    var c1 := Arrive(b, c, x, B5(b), C3(b), k, Ack(2, 1, 2, b + 1), B6(b), []);
    B6Beats(b);
    var ae := AppendEntries(1, 2, 2, b + 1, 2, b + 1, [Y], 0);
    var c2 := Beat(b, c1, x, B6(b), C3(b), 1, B6(b), [AppendMsg(B6(b), 0), ae]);
    C4Gets(b);
    var c3 := Arrive(b, c2, x, B6(b), C3(b), |c1.sent| + 1, ae, C4(b), [Ack(2, 1, 2, b + 2)]);
    B7Commits(b);
    d := Arrive(b, c3, x, B6(b), C4(b), |c2.sent|, Ack(2, 1, 2, b + 2), B7(b), []);
  }

  /** Node 2 wins term 3 with the vote of node 1 and commits its no-op; node 0 hears of the term. */
  lemma Term3(b: nat) returns (d: Cluster)
    requires b > 0
    ensures At(b, d, A5(b), B9(b), C7(b, 0))
  {
    var x := A4(b);
    var c := Commit2(b);
    LogIs(b, [N2, Y]);
    Stands(C4(b), b, C5(b), 0, 1);
    var ask := Request(C5(b), 1);
    var c1 := Beat(b, c, x, B7(b), C4(b), 2, C5(b), [Request(C5(b), 0), ask]);
    Votes(B7(b), ask, B8(b));
    var yes := RequestVoteReply(1, 2, 3, true);
    var c2 := Arrive(b, c1, x, B7(b), C5(b), |c.sent| + 1, ask, B8(b), [yes]);
    C6Wins(b);
    var ae := AppendEntries(2, 1, 3, b + 2, 2, b + 1, [N3], 0);
    var c3 := Arrive(b, c2, x, B8(b), C5(b), |c1.sent|, yes, C6(b), [Refused(b, b + 1), ae]);
    B9Gets(b);
    var c4 := Arrive(b, c3, x, B8(b), C6(b), |c2.sent| + 1, ae, B9(b), [Ack(1, 2, 3, b + 3)]);
    C7Commits(b);
    var c5 := Arrive(b, c4, x, B9(b), C6(b), |c3.sent|, Ack(1, 2, 3, b + 3), C7(b, 0), []);
    A5Rejects(b, b + 1);
    d := Arrive(b, c5, x, B9(b), C7(b, 0), |c2.sent|, Refused(b, b + 1), A5(b), [NACK]);
  }

  ghost predicate Held(c: Cluster, ks: seq<nat>) {
    && (forall i | 0 <= i < |ks| :: Flies(c, ks[i], NACK))
    && forall i, j | 0 <= i < j < |ks| :: ks[i] != ks[j]
  }

  /** One heartbeat that node 0 rejects, its answer still under way. */
  lemma Hold(b: nat, c: Cluster) returns (d: Cluster, k: nat)
    requires b > 0 && At(b, c, A5(b), B9(b), C7(b, 0))
    ensures At(b, d, A5(b), B9(b), C7(b, 0)) && k >= |c.sent| && Flies(d, k, NACK) && Kept(c, d, |c.sent|)
  {
    var x, y, z := A5(b), B9(b), C7(b, 0);
    C7Beats(b);
    var c1 := Beat(b, c, x, y, z, 2, z, [Refused(b, b + 3), AppendMsg(z, 1)]);
    A5Rejects(b, b + 3);
    d := Arrive(b, c1, x, y, z, |c.sent|, Refused(b, b + 3), x, [NACK]);
    k := |c1.sent|;
  }

  lemma {:induction false} HoldAll(b: nat, n: nat) returns (d: Cluster, ks: seq<nat>)
    requires b > 0
    ensures At(b, d, A5(b), B9(b), C7(b, 0)) && Held(d, ks) && |ks| == n
  {
    if n == 0 {
      d := Term3(b);
      ks := [];
    } else {
      var c, js := HoldAll(b, n - 1);
      var k;
      d, k := Hold(b, c);
      ks := js + [k];
    }
  }

  /** The rejections arrive one after the other. */
  lemma {:induction false} Recoil(b: nat, j: nat) returns (d: Cluster, ks: seq<nat>)
    requires b > 0 && j <= b + 2
    ensures At(b, d, A5(b), B9(b), C7(b, j)) && Held(d, ks) && |ks| == b + 2 - j
  {
    if j == 0 {
      d, ks := HoldAll(b, b + 2);
    } else {
      var c, js := Recoil(b, j - 1);
      C7Recoils(b, j - 1);
      d := Arrive(b, c, A5(b), B9(b), C7(b, j - 1), js[0], NACK, C7(b, j), []);
      ks := js[1..];
    }
  }

  /** Node 0 commits and applies an entry nobody else has. */
  lemma Commit3(b: nat) returns (d: Cluster)
    requires b > 0
    ensures At(b, d, A6(b), B9(b), C7(b, b + 2))
  {
    var z := C7(b, b + 2);
    var c, _ := Recoil(b, b + 2);
    C7Resends(b);
    var c1 := Beat(b, c, A5(b), B9(b), z, 2, z, [LastBatch(b), AppendMsg(z, 1)]);
    A6Commits(b);
    d := Arrive(b, c1, A5(b), B9(b), z, |c.sent|, LastBatch(b), A6(b), [Ack(0, 2, 3, b)]);
  }

  lemma Apart(b: nat)
    ensures Applied(b + 2, 7) in A6(b).applied && Applied(b + 2, 8) in B9(b).applied
  {
    var mine, theirs := Log(b, [S, T]), Log(b, [N2, Y, N3]);
    LogIs(b, [S, T]);
    LogIs(b, [N2, Y, N3]);
    assert Ap(mine, b + 2) == Ap(mine, b + 1) + [Applied(b + 2, 7)];
    assert Ap(theirs, b + 2) == Ap(theirs, b + 1) + [Applied(b + 2, 8)];
  }

  ghost predicate Limited(c: Cluster, b: nat) {
    forall r | r in c.nodes :: r.lim.maxBatch == b
  }

  ghost predicate AppliedAt(c: Cluster, v: nat, i: int, command: int) {
    v < |c.nodes| && Applied(i, command) in c.nodes[v].applied
  }

  /** For every batch limit there is a run of a fresh cluster in which two nodes have applied different
      commands at the same index. */
  lemma BatchLimitBreaksSafety(b: nat) returns (c: Cluster, es: seq<Event>)
    requires b > 0
    ensures Fresh(c) && Limited(c, b)
    ensures AppliedAt(Run(c, es), 0, b + 2, 7) && AppliedAt(Run(c, es), 1, b + 2, 8)
  {
    BeginFresh(b);
    c := Begin(b);
    var d := Commit3(b);
    es :| Run(c, es) == d;
    Apart(b);
  }
}
