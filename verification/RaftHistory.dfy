/** What a Raft run has done so far, and the invariant that ties it to the cluster. */
module RaftHistory {
  import opened RaftNode
  import opened RaftCluster

  /** A vote: for whom, and the voter's log when it was cast. */
  datatype Vote = Vote(cand: nat, log: seq<Entry>)

  /** The leadership of one term: who, elected by whom, and the leader's log so far. */
  datatype Reign = Reign(leader: nat, quorum: set<nat>, log: seq<Entry>)

  /** A read barrier as it was opened: the reader's term and commit index, every
      node's term, the terms that had a leader, and the indices committed by then. */
  datatype Barrier = Barrier(term: nat, index: int, terms: seq<nat>, reigns: set<nat>, commits: set<(nat, nat)>)

  datatype History = History(
    reigns: map<nat, Reign>,               // by term
    votes: map<(nat, nat), Vote>,          // by (voter, term)
    acked: map<(nat, nat), nat>,           // by (node, term): last index the node confirmed to that term's leader
    commits: map<(nat, nat), set<nat>>,    // by (term, index) a leader committed: the confirming nodes
    counted: seq<set<nat>>,                // per node: the voters behind its current vote count
    barriers: map<(nat, nat), Barrier>,    // by (reader, epoch)
    safe: bool)                            // every delivery so far was safe

  // ----- logs -----

  /** Both logs reach index n and are identical up to it. */
  ghost predicate Agree(a: seq<Entry>, b: seq<Entry>, n: nat) {
    n < |a| && n < |b| && forall j | 0 <= j <= n :: a[j] == b[j]
  }

  ghost predicate Sorted(log: seq<Entry>) {
    forall i, j | 0 <= i <= j < |log| :: log[i].term <= log[j].term
  }

  ghost predicate Below(log: seq<Entry>, t: int) {
    forall i | 0 <= i < |log| :: log[i].term <= t
  }

  ghost predicate Plain(log: seq<Entry>) {
    forall i | 0 <= i < |log| :: !log[i].isConfig
  }

  /** Every entry of term t sits on the log of the leader of t. */
  ghost predicate OnReigns(h: History, log: seq<Entry>) {
    forall i | 0 < i < |log| ::
      log[i].term in h.reigns && Agree(log, h.reigns[log[i].term].log, i)
  }

  ghost predicate GoodLog(h: History, log: seq<Entry>) {
    0 < |log| && log[0] == Marker && Sorted(log) && Plain(log) && OnReigns(h, log)
  }

  /** a is at least as up to date as b in the sense of the election restriction. */
  ghost predicate NotOlder(a: seq<Entry>, b: seq<Entry>)
    requires 0 < |a| && 0 < |b|
  {
    var ta, tb := a[|a| - 1].term, b[|b| - 1].term;
    ta > tb || (ta == tb && |a| >= |b|)
  }

  // ----- vote tokens -----

  datatype Token = NoToken | Token(cand: nat, voter: nat, term: nat)

  /** A request or a granted reply is the one token that may turn into a counted vote. */
  function TokenOf(m: Msg): Token {
    match m
    case RequestVote(from, to, term, _, _) => Token(from, to, term)
    case RequestVoteReply(from, to, term, granted) => if granted then Token(to, from, term) else NoToken
    case _ => NoToken
  }

  // ----- the invariant -----

  ghost predicate NodeShape(r: Node, i: nat, n: nat) {
    && r.id == i && r.members == AllIds(n) && r.baseMembers == AllIds(n)
    && n <= r.lim.maxNodes && |r.next| == r.lim.maxNodes && |r.match_| == r.lim.maxNodes
    && r.base == 0 && 0 < |r.log| && 0 <= r.commit
  }

  ghost predicate ReignOk(ns: seq<Node>, h: History, t: nat)
    requires t in h.reigns
  {
    var r := h.reigns[t];
    && 0 < t && r.leader < |ns|
    && ns[r.leader].term >= t
    && (ns[r.leader].term == t ==> ns[r.leader].role != Candidate)
    && GoodLog(h, r.log) && Below(r.log, t)
    && r.quorum <= AllIds(|ns|) && |r.quorum| >= |ns| / 2 + 1
    && (forall v | v in r.quorum :: (v, t) in h.votes && h.votes[(v, t)].cand == r.leader)
    && (r.leader, t) in h.votes && h.votes[(r.leader, t)].cand == r.leader
    && h.votes[(r.leader, t)].log <= r.log
    && (forall i | |h.votes[(r.leader, t)].log| <= i < |r.log| :: r.log[i].term == t)
  }

  ghost predicate Reigns(ns: seq<Node>, h: History) {
    forall t | t in h.reigns :: ReignOk(ns, h, t)
  }

  ghost predicate LogOk(h: History, r: Node) {
    && GoodLog(h, r.log) && Below(r.log, r.term)
    && (r.role == Leader ==>
          r.term in h.reigns && h.reigns[r.term].leader == r.id && r.log == h.reigns[r.term].log)
  }

  ghost predicate VoteOk(ns: seq<Node>, h: History, v: nat, t: nat)
    requires (v, t) in h.votes
  {
    var x := h.votes[(v, t)];
    && v < |ns| && 0 < t <= ns[v].term && x.cand < |ns|
    && GoodLog(h, x.log) && Below(x.log, t - 1)
    && (x.cand, t) in h.votes && h.votes[(x.cand, t)].cand == x.cand
    && 0 < |h.votes[(x.cand, t)].log| && NotOlder(h.votes[(x.cand, t)].log, x.log)
  }

  ghost predicate BallotOk(h: History, r: Node) {
    if (r.id, r.term) in h.votes then r.votedFor == h.votes[(r.id, r.term)].cand else r.votedFor == -1
  }

  ghost predicate Votes(ns: seq<Node>, h: History) {
    forall v: nat, t: nat | (v, t) in h.votes :: VoteOk(ns, h, v, t)
  }

  ghost predicate PollOk(c: Cluster, h: History, i: nat)
    requires i < |c.nodes| == |h.counted|
  {
    var r := c.nodes[i];
    r.role == Candidate ==>
      && h.counted[i] <= AllIds(|c.nodes|) && |h.counted[i]| == r.votes && i in h.counted[i]
      && (forall v | v in h.counted[i] :: (v, r.term) in h.votes && h.votes[(v, r.term)].cand == i)
      && (i, r.term) in h.votes && r.log == h.votes[(i, r.term)].log
      && forall k: nat, v: nat | InFlight(c, k) && v in h.counted[i]
          && v != i :: TokenOf(c.sent[k]) != Token(i, v, r.term)
  }

  ghost predicate Polls(c: Cluster, h: History)
    requires |h.counted| == |c.nodes|
  {
    && (forall i | 0 <= i < |c.nodes| :: PollOk(c, h, i))
    && forall k: nat, l: nat | InFlight(c, k) && InFlight(c, l) && k != l && TokenOf(c.sent[k]).Token? ::
         TokenOf(c.sent[k]) != TokenOf(c.sent[l])
  }

  /** An AppendEntries of term t is a slice of the log of the leader of t. */
  ghost predicate SliceOk(h: History, m: Msg)
    requires m.AppendEntries?
  {
    && m.term in h.reigns && h.reigns[m.term].leader == m.from
    && 0 <= m.prevIndex && m.prevIndex + |m.entries| < |h.reigns[m.term].log|
    && m.prevTerm == h.reigns[m.term].log[m.prevIndex].term
    && m.entries == h.reigns[m.term].log[m.prevIndex + 1..m.prevIndex + 1 + |m.entries|]
  }

  ghost predicate AckOk(ns: seq<Node>, h: History, m: Msg)
    requires m.AppendEntriesReply? && m.to < |ns|
  {
    && m.term in h.reigns && h.reigns[m.term].leader == m.to
    && 0 <= m.matchIndex
    && (m.matchIndex > 0 ==> (m.from, m.term) in h.acked && m.matchIndex <= h.acked[(m.from, m.term)])
    && ((m.to, m.readEpoch) in h.barriers && h.barriers[(m.to, m.readEpoch)].term == m.term ==>
          var b := h.barriers[(m.to, m.readEpoch)]; m.from < |b.terms| && b.terms[m.from] <= m.term)
  }

  ghost predicate MsgOk(ns: seq<Node>, h: History, m: Msg) {
    && m.from < |ns| && m.to < |ns| && m.from != m.to && m.term <= ns[m.from].term
    && match m
       case RequestVote(from, to, term, lastIndex, lastTerm) =>
         && (from, term) in h.votes && h.votes[(from, term)].cand == from
         && 0 < |h.votes[(from, term)].log| && lastIndex == |h.votes[(from, term)].log| - 1
         && lastTerm == h.votes[(from, term)].log[lastIndex].term
       case RequestVoteReply(from, to, term, granted) =>
         granted ==> (from, term) in h.votes && h.votes[(from, term)].cand == to
       case AppendEntries(_, _, _, _, _, _, _, _) => SliceOk(h, m) && m.readEpoch <= ns[m.from].readEpoch
       case AppendEntriesReply(_, to, _, success, _, epoch) =>
         epoch <= ns[to].readEpoch && (success ==> AckOk(ns, h, m))
       case InstallSnapshot(_, _, _, _, _, _, _) => false
       case InstallSnapshotReply(_, _, _, _) => false
  }

  ghost predicate Msgs(ns: seq<Node>, h: History, sent: seq<Msg>) {
    forall k | 0 <= k < |sent| :: MsgOk(ns, h, sent[k])
  }

  /** Some leader of a term in (t, top] does not have entry n of the leader of t. */
  ghost predicate Overwritten(h: History, t: nat, n: nat, top: int)
    requires t in h.reigns
  {
    exists u :: u in h.reigns && t < u <= top && !Agree(h.reigns[u].log, h.reigns[t].log, n)
  }

  ghost predicate Confirmed(h: History, v: nat, t: nat, n: nat) {
    && (v, t) in h.acked && t in h.reigns && 0 < n <= h.acked[(v, t)]
    && n < |h.reigns[t].log| && h.reigns[t].log[n].term == t
  }

  /** An entry v confirmed in term t is still in v's log, unless a later leader overwrote it. */
  ghost predicate AckLogs(ns: seq<Node>, h: History) {
    forall v: nat, t: nat, n: nat | Confirmed(h, v, t, n) ::
      v < |ns| && (Agree(ns[v].log, h.reigns[t].log, n) || Overwritten(h, t, n, ns[v].term))
  }

  /** The vote of v in term u counted, or may still count, towards the leader of u. */
  ghost predicate Matters(h: History, v: nat, u: nat) {
    (v, u) in h.votes && (u in h.reigns ==> v in h.reigns[u].quorum)
  }

  /** An entry v confirmed in term t was in v's log at every vote of a later term
      that matters, unless a leader in between overwrote it. */
  ghost predicate AckBallots(h: History) {
    forall v: nat, t: nat, n: nat, u: nat | Confirmed(h, v, t, n) && Matters(h, v, u) && t < u ::
      Agree(h.votes[(v, u)].log, h.reigns[t].log, n) || Overwritten(h, t, n, u - 1)
  }

  ghost predicate AckBounds(ns: seq<Node>, h: History) {
    forall v: nat, t: nat | (v, t) in h.acked ::
      v < |ns| && t in h.reigns && t <= ns[v].term && h.acked[(v, t)] < |h.reigns[t].log|
  }

  ghost predicate Acks(ns: seq<Node>, h: History) {
    AckBounds(ns, h) && AckLogs(ns, h) && AckBallots(h)
  }

  ghost predicate PeersOk(h: History, r: Node, n: nat) {
    r.role == Leader ==>
      forall p | 0 <= p < n ::
        && p < |r.next| && 1 <= r.next[p] <= |r.log|
        && p < |r.match_| && 0 <= r.match_[p] < |r.log|
        && (r.match_[p] > 0 ==> (p, r.term) in h.acked && r.match_[p] <= h.acked[(p, r.term)])
  }

  ghost predicate CommitOk(ns: seq<Node>, h: History, t: nat, n: nat)
    requires (t, n) in h.commits
  {
    && t in h.reigns && 0 < n < |h.reigns[t].log| && h.reigns[t].log[n].term == t
    && h.commits[(t, n)] <= AllIds(|ns|) && |h.commits[(t, n)]| >= |ns| / 2 + 1
    && forall v | v in h.commits[(t, n)] :: Confirmed(h, v, t, n)
  }

  ghost predicate Commits(ns: seq<Node>, h: History) {
    forall t: nat, n: nat | (t, n) in h.commits :: CommitOk(ns, h, t, n)
  }

  /** No leader of a later term was elected, and no index above the barrier was
      committed, when the barrier was opened. */
  ghost predicate FreshBarrier(b: Barrier) {
    && (forall t | t in b.reigns :: t <= b.term)
    && forall t: nat, n: nat | (t, n) in b.commits :: n <= b.index
  }

  ghost predicate BarrierOk(ns: seq<Node>, h: History, i: nat, e: nat)
    requires (i, e) in h.barriers
  {
    var b := h.barriers[(i, e)];
    && i < |ns| && e <= ns[i].readEpoch && |b.terms| == |ns| && b.term <= ns[i].term
    && (forall v | 0 <= v < |ns| :: b.terms[v] <= ns[v].term)
    // a leader of term t at opening time had a quorum of voters in terms t or later
    && (forall t | t in b.reigns :: t in h.reigns && forall v | v in h.reigns[t].quorum ::
        v < |b.terms|
        && t <= b.terms[v])
    && ((forall t | t in b.reigns :: t <= b.term) ==> FreshBarrier(b))
  }

  ghost predicate ReadOk(h: History, r: Node, n: nat) {
    && (r.readBarrier >= 0 || r.readConfirmed >= 0 ==>
          (r.id, r.readEpoch) in h.barriers && h.barriers[(r.id, r.readEpoch)].term == r.term)
    && (r.readBarrier >= 0 ==>
          && r.role == Leader && r.readBarrier == h.barriers[(r.id, r.readEpoch)].index
          && |h.barriers[(r.id, r.readEpoch)].terms| == n
          && forall v | v in r.readAcks :: v < n && h.barriers[(r.id, r.readEpoch)].terms[v] <= r.term)
    && (r.readConfirmed >= 0 ==>
          r.role == Leader && FreshBarrier(h.barriers[(r.id, r.readEpoch)])
              && r.readConfirmed == h.barriers[(r.id, r.readEpoch)].index)
    && (r.role == Leader ==>
          (r.id, r.term) in h.votes && r.readGate >= |h.votes[(r.id, r.term)].log| - 1)
  }

  ghost predicate Barriers(ns: seq<Node>, h: History) {
    forall i: nat, e: nat | (i, e) in h.barriers :: BarrierOk(ns, h, i, e)
  }

  /** The part of the invariant that speaks of one node. */
  ghost predicate NodeOk(h: History, r: Node, i: nat, n: nat) {
    && NodeShape(r, i, n) && LogOk(h, r) && BallotOk(h, r) && PeersOk(h, r, n) && ReadOk(h, r, n)
    && forall x: nat | r.role == Leader && (r.term, x) in h.commits :: x <= r.commit
  }

  ghost predicate Nodes(ns: seq<Node>, h: History) {
    forall i | 0 <= i < |ns| :: NodeOk(h, ns[i], i, |ns|)
  }

  // ----- what safe sends add -----

  /** Index n lies at or below an index committed in some term up to t. */
  ghost predicate Settled(h: History, t: nat, n: int) {
    n == 0 || exists u: nat, k: nat :: (u, k) in h.commits && u <= t && n <= k
  }

  /** The log agrees up to n with the leader that committed n. */
  ghost predicate SettledLog(h: History, log: seq<Entry>, t: nat, n: int) {
    n == 0 || exists u: nat, k: nat ::
        (u, k) in h.commits && u <= t && 0 < n <= k && u in h.reigns
        && Agree(log, h.reigns[u].log, n)
  }

  ghost predicate AppliedOk(h: History, x: Applied) {
    exists u: nat, k: nat :: (u, k) in h.commits && u in h.reigns && 0 < x.index <= k < |h.reigns[u].log|
      && h.reigns[u].log[x.index].command == x.command && !h.reigns[u].log[x.index].isNoop
  }

  ghost predicate MachineOk(h: History, r: Node) {
    && 0 <= r.lastApplied <= r.commit < |r.log| && SettledLog(h, r.log, r.term, r.commit)
    && forall x | x in r.applied :: AppliedOk(h, x)
  }

  ghost predicate Machines(c: Cluster, h: History) {
    && (forall i | 0 <= i < |c.nodes| :: MachineOk(h, c.nodes[i]))
    && forall k | 0 <= k < |c.sent| && c.sent[k].AppendEntries? :: Settled(h, c.sent[k].term, c.sent[k].leaderCommit)
  }

  ghost predicate Inv(c: Cluster, h: History) {
    && 0 < |c.nodes| == |h.counted|
    && Nodes(c.nodes, h) && Reigns(c.nodes, h) && Votes(c.nodes, h) && Polls(c, h) && Msgs(c.nodes, h, c.sent)
    && Acks(c.nodes, h) && Commits(c.nodes, h) && Barriers(c.nodes, h)
    && (h.safe ==> Machines(c, h))
  }

  // ----- how histories grow -----

  ghost predicate Extends(h: History, k: History) {
    && (forall t | t in h.reigns :: t in k.reigns
          && k.reigns[t].leader == h.reigns[t].leader && k.reigns[t].quorum == h.reigns[t].quorum
          && h.reigns[t].log <= k.reigns[t].log
          && forall i | |h.reigns[t].log| <= i < |k.reigns[t].log| :: k.reigns[t].log[i].term == t)
    && (forall x | x in h.votes :: x in k.votes && k.votes[x] == h.votes[x])
    && (forall x | x in h.acked :: x in k.acked && h.acked[x] <= k.acked[x])
    && (forall x | x in h.commits :: x in k.commits && k.commits[x] == h.commits[x])
    && (forall x | x in h.barriers :: x in k.barriers && k.barriers[x] == h.barriers[x])
    && (k.safe ==> h.safe)
  }

  /** k adds to h, and nothing unsafe happened. */
  ghost predicate Adds(h: History, k: History) {
    Extends(h, k) && k.safe == h.safe
  }
}
