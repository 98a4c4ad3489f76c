/** Appends and their replies bring a follower's log to the leader's, whatever it held before. */
module RaftCatchUp {
  import opened RaftNode
  import opened RaftCluster
  import opened RaftHistory
  import opened RaftCompleteness
  import opened RaftHandlers
  import opened RaftEvents
  import opened RaftFollowing
  import opened RaftSafety

  /** What a leader and a follower of a reachable cluster are like: logs that match wherever terms do, and a match
      index the follower has reached. */
  ghost predicate Paired(r: Node, f: Node) {
    && r.role == Leader && r.id in r.members && r.base == 0 && |r.log| > 0 && r.lim.maxBatch > 0
    && f.id < |r.next| && f.id < |r.match_| && 1 <= r.next[f.id] <= |r.log|
    && f.base == 0 && f.term <= r.term
    && Plain(r.log) && Matched(f.log, r.log)
    && 0 <= r.match_[f.id] && Agree(f.log, r.log, r.match_[f.id])
  }

  /** One append to the follower and its reply. */
  function Round(r: Node, f: Node): (Node, Node) {
    var m := AppendMsg(r, f.id);
    if m.AppendEntries? then var (g, reply) := HandleAppendEntries(f, m); (HandleAppendEntriesReply(r, reply), g)
    else (r, f)
  }

  function Rounds(r: Node, f: Node, k: nat): (Node, Node)
    decreases k
  {
    if k == 0 then (r, f) else var (s, g) := Round(r, f); Rounds(s, g, k - 1)
  }

  /** The follower agrees with the leader up to the entry before the next one it is sent. */
  ghost predicate Synced(r: Node, f: Node)
    requires Paired(r, f)
  {
    Agree(f.log, r.log, r.next[f.id] - 1)
  }

  /** How far the pair is from done. */
  ghost function Distance(r: Node, f: Node): nat
    requires Paired(r, f)
  {
    if Synced(r, f) then |r.log| - r.next[f.id] else |r.log| + r.next[f.id]
  }

  lemma Sends(r: Node, f: Node)
    requires Paired(r, f)
    ensures var m := AppendMsg(r, f.id); var i := r.next[f.id];
            && m.AppendEntries? && m.from == r.id && m.term == r.term
            && m.prevIndex == i - 1 && m.prevTerm == r.log[i - 1].term
            && i + |m.entries| <= |r.log| && m.entries == r.log[i..i + |m.entries|]
            && (i < |r.log| ==> m.entries != [])
  {
  }

  /** The follower as it takes a message of the leader's term. */
  function Listening(r: Node, f: Node): Node {
    StepDownIfHigher(f, r.term).(role := Follower, electionElapsed := 0)
  }

  lemma AcceptsIffSynced(r: Node, f: Node)
    requires Paired(r, f)
    ensures PrevMatches(Listening(r, f), AppendMsg(r, f.id)) <==> Synced(r, f)
  {
    Sends(r, f);
  }

  lemma Refuses(r: Node, f: Node)
    requires Paired(r, f) && !Synced(r, f)
    ensures r.next[f.id] > 1
    ensures Round(r, f) == (r.(next := r.next[f.id := r.next[f.id] - 1]), Listening(r, f))
  {
    Sends(r, f);
    AcceptsIffSynced(r, f);
    assert r.next[f.id] - 1 != 0;
  }

  /** A refused append moves the leader back by one. */
  lemma RefusedRound(r: Node, f: Node)
    requires Paired(r, f) && !Synced(r, f)
    ensures var (s, g) := Round(r, f); Paired(s, g) && s.log == r.log && g.id == f.id && Distance(s, g) < Distance(r, f)
  {
    Refuses(r, f);
  }

  lemma Takes(r: Node, f: Node)
    requires Paired(r, f) && Synced(r, f)
    ensures var m := AppendMsg(r, f.id);
            && m.AppendEntries?
            && var a := AcceptEntries(Listening(r, f), m);
               && a.id == f.id && a.base == 0 && a.term == r.term
               && Overlaid(f.log, a.log, r.log, r.next[f.id] - 1 + |m.entries|)
  {
    Sends(r, f);
    PutOverlays(Listening(r, f), r.next[f.id], r.log, |AppendMsg(r, f.id).entries|);
  }

  lemma AcceptedLog(r: Node, f: Node)
    requires Paired(r, f) && Synced(r, f)
    ensures var m := AppendMsg(r, f.id);
            && m.AppendEntries?
            && var (g, reply) := HandleAppendEntries(f, m);
               var n := r.next[f.id] - 1 + |m.entries|;
               && g.id == f.id && g.base == 0 && g.term == r.term && Overlaid(f.log, g.log, r.log, n)
               && reply == AppendEntriesReply(f.id, r.id, r.term, true, n, m.readEpoch)
  {
    Sends(r, f);
    AcceptsIffSynced(r, f);
    Takes(r, f);
    var m := AppendMsg(r, f.id);
    FollowFrame(AcceptEntries(Listening(r, f), m), m.leaderCommit);
  }

  ghost predicate Viewed(z: int) {
    true
  }

  /** s is leader r once it knows that peer `from` holds the log up to n; as one fact. */
  ghost predicate Raised(r: Node, s: Node, from: nat, n: int) {
    forall z: int {:trigger Viewed(z)} :: Viewed(z) ==>
      && from < |r.match_| && from < |r.next|
      && s.role == Leader && s.id == r.id && s.members == r.members && s.base == r.base && s.log == r.log
      && s.term == r.term && s.lim == r.lim
      && var best := if n > r.match_[from] then n else r.match_[from];
         s.match_ == r.match_[from := best] && s.next == r.next[from := best + 1]
  }

  lemma Raises(r: Node, from: nat, index: int, epoch: nat)
    requires r.role == Leader && r.id in r.members && from < |r.next| && from < |r.match_|
    ensures Raised(r, HandleAppendEntriesReply(r, AppendEntriesReply(from, r.id, r.term, true, index, epoch)), from,
                   index)
  {
    var a := RecordMatch(r, from, index);
    var i := FindCommit(a, LastIndex(a));
    ApplyFrame(a.(commit := i, pendingConfig := if 0 <= a.pendingConfig <= i then -1 else a.pendingConfig));
  }

  lemma OverlaidMatched(a: seq<Entry>, b: seq<Entry>, lead: seq<Entry>, n: nat)
    requires Overlaid(a, b, lead, n) && Matched(a, lead)
    ensures Matched(b, lead)
  {
    if b != a {
      assert b == lead[..n + 1];
    }
  }

  /** The pair after an accepted append that reaches up to index n. */
  lemma RaisedPair(r: Node, f: Node, s: Node, g: Node, n: nat)
    requires Paired(r, f) && Overlaid(f.log, g.log, r.log, n) && g.id == f.id && g.base == 0 && g.term == r.term
    requires Raised(r, s, f.id, n)
    ensures Paired(s, g) && s.log == r.log && Synced(s, g) && s.next[g.id] > n && s.match_[g.id] == s.next[g.id] - 1
  {
    assert Viewed(0);
    OverlaidMatched(f.log, g.log, r.log, n);
    assert Agree(g.log, r.log, r.match_[f.id]);
  }

  lemma RoundParts(r: Node, f: Node, reply: Msg)
    requires AppendMsg(r, f.id).AppendEntries? && reply == HandleAppendEntries(f, AppendMsg(r, f.id)).1
    requires reply.AppendEntriesReply?
    ensures Round(r, f) == (HandleAppendEntriesReply(r, reply), HandleAppendEntries(f, AppendMsg(r, f.id)).0)
  {
  }

  lemma RoundAccepts(r: Node, f: Node) returns (s: Node, g: Node, n: nat)
    requires Paired(r, f) && Synced(r, f)
    ensures Round(r, f) == (s, g) && n >= r.next[f.id] - 1 && (r.next[f.id] < |r.log| ==> n >= r.next[f.id])
    ensures Overlaid(f.log, g.log, r.log, n) && g.id == f.id && g.base == 0 && g.term == r.term
    ensures Raised(r, s, f.id, n)
  {
    var m := AppendMsg(r, f.id);
    n := r.next[f.id] - 1 + |m.entries|;
    Sends(r, f);
    AcceptedLog(r, f);
    var reply := AppendEntriesReply(f.id, r.id, r.term, true, n, m.readEpoch);
    Raises(r, f.id, n, m.readEpoch);
    RoundParts(r, f, reply);
    g := HandleAppendEntries(f, m).0;
    s := HandleAppendEntriesReply(r, reply);
  }

  /** An accepted append raises the match index to what the follower now holds. */
  lemma AcceptedRound(r: Node, f: Node)
    requires Paired(r, f) && Synced(r, f)
    ensures var (s, g) := Round(r, f);
            && Paired(s, g) && s.log == r.log && g.id == f.id && Synced(s, g)
            && s.next[g.id] >= r.next[f.id] && (r.next[f.id] < |r.log| ==> s.next[g.id] > r.next[f.id])
            && s.match_[g.id] == s.next[g.id] - 1
  {
    var s, g, n := RoundAccepts(r, f);
    RaisedPair(r, f, s, g, n);
  }

  /** The follower holds all of the leader's log, and the leader knows it. */
  ghost predicate CaughtUp(log: seq<Entry>, id: nat, s: Node, g: Node) {
    && |g.log| >= |log| > 0 && g.log[..|log|] == log
    && id < |s.match_| && s.match_[id] == |log| - 1
  }

  /** The pair holds this log and is less than k away from done; as one fact. */
  ghost predicate Within(log: seq<Entry>, id: nat, r: Node, f: Node, k: nat) {
    forall z: int {:trigger Viewed(z)} :: Viewed(z) ==> Paired(r, f) && r.log == log && f.id == id && Distance(r, f) < k
  }

  lemma OneRound(log: seq<Entry>, id: nat, r: Node, f: Node, k: nat)
    requires Within(log, id, r, f, k)
    ensures var (s, g) := Round(r, f); k > 1 ==> Within(log, id, s, g, k - 1)
  {
    assert Viewed(0);
    if Synced(r, f) { AcceptedRound(r, f); } else { RefusedRound(r, f); }
  }

  lemma LastRound(log: seq<Entry>, id: nat, r: Node, f: Node)
    requires Within(log, id, r, f, 1)
    ensures var (s, g) := Round(r, f); CaughtUp(log, id, s, g)
  {
    assert Viewed(0);
    AcceptedRound(r, f);
  }

  lemma {:induction false} AfterRounds(log: seq<Entry>, id: nat, r: Node, f: Node, k: nat)
    requires k > 0 && Within(log, id, r, f, k)
    ensures var (s, g) := Rounds(r, f, k); CaughtUp(log, id, s, g)
    decreases k
  {
    var (s, g) := Round(r, f);
    if k == 1 {
      LastRound(log, id, r, f);
      assert Rounds(s, g, 0) == (s, g);
    } else {
      OneRound(log, id, r, f, k);
      AfterRounds(log, id, s, g, k - 1);
    }
  }

  /** After as many exchanges as twice the log is long, the follower's log begins with all of the leader's, and the
      leader knows it. */
  lemma CatchesUp(r: Node, f: Node, k: nat)
    requires Paired(r, f) && k > 2 * |r.log|
    ensures var (s, g) := Rounds(r, f, k); CaughtUp(r.log, f.id, s, g)
  {
    AfterRounds(r.log, f.id, r, f, k);
  }

  // ----- in a run -----

  lemma LogsMatched(h: History, a: seq<Entry>, b: seq<Entry>)
    requires GoodLog(h, a) && GoodLog(h, b)
    ensures Matched(a, b) && Agree(a, b, 0)
  {
    forall j: nat | j < |a| && j < |b| && a[j].term == b[j].term
      ensures Agree(a, b, j)
    {
      GoodLogsMatch(h, a, b, j);
    }
  }

  /** A peer that acknowledged entry n of the leader's own term, and has not seen a later term, has it. */
  lemma AcknowledgedIsHeld(c: Cluster, h: History, v: nat, w: nat, n: nat)
    requires Inv(c, h) && v < |c.nodes| && w < |c.nodes| && c.nodes[v].role == Leader
    requires c.nodes[w].term <= c.nodes[v].term && w < |c.nodes[v].match_| && 0 < n == c.nodes[v].match_[w]
    requires n < |c.nodes[v].log| && c.nodes[v].log[n].term == c.nodes[v].term
    ensures Agree(c.nodes[w].log, c.nodes[v].log, n)
  {
    assert NodeOk(h, c.nodes[v], v, |c.nodes|);
    assert Confirmed(h, w, c.nodes[v].term, n);
  }

  /** Whenever a node leads, it and a peer that has not seen a later term are such a pair, as soon as the peer's match
      index is on an entry of the leader's own term or still zero. */
  lemma LeaderIsPaired(c: Cluster, es: seq<Event>, v: nat, w: nat)
    requires Fresh(c) && v < |c.nodes| && w < |c.nodes| && v != w
    requires var r := NodeAt(c, es, |es|, v);
             && r.role == Leader && r.lim.maxBatch > 0 && NodeAt(c, es, |es|, w).term <= r.term
             && w < |r.match_| && 0 <= r.match_[w] < |r.log|
             && (r.match_[w] == 0 || r.log[r.match_[w]].term == r.term)
    ensures Paired(NodeAt(c, es, |es|, v), NodeAt(c, es, |es|, w))
  {
    var h := SoundAfter(c, es);
    assert es[..|es|] == es;
    SizeKept(c, es);
    var d := Run(c, es);
    Unfold(d, h);
    assert NodeOk(h, d.nodes[v], v, |d.nodes|) && NodeOk(h, d.nodes[w], w, |d.nodes|);
    LogsMatched(h, d.nodes[w].log, d.nodes[v].log);
    if d.nodes[v].match_[w] > 0 { AcknowledgedIsHeld(d, h, v, w, d.nodes[v].match_[w]); }
  }
}
