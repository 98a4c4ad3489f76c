/** When a candidate wins, in terms of the events of the run. */
module RaftElections {
  import opened RaftNode
  import opened RaftCluster
  import opened RaftHistory
  import opened RaftHandlers
  import opened RaftEvents
  import opened RaftSafety
  import opened RaftEchoes

  /** A vote is given exactly to a candidate of a current or later term whose log is at least as up to date, unless
      another candidate of that term has it; then it is given to no other in that term. */
  lemma VoteRule(r: Node, m: Msg)
    requires m.RequestVote?
    ensures var (b, reply) := HandleRequestVote(r, m);
            var open := m.term > r.term || (m.term == r.term && (r.votedFor == -1 || r.votedFor == m.from));
            var newer := m.lastTerm > LastTerm(r) || (m.lastTerm == LastTerm(r) && m.lastIndex >= LastIndex(r));
            && reply == RequestVoteReply(r.id, m.from, if m.term > r.term then m.term else r.term, open && newer)
            && b.term == reply.term && b.log == r.log
            && b.votedFor == (if open && newer then m.from else if m.term > r.term then -1 else r.votedFor)
  {
  }

  // ----- counting -----

  /** The event delivers to v a vote granted in term t. */
  predicate Grant(c: Cluster, e: Event, v: nat, t: nat) {
    e.Deliver? && InFlight(c, e.msg) && c.sent[e.msg].to == v
    && c.sent[e.msg].RequestVoteReply? && c.sent[e.msg].granted && c.sent[e.msg].term == t
  }

  /** How many such events the run has. */
  function Grants(c: Cluster, es: seq<Event>, v: nat, t: nat): nat
    decreases |es|
  {
    if es == [] then 0
    else
      var n := |es| - 1;
      Grants(c, es[..n], v, t) + if Grant(Run(c, es[..n]), es[n], v, t) then 1 else 0
  }

  /** A candidate with its own vote and g others: a leader exactly with more than half of n. */
  ghost predicate Polled(r: Node, n: nat, t: nat, g: nat) {
    && r.term == t && r.members == AllIds(n) && r.id < n
    && if 2 * (1 + g) > n then r.role == Leader else r.role == Candidate && r.votes == 1 + g
  }

  lemma LeadKeeps(r: Node, n: nat)
    requires r.members == AllIds(n) && r.id < n
    ensures BecomeLeader(r).0.role == Leader
  {
    var a := TakeLead(r);
    AdvanceRead(a);
  }

  /** What a poll makes of one more vote, and of anything else. */
  lemma PolledVote(r: Node, m: Msg, n: nat, t: nat, g: nat)
    requires Polled(r, n, t, g) && m.RequestVoteReply? && m.granted && m.term == t
    ensures var b := Receive(r, m).0; b.role != Follower && (b.members == r.members && b.id == r.id ==>
              Polled(b, n, t, g + 1))
  {
    if r.role == Candidate {
      LeadKeeps(r.(votes := r.votes + 1), n);
      LeadDescends(r.(votes := r.votes + 1));
    }
  }

  /** The parts of a node a poll depends on. */
  ghost predicate SamePoll(a: Node, b: Node) {
    a.role == b.role && (a.role == Candidate ==> a.votes == b.votes)
  }

  lemma ReplyKeepsRole(r: Node, m: Msg)
    requires r.id in r.members
    requires m.AppendEntriesReply? || m.InstallSnapshotReply?
    ensures var b := Receive(r, m).0; b.term == r.term ==> SamePoll(r, b)
  {
    AdvanceRead(RecordMatch(r, m.from, m.matchIndex));
  }

  lemma OtherMessage(r: Node, m: Msg)
    requires r.role != Follower && r.id in r.members && !(m.RequestVoteReply? && m.granted && m.term == r.term)
    ensures var b := Receive(r, m).0; b.term == r.term && b.role != Follower ==> SamePoll(r, b)
  {
    match m
    case RequestVote(_, _, _, _, _) =>
    case RequestVoteReply(_, _, _, _) =>
    case AppendEntries(_, _, _, _, _, _, _, _) => AppendRole(r, m);
    case AppendEntriesReply(_, _, _, _, _, _) => ReplyKeepsRole(r, m);
    case InstallSnapshot(_, _, _, _, _, _, _) =>
    case InstallSnapshotReply(_, _, _, _) => ReplyKeepsRole(r, m);
  }

  lemma TickKeepsPoll(r: Node)
    requires r.role != Follower
    ensures var b := Tick(r).0; b.term == r.term ==> SamePoll(r, b)
  {
    LeadDescends(StartElection(r.(electionElapsed := r.electionElapsed + 1)));
  }

  lemma OtherEvent(c: Cluster, e: Event, v: nat)
    requires v < |c.nodes| && c.nodes[v].role != Follower && c.nodes[v].id in c.nodes[v].members
    requires !Grant(c, e, v, c.nodes[v].term)
    ensures var a := c.nodes[v]; var b := Step(c, e).nodes[v]; b.term == a.term && b.role != Follower ==> SamePoll(a, b)
  {
    match e
    case TickNode(w) => TickKeepsPoll(c.nodes[v]);
    case SubmitTo(w, x) =>
    case ReadAt(w) =>
    case Deliver(k) => if InFlight(c, k) && c.sent[k].to == v { OtherMessage(c.nodes[v], c.sent[k]); }
    case Lose(k) =>
    case Restart(w) =>
  }

  lemma PolledStep(c: Cluster, h: History, e: Event, v: nat, k: History, t: nat, g: nat)
    requires Sound(c, h) && Sound(Step(c, e), k) && v < |c.nodes| == |Step(c, e).nodes|
    requires Polled(c.nodes[v], |c.nodes|, t, g)
    ensures var b := Step(c, e).nodes[v];
            b.term == t && b.role != Follower ==>
              Polled(b, |c.nodes|, t, g + if Grant(c, e, v, t) then 1 else 0)
  {
    NodeOf(c, h, v);
    NodeOf(Step(c, e), k, v);
    if Grant(c, e, v, t) {
      PolledVote(c.nodes[v], c.sent[e.msg], |c.nodes|, t, g);
    } else {
      OtherEvent(c, e, v);
    }
  }

  lemma NotYetOut(c: Cluster, es: seq<Event>, v: nat, t: nat)
    requires v < |c.nodes| && es != []
    requires After(c, es, v).term == t && After(c, es, v).role != Follower
    requires var a := After(c, es[..|es| - 1], v); a.term >= t
    ensures var a := After(c, es[..|es| - 1], v); a.term == t && a.role != Follower
  {
    AfterStep(c, es, v);
    StepDescends(Run(c, es[..|es| - 1]), es[|es| - 1], v);
  }

  lemma {:induction false} TermsGrow(c: Cluster, es: seq<Event>, v: nat)
    requires v < |c.nodes|
    ensures After(c, es, v).term >= c.nodes[v].term
    decreases |es|
  {
    if es != [] {
      TermsGrow(c, es[..|es| - 1], v);
      AfterStep(c, es, v);
      StepDescends(Run(c, es[..|es| - 1]), es[|es| - 1], v);
    }
  }

  lemma PolledNext(c: Cluster, g: History, es: seq<Event>, v: nat, t: nat, votes: nat) returns (k: History)
    requires v < |c.nodes| && es != [] && Sound(Run(c, es[..|es| - 1]), g)
    requires After(c, es, v).term == t && After(c, es, v).role != Follower
    requires Polled(After(c, es[..|es| - 1], v), |c.nodes|, t, votes)
    ensures Sound(Run(c, es), k)
    ensures Polled(After(c, es, v), |c.nodes|, t,
                   votes + if Grant(Run(c, es[..|es| - 1]), es[|es| - 1], v, t) then 1 else 0)
  {
    var d, e := Run(c, es[..|es| - 1]), es[|es| - 1];
    AfterStep(c, es, v);
    SizeKept(c, es);
    k := NextHistory(d, g, e);
    PolledStep(d, g, e, v, k, t, votes);
  }

  lemma {:induction false} PolledRun(c: Cluster, h: History, es: seq<Event>, v: nat, t: nat) returns (k: History)
    requires Sound(c, h) && v < |c.nodes| && Polled(c.nodes[v], |c.nodes|, t, 0)
    requires After(c, es, v).term == t && After(c, es, v).role != Follower
    ensures Sound(Run(c, es), k) && Polled(After(c, es, v), |c.nodes|, t, Grants(c, es, v, t))
    decreases |es|
  {
    if es == [] {
      k := h;
    } else {
      var front := es[..|es| - 1];
      TermsGrow(c, front, v);
      NotYetOut(c, es, v, t);
      var g := PolledRun(c, h, front, v, t);
      k := PolledNext(c, g, es, v, t, Grants(c, front, v, t));
    }
  }

  /** The tick makes node v a candidate. */
  predicate TimesOut(c: Cluster, v: nat) {
    v < |c.nodes| && c.nodes[v].role != Leader && c.nodes[v].id in c.nodes[v].members
    && c.nodes[v].electionElapsed + 1 >= c.nodes[v].electionTimeout
  }

  lemma StartsPolled(c: Cluster, h: History, v: nat) returns (k: History)
    requires Sound(c, h) && TimesOut(c, v)
    ensures var d := Step(c, TickNode(v));
            Sound(d, k) && |d.nodes| == |c.nodes| && Polled(d.nodes[v], |c.nodes|, c.nodes[v].term + 1, 0)
  {
    var d := Step(c, TickNode(v));
    k := NextHistory(c, h, TickNode(v));
    NodeOf(c, h, v);
    NodeOf(d, k, v);
    var a := StartElection(c.nodes[v].(electionElapsed := c.nodes[v].electionElapsed + 1));
    LeadKeeps(a, |c.nodes|);
    LeadDescends(a);
  }

  ghost predicate Viewed(z: int) {
    true
  }

  /** The election timeout of node v has run out in b, and d is what its tick makes of b; as one fact. */
  ghost predicate Candidacy(b: Cluster, v: nat, d: Cluster) {
    forall z: int {:trigger Viewed(z)} :: Viewed(z) ==> TimesOut(b, v) && d == Step(b, TickNode(v))
  }

  lemma CandidacyPolled(b: Cluster, h: History, v: nat, d: Cluster) returns (k: History)
    requires Sound(b, h) && Candidacy(b, v, d)
    ensures Sound(d, k) && v < |d.nodes| == |b.nodes| && d.nodes[v].term == b.nodes[v].term + 1
    ensures Polled(d.nodes[v], |d.nodes|, d.nodes[v].term, 0)
  {
    assert Viewed(0);
    k := StartsPolled(b, h, v);
  }

  lemma AfterTick(c: Cluster, xs: seq<Event>, ys: seq<Event>, v: nat, d: Cluster)
    requires v < |c.nodes| && Candidacy(Run(c, xs), v, d)
    ensures |d.nodes| == |c.nodes| && After(c, xs + [TickNode(v)] + ys, v) == After(d, ys, v)
  {
    assert Viewed(0);
    AfterAround(c, xs, TickNode(v), ys, v);
  }

  /** A node that stood for election and is neither past that term nor a follower in it leads exactly when it has
      been delivered enough granted votes of that term to hold, with its own, more than half. */
  lemma ElectedByMajority(c: Cluster, xs: seq<Event>, v: nat, ys: seq<Event>, d: Cluster)
    requires Fresh(c) && v < |c.nodes| && Candidacy(Run(c, xs), v, d) && |d.nodes| == |c.nodes|
    requires var r := After(c, xs + [TickNode(v)] + ys, v); r.term == d.nodes[v].term && r.role != Follower
    ensures v < |Run(c, xs).nodes| && d.nodes[v].term == Run(c, xs).nodes[v].term + 1
    ensures After(c, xs + [TickNode(v)] + ys, v).role == Leader <==>
            2 * (1 + Grants(d, ys, v, d.nodes[v].term)) > |c.nodes|
  {
    var h := SoundAfter(c, xs);
    var k := CandidacyPolled(Run(c, xs), h, v, d);
    AfterTick(c, xs, ys, v, d);
    var g := PolledRun(d, k, ys, v, d.nodes[v].term);
  }
}
