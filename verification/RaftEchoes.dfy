/** When a ReadIndex barrier is confirmed, in terms of the events of the run. */
module RaftEchoes {
  import opened RaftNode
  import opened RaftCluster
  import opened RaftHistory
  import opened RaftHandlers
  import opened RaftEvents
  import opened RaftSafety

  // ----- one node -----

  /** The fields of the read barrier, and what its count depends on, are the same. */
  ghost predicate SameRead(a: Node, b: Node) {
    && a.id == b.id && a.members == b.members
    && a.readBarrier == b.readBarrier && a.readAcks == b.readAcks
    && a.readConfirmed == b.readConfirmed && a.readEpoch == b.readEpoch
  }

  lemma AdvanceRead(r: Node)
    requires r.id in r.members
    ensures var b := AdvanceCommit(r); SameRead(r, b) && b.role == r.role && b.term == r.term
  {
    var i := FindCommit(r, LastIndex(r));
    var p := if 0 <= r.pendingConfig <= i then -1 else r.pendingConfig;
    ApplyFrame(r.(commit := i, pendingConfig := p));
  }

  lemma AdvanceTerm(r: Node)
    ensures AdvanceCommit(r).term == r.term && (AdvanceCommit(r).role == r.role || AdvanceCommit(r).role == Follower)
  {
    var i := FindCommit(r, LastIndex(r));
    var p := if 0 <= r.pendingConfig <= i then -1 else r.pendingConfig;
    ApplyFrame(r.(commit := i, pendingConfig := p));
  }

  lemma {:induction false} PutRole(r: Node, i: int, es: seq<Entry>)
    ensures var b := PutEntries(r, i, es).0; b.role == r.role && b.term == r.term
    decreases |es|
  {
    if es != [] { PutRole(r, i, es[..|es| - 1]); }
  }

  lemma AppendRole(r: Node, m: Msg)
    requires m.AppendEntries?
    ensures var b := HandleAppendEntries(r, m).0;
            if m.term < r.term then b == r
            else b.role == Follower && b.term == m.term
  {
    var a := StepDownIfHigher(r, m.term).(role := Follower, electionElapsed := 0);
    PutRole(a, m.prevIndex + 1, m.entries);
    FollowFrame(AcceptEntries(a, m), m.leaderCommit);
  }

  /** A successful reply of the leader's own term. */
  predicate Success(m: Msg, t: nat) {
    m.AppendEntriesReply? && m.success && m.term == t
  }

  lemma ReplyRead(r: Node, m: Msg)
    requires r.role == Leader && r.id in r.members && m.AppendEntriesReply?
    ensures var b := HandleAppendEntriesReply(r, m);
            b.role == Leader && b.term == r.term ==>
              SameRead(if Success(m, r.term) then CountReadAck(r, m.from, m.readEpoch) else r, b)
  {
    if Success(m, r.term) { AdvanceRead(RecordMatch(r, m.from, m.matchIndex)); }
  }

  /** Nothing a leader receives touches its barrier, but a successful reply. */
  lemma ReceiveRead(r: Node, m: Msg)
    requires r.role == Leader && r.id in r.members
    ensures var b := Receive(r, m).0;
            b.role == Leader && b.term == r.term ==>
              SameRead(if Success(m, r.term) then CountReadAck(r, m.from, m.readEpoch) else r, b)
  {
    match m
    case RequestVote(_, _, _, _, _) =>
    case RequestVoteReply(_, _, _, _) =>
    case AppendEntries(_, _, _, _, _, _, _, _) => AppendRole(r, m);
    case AppendEntriesReply(_, _, _, _, _, _) => ReplyRead(r, m);
    case InstallSnapshot(_, _, _, _, _, _, _) =>
    case InstallSnapshotReply(_, _, _, _) => AdvanceRead(RecordMatch(r, m.from, m.matchIndex));
  }

  /** Within a term a node only ever goes from candidate to leader and to follower. */
  ghost predicate Descends(a: Node, b: Node) {
    b.term > a.term || (b.term == a.term && (b.role == a.role || b.role == Follower || a.role == Candidate))
  }

  lemma LeadDescends(r: Node)
    ensures BecomeLeader(r).0.term == r.term
  {
    AdvanceTerm(TakeLead(r));
  }

  lemma ReceiveDescends(r: Node, m: Msg)
    ensures Descends(r, Receive(r, m).0)
  {
    match m
    case RequestVote(_, _, _, _, _) =>
    case RequestVoteReply(_, _, _, _) => LeadDescends(r.(votes := r.votes + 1));
    case AppendEntries(_, _, _, _, _, _, _, _) => AppendRole(r, m);
    case AppendEntriesReply(_, _, _, _, _, _) => AdvanceTerm(RecordMatch(r, m.from, m.matchIndex));
    case InstallSnapshot(_, _, _, _, _, _, _) =>
    case InstallSnapshotReply(_, _, _, _) => AdvanceTerm(RecordMatch(r, m.from, m.matchIndex));
  }

  lemma TickDescends(r: Node)
    ensures Descends(r, Tick(r).0)
  {
    LeadDescends(StartElection(r.(electionElapsed := r.electionElapsed + 1)));
  }

  lemma StepDescends(c: Cluster, e: Event, v: nat)
    requires v < |c.nodes|
    ensures Descends(c.nodes[v], Step(c, e).nodes[v])
  {
    var r := c.nodes[v];
    match e
    case TickNode(w) => TickDescends(r);
    case SubmitTo(w, x) =>
    case ReadAt(w) =>
    case Deliver(k) => if InFlight(c, k) { ReceiveDescends(r, c.sent[k]); }
    case Lose(k) =>
    case Restart(w) =>
  }

  /** Past the leading of term t. */
  ghost predicate Out(r: Node, t: nat) {
    r.term > t || (r.term == t && r.role == Follower)
  }

  ghost predicate Leads(r: Node, t: nat) {
    r.term == t && r.role == Leader
  }

  function After(c: Cluster, es: seq<Event>, v: nat): Node
    requires v < |c.nodes|
  {
    SizeKept(c, es);
    Run(c, es).nodes[v]
  }

  lemma AfterStep(c: Cluster, es: seq<Event>, v: nat)
    requires v < |c.nodes| && es != []
    ensures var d, e := Run(c, es[..|es| - 1]), es[|es| - 1];
            && |d.nodes| == |c.nodes| && d.nodes[v] == After(c, es[..|es| - 1], v)
            && Step(d, e).nodes[v] == After(c, es, v)
  {
    SizeKept(c, es[..|es| - 1]);
    SizeKept(c, es);
  }

  /** A node that led a term leads it, or is past it. */
  lemma {:induction false} LeadsOrOut(c: Cluster, es: seq<Event>, v: nat, t: nat)
    requires v < |c.nodes| && Leads(c.nodes[v], t)
    ensures Leads(After(c, es, v), t) || Out(After(c, es, v), t)
    decreases |es|
  {
    if es != [] {
      LeadsOrOut(c, es[..|es| - 1], v, t);
      AfterStep(c, es, v);
      StepDescends(Run(c, es[..|es| - 1]), es[|es| - 1], v);
    }
  }

  /** A node that still leads a term led it one event ago. */
  lemma LedBefore(c: Cluster, es: seq<Event>, v: nat, t: nat)
    requires v < |c.nodes| && es != [] && Leads(c.nodes[v], t) && Leads(After(c, es, v), t)
    ensures Leads(After(c, es[..|es| - 1], v), t)
  {
    LeadsOrOut(c, es[..|es| - 1], v, t);
    AfterStep(c, es, v);
    StepDescends(Run(c, es[..|es| - 1]), es[|es| - 1], v);
  }

  // ----- the echoes of a barrier -----

  /** The sender, if the event delivers to v a successful reply of this term that echoes this epoch. */
  function EchoOf(c: Cluster, e: Event, v: nat, t: nat, epoch: nat): set<nat> {
    if e.Deliver? && InFlight(c, e.msg) && c.sent[e.msg].to == v && Success(c.sent[e.msg], t)
       && c.sent[e.msg].readEpoch == epoch
    then {c.sent[e.msg].from} else {}
  }

  /** The senders of such replies among the events of a run. */
  function Echoers(c: Cluster, es: seq<Event>, v: nat, t: nat, epoch: nat): set<nat>
    decreases |es|
  {
    if es == [] then {}
    else
      var n := |es| - 1;
      Echoers(c, es[..n], v, t, epoch) + EchoOf(Run(c, es[..n]), es[n], v, t, epoch)
  }

  /** A barrier at index x with the acknowledgements `acks`: confirmed exactly with more than half. */
  ghost predicate Standing(r: Node, n: nat, acks: set<nat>, x: int, epoch: nat) {
    && r.members == AllIds(n) && acks <= AllIds(n) && r.readEpoch == epoch && x >= 0
    && if 2 * |acks| > n then r.readConfirmed == x && r.readBarrier == -1
       else r.readConfirmed == -1 && r.readBarrier == x && r.readAcks == acks
  }

  lemma StandingSame(a: Node, b: Node, n: nat, acks: set<nat>, x: int, epoch: nat)
    requires Standing(a, n, acks, x, epoch) && SameRead(a, b)
    ensures Standing(b, n, acks, x, epoch)
  {
  }

  lemma SizeGrows(a: set<nat>, b: set<nat>)
    requires a <= b
    ensures |a| <= |b|
  {
    assert b == a + (b - a);
  }

  lemma StandingCounts(r: Node, n: nat, acks: set<nat>, x: int, from: nat, epoch: nat)
    requires Standing(r, n, acks, x, epoch) && from < n
    ensures Standing(CountReadAck(r, from, epoch), n, acks + {from}, x, epoch)
  {
    var more := acks + {from};
    SizeGrows(acks, more);
    assert more * r.members == more;
  }

  lemma StandingOpens(r: Node, n: nat)
    requires r.members == AllIds(n) && r.id < n && r.commit >= 0
    ensures Standing(OpenBarrier(r), n, {r.id}, r.commit, r.readEpoch + 1)
  {
  }

  /** Any other event leaves the barrier of a leader alone. */
  lemma OtherRead(c: Cluster, e: Event, v: nat)
    requires v < |c.nodes| && c.nodes[v].role == Leader && e != ReadAt(v)
    requires !(e.Deliver? && InFlight(c, e.msg) && c.sent[e.msg].to == v)
    ensures Step(c, e).nodes[v].role == Leader ==> SameRead(c.nodes[v], Step(c, e).nodes[v])
  {
    match e
    case TickNode(w) =>
    case SubmitTo(w, x) =>
    case ReadAt(w) =>
    case Deliver(k) =>
    case Lose(k) =>
    case Restart(w) =>
  }

  lemma StandingReceive(a: Node, m: Msg, b: Node, n: nat, acks: set<nat>, x: int)
    requires Standing(a, n, acks, x, a.readEpoch) && m.from < n
    requires SameRead(if Success(m, a.term) then CountReadAck(a, m.from, m.readEpoch) else a, b)
    ensures Standing(b, n, if Success(m, a.term) && m.readEpoch == a.readEpoch then acks + {m.from} else acks, x,
                     a.readEpoch)
  {
    if Success(m, a.term) && m.readEpoch == a.readEpoch {
      StandingCounts(a, n, acks, x, m.from, a.readEpoch);
      StandingSame(CountReadAck(a, m.from, m.readEpoch), b, n, acks + {m.from}, x, a.readEpoch);
    } else {
      StandingSame(a, b, n, acks, x, a.readEpoch);
    }
  }

  lemma StandingDeliver(c: Cluster, h: History, k: nat, v: nat, acks: set<nat>, x: int)
    requires Sound(c, h) && v < |c.nodes| && c.nodes[v].role == Leader && InFlight(c, k) && c.sent[k].to == v
    requires Standing(c.nodes[v], |c.nodes|, acks, x, c.nodes[v].readEpoch)
    ensures var a := c.nodes[v]; var b := Receive(a, c.sent[k]).0;
            b.role == Leader && b.term == a.term ==>
              Standing(b, |c.nodes|, acks + EchoOf(c, Deliver(k), v, a.term, a.readEpoch), x, a.readEpoch)
  {
    var a, m := c.nodes[v], c.sent[k];
    var b := Receive(a, m).0;
    NodeOf(c, h, v);
    MsgOf(c, h, k);
    ReceiveRead(a, m);
    assert acks + {} == acks;
    if b.role == Leader && b.term == a.term { StandingReceive(a, m, b, |c.nodes|, acks, x); }
  }

  /** One event at a leader with a standing barrier. */
  lemma StandingStep(c: Cluster, h: History, e: Event, v: nat, acks: set<nat>, x: int)
    requires Sound(c, h) && v < |c.nodes| && c.nodes[v].role == Leader && e != ReadAt(v)
    requires Standing(c.nodes[v], |c.nodes|, acks, x, c.nodes[v].readEpoch)
    ensures var a := c.nodes[v]; var b := Step(c, e).nodes[v];
            b.role == Leader && b.term == a.term ==>
              Standing(b, |c.nodes|, acks + EchoOf(c, e, v, a.term, a.readEpoch), x, a.readEpoch)
  {
    var a, b := c.nodes[v], Step(c, e).nodes[v];
    if e.Deliver? && InFlight(c, e.msg) && c.sent[e.msg].to == v {
      StandingDeliver(c, h, e.msg, v, acks, x);
    } else if b.role == Leader {
      OtherRead(c, e, v);
      assert acks + {} == acks;
      StandingSame(a, b, |c.nodes|, acks, x, a.readEpoch);
    }
  }

  /** What stands after the events is the barrier with their echoes added. */
  lemma {:induction false} StandingRun(c: Cluster, h: History, es: seq<Event>, v: nat, acks: set<nat>, x: int)
      returns (k: History)
    requires Sound(c, h) && v < |c.nodes| && ReadAt(v) !in es
    requires var a := c.nodes[v]; Leads(a, a.term) && Standing(a, |c.nodes|, acks, x, a.readEpoch)
    requires Leads(After(c, es, v), c.nodes[v].term)
    ensures Sound(Run(c, es), k)
    ensures var a := c.nodes[v];
            Standing(After(c, es, v), |c.nodes|, acks + Echoers(c, es, v, a.term, a.readEpoch), x, a.readEpoch)
    decreases |es|
  {
    if es == [] {
      k := h;
      assert acks + {} == acks;
    } else {
      var a, front := c.nodes[v], es[..|es| - 1];
      LedBefore(c, es, v, a.term);
      var g := StandingRun(c, h, front, v, acks, x);
      k := StandingNext(c, g, es, v, acks + Echoers(c, front, v, a.term, a.readEpoch), x, a.term, a.readEpoch);
      assert acks + Echoers(c, es, v, a.term, a.readEpoch) == acks + Echoers(c, front, v, a.term, a.readEpoch)
          + EchoOf(Run(c, front), es[|es| - 1], v, a.term, a.readEpoch);
    }
  }

  lemma StandingNext(c: Cluster, g: History, es: seq<Event>, v: nat, acks: set<nat>, x: int, t: nat, epoch: nat)
      returns (k: History)
    requires v < |c.nodes| && es != [] && es[|es| - 1] != ReadAt(v) && Sound(Run(c, es[..|es| - 1]), g)
    requires Leads(After(c, es[..|es| - 1], v), t) && Leads(After(c, es, v), t)
    requires Standing(After(c, es[..|es| - 1], v), |c.nodes|, acks, x, epoch)
    ensures Sound(Run(c, es), k)
    ensures Standing(After(c, es, v), |c.nodes|,
                     acks + EchoOf(Run(c, es[..|es| - 1]), es[|es| - 1], v, t, epoch), x, epoch)
  {
    var d, e := Run(c, es[..|es| - 1]), es[|es| - 1];
    AfterStep(c, es, v);
    k := NextHistory(d, g, e);
    StandingStep(d, g, e, v, acks, x);
  }

  /** The run after a leader opened a barrier: it leads its term still and has opened no other. */
  ghost predicate Stands(c: Cluster, v: nat, es: seq<Event>) {
    && CanRead(c, v) && ReadAt(v) !in es
    && |Step(c, ReadAt(v)).nodes| == |c.nodes|
    && Leads(After(Step(c, ReadAt(v)), es, v), c.nodes[v].term)
  }

  /** Itself, and the senders of successful replies since that carry its term and the barrier's epoch. */
  function Acknowledgers(c: Cluster, v: nat, es: seq<Event>): set<nat>
    requires v < |c.nodes|
  {
    {v} + Echoers(Step(c, ReadAt(v)), es, v, c.nodes[v].term, c.nodes[v].readEpoch + 1)
  }

  lemma OpensBarrier(c: Cluster, h: History, v: nat) returns (k: History)
    requires Sound(c, h) && CanRead(c, v)
    ensures var d := Step(c, ReadAt(v));
            && Sound(d, k) && |d.nodes| == |c.nodes| && d.nodes[v] == OpenBarrier(c.nodes[v])
            && Standing(d.nodes[v], |c.nodes|, {v}, c.nodes[v].commit, c.nodes[v].readEpoch + 1)
  {
    k := NextHistory(c, h, ReadAt(v));
    NodeOf(c, h, v);
    StandingOpens(c.nodes[v], |c.nodes|);
  }

  lemma ConfirmedFrom(d: Cluster, h: History, v: nat, es: seq<Event>, x: int, t: nat, epoch: nat)
    requires Sound(d, h) && v < |d.nodes| && ReadAt(v) !in es && Leads(d.nodes[v], t) && Leads(After(d, es, v), t)
    requires Standing(d.nodes[v], |d.nodes|, {v}, x, epoch)
    ensures After(d, es, v).readConfirmed ==
            if 2 * |{v} + Echoers(d, es, v, t, epoch)| > |d.nodes| then x else -1
  {
    var k := StandingRun(d, h, es, v, {v}, x);
  }

  lemma StandsConfirmed(c: Cluster, h: History, v: nat, es: seq<Event>)
    requires Sound(c, h) && Stands(c, v, es)
    ensures After(Step(c, ReadAt(v)), es, v).readConfirmed ==
            if 2 * |Acknowledgers(c, v, es)| > |c.nodes| then c.nodes[v].commit else -1
  {
    var k := OpensBarrier(c, h, v);
    ConfirmedFrom(Step(c, ReadAt(v)), k, v, es, c.nodes[v].commit, c.nodes[v].term, c.nodes[v].readEpoch + 1);
  }

  lemma RunAround(c: Cluster, xs: seq<Event>, e: Event, ys: seq<Event>)
    ensures Run(c, xs + [e] + ys) == Run(Step(Run(c, xs), e), ys)
  {
    RunJoin(c, xs + [e], ys);
    assert (xs + [e])[..|xs|] == xs;
  }

  lemma AfterAround(c: Cluster, xs: seq<Event>, e: Event, ys: seq<Event>, v: nat)
    requires v < |c.nodes|
    ensures |Run(c, xs).nodes| == |c.nodes| == |Step(Run(c, xs), e).nodes|
    ensures After(c, xs + [e] + ys, v) == After(Step(Run(c, xs), e), ys, v)
  {
    SizeKept(c, xs);
    SizeKept(c, xs + [e] + ys);
    RunAround(c, xs, e, ys);
  }

  /** While the leader that opened a barrier leads and opens no other, the read is confirmed at the commit
      index of that moment exactly when more than half of the nodes, itself among them, have echoed it. */
  lemma ConfirmedByMajority(c: Cluster, xs: seq<Event>, v: nat, ys: seq<Event>)
    requires Fresh(c) && v < |c.nodes| && Stands(Run(c, xs), v, ys)
    ensures var a := Run(c, xs).nodes[v];
            && ReadIndex(a).2 == a.commit
            && After(c, xs + [ReadAt(v)] + ys, v).readConfirmed ==
               if 2 * |Acknowledgers(Run(c, xs), v, ys)| > |c.nodes| then a.commit else -1
  {
    var h := SoundAfter(c, xs);
    StandsConfirmed(Run(c, xs), h, v, ys);
    AfterAround(c, xs, ReadAt(v), ys, v);
  }
}
