/** What a node hands to its state machine over a whole run. */
module RaftApply {
  import opened RaftNode
  import opened RaftCluster
  import opened RaftHistory
  import opened RaftHandlers
  import opened RaftEvents
  import opened RaftBatch
  import opened RaftSafety

  // ----- one node -----

  function Effect(r: Node, i: int): seq<Applied> {
    if EntryAt(r, i).isNoop then [] else [Applied(i, EntryAt(r, i).command)]
  }

  /** The commands at the indices above a and up to b, in order, without the no-ops. */
  function Commands(r: Node, a: int, b: int): seq<Applied>
    decreases b - a
  {
    if b <= a then [] else Commands(r, a, b - 1) + Effect(r, b)
  }

  lemma {:induction false} CommandsJoin(r: Node, a: int, b: int, c: int)
    requires a <= b <= c
    ensures Commands(r, a, c) == Commands(r, a, b) + Commands(r, b, c)
    decreases c - b
  {
    if b < c { CommandsJoin(r, a, b, c - 1); }
  }

  lemma {:induction false} CommandsSame(r: Node, s: Node, a: int, b: int)
    requires forall i | a < i <= b :: EntryAt(r, i) == EntryAt(s, i)
    ensures Commands(r, a, b) == Commands(s, a, b)
    decreases b - a
  {
    if a < b { CommandsSame(r, s, a, b - 1); }
  }

  lemma {:induction false} ApplyLists(r: Node)
    ensures ApplyCommitted(r).applied == r.applied + Commands(r, r.lastApplied, r.commit)
    decreases r.commit - r.lastApplied
  {
    if r.lastApplied < r.commit {
      var i := r.lastApplied + 1;
      var s := r.(lastApplied := i, applied := r.applied + Effect(r, i));
      assert r.applied + [] == r.applied;
      ApplyLists(s);
      CommandsSame(r, s, i, r.commit);
      CommandsJoin(r, r.lastApplied, i, r.commit);
      assert Commands(r, r.lastApplied, i) == Effect(r, i) by {
        assert Commands(r, r.lastApplied, i - 1) == [];
      }
      Reassociate(r.applied, Effect(r, i), Commands(r, i, r.commit));
    }
  }

  lemma Reassociate(a: seq<Applied>, b: seq<Applied>, c: seq<Applied>)
    ensures a + b + c == a + (b + c)
  {
  }

  /** b applied, after a, the commands of its own log that follow, and nothing committed is left over. */
  ghost predicate Advances(a: Node, b: Node) {
    && a.lastApplied <= b.lastApplied
    && b.applied == a.applied + Commands(b, a.lastApplied, b.lastApplied)
    && (a.commit <= a.lastApplied ==> b.commit <= b.lastApplied)
  }

  /** Nothing that concerns the state machine changed. */
  ghost predicate SameMachine(a: Node, b: Node) {
    a.lastApplied == b.lastApplied && a.applied == b.applied && a.commit == b.commit
  }

  lemma ApplyAdvances(r: Node, i: int, p: int)
    ensures var s := r.(commit := i, pendingConfig := p); Advances(r, ApplyCommitted(s))
  {
    var s := r.(commit := i, pendingConfig := p);
    var b := ApplyCommitted(s);
    ApplyLists(s);
    ApplyFrame(s);
    if r.lastApplied <= i { CommandsSame(s, b, r.lastApplied, i); }
  }

  lemma AdvanceAdvances(r: Node)
    ensures Advances(r, AdvanceCommit(r))
  {
    var i := FindCommit(r, LastIndex(r));
    if i > r.commit {
      var p := if 0 <= r.pendingConfig <= i then -1 else r.pendingConfig;
      ApplyAdvances(r, i, p);
      var a := ApplyCommitted(r.(commit := i, pendingConfig := p));
      CommandsSame(a, CommitTo(r, i), r.lastApplied, a.lastApplied);
    }
  }

  lemma LeadAdvances(r: Node)
    ensures Advances(r, BecomeLeader(r).0)
  {
    var a := TakeLead(r);
    AdvanceAdvances(a);
    var b := AdvanceCommit(a);
    CommandsSame(b, b.(heartbeatElapsed := 0), r.lastApplied, b.lastApplied);
  }

  lemma TickAdvances(r: Node)
    ensures Advances(r, Tick(r).0)
  {
    var a := r.(electionElapsed := r.electionElapsed + 1);
    LeadAdvances(StartElection(a));
  }

  lemma {:induction false} PutMachine(r: Node, i: int, es: seq<Entry>)
    ensures SameMachine(r, PutEntries(r, i, es).0)
    decreases |es|
  {
    if es != [] { PutMachine(r, i, es[..|es| - 1]); }
  }

  lemma FollowAdvances(r: Node, leaderCommit: int)
    ensures Advances(r, FollowCommit(r, leaderCommit))
  {
    ApplyAdvances(r, if leaderCommit < LastIndex(r) then leaderCommit else LastIndex(r), r.pendingConfig);
  }

  lemma AppendAdvances(r: Node, m: Msg)
    requires m.AppendEntries?
    ensures Advances(r, HandleAppendEntries(r, m).0)
  {
    var b := StepDownIfHigher(r, m.term).(role := Follower, electionElapsed := 0);
    PutMachine(b, m.prevIndex + 1, m.entries);
    FollowAdvances(AcceptEntries(b, m), m.leaderCommit);
  }

  lemma ReceiveAdvances(r: Node, m: Msg)
    requires !m.InstallSnapshot?
    ensures Advances(r, Receive(r, m).0)
  {
    match m
    case RequestVote(_, _, _, _, _) =>
    case RequestVoteReply(_, _, _, _) => LeadAdvances(r.(votes := r.votes + 1));
    case AppendEntries(_, _, _, _, _, _, _, _) => AppendAdvances(r, m);
    case AppendEntriesReply(_, _, _, _, _, _) => ReplyAdvances(r, m);
    case InstallSnapshotReply(_, _, _, _) => AdvanceAdvances(RecordMatch(r, m.from, m.matchIndex));
  }

  lemma ReplyAdvances(r: Node, m: Msg)
    requires m.AppendEntriesReply?
    ensures Advances(r, HandleAppendEntriesReply(r, m))
  {
    var a := RecordMatch(r, m.from, m.matchIndex);
    AdvanceAdvances(a);
    var b := AdvanceCommit(a);
    CommandsSame(b, CountReadAck(b, m.from, m.readEpoch), r.lastApplied, b.lastApplied);
  }

  lemma StepAdvances(c: Cluster, h: History, e: Event, v: nat)
    requires Sound(c, h) && v < |c.nodes| && e != Restart(v)
    ensures Advances(c.nodes[v], Step(c, e).nodes[v])
  {
    var r := c.nodes[v];
    match e
    case TickNode(w) => TickAdvances(r);
    case SubmitTo(w, x) =>
    case ReadAt(w) =>
    case Deliver(k) =>
      if InFlight(c, k) {
        NoSnapshots(c, h, k);
        ReceiveAdvances(r, c.sent[k]);
      }
    case Lose(k) =>
    case Restart(w) =>
  }

  // ----- a run -----

  lemma MachineBounds(c: Cluster, h: History, v: nat)
    requires Sound(c, h) && h.safe && v < |c.nodes|
    ensures 0 <= c.nodes[v].lastApplied <= c.nodes[v].commit < |c.nodes[v].log| && c.nodes[v].base == 0
  {
    Unfold(c, h);
    assert MachineOk(h, c.nodes[v]) && NodeOk(h, c.nodes[v], v, |c.nodes|);
  }

  /** Since a moment when nothing was applied (the start, or a restart) the node has applied its committed log. */
  ghost predicate AppliedLog(before: seq<Applied>, r: Node) {
    r.lastApplied == r.commit && r.applied == before + Commands(r, 0, r.commit)
  }

  /** One step: the part applied before is still in the log. */
  lemma AppliedNext(before: seq<Applied>, a: Node, b: Node)
    requires AppliedLog(before, a) && Advances(a, b) && 0 <= a.commit && b.lastApplied <= b.commit
    requires a.base == 0 == b.base && Agree(a.log, b.log, a.commit)
    ensures AppliedLog(before, b)
  {
    forall i | 0 < i <= a.commit
      ensures EntryAt(a, i) == EntryAt(b, i)
    {
      assert a.log[i] == b.log[i];
    }
    CommandsSame(a, b, 0, a.commit);
    CommandsJoin(b, 0, a.commit, b.commit);
    Reassociate(before, Commands(b, 0, a.commit), Commands(b, a.commit, b.commit));
  }

  /** The commit index and the log of a node one event apart. */
  lemma PrefixKept(c: Cluster, es: seq<Event>, v: nat)
    requires Fresh(c) && v < |c.nodes| && es != [] && SafeRun(c, es)
    ensures var d := Run(c, es[..|es| - 1]); var k := Run(c, es);
            && |d.nodes| == |c.nodes| == |k.nodes|
            && (0 <= d.nodes[v].commit <= k.nodes[v].commit ==>
                  Agree(d.nodes[v].log, k.nodes[v].log, d.nodes[v].commit))
  {
    var n := |es| - 1;
    SizeKept(c, es);
    SizeKept(c, es[..n]);
    assert es[..|es|] == es;
    var x := NodeAt(c, es, n, v).commit;
    if 0 <= x <= NodeAt(c, es, n + 1, v).commit { CommittedPrefixesAgree(c, es, n, n + 1, v, v, x); }
  }

  ghost predicate Viewed(z: int) {
    true
  }

  /** The run is safe, and node v has applied its committed log since `before`; as one fact. */
  ghost predicate Applies(c: Cluster, es: seq<Event>, v: nat, before: seq<Applied>) {
    forall z: int {:trigger Viewed(z)} :: Viewed(z) ==>
      v < |c.nodes| == |Run(c, es).nodes| && AppliedLog(before, Run(c, es).nodes[v])
  }

  /** The run of a fresh cluster is safe; as one fact. */
  ghost predicate Safe(c: Cluster, es: seq<Event>) {
    forall z: int {:trigger Viewed(z)} :: Viewed(z) ==> Fresh(c) && SafeRun(c, es)
  }

  lemma SafePrefix(c: Cluster, es: seq<Event>, n: nat)
    requires Safe(c, es) && n <= |es|
    ensures Safe(c, es[..n])
  {
    assert Viewed(0);
    SafeRunPrefix(c, es, n);
  }

  lemma AppliedStep(c: Cluster, es: seq<Event>, v: nat, before: seq<Applied>)
    requires Safe(c, es) && es != [] && es[|es| - 1] != Restart(v) && Applies(c, es[..|es| - 1], v, before)
    ensures Applies(c, es, v, before)
  {
    assert Viewed(0);
    var front := es[..|es| - 1];
    var d, k := Run(c, front), Run(c, es);
    SizeKept(c, es);
    SafeRunPrefix(c, es, |es| - 1);
    var g := SoundAfter(c, front);
    var h := SoundAfter(c, es);
    MachineBounds(d, g, v);
    MachineBounds(k, h, v);
    StepAdvances(d, g, es[|es| - 1], v);
    PrefixKept(c, es, v);
    AppliedNext(before, d.nodes[v], k.nodes[v]);
  }

  lemma LastApart(xs: seq<Event>, ys: seq<Event>)
    requires ys != []
    ensures xs + ys == (xs + ys[..|ys| - 1]) + [ys[|ys| - 1]]
  {
  }

  lemma SafeFront(c: Cluster, front: seq<Event>, e: Event)
    requires Safe(c, front + [e])
    ensures Safe(c, front)
  {
    assert (front + [e])[..|front|] == front;
    SafePrefix(c, front + [e], |front|);
  }

  lemma AppliedThen(c: Cluster, front: seq<Event>, e: Event, v: nat, before: seq<Applied>)
    requires Safe(c, front + [e]) && e != Restart(v) && Applies(c, front, v, before)
    ensures Applies(c, front + [e], v, before)
  {
    assert (front + [e])[..|front|] == front;
    AppliedStep(c, front + [e], v, before);
  }

  lemma {:induction false} AppliedSince(c: Cluster, xs: seq<Event>, ys: seq<Event>, v: nat, before: seq<Applied>)
    requires Safe(c, xs + ys) && Restart(v) !in ys && Applies(c, xs, v, before)
    ensures Applies(c, xs + ys, v, before)
    decreases |ys|
  {
    if ys == [] {
      assert xs + ys == xs;
    } else {
      var front, e := ys[..|ys| - 1], ys[|ys| - 1];
      LastApart(xs, ys);
      SafeFront(c, xs + front, e);
      AppliedSince(c, xs, front, v, before);
      AppliedThen(c, xs + front, e, v, before);
    }
  }

  lemma NothingYet(c: Cluster, xs: seq<Event>, v: nat)
    requires Fresh(c) && v < |c.nodes| && (xs == [] || xs[|xs| - 1] == Restart(v))
    ensures |Run(c, xs).nodes| == |c.nodes| && Run(c, xs).nodes[v].commit == 0 == Run(c, xs).nodes[v].lastApplied
  {
    SizeKept(c, xs);
    if xs == [] {
      assert c.nodes[v] == Init(v, |c.nodes|, c.nodes[v].lim, c.nodes[v].electionTimeout, c.nodes[v].heartbeatTimeout);
    } else {
      var h := SoundAfter(c, xs[..|xs| - 1]);
      SizeKept(c, xs[..|xs| - 1]);
      NodeOf(Run(c, xs[..|xs| - 1]), h, v);
    }
  }

  /** From its start or its last restart on, a node has applied exactly the commands of its committed log, each
      once, in order and without the no-ops, and nothing committed is left to apply. */
  lemma AppliesCommittedLog(c: Cluster, xs: seq<Event>, ys: seq<Event>, v: nat)
    requires Fresh(c) && v < |c.nodes| && SafeRun(c, xs + ys)
    requires (xs == [] || xs[|xs| - 1] == Restart(v)) && Restart(v) !in ys
    ensures |Run(c, xs).nodes| == |c.nodes| == |Run(c, xs + ys).nodes|
    ensures var r := Run(c, xs + ys).nodes[v];
            r.lastApplied == r.commit && r.applied == Run(c, xs).nodes[v].applied + Commands(r, 0, r.commit)
  {
    NothingYet(c, xs, v);
    AppliedSince(c, xs, ys, v, Run(c, xs).nodes[v].applied);
    assert Viewed(0);
  }
}
