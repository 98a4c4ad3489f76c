/** Membership bookkeeping and log compaction of a single node (src/raft.c), over every
    sequence of inputs, configuration changes and snapshots included. */
module RaftMembership {
  import opened RaftNode

  datatype Input =
    | Clock
    | Command(command: int)
    | Configure(command: int)
    | Query
    | Message(msg: Msg)
    | Compact(index: int, state: int)
    | Crash

  function React(r: Node, x: Input): Node {
    match x
    case Clock => Tick(r).0
    case Command(command) => Submit(r, command).0
    case Configure(command) => ChangeConfig(r, command).0
    case Query => ReadIndex(r).0
    case Message(m) => Receive(r, m).0
    case Compact(index, state) => Snapshot(r, index, state).0
    case Crash => CrashRestart(r)
  }

  function ReactAll(r: Node, xs: seq<Input>): Node
    decreases |xs|
  {
    if xs == [] then r else React(ReactAll(r, xs[..|xs| - 1]), xs[|xs| - 1])
  }

  /** The membership in force is the base membership changed by the configuration entries still in the log. */
  ghost predicate MaskOk(r: Node) {
    0 < |r.log| && r.members == FoldConfig(r.baseMembers, r.log[1..])
  }

  lemma FoldSnoc(members: set<nat>, es: seq<Entry>, e: Entry)
    ensures FoldConfig(members, es + [e]) == Adopt(FoldConfig(members, es), e)
  {
    assert (es + [e])[..|es|] == es;
  }

  lemma {:induction false} FoldSplit(members: set<nat>, a: seq<Entry>, b: seq<Entry>)
    ensures FoldConfig(members, a + b) == FoldConfig(FoldConfig(members, a), b)
    decreases |b|
  {
    if b == [] {
      assert a + b == a;
    } else {
      var front := b[..|b| - 1];
      assert a + b == (a + front) + [b[|b| - 1]] && b == front + [b[|b| - 1]];
      FoldSplit(members, a, front);
      FoldSnoc(members, a + front, b[|b| - 1]);
      FoldSnoc(FoldConfig(members, a), front, b[|b| - 1]);
    }
  }

  lemma AppendMask(r: Node, e: Entry)
    requires MaskOk(r)
    ensures MaskOk(LogAppend(r, e))
  {
    assert (r.log + [e])[1..] == r.log[1..] + [e];
    FoldSnoc(r.baseMembers, r.log[1..], e);
  }

  lemma AdvanceMask(r: Node)
    requires MaskOk(r)
    ensures MaskOk(AdvanceCommit(r))
  {
    var i := FindCommit(r, LastIndex(r));
    ApplyFrame(r.(commit := i, pendingConfig := if 0 <= r.pendingConfig <= i then -1 else r.pendingConfig));
  }

  lemma LeadMask(r: Node)
    requires MaskOk(r)
    ensures MaskOk(BecomeLeader(r).0)
  {
    var a := r.(role := Leader, readBarrier := -1, readConfirmed := -1,
                next := ResetPeers(r, r.next, LastIndex(r) + 1), match_ := ResetPeers(r, r.match_, 0));
    AppendMask(a, Entry(a.term, 0, false, true));
    assert MaskOk(TakeLead(r));
    AdvanceMask(TakeLead(r));
  }

  lemma TickMask(r: Node)
    requires MaskOk(r)
    ensures MaskOk(Tick(r).0)
  {
    LeadMask(StartElection(r.(electionElapsed := r.electionElapsed + 1)));
  }

  /** The AppendEntries loop keeps the mask as long as it cuts nothing; what it cuts starts above the base. */
  lemma {:induction false} PutMask(r: Node, i: int, es: seq<Entry>)
    requires MaskOk(r)
    ensures var (b, cut) := PutEntries(r, i, es); 0 < |b.log| && (!cut ==> MaskOk(b))
    decreases |es|
  {
    if es != [] {
      var n := |es| - 1;
      PutMask(r, i, es[..n]);
      var (a, cut) := PutEntries(r, i, es[..n]);
      if !cut { AppendMask(a, es[n]); }
    }
  }

  lemma AcceptMask(r: Node, m: Msg)
    requires MaskOk(r) && m.AppendEntries?
    ensures MaskOk(AcceptEntries(r, m))
  {
    PutMask(r, m.prevIndex + 1, m.entries);
  }

  lemma AppendEntriesMask(r: Node, m: Msg)
    requires MaskOk(r) && m.AppendEntries?
    ensures MaskOk(HandleAppendEntries(r, m).0)
  {
    var b := StepDownIfHigher(r, m.term).(role := Follower, electionElapsed := 0);
    AcceptMask(b, m);
    var a := AcceptEntries(b, m);
    ApplyFrame(a.(commit := if m.leaderCommit < LastIndex(a) then m.leaderCommit else LastIndex(a)));
  }

  lemma ReplyMask(r: Node, m: Msg)
    requires MaskOk(r) && m.AppendEntriesReply?
    ensures MaskOk(HandleAppendEntriesReply(r, m))
  {
    AdvanceMask(RecordMatch(r, m.from, m.matchIndex));
  }

  lemma ReceiveMask(r: Node, m: Msg)
    requires MaskOk(r)
    ensures MaskOk(Receive(r, m).0)
  {
    match m
    case RequestVote(_, _, _, _, _) =>
    case RequestVoteReply(_, _, _, _) => LeadMask(r.(votes := r.votes + 1));
    case AppendEntries(_, _, _, _, _, _, _, _) => AppendEntriesMask(r, m);
    case AppendEntriesReply(_, _, _, _, _, _) => ReplyMask(r, m);
    case InstallSnapshot(_, _, _, _, _, _, _) =>
    case InstallSnapshotReply(_, _, _, _) => AdvanceMask(RecordMatch(r, m.from, m.matchIndex));
  }

  /** Compaction replaces a prefix by a marker: last index and term, every entry after the
      compaction point, the term at that point and the membership in force stay as they were. */
  lemma SnapshotKeeps(r: Node, index: int, state: int)
    requires MaskOk(r)
    ensures var (s, ok) := Snapshot(r, index, state);
            && (ok <==> r.base < index <= r.commit && index <= LastIndex(r)) && (!ok ==> s == r)
            && MaskOk(s) && s.members == r.members
            && LastIndex(s) == LastIndex(r) && LastTerm(s) == LastTerm(r)
            && (forall i | s.base < i :: EntryAt(s, i) == EntryAt(r, i))
            && (forall i | s.base <= i :: TermAt(s, i) == TermAt(r, i))
            && (ok ==> s.base == index && s.snapshotValue == state)
  {
    if r.base < index <= r.commit && index <= LastIndex(r) {
      var n := index - r.base + 1;
      var s := Snapshot(r, index, state).0;
      assert r.log[1..] == r.log[1..n] + r.log[n..];
      assert s.log[1..] == r.log[n..];
      FoldSplit(r.baseMembers, r.log[1..n], r.log[n..]);
    }
  }

  lemma ReactMask(r: Node, x: Input)
    requires MaskOk(r)
    ensures MaskOk(React(r, x))
  {
    match x
    case Clock => TickMask(r);
    case Command(command) => AppendMask(r, Entry(r.term, command, false, false));
    case Configure(command) => AppendMask(r, Entry(r.term, command, true, false));
    case Query =>
    case Message(m) => ReceiveMask(r, m);
    case Compact(index, state) => SnapshotKeeps(r, index, state);
    case Crash =>
  }

  /** In every state a node can reach, whatever its inputs, the membership in force is
      exactly the base membership folded over the configuration entries in the log. */
  lemma {:induction false} MembershipFollowsLog(id: nat, n: nat, lim: Limits, et: int, ht: int, xs: seq<Input>)
    ensures MaskOk(ReactAll(Init(id, n, lim, et, ht), xs))
    decreases |xs|
  {
    if xs != [] {
      MembershipFollowsLog(id, n, lim, et, ht, xs[..|xs| - 1]);
      ReactMask(ReactAll(Init(id, n, lim, et, ht), xs[..|xs| - 1]), xs[|xs| - 1]);
    }
  }
}
