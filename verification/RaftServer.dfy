/** The Raft struct of src/raft.c as an object: handlers update its fields in place.
    Each method is proved to do to the object what the function of `RaftNode` of the
    same name does to its value `State()`. */
module RaftServer {
  import opened RaftNode

  class Server {
    const id: nat
    const lim: Limits
    var members: set<nat>
    var baseMembers: set<nat>
    var pendingConfig: int
    var term: nat
    var votedFor: int
    var log: seq<Entry>
    var base: int
    var snapshotValue: int
    var role: Role
    var commit: int
    var lastApplied: int
    var votes: int
    var next: seq<int>
    var match_: seq<int>
    var readGate: int
    var electionElapsed: int
    const electionTimeout: int
    var heartbeatElapsed: int
    const heartbeatTimeout: int
    var readBarrier: int
    var readAcks: set<nat>
    var readConfirmed: int
    var readEpoch: nat
    var applied: seq<Applied>

    ghost function State(): Node
      reads this
    {
      Node(id, lim, members, baseMembers, pendingConfig,
           term, votedFor, log, base, snapshotValue,
           role, commit, lastApplied, votes,
           next, match_, readGate,
           electionElapsed, electionTimeout, heartbeatElapsed, heartbeatTimeout,
           readBarrier, readAcks, readConfirmed, readEpoch,
           applied)
    }

    /** What the C code needs to stay inside its buffers. */
    ghost predicate Bounded()
      reads this
    {
      && |next| == lim.maxNodes && |match_| == lim.maxNodes && id < lim.maxNodes
      && 0 < |log| && 0 <= base <= commit && base <= lastApplied
    }

    /** Between calls, everything committed has been applied. */
    ghost predicate Valid()
      reads this
    {
      Bounded() && commit <= lastApplied
    }

    /** Every peer a leader may send to has its previous entry inside the log. */
    ghost predicate CanSend()
      reads this
      requires Valid()
    {
      forall p: nat | p < lim.maxNodes && p in members && p != id :: next[p] - 1 <= base + |log| - 1
    }

    constructor (id: nat, n: nat, lim: Limits, electionTimeout: int, heartbeatTimeout: int)
      ensures Valid() <==> id < lim.maxNodes
      ensures State() == Init(id, n, lim, electionTimeout, heartbeatTimeout)
    {
      this.id := id;
      this.lim := lim;
      members, baseMembers, pendingConfig := AllIds(n), AllIds(n), -1;
      term, votedFor, log, base, snapshotValue := 0, -1, [Marker], 0, 0;
      role, commit, lastApplied, votes := Follower, 0, 0, 0;
      next := Zeros(lim.maxNodes);
      match_ := Zeros(lim.maxNodes);
      readGate, electionElapsed, heartbeatElapsed := 0, 0, 0;
      this.electionTimeout := electionTimeout;
      this.heartbeatTimeout := heartbeatTimeout;
      readBarrier, readAcks, readConfirmed, readEpoch := -1, {}, -1, 0;
      applied := [];
    }

    function Last(): int
      reads this
    {
      base + |log| - 1
    }

    method Append(e: Entry)
      requires Valid()
      modifies this
      ensures Valid() && State() == LogAppend(old(State()), e)
    {
      log := log + [e];
      if e.isConfig {
        members := MaskOf(e.command);
      }
    }

    method Recompute()
      requires Valid()
      modifies this
      ensures Valid() && State() == RecomputeMembers(old(State()))
    {
      var m := baseMembers;
      for i := 1 to |log|
        invariant State() == old(State()) && i <= |log|
        invariant m == FoldConfig(baseMembers, log[1..i])
      {
        FoldStep(baseMembers, log, i);
        if log[i].isConfig {
          m := MaskOf(log[i].command);
        }
      }
      assert log[1..|log|] == log[1..];
      members := m;
    }

    method DropReads()
      requires Valid()
      modifies this
      ensures Valid() && State() == old(State()).(readBarrier := -1, readConfirmed := -1)
    {
      readBarrier := -1;
      readConfirmed := -1;
    }

    method StepDown(t: nat)
      requires Valid()
      modifies this
      ensures Valid() && State() == BecomeFollower(old(State()), t)
    {
      DropReads();
      role := Follower;
      term := t;
      votedFor := -1;
      electionElapsed := 0;
    }

    method StepDownIfNewer(t: nat)
      requires Valid()
      modifies this
      ensures Valid() && State() == StepDownIfHigher(old(State()), t)
    {
      if t > term {
        StepDown(t);
      }
    }

    /** The entries from index `first` on, as many as one message holds. */
    method Slice(first: int) returns (es: seq<Entry>)
      requires base < first <= Last() + 1
      ensures es == Batch(State(), first)
    {
      es := [];
      var i := first;
      while i <= Last() && |es| < lim.maxBatch
        invariant first <= i <= Last() + 1 && |es| == i - first <= lim.maxBatch
        invariant es == log[first - base..i - base]
      {
        es := es + [log[i - base]];
        i := i + 1;
      }
      BatchIs(State(), first, es);
    }

    /** send_append_entries: one message for the peer, at most maxBatch entries. */
    method MessageFor(peer: nat) returns (m: Msg)
      requires Valid() && peer < lim.maxNodes && next[peer] - 1 <= Last()
      ensures m == AppendMsg(State(), peer)
    {
      var prev := next[peer] - 1;
      if prev < base {
        return InstallSnapshot(id, peer, term, base, log[0].term, snapshotValue, baseMembers);
      }
      var es := Slice(prev + 1);
      m := AppendEntries(id, peer, term, prev, log[prev - base].term, commit, es, readEpoch);
    }

    method SendToAll() returns (out: seq<Msg>)
      requires Valid() && CanSend()
      ensures out == Broadcast(State(), 0)
    {
      out := [];
      ghost var r := State();
      for i := 0 to lim.maxNodes
        invariant out + Broadcast(r, i) == Broadcast(r, 0)
      {
        BroadcastStep(r, out, i);
        if i != id && i in members {
          var m := MessageFor(i);
          out := out + [m];
        }
      }
    }

    method Apply()
      requires Bounded() && commit <= Last()
      modifies this`lastApplied, this`applied
      ensures Valid() && State() == ApplyCommitted(old(State()))
    {
      while lastApplied < commit
        invariant base <= lastApplied
        invariant ApplyCommitted(State()) == ApplyCommitted(old(State()))
        decreases commit - lastApplied
      {
        lastApplied := lastApplied + 1;
        var e := log[lastApplied - base];
        if !e.isNoop {
          applied := applied + [Applied(lastApplied, e.command)];
        }
      }
    }

    /** The number of members whose match index reaches n. */
    method CountMatching(n: int) returns (count: nat)
      requires Valid()
      ensures count == |Matching(State(), n, lim.maxNodes)|
    {
      count := 0;
      for i := 0 to lim.maxNodes
        invariant count == |Matching(State(), n, i)|
      {
        var here, more := Matching(State(), n, i), Matching(State(), n, i + 1);
        if i in members && match_[i] >= n {
          assert more == here + {i};
          count := count + 1;
        } else {
          assert more == here;
        }
      }
    }

    /** A majority holds index n: commit it, apply, and step down if no longer a member. */
    method CommitAt(n: int)
      requires Valid() && commit < n <= Last()
      modifies this
      ensures Valid() && State() == CommitTo(old(State()), n)
      ensures log == old(log) && members == old(members) && base == old(base) && next == old(next)
    {
      commit := n;
      if 0 <= pendingConfig <= n {
        pendingConfig := -1;
      }
      Apply();
      ApplyFrame(old(State()).(commit := n, pendingConfig := pendingConfig));
      if id !in members {
        StepDown(term);
      }
    }

    method Advance()
      requires Valid()
      modifies this
      ensures Valid() && State() == AdvanceCommit(old(State()))
      ensures log == old(log) && members == old(members) && base == old(base) && next == old(next)
    {
      var n := Last();
      while n > commit
        invariant FindCommit(State(), n) == FindCommit(State(), Last()) && n <= Last()
        invariant State() == old(State())
        decreases n - commit
      {
        if log[n - base].term == term {
          var count := CountMatching(n);
          if count >= |members| / 2 + 1 {
            CommitAt(n);
            return;
          }
        }
        n := n - 1;
      }
    }

    /** A new leader starts every current member at the end of its own log. */
    method ResetMembers()
      requires Valid()
      modifies this`next, this`match_
      ensures Valid()
      ensures var r := old(State());
              State() == r.(next := ResetPeers(r, r.next, LastIndex(r) + 1), match_ := ResetPeers(r, r.match_, 0))
    {
      for i := 0 to lim.maxNodes
        invariant |next| == |match_| == lim.maxNodes
        invariant forall p | 0 <= p < i :: next[p] == (if p in members then Last() + 1 else old(next)[p])
        invariant forall p | 0 <= p < i :: match_[p] == (if p in members then 0 else old(match_)[p])
        invariant forall p | i <= p < lim.maxNodes :: next[p] == old(next)[p] && match_[p] == old(match_)[p]
      {
        if i in members {
          next := next[i := Last() + 1];
          match_ := match_[i := 0];
        }
      }
    }

    /** become_leader up to the commit attempt. */
    method TakeOffice()
      requires Valid()
      modifies this
      ensures Valid() && State() == TakeLead(old(State())) && CanSend()
    {
      ghost var r := State();
      DropReads();
      role := Leader;
      ResetMembers();
      ghost var a := State();
      assert a == r.(role := Leader, readBarrier := -1, readConfirmed := -1,
                     next := ResetPeers(r, r.next, LastIndex(r) + 1), match_ := ResetPeers(r, r.match_, 0));
      OpenTerm();
    }

    /** The no-op of a new leader with an uncommitted tail, and the gate for its reads. */
    method OpenTerm()
      requires Valid()
      modifies this
      ensures Valid()
      ensures var a := old(State());
              var b := if LastIndex(a) > a.commit then LogAppend(a, Entry(a.term, 0, false, true)) else a;
              State() == b.(readGate := LastIndex(b), match_ := SetAt(b.match_, b.id, LastIndex(b)))
    {
      if Last() > commit {
        Append(Entry(term, 0, false, true));
      }
      readGate := Last();
      match_ := match_[id := Last()];
    }

    /** become_leader; the caller has just won its election. */
    method Lead() returns (out: seq<Msg>)
      requires Valid()
      modifies this
      ensures Valid() && (State(), out) == BecomeLeader(old(State()))
    {
      TakeOffice();
      Advance();
      heartbeatElapsed := 0;
      out := SendToAll();
    }

    /** become_candidate: a new term, a vote for itself, and a request to every other member. */
    method Stand() returns (out: seq<Msg>)
      requires Valid()
      modifies this
      ensures Valid() && (State(), out) == BecomeCandidate(old(State()))
    {
      Nominate();
      if votes >= |members| / 2 + 1 {
        out := Lead();
      } else {
        out := AskForVotes();
      }
    }

    method AskForVotes() returns (out: seq<Msg>)
      requires Valid()
      ensures out == VoteRequests(State(), 0)
    {
      out := [];
      for i := 0 to lim.maxNodes
        invariant out + VoteRequests(State(), i) == VoteRequests(State(), 0)
      {
        if i != id && i in members {
          out := out + [RequestVote(id, i, term, Last(), log[|log| - 1].term)];
        }
      }
    }

    method Nominate()
      requires Valid()
      modifies this
      ensures Valid() && State() == StartElection(old(State()))
    {
      ResetElectionTimer();
      term := term + 1;
      role := Candidate;
      votedFor := id;
      votes := 1;
    }

    method ResetElectionTimer()
      requires Valid()
      modifies `electionElapsed
      ensures Valid() && State() == old(State()).(electionElapsed := 0)
    {
      electionElapsed := 0;
    }

    method OnTick() returns (out: seq<Msg>)
      requires Valid() && (role == Leader ==> CanSend())
      modifies this
      ensures Valid() && (State(), out) == Tick(old(State()))
    {
      out := [];
      if role == Leader {
        out := Beat();
      } else if id in members {
        out := Wait();
      }
    }

    method Wait() returns (out: seq<Msg>)
      requires Valid() && role != Leader && id in members
      modifies this
      ensures Valid() && (State(), out) == Tick(old(State()))
    {
      out := [];
      electionElapsed := electionElapsed + 1;
      if electionElapsed >= electionTimeout {
        out := Stand();
      }
    }

    method Beat() returns (out: seq<Msg>)
      requires Valid() && CanSend() && role == Leader
      modifies this
      ensures Valid() && (State(), out) == Tick(old(State()))
    {
      out := [];
      heartbeatElapsed := heartbeatElapsed + 1;
      if heartbeatElapsed >= heartbeatTimeout {
        heartbeatElapsed := 0;
        out := SendToAll();
      }
    }

    method OnSubmit(command: int) returns (index: int)
      requires Valid()
      modifies this
      ensures Valid() && (State(), index) == Submit(old(State()), command)
    {
      if role != Leader {
        return -1;
      }
      Append(Entry(term, command, false, false));
      match_ := match_[id := Last()];
      index := Last();
    }

    /** raft_change_config: one member more or less, once the previous change is committed. */
    method OnChangeConfig(command: int) returns (index: int)
      requires Valid()
      modifies this
      ensures Valid() && (State(), index) == ChangeConfig(old(State()), command)
    {
      var mask := MaskOf(command);
      if role != Leader || |Diff(members, mask)| != 1 || (pendingConfig >= 0 && pendingConfig > commit) {
        return -1;
      }
      AppendConfig(command);
      index := Last();
      StartNewPeers(mask);
    }

    method AppendConfig(command: int)
      requires Valid()
      modifies this
      ensures Valid()
      ensures var a := LogAppend(old(State()), Entry(old(term), command, true, false));
              State() == a.(match_ := SetAt(a.match_, a.id, LastIndex(a)), pendingConfig := LastIndex(a))
    {
      Append(Entry(term, command, true, false));
      match_ := match_[id := Last()];
      pendingConfig := Last();
    }

    method StartNewPeers(mask: set<nat>)
      requires Valid()
      modifies `next, `match_
      ensures Valid()
      ensures State() == StartPeers(old(State()), mask)
    {
      for i := 0 to lim.maxNodes
        invariant |next| == |match_| == lim.maxNodes
        invariant forall p | 0 <= p < i ::
                    var isNew := p in mask && p != id && old(next)[p] == 0;
                    next[p] == (if isNew then 1 else old(next)[p]) && match_[p] == (if isNew then 0 else old(match_)[p])
        invariant forall p | i <= p < lim.maxNodes :: next[p] == old(next)[p] && match_[p] == old(match_)[p]
      {
        if i in mask && i != id && next[i] == 0 {
          next := next[i := 1];
          match_ := match_[i := 0];
        }
      }
    }

    method StartBarrier()
      requires Valid()
      modifies this
      ensures Valid() && State() == OpenBarrier(old(State()))
    {
      readBarrier := commit;
      readConfirmed := -1;
      readAcks := {id};
      readEpoch := readEpoch + 1;
      if |members| == 1 {
        readConfirmed := readBarrier;
        readBarrier := -1;
      }
    }

    method OnReadIndex() returns (index: int, out: seq<Msg>)
      requires Valid() && (role == Leader ==> CanSend())
      modifies this
      ensures Valid() && (State(), out, index) == ReadIndex(old(State()))
    {
      if role != Leader || commit < readGate {
        return -1, [];
      }
      StartBarrier();
      out := SendToAll();
      index := commit;
    }

    method OnRequestVote(m: Msg) returns (reply: Msg)
      requires Valid() && m.RequestVote?
      modifies this
      ensures Valid() && (State(), reply) == HandleRequestVote(old(State()), m)
    {
      StepDownIfNewer(m.term);
      if m.term < term {
        return RequestVoteReply(id, m.from, term, false);
      }
      var granted := false;
      if votedFor == -1 || votedFor == m.from {
        var mine := log[|log| - 1].term;
        if m.lastTerm > mine || (m.lastTerm == mine && m.lastIndex >= Last()) {
          votedFor := m.from;
          electionElapsed := 0;
          granted := true;
        }
      }
      reply := RequestVoteReply(id, m.from, term, granted);
    }

    method OnRequestVoteReply(m: Msg) returns (out: seq<Msg>)
      requires Valid() && m.RequestVoteReply?
      modifies this
      ensures Valid() && (State(), out) == HandleRequestVoteReply(old(State()), m)
    {
      out := [];
      if m.term > term {
        StepDown(m.term);
        return;
      }
      if role != Candidate || m.term != term || !m.granted {
        return;
      }
      out := CountVote();
    }

    method CountVote() returns (out: seq<Msg>)
      requires Valid()
      modifies this
      ensures Valid()
      ensures var a := old(State()).(votes := old(votes) + 1);
              (State(), out) == if a.votes >= Majority(a) then BecomeLeader(a) else (a, [])
    {
      out := [];
      votes := votes + 1;
      if votes >= |members| / 2 + 1 {
        out := Lead();
      }
    }

    /** The loop of handle_append_entries over the entries of a message. */
    method TakeEntries(first: int, es: seq<Entry>) returns (cut: bool)
      requires Valid() && first <= Last() + 1
      modifies this
      ensures Valid() && (State(), cut) == PutEntries(old(State()), first, es)
    {
      cut := false;
      for i := 0 to |es|
        invariant Valid() && (State(), cut) == PutEntries(old(State()), first, es[..i])
        invariant first + i <= Last() + 1
      {
        assert es[..i + 1][..i] == es[..i];
        var k := first + i;
        var c := TakeEntry(k, es[i]);
        cut := cut || c;
      }
      assert es[..|es|] == es;
    }

    method TakeEntry(k: int, e: Entry) returns (cut: bool)
      requires Valid() && k <= Last() + 1
      modifies this
      ensures Valid() && State() == PutEntry(old(State()), k, e) && cut == Conflicts(old(State()), k, e)
      ensures k <= Last()
    {
      cut := false;
      if k <= base {
        return;
      }
      if k <= Last() {
        if log[k - base].term != e.term {
          log := log[..k - base];
          cut := true;
          Append(e);
        }
      } else {
        Append(e);
      }
    }

    method FollowLeader(leaderCommit: int)
      requires Valid()
      modifies this
      ensures Valid() && State() == FollowCommit(old(State()), leaderCommit)
    {
      if leaderCommit > commit {
        commit := if leaderCommit < Last() then leaderCommit else Last();
        Apply();
      }
    }

    method OnAppendEntries(m: Msg) returns (reply: Msg)
      requires Valid() && m.AppendEntries?
      modifies this
      ensures Valid() && (State(), reply) == HandleAppendEntries(old(State()), m)
    {
      StepDownIfNewer(m.term);
      if m.term < term {
        return AppendEntriesReply(id, m.from, term, false, 0, m.readEpoch);
      }
      reply := Accept(m);
    }

    /** handle_append_entries from a current leader: check the previous entry, take the entries, follow the commit
        index. */
    method Accept(m: Msg) returns (reply: Msg)
      requires Valid() && m.AppendEntries?
      modifies this
      ensures Valid()
      ensures var b := old(State()).(role := Follower, electionElapsed := 0);
              (State(), reply) ==
              if !PrevMatches(b, m) then (b, AppendEntriesReply(b.id, m.from, b.term, false, 0, m.readEpoch))
              else (FollowCommit(AcceptEntries(b, m), m.leaderCommit),
                    AppendEntriesReply(b.id, m.from, b.term, true, m.prevIndex + |m.entries|, m.readEpoch))
    {
      role := Follower;
      electionElapsed := 0;
      var t := term;
      if m.prevIndex > Last() || (m.prevIndex >= base && log[m.prevIndex - base].term != m.prevTerm) {
        return AppendEntriesReply(id, m.from, term, false, 0, m.readEpoch);
      }
      var cut := TakeEntries(m.prevIndex + 1, m.entries);
      if cut {
        Recompute();
      }
      FollowLeader(m.leaderCommit);
      reply := AppendEntriesReply(id, m.from, t, true, m.prevIndex + |m.entries|, m.readEpoch);
    }

    method NoteMatch(from: nat, index: int)
      requires Valid() && from < lim.maxNodes
      modifies this
      ensures Valid() && State() == RecordMatch(old(State()), from, index)
    {
      if index > match_[from] {
        match_ := match_[from := index];
      }
      next := next[from := match_[from] + 1];
    }

    method NoteEcho(from: nat, epoch: nat)
      requires Valid()
      modifies this
      ensures Valid() && State() == CountReadAck(old(State()), from, epoch)
    {
      if readBarrier >= 0 && epoch == readEpoch {
        readAcks := readAcks + {from};
        if |readAcks * members| >= |members| / 2 + 1 {
          readConfirmed := readBarrier;
          readBarrier := -1;
        }
      }
    }

    method OnAppendEntriesReply(m: Msg)
      requires Valid() && m.AppendEntriesReply? && m.from < lim.maxNodes
      modifies this
      ensures Valid() && State() == HandleAppendEntriesReply(old(State()), m)
    {
      if m.term > term {
        StepDown(m.term);
        return;
      }
      if role != Leader || m.term != term {
        return;
      }
      if m.success {
        NoteMatch(m.from, m.matchIndex);
        Advance();
        NoteEcho(m.from, m.readEpoch);
      } else if next[m.from] > 1 {
        next := next[m.from := next[m.from] - 1];
      }
    }

    method OnInstallSnapshot(m: Msg) returns (reply: Msg)
      requires Valid() && m.InstallSnapshot?
      modifies this
      ensures Valid() && (State(), reply) == HandleInstallSnapshot(old(State()), m)
    {
      StepDownIfNewer(m.term);
      if m.term < term {
        return InstallSnapshotReply(id, m.from, term, 0);
      }
      role := Follower;
      electionElapsed := 0;
      if m.snapIndex > commit {
        Install(m);
      }
      reply := InstallSnapshotReply(id, m.from, term, m.snapIndex);
    }

    method Install(m: Msg)
      requires Valid() && m.InstallSnapshot? && m.snapIndex > commit
      modifies this
      ensures Valid() && State() == InstallAt(old(State()), m)
    {
      InstallLog(m.snapIndex, m.snapTerm);
      snapshotValue := m.value;
      baseMembers := m.mask;
      members := m.mask;
    }

    method InstallLog(index: int, t: nat)
      requires Valid() && index > commit
      modifies this
      ensures Valid()
      ensures State() == old(State()).(log := [Entry(t, 0, false, false)], base := index, commit := index,
              lastApplied := index)
    {
      log := [Entry(t, 0, false, false)];
      base := index;
      commit := index;
      lastApplied := index;
    }

    method OnInstallSnapshotReply(m: Msg)
      requires Valid() && m.InstallSnapshotReply? && m.from < lim.maxNodes
      modifies this
      ensures Valid() && State() == HandleInstallSnapshotReply(old(State()), m)
    {
      if m.term > term {
        StepDown(m.term);
      } else if role == Leader && m.term == term {
        NoteMatch(m.from, m.matchIndex);
        Advance();
      }
    }

    /** raft_recv: dispatch on the message type. */
    method OnReceive(m: Msg) returns (out: seq<Msg>)
      requires Valid() && m.from < lim.maxNodes
      modifies this
      ensures Valid() && (State(), out) == Receive(old(State()), m)
    {
      out := [];
      match m
      case RequestVote(_, _, _, _, _) => var reply := OnRequestVote(m); out := [reply];
      case RequestVoteReply(_, _, _, _) => out := OnRequestVoteReply(m);
      case AppendEntries(_, _, _, _, _, _, _, _) => var reply := OnAppendEntries(m); out := [reply];
      case AppendEntriesReply(_, _, _, _, _, _) => OnAppendEntriesReply(m);
      case InstallSnapshot(_, _, _, _, _, _, _) => var reply := OnInstallSnapshot(m); out := [reply];
      case InstallSnapshotReply(_, _, _, _) => OnInstallSnapshotReply(m);
    }

    method FoldUpTo(n: nat) returns (m: set<nat>)
      requires n < |log|
      ensures m == FoldConfig(baseMembers, log[1..n + 1])
    {
      m := baseMembers;
      for i := 1 to n + 1
        invariant m == FoldConfig(baseMembers, log[1..i])
      {
        FoldStep(baseMembers, log, i);
        if log[i].isConfig {
          m := MaskOf(log[i].command);
        }
      }
    }

    /** raft_snapshot: fold the dropped configurations into the base, keep the tail behind a marker. */
    method Compact(index: int, state: int) returns (ok: bool)
      requires Valid()
      modifies this
      ensures Valid() && (State(), ok) == Snapshot(old(State()), index, state)
    {
      if index <= base || index > commit || index > Last() {
        return false;
      }
      var t := log[index - base].term;
      var n := index - base;
      var m := FoldUpTo(n);
      baseMembers := m;
      log := [Entry(t, 0, false, false)] + log[n + 1..];
      base := index;
      snapshotValue := state;
      ok := true;
    }

    method CrashAndRestart()
      requires Valid()
      modifies this
      ensures Valid() && State() == CrashRestart(old(State()))
    {
      DropReads();
      ForgetTimers();
      ForgetPeers();
      role := Follower;
      commit := base;
      lastApplied := base;
      votes := 0;
    }

    method ForgetTimers()
      requires Valid()
      modifies `pendingConfig, `electionElapsed, `heartbeatElapsed
      ensures Valid()
      ensures State() == old(State()).(pendingConfig := -1, electionElapsed := 0, heartbeatElapsed := 0)
    {
      electionElapsed, heartbeatElapsed, pendingConfig := 0, 0, -1;
    }

    method ForgetPeers()
      requires Valid()
      modifies `next, `match_
      ensures Valid()
      ensures State() == old(State()).(next := Zeros(|old(next)|), match_ := Zeros(|old(match_)|))
    {
      next, match_ := Zeros(|next|), Zeros(|match_|);
    }
  }

  /** raft_init: refuses a cluster size outside the limit. */
  method Create(id: nat, n: nat, lim: Limits, electionTimeout: int, heartbeatTimeout: int) returns (r: Server?)
    ensures r == null <==> n < 1 || n > lim.maxNodes
    ensures r != null ==>
              fresh(r) && r.State() == Init(id, n, lim, electionTimeout, heartbeatTimeout)
              && (r.Valid() <==> id < lim.maxNodes)
  {
    if n < 1 || n > lim.maxNodes { return null; }
    r := new Server(id, n, lim, electionTimeout, heartbeatTimeout);
  }

  /** A prefix of the tail that stops at the end of the log or at the limit is the batch. */
  lemma BatchIs(r: Node, i: int, es: seq<Entry>)
    requires r.base < i <= LastIndex(r) + 1 && |es| <= |r.log| - (i - r.base) && |es| <= r.lim.maxBatch
    requires es == r.log[i - r.base..i - r.base + |es|] && (|es| == r.lim.maxBatch || i + |es| == LastIndex(r) + 1)
    ensures es == Batch(r, i)
  {
    if i <= LastIndex(r) {
      var tail := r.log[i - r.base..];
      assert es == tail[..|es|];
    }
  }

  lemma FoldStep(m: set<nat>, log: seq<Entry>, i: nat)
    requires 1 <= i < |log|
    ensures FoldConfig(m, log[1..i + 1]) == Adopt(FoldConfig(m, log[1..i]), log[i])
  {
    assert log[1..i + 1][..i - 1] == log[1..i];
  }

  lemma BroadcastStep(r: Node, out: seq<Msg>, i: nat)
    requires i < r.lim.maxNodes
    ensures out + Broadcast(r, i) ==
            (if i != r.id && i in r.members then out + [AppendMsg(r, i)] else out) + Broadcast(r, i + 1)
  {
    assert Broadcast(r, i) == (if i != r.id && i in r.members then [AppendMsg(r, i)] else []) + Broadcast(r, i + 1);
  }
}
