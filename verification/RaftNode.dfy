/** The logic of one Raft node (src/raft.c) as functions from a node value and
    an input to the new node value and the messages it emits.

    The C struct is the datatype `Node`; every handler is a function with the
    same branches.  Terms and indices are unbounded.  The two array bounds of
    the C code, RAFT_MAX_NODES and RAFT_MAX_BATCH, are the symbolic `Limits`.
    Bit masks are sets of node ids; `MaskOf` decodes the mask stored in the
    command of a configuration entry.  Calls made through the apply callback
    are recorded in the field `applied`.

    Reads outside the log or the per-peer arrays are undefined in C; the
    functions return 0 or do nothing there, and `RaftSafety.StaysInBounds`
    shows that no reachable cluster state takes those branches. */
module RaftNode {
  import opened Bits

  datatype Role = Follower | Candidate | Leader

  datatype Entry = Entry(term: nat, command: int, isConfig: bool, isNoop: bool)

  datatype Limits = Limits(maxNodes: nat, maxBatch: nat)

  datatype Applied = Applied(index: int, command: int)

  datatype Msg =
    | RequestVote(from: nat, to: nat, term: nat, lastIndex: int, lastTerm: nat)
    | RequestVoteReply(from: nat, to: nat, term: nat, granted: bool)
    | AppendEntries(from: nat, to: nat, term: nat, prevIndex: int, prevTerm: nat, leaderCommit: int,
                    entries: seq<Entry>, readEpoch: nat)
    | AppendEntriesReply(from: nat, to: nat, term: nat, success: bool, matchIndex: int, readEpoch: nat)
    | InstallSnapshot(from: nat, to: nat, term: nat, snapIndex: int, snapTerm: nat, value: int, mask: set<nat>)
    | InstallSnapshotReply(from: nat, to: nat, term: nat, matchIndex: int)

  datatype Node = Node(
    id: nat, lim: Limits,
    members: set<nat>, baseMembers: set<nat>, pendingConfig: int,
    term: nat, votedFor: int, log: seq<Entry>, base: int, snapshotValue: int,
    role: Role, commit: int, lastApplied: int, votes: int,
    next: seq<int>, match_: seq<int>, readGate: int,
    electionElapsed: int, electionTimeout: int, heartbeatElapsed: int, heartbeatTimeout: int,
    readBarrier: int, readAcks: set<nat>, readConfirmed: int, readEpoch: nat,
    applied: seq<Applied>)

  const Marker := Entry(0, 0, false, false)

  /** The ids whose bits are set in the low 32 bits of a configuration command. */
  function MaskOf(command: int): set<nat> {
    set i: nat | i < 32 && (command / Pow2(i)) % 2 == 1
  }

  function AllIds(n: nat): (s: set<nat>)
    ensures forall i: nat :: i in s <==> i < n
    ensures |s| == n
  {
    if n == 0 then {} else AllIds(n - 1) + {n - 1}
  }

  function Zeros(n: nat): (xs: seq<int>)
    ensures |xs| == n && forall i | 0 <= i < n :: xs[i] == 0
  {
    seq(n, _ => 0)
  }

  function Init(id: nat, n: nat, lim: Limits, electionTimeout: int, heartbeatTimeout: int): Node {
    Node(id, lim, AllIds(n), AllIds(n), -1,
         0, -1, [Marker], 0, 0,
         Follower, 0, 0, 0,
         Zeros(lim.maxNodes), Zeros(lim.maxNodes), 0,
         0, electionTimeout, 0, heartbeatTimeout,
         -1, {}, -1, 0,
         [])
  }

  // ----- log helpers -----

  function LastIndex(r: Node): int {
    r.base + |r.log| - 1
  }

  function EntryAt(r: Node, i: int): Entry {
    if r.base <= i <= LastIndex(r) then r.log[i - r.base] else Marker
  }

  function TermAt(r: Node, i: int): nat {
    EntryAt(r, i).term
  }

  function LastTerm(r: Node): nat {
    TermAt(r, LastIndex(r))
  }

  function Adopt(members: set<nat>, e: Entry): set<nat> {
    if e.isConfig then MaskOf(e.command) else members
  }

  function LogAppend(r: Node, e: Entry): Node {
    r.(log := r.log + [e], members := Adopt(r.members, e))
  }

  function Majority(r: Node): nat {
    |r.members| / 2 + 1
  }

  /** Membership after the configuration entries among `es`, applied in order. */
  function FoldConfig(members: set<nat>, es: seq<Entry>): set<nat>
    decreases |es|
  {
    if es == [] then members else Adopt(FoldConfig(members, es[..|es| - 1]), es[|es| - 1])
  }

  function RecomputeMembers(r: Node): Node {
    if |r.log| == 0 then r else r.(members := FoldConfig(r.baseMembers, r.log[1..]))
  }

  predicate UpToDate(r: Node, candIndex: int, candTerm: nat) {
    if candTerm != LastTerm(r) then candTerm > LastTerm(r) else candIndex >= LastIndex(r)
  }

  // ----- state transitions -----

  function BecomeFollower(r: Node, term: nat): Node {
    r.(role := Follower, term := term, votedFor := -1, electionElapsed := 0, readBarrier := -1, readConfirmed := -1)
  }

  function StepDownIfHigher(r: Node, term: nat): Node {
    if term > r.term then BecomeFollower(r, term) else r
  }

  /** The entries from logical index `i` on, at most `maxBatch` of them. */
  function Batch(r: Node, i: int): seq<Entry> {
    if r.base <= i <= LastIndex(r)
    then var tail := r.log[i - r.base..]; if |tail| <= r.lim.maxBatch then tail else tail[..r.lim.maxBatch]
    else []
  }

  function NextOf(r: Node, peer: nat): int {
    if peer < |r.next| then r.next[peer] else 0
  }

  function AppendMsg(r: Node, peer: nat): Msg {
    var prev := NextOf(r, peer) - 1;
    if prev < r.base
    then InstallSnapshot(r.id, peer, r.term, r.base, TermAt(r, r.base), r.snapshotValue, r.baseMembers)
    else AppendEntries(r.id, peer, r.term, prev, TermAt(r, prev), r.commit, Batch(r, prev + 1), r.readEpoch)
  }

  /** One message to every other member with id >= i. */
  function Broadcast(r: Node, i: nat): seq<Msg>
    decreases r.lim.maxNodes - i
  {
    if i >= r.lim.maxNodes then []
    else (if i != r.id && i in r.members then [AppendMsg(r, i)] else []) + Broadcast(r, i + 1)
  }

  function VoteRequests(r: Node, i: nat): seq<Msg>
    decreases r.lim.maxNodes - i
  {
    if i >= r.lim.maxNodes then []
    else (if i != r.id && i in r.members
          then [RequestVote(r.id, i, r.term, LastIndex(r), LastTerm(r))] else []) + VoteRequests(r, i + 1)
  }

  function ApplyCommitted(r: Node): Node
    decreases r.commit - r.lastApplied
  {
    if r.lastApplied < r.commit then
      var i := r.lastApplied + 1;
      var e := EntryAt(r, i);
      ApplyCommitted(r.(lastApplied := i,
                        applied := if e.isNoop then r.applied else r.applied + [Applied(i, e.command)]))
    else r
  }

  /** Applying changes nothing but what has been applied. */
  lemma {:induction false} ApplyFrame(r: Node)
    ensures var a := ApplyCommitted(r); a == r.(lastApplied := a.lastApplied, applied := a.applied)
    ensures var a := ApplyCommitted(r); a.lastApplied == if r.lastApplied <= r.commit then r.commit else r.lastApplied
    decreases r.commit - r.lastApplied
  {
    if r.lastApplied < r.commit {
      var i := r.lastApplied + 1;
      var e := EntryAt(r, i);
      ApplyFrame(r.(lastApplied := i,
                    applied := if e.isNoop then r.applied else r.applied + [Applied(i, e.command)]));
    }
  }

  /** The members among ids below `k` whose match index reaches `i`. */
  function Matching(r: Node, i: int, k: nat): set<nat> {
    set p: nat | p < k && p < |r.match_| && p in r.members && r.match_[p] >= i
  }

  predicate Committable(r: Node, i: int) {
    TermAt(r, i) == r.term && |Matching(r, i, |r.match_|)| >= Majority(r)
  }

  /** The highest committable index at or below `i` and above the commit index, else the commit index. */
  function FindCommit(r: Node, i: int): int
    decreases i - r.commit
  {
    if i <= r.commit then r.commit else if Committable(r, i) then i else FindCommit(r, i - 1)
  }

  function CommitTo(r: Node, i: int): Node {
    var p := if 0 <= r.pendingConfig <= i then -1 else r.pendingConfig;
    var a := ApplyCommitted(r.(commit := i, pendingConfig := p));
    if a.id !in a.members then BecomeFollower(a, a.term) else a
  }

  function AdvanceCommit(r: Node): Node {
    var i := FindCommit(r, LastIndex(r));
    if i > r.commit then CommitTo(r, i) else r
  }

  /** The peer arrays as a new leader resets them: only current members are touched. */
  function ResetPeers(r: Node, xs: seq<int>, value: int): seq<int> {
    seq(|xs|, i requires 0 <= i < |xs| => if i in r.members then value else xs[i])
  }

  function SetAt(xs: seq<int>, i: nat, value: int): seq<int> {
    if i < |xs| then xs[i := value] else xs
  }

  /** become_leader up to (not including) the commit attempt and the first heartbeats. */
  function TakeLead(r: Node): Node {
    var a := r.(role := Leader, readBarrier := -1, readConfirmed := -1,
                next := ResetPeers(r, r.next, LastIndex(r) + 1), match_ := ResetPeers(r, r.match_, 0));
    var b := if LastIndex(a) > a.commit then LogAppend(a, Entry(a.term, 0, false, true)) else a;
    b.(readGate := LastIndex(b), match_ := SetAt(b.match_, b.id, LastIndex(b)))
  }

  function BecomeLeader(r: Node): (Node, seq<Msg>) {
    var b := AdvanceCommit(TakeLead(r)).(heartbeatElapsed := 0);
    (b, Broadcast(b, 0))
  }

  function StartElection(r: Node): Node {
    r.(term := r.term + 1, role := Candidate, votedFor := r.id, votes := 1, electionElapsed := 0)
  }

  function BecomeCandidate(r: Node): (Node, seq<Msg>) {
    var a := StartElection(r);
    if a.votes >= Majority(a) then BecomeLeader(a) else (a, VoteRequests(a, 0))
  }

  // ----- inputs -----

  function Tick(r: Node): (Node, seq<Msg>) {
    if r.role == Leader then
      var a := r.(heartbeatElapsed := r.heartbeatElapsed + 1);
      if a.heartbeatElapsed >= a.heartbeatTimeout
      then var b := a.(heartbeatElapsed := 0); (b, Broadcast(b, 0))
      else (a, [])
    else if r.id in r.members then
      var a := r.(electionElapsed := r.electionElapsed + 1);
      if a.electionElapsed >= a.electionTimeout then BecomeCandidate(a) else (a, [])
    else (r, [])
  }

  /** The index given to the command, or -1 when the node is not the leader. */
  function Submit(r: Node, command: int): (Node, int) {
    if r.role != Leader then (r, -1)
    else
      var a := LogAppend(r, Entry(r.term, command, false, false));
      (a.(match_ := SetAt(a.match_, a.id, LastIndex(a))), LastIndex(a))
  }

  /** The ids by which two membership masks differ. */
  function Diff(a: set<nat>, b: set<nat>): set<nat> {
    (a - b) + (b - a)
  }

  function ChangeConfig(r: Node, command: int): (Node, int) {
    var mask := MaskOf(command);
    if r.role != Leader || |Diff(r.members, mask)| != 1 || (r.pendingConfig >= 0 && r.pendingConfig > r.commit)
    then (r, -1)
    else
      var a := LogAppend(r, Entry(r.term, command, true, false));
      var b := a.(match_ := SetAt(a.match_, a.id, LastIndex(a)), pendingConfig := LastIndex(a));
      (StartPeers(b, mask), LastIndex(b))
  }

  /** Peers of the mask that were never replicated to start at index 1. */
  function StartPeers(r: Node, mask: set<nat>): Node {
    var isNew := (i: int) => 0 <= i < |r.next| && i in mask && i != r.id && r.next[i] == 0;
    r.(next := seq(|r.next|, i requires 0 <= i < |r.next| => if isNew(i) then 1 else r.next[i]),
       match_ := seq(|r.match_|, i requires 0 <= i < |r.match_| => if isNew(i) then 0 else r.match_[i]))
  }

  /** A new read barrier at the commit index, confirmed at once in a one-node cluster. */
  function OpenBarrier(r: Node): Node {
    if |r.members| == 1
    then r.(readConfirmed := r.commit, readBarrier := -1, readAcks := {r.id}, readEpoch := r.readEpoch + 1)
    else r.(readConfirmed := -1, readBarrier := r.commit, readAcks := {r.id}, readEpoch := r.readEpoch + 1)
  }

  function ReadIndex(r: Node): (Node, seq<Msg>, int) {
    if r.role != Leader || r.commit < r.readGate then (r, [], -1)
    else var a := OpenBarrier(r); (a, Broadcast(a, 0), a.commit)
  }

  function HandleRequestVote(r: Node, m: Msg): (Node, Msg)
    requires m.RequestVote?
  {
    var a := StepDownIfHigher(r, m.term);
    if m.term < a.term then (a, RequestVoteReply(a.id, m.from, a.term, false))
    else if (a.votedFor == -1 || a.votedFor == m.from) && UpToDate(a, m.lastIndex, m.lastTerm)
    then (a.(votedFor := m.from, electionElapsed := 0), RequestVoteReply(a.id, m.from, a.term, true))
    else (a, RequestVoteReply(a.id, m.from, a.term, false))
  }

  function HandleRequestVoteReply(r: Node, m: Msg): (Node, seq<Msg>)
    requires m.RequestVoteReply?
  {
    if m.term > r.term then (BecomeFollower(r, m.term), [])
    else if r.role != Candidate || m.term != r.term || !m.granted then (r, [])
    else
      var a := r.(votes := r.votes + 1);
      if a.votes >= Majority(a) then BecomeLeader(a) else (a, [])
  }

  /** One turn of the AppendEntries loop: entry `e` arrives for logical index `i`. */
  function PutEntry(r: Node, i: int, e: Entry): Node {
    if i <= r.base then r
    else if i <= LastIndex(r) then
      if TermAt(r, i) != e.term then LogAppend(r.(log := r.log[..i - r.base]), e) else r
    else LogAppend(r, e)
  }

  predicate Conflicts(r: Node, i: int, e: Entry) {
    r.base < i <= LastIndex(r) && TermAt(r, i) != e.term
  }

  /** The loop over the entries of a message whose first entry has index `i`;
      the flag says whether some turn cut the log. */
  function PutEntries(r: Node, i: int, es: seq<Entry>): (Node, bool)
    decreases |es|
  {
    if es == [] then (r, false)
    else
      var (a, cut) := PutEntries(r, i, es[..|es| - 1]);
      var k := i + |es| - 1;
      var e := es[|es| - 1];
      (PutEntry(a, k, e), cut || Conflicts(a, k, e))
  }

  predicate PrevMatches(r: Node, m: Msg)
    requires m.AppendEntries?
  {
    m.prevIndex <= LastIndex(r) && (m.prevIndex >= r.base ==> TermAt(r, m.prevIndex) == m.prevTerm)
  }

  function FollowCommit(r: Node, leaderCommit: int): Node {
    if leaderCommit > r.commit
    then ApplyCommitted(r.(commit := if leaderCommit < LastIndex(r) then leaderCommit else LastIndex(r)))
    else r
  }

  /** The log update of an accepted AppendEntries, before the commit index follows the leader. */
  function AcceptEntries(r: Node, m: Msg): Node
    requires m.AppendEntries?
  {
    var (b, cut) := PutEntries(r, m.prevIndex + 1, m.entries);
    if cut then RecomputeMembers(b) else b
  }

  function HandleAppendEntries(r: Node, m: Msg): (Node, Msg)
    requires m.AppendEntries?
  {
    var a := StepDownIfHigher(r, m.term);
    if m.term < a.term then (a, AppendEntriesReply(a.id, m.from, a.term, false, 0, m.readEpoch))
    else
      var b := a.(role := Follower, electionElapsed := 0);
      if !PrevMatches(b, m) then (b, AppendEntriesReply(b.id, m.from, b.term, false, 0, m.readEpoch))
      else
        (FollowCommit(AcceptEntries(b, m), m.leaderCommit),
         AppendEntriesReply(b.id, m.from, b.term, true, m.prevIndex + |m.entries|, m.readEpoch))
  }

  /** Record that peer `from` holds the log up to `index`. */
  function RecordMatch(r: Node, from: nat, index: int): Node {
    if from >= |r.match_| then r
    else
      var best := if index > r.match_[from] then index else r.match_[from];
      r.(match_ := r.match_[from := best], next := SetAt(r.next, from, best + 1))
  }

  function CountReadAck(r: Node, from: nat, epoch: nat): Node {
    if r.readBarrier >= 0 && epoch == r.readEpoch then
      var a := r.(readAcks := r.readAcks + {from});
      if |a.readAcks * a.members| >= Majority(a) then a.(readConfirmed := a.readBarrier, readBarrier := -1) else a
    else r
  }

  function HandleAppendEntriesReply(r: Node, m: Msg): Node
    requires m.AppendEntriesReply?
  {
    if m.term > r.term then BecomeFollower(r, m.term)
    else if r.role != Leader || m.term != r.term then r
    else if m.success then CountReadAck(AdvanceCommit(RecordMatch(r, m.from, m.matchIndex)), m.from, m.readEpoch)
    else if NextOf(r, m.from) > 1 then r.(next := SetAt(r.next, m.from, NextOf(r, m.from) - 1))
    else r
  }

  function InstallAt(r: Node, m: Msg): Node
    requires m.InstallSnapshot?
  {
    r.(log := [Entry(m.snapTerm, 0, false, false)], base := m.snapIndex, commit := m.snapIndex,
       lastApplied := m.snapIndex, snapshotValue := m.value, baseMembers := m.mask, members := m.mask)
  }

  function HandleInstallSnapshot(r: Node, m: Msg): (Node, Msg)
    requires m.InstallSnapshot?
  {
    var a := StepDownIfHigher(r, m.term);
    if m.term < a.term then (a, InstallSnapshotReply(a.id, m.from, a.term, 0))
    else
      var b := a.(role := Follower, electionElapsed := 0);
      (if m.snapIndex <= b.commit then b else InstallAt(b, m), InstallSnapshotReply(b.id, m.from, b.term, m.snapIndex))
  }

  function HandleInstallSnapshotReply(r: Node, m: Msg): Node
    requires m.InstallSnapshotReply?
  {
    if m.term > r.term then BecomeFollower(r, m.term)
    else if r.role != Leader || m.term != r.term then r
    else AdvanceCommit(RecordMatch(r, m.from, m.matchIndex))
  }

  function Receive(r: Node, m: Msg): (Node, seq<Msg>) {
    match m
    case RequestVote(_, _, _, _, _) => var (a, reply) := HandleRequestVote(r, m); (a, [reply])
    case RequestVoteReply(_, _, _, _) => HandleRequestVoteReply(r, m)
    case AppendEntries(_, _, _, _, _, _, _, _) => var (a, reply) := HandleAppendEntries(r, m); (a, [reply])
    case AppendEntriesReply(_, _, _, _, _, _) => (HandleAppendEntriesReply(r, m), [])
    case InstallSnapshot(_, _, _, _, _, _, _) => var (a, reply) := HandleInstallSnapshot(r, m); (a, [reply])
    case InstallSnapshotReply(_, _, _, _) => (HandleInstallSnapshotReply(r, m), [])
  }

  /** Log compaction up to `index`; false when the index is not compactable. */
  function Snapshot(r: Node, index: int, state: int): (Node, bool) {
    if index <= r.base || index > r.commit || index > LastIndex(r) then (r, false)
    else
      (r.(baseMembers := FoldConfig(r.baseMembers, r.log[1..index - r.base + 1]),
          log := [Entry(TermAt(r, index), 0, false, false)] + r.log[index - r.base + 1..],
          base := index, snapshotValue := state), true)
  }

  function CrashRestart(r: Node): Node {
    r.(role := Follower, commit := r.base, lastApplied := r.base, votes := 0, electionElapsed := 0,
       heartbeatElapsed := 0, pendingConfig := -1, readBarrier := -1, readConfirmed := -1,
       next := Zeros(|r.next|), match_ := Zeros(|r.match_|))
  }
}
