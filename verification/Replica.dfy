/** Log shipping: replica_apply of src/replica.c reads the bytes of the primary's log and
    replays the committed segments into its own data file. */
module Replica {
  type Byte = x: int | 0 <= x < 256

  /** PAGE_SIZE and WAL_MAX_STAGED. */
  datatype Format = Format(page: nat, cap: nat)

  /** An integer in host (little-endian) byte order. */
  function Number(b: seq<Byte>): nat {
    if b == [] then 0 else b[0] + 256 * Number(b[1..])
  }

  datatype Write = Write(pid: nat, image: seq<Byte>)

  /** One committed segment: its after-images, its commit number, and where it ends in the log. */
  datatype Segment = Segment(writes: seq<Write>, lsn: nat, end: nat)

  // ----- reading records -----

  datatype Item =
    | PageItem(write: Write, next: nat)
    | CommitItem(lsn: nat, next: nat)
    | SkipItem(next: nat)
    | NoRoom
    | EndItem

  /** The record at `off`; a torn record or an unknown type ends the log. */
  function ReadItem(f: Format, log: seq<Byte>, off: nat, pending: nat): (i: Item)
    ensures i.PageItem? || i.CommitItem? || i.SkipItem? ==> off < i.next <= |log|
  {
    if off + 9 > |log| then EndItem
    else if log[off] == 'P' as int then
      if off + 17 > |log| then EndItem
      else if pending >= f.cap then NoRoom
      else if off + 17 + f.page > |log| then EndItem
      else PageItem(Write(Number(log[off + 9..off + 17]), log[off + 17..off + 17 + f.page]), off + 17 + f.page)
    else if log[off] == 'B' as int then
      if off + 17 > |log| then EndItem else SkipItem(off + 17)
    else if log[off] == 'U' as int then
      if off + 17 + f.page > |log| then EndItem else SkipItem(off + 17 + f.page)
    else if log[off] == 'C' as int then CommitItem(Number(log[off + 1..off + 9]), off + 9)
    else EndItem
  }

  /** The next commit from `off` on, with the images gathered on the way. */
  datatype Scan = Found(segment: Segment) | Ended | TooLong

  function NextSegment(f: Format, log: seq<Byte>, off: nat, pend: seq<Write>): (s: Scan)
    ensures s.Found? ==> off < s.segment.end <= |log|
    decreases |log| - off
  {
    match ReadItem(f, log, off, |pend|)
    case PageItem(w, next) => NextSegment(f, log, next, pend + [w])
    case SkipItem(next) => NextSegment(f, log, next, pend)
    case CommitItem(lsn, next) => Found(Segment(pend, lsn, next))
    case NoRoom => TooLong
    case EndItem => Ended
  }

  /** All complete committed segments from `off` on. */
  function Segments(f: Format, log: seq<Byte>, off: nat): seq<Segment>
    decreases |log| - off
  {
    match NextSegment(f, log, off, [])
    case Found(s) => [s] + Segments(f, log, s.end)
    case _ => []
  }

  /** How the scan stops. */
  function Overflows(f: Format, log: seq<Byte>, off: nat): bool
    decreases |log| - off
  {
    match NextSegment(f, log, off, [])
    case Found(s) => Overflows(f, log, s.end)
    case TooLong => true
    case Ended => false
  }

  // ----- replaying -----

  datatype State = State(data: map<nat, seq<Byte>>, off: nat, lsn: nat, commits: nat)

  const Fresh: State := State(map[], 0, 0, 0)

  function WriteAll(data: map<nat, seq<Byte>>, ws: seq<Write>): map<nat, seq<Byte>>
    decreases |ws|
  {
    if ws == [] then data else WriteAll(data, ws[..|ws| - 1])[ws[|ws| - 1].pid := ws[|ws| - 1].image]
  }

  /** A segment is applied only when its commit is newer than the last one applied. */
  function Replay(r: State, s: Segment): State {
    if s.lsn > r.lsn then State(WriteAll(r.data, s.writes), s.end, s.lsn, r.commits + 1) else r.(off := s.end)
  }

  function ReplayAll(r: State, ss: seq<Segment>): State
    decreases |ss|
  {
    if ss == [] then r else Replay(ReplayAll(r, ss[..|ss| - 1]), ss[|ss| - 1])
  }

  /** Where this call starts: a log shorter than the position was truncated, so rewind. */
  function StartOf(r: State, log: seq<Byte>): nat {
    if |log| < r.off then 0 else r.off
  }

  /** replica_apply. */
  function Apply(f: Format, r: State, log: seq<Byte>): State {
    ReplayAll(r.(off := StartOf(r, log)), Segments(f, log, StartOf(r, log)))
  }

  // ----- a longer log has the same segments, and more -----

  lemma ReadStable(f: Format, a: seq<Byte>, b: seq<Byte>, off: nat, pending: nat)
    requires a <= b && ReadItem(f, a, off, pending) != EndItem
    ensures ReadItem(f, b, off, pending) == ReadItem(f, a, off, pending)
  {
    assert a[off + 1..off + 9] == b[off + 1..off + 9];
    if off + 17 <= |a| { assert a[off + 9..off + 17] == b[off + 9..off + 17]; }
    if off + 17 + f.page <= |a| { assert a[off + 17..off + 17 + f.page] == b[off + 17..off + 17 + f.page]; }
  }

  lemma {:induction false} SegmentStable(f: Format, a: seq<Byte>, b: seq<Byte>, off: nat, pend: seq<Write>)
    requires a <= b && NextSegment(f, a, off, pend) != Ended
    ensures NextSegment(f, b, off, pend) == NextSegment(f, a, off, pend)
    decreases |a| - off
  {
    ReadStable(f, a, b, off, |pend|);
    match ReadItem(f, a, off, |pend|)
    case PageItem(w, next) => SegmentStable(f, a, b, next, pend + [w]);
    case SkipItem(next) => SegmentStable(f, a, b, next, pend);
    case _ =>
  }

  /** The position reached when all complete segments are read. */
  function EndOf(off: nat, ss: seq<Segment>): nat {
    if ss == [] then off else ss[|ss| - 1].end
  }

  lemma JoinHead(s: Segment, off: nat, a: seq<Segment>, b: seq<Segment>)
    ensures [s] + (a + b) == ([s] + a) + b && EndOf(off, [s] + a) == EndOf(s.end, a)
  {
  }

  /** The segments of a longer log are those of the shorter one, then those after the last of them. */
  lemma {:induction false} SegmentsGrow(f: Format, a: seq<Byte>, b: seq<Byte>, off: nat)
    requires a <= b
    ensures Segments(f, b, off) == Segments(f, a, off) + Segments(f, b, EndOf(off, Segments(f, a, off)))
    decreases |a| - off
  {
    match NextSegment(f, a, off, [])
    case Found(s) =>
      SegmentStable(f, a, b, off, []);
      SegmentsGrow(f, a, b, s.end);
      var rest := Segments(f, a, s.end);
      assert Segments(f, b, off) == [s] + Segments(f, b, s.end);
      JoinHead(s, off, rest, Segments(f, b, EndOf(s.end, rest)));
    case _ =>
      assert [] + Segments(f, b, off) == Segments(f, b, off);
  }

  lemma {:induction false} SegmentsEnd(f: Format, log: seq<Byte>, off: nat)
    requires off <= |log|
    ensures off <= EndOf(off, Segments(f, log, off)) <= |log|
    decreases |log| - off
  {
    match NextSegment(f, log, off, [])
    case Found(s) => SegmentsEnd(f, log, s.end);
    case _ =>
  }

  lemma {:induction false} ReplayJoin(r: State, a: seq<Segment>, b: seq<Segment>)
    ensures ReplayAll(r, a + b) == ReplayAll(ReplayAll(r, a), b)
    decreases |b|
  {
    if b == [] {
      assert a + b == a;
    } else {
      assert (a + b)[..|a + b| - 1] == a + b[..|b| - 1];
      ReplayJoin(r, a, b[..|b| - 1]);
    }
  }

  lemma {:induction false} ReplayPosition(r: State, ss: seq<Segment>)
    ensures ReplayAll(r, ss).off == EndOf(r.off, ss)
    decreases |ss|
  {
    if ss != [] { ReplayPosition(r, ss[..|ss| - 1]); }
  }

  // ----- streaming equals one shot -----

  function Stream(f: Format, logs: seq<seq<Byte>>): State
    decreases |logs|
  {
    if logs == [] then Fresh else Apply(f, Stream(f, logs[..|logs| - 1]), logs[|logs| - 1])
  }

  /** Each log the replica is shown extends the one before. */
  ghost predicate Growing(logs: seq<seq<Byte>>) {
    forall i, j | 0 <= i <= j < |logs| :: logs[i] <= logs[j]
  }

  /** From the state one replay leaves, a replay of a longer log goes on as if it had been there at once. */
  lemma ApplyTwice(f: Format, a: seq<Byte>, b: seq<Byte>)
    requires a <= b
    ensures Apply(f, Apply(f, Fresh, a), b) == Apply(f, Fresh, b)
  {
    var ss := Segments(f, a, 0);
    var r := Apply(f, Fresh, a);
    SegmentsEnd(f, a, 0);
    ReplayPosition(Fresh, ss);
    SegmentsGrow(f, a, b, 0);
    ReplayJoin(Fresh, ss, Segments(f, b, r.off));
  }

  /** Whatever byte prefixes of a growing log the replica was shown, cut inside records or not,
      it ends in the state of one replay of the last of them. */
  lemma {:induction false} StreamingIsOneShot(f: Format, logs: seq<seq<Byte>>)
    requires Growing(logs) && logs != []
    ensures Stream(f, logs) == Apply(f, Fresh, logs[|logs| - 1])
    decreases |logs|
  {
    var n := |logs| - 1;
    if n == 0 {
      assert logs[..0] == [];
    } else {
      StreamingIsOneShot(f, logs[..n]);
      assert logs[n - 1] <= logs[n];
      ApplyTwice(f, logs[n - 1], logs[n]);
    }
  }

  // ----- rewinding -----

  lemma {:induction false} ReplayReaches(r: State, ss: seq<Segment>)
    ensures r.lsn <= ReplayAll(r, ss).lsn
    ensures forall i | 0 <= i < |ss| :: ss[i].lsn <= ReplayAll(r, ss).lsn
    decreases |ss|
  {
    if ss != [] { ReplayReaches(r, ss[..|ss| - 1]); }
  }

  lemma {:induction false} ReplayOld(r: State, ss: seq<Segment>)
    requires forall i | 0 <= i < |ss| :: ss[i].lsn <= r.lsn
    ensures ReplayAll(r, ss) == r.(off := EndOf(r.off, ss))
    decreases |ss|
  {
    if ss != [] { ReplayOld(r, ss[..|ss| - 1]); }
  }

  /** Rewinding to the start of the log and replaying it again changes nothing at all. */
  lemma RewindChangesNothing(f: Format, logs: seq<seq<Byte>>)
    requires Growing(logs) && logs != []
    ensures var r := Stream(f, logs); Apply(f, r.(off := 0), logs[|logs| - 1]) == r
  {
    var log := logs[|logs| - 1];
    StreamingIsOneShot(f, logs);
    var ss := Segments(f, log, 0);
    ReplayReaches(Fresh, ss);
    ReplayPosition(Fresh, ss);
    ReplayOld(Stream(f, logs).(off := 0), ss);
  }

  // ----- nothing is skipped -----

  /** Commit numbers that grow from `low` on. */
  ghost predicate Increasing(ss: seq<Segment>, low: nat) {
    && (forall i | 0 <= i < |ss| :: low < ss[i].lsn)
    && forall i, j | 0 <= i < j < |ss| :: ss[i].lsn < ss[j].lsn
  }

  function AllWrites(ss: seq<Segment>): seq<Write>
    decreases |ss|
  {
    if ss == [] then [] else AllWrites(ss[..|ss| - 1]) + ss[|ss| - 1].writes
  }

  lemma {:induction false} WriteJoin(data: map<nat, seq<Byte>>, a: seq<Write>, b: seq<Write>)
    ensures WriteAll(data, a + b) == WriteAll(WriteAll(data, a), b)
    decreases |b|
  {
    if b == [] {
      assert a + b == a;
    } else {
      assert (a + b)[..|a + b| - 1] == a + b[..|b| - 1];
      WriteJoin(data, a, b[..|b| - 1]);
    }
  }

  /** The replica applies every segment exactly when the commit numbers increase, and then
      its data is that of all committed after-images in log order. */
  lemma {:induction false} ReplaysEverything(r: State, ss: seq<Segment>)
    ensures var e := ReplayAll(r, ss);
            && e.commits <= r.commits + |ss|
            && (e.commits == r.commits + |ss| <==> Increasing(ss, r.lsn))
            && (Increasing(ss, r.lsn) ==>
                e.data == WriteAll(r.data, AllWrites(ss))
                && e.lsn == if ss == [] then r.lsn else ss[|ss| - 1].lsn)
    decreases |ss|
  {
    if ss != [] {
      var n := |ss| - 1;
      ReplaysEverything(r, ss[..n]);
      IncreasingInit(ss, r.lsn);
      ReplayReaches(r, ss[..n]);
      WriteJoin(r.data, AllWrites(ss[..n]), ss[n].writes);
    }
  }

  lemma IncreasingInit(ss: seq<Segment>, low: nat)
    requires ss != []
    ensures var n := |ss| - 1;
            Increasing(ss, low) <==>
                Increasing(ss[..n], low) && low < ss[n].lsn
                && (n > 0 ==> ss[n - 1].lsn < ss[n].lsn)
  {
    var n := |ss| - 1;
    if Increasing(ss[..n], low) && low < ss[n].lsn && (n > 0 ==> ss[n - 1].lsn < ss[n].lsn) {
      forall i, j | 0 <= i < j < |ss|
        ensures ss[i].lsn < ss[j].lsn
      {
        assert ss[..n][i] == ss[i];
        if j < n { assert ss[..n][j] == ss[j]; } else if i < n - 1 { assert ss[..n][n - 1] == ss[n - 1]; }
      }
      forall i | 0 <= i < |ss|
        ensures low < ss[i].lsn
      {
        if i < n { assert ss[..n][i] == ss[i]; }
      }
    }
  }

  /** After a checkpoint cut the log, a shorter log with newer commits is replayed from its start. */
  lemma ResumesAfterCheckpoint(f: Format, r: State, log: seq<Byte>)
    requires |log| < r.off && Increasing(Segments(f, log, 0), r.lsn)
    ensures Apply(f, r, log).data == WriteAll(r.data, AllWrites(Segments(f, log, 0)))
    ensures Apply(f, r, log).commits == r.commits + |Segments(f, log, 0)|
  {
    ReplaysEverything(r.(off := 0), Segments(f, log, 0));
  }

  // ----- a log that was cut and has grown past the position again -----

  lemma {:induction false} SegmentsFrom(f: Format, log: seq<Byte>, off: nat, k: nat)
    requires k <= |Segments(f, log, off)|
    ensures Segments(f, log, EndOf(off, Segments(f, log, off)[..k])) == Segments(f, log, off)[k..]
    decreases k
  {
    var ss := Segments(f, log, off);
    if k > 0 {
      var s := NextSegment(f, log, off, []).segment;
      var rest := Segments(f, log, s.end);
      assert ss == [s] + rest;
      SegmentsFrom(f, log, s.end, k - 1);
      assert ss[..k] == [s] + rest[..k - 1] && ss[k..] == rest[k - 1..];
    }
  }

  lemma SuffixIncreasing(ss: seq<Segment>, low: nat, k: nat)
    requires Increasing(ss, low) && k <= |ss|
    ensures Increasing(ss[k..], low)
  {
  }

  /** With the position at the end of the new log's first k segments, all of them newer than what was applied,
      exactly those k are passed over; so all are applied if and only if k is zero. */
  lemma RegrownLogSkips(f: Format, r: State, log: seq<Byte>, k: nat)
    requires var ss := Segments(f, log, 0);
             Increasing(ss, r.lsn) && k <= |ss| && r.off == EndOf(0, ss[..k]) && r.off <= |log|
    ensures var ss := Segments(f, log, 0); var e := Apply(f, r, log);
            && e.data == WriteAll(r.data, AllWrites(ss[k..])) && e.commits == r.commits + |ss| - k
            && (e.commits == r.commits + |ss| <==> k == 0)
  {
    var ss := Segments(f, log, 0);
    SegmentsFrom(f, log, 0, k);
    SuffixIncreasing(ss, r.lsn, k);
    ReplaysEverything(r, ss[k..]);
  }

  /** What was passed over stays lost: once a later commit is applied, no rewind brings it back. */
  lemma SkippedForGood(f: Format, r: State, log: seq<Byte>, k: nat)
    requires var ss := Segments(f, log, 0);
             Increasing(ss, r.lsn) && k < |ss| && r.off == EndOf(0, ss[..k]) && r.off <= |log|
    ensures var e := Apply(f, r, log); Apply(f, e.(off := 0), log) == e
  {
    var ss := Segments(f, log, 0);
    RegrownLogSkips(f, r, log, k);
    SegmentsFrom(f, log, 0, k);
    SuffixIncreasing(ss, r.lsn, k);
    ReplaysEverything(r, ss[k..]);
    ReplayPosition(r, ss[k..]);
    var e := Apply(f, r, log);
    assert e.lsn == ss[|ss| - 1].lsn && e.off == ss[|ss| - 1].end;
    ReplayOld(e.(off := 0), ss);
  }

  // An instance: two logs of equal length, one page each.

  function Eight(n: Byte): seq<Byte> {
    [n, 0, 0, 0, 0, 0, 0, 0]
  }

  lemma {:induction false} ZeroNumber(b: seq<Byte>)
    requires forall i | 0 <= i < |b| :: b[i] == 0
    ensures Number(b) == 0
  {
    if b != [] { ZeroNumber(b[1..]); }
  }

  lemma EightNumber(n: Byte)
    ensures Number(Eight(n)) == n
  {
    ZeroNumber(Eight(n)[1..]);
  }

  /** The bytes of a transaction that wrote one page. */
  function OnePage(pid: Byte, image: seq<Byte>, lsn: Byte): seq<Byte> {
    ['P' as int] + Eight(0) + Eight(pid) + image + ['C' as int] + Eight(lsn)
  }

  lemma OnePageSegment(f: Format, pid: Byte, image: seq<Byte>, lsn: Byte)
    requires f.cap > 0 && |image| == f.page
    ensures var log := OnePage(pid, image, lsn);
            |log| == 26 + f.page && Segments(f, log, 0) == [Segment([Write(pid, image)], lsn, |log|)]
  {
    var log := OnePage(pid, image, lsn);
    var end := 17 + f.page;
    assert log[9..17] == Eight(pid) && log[17..end] == image && log[end + 1..end + 9] == Eight(lsn);
    EightNumber(pid);
    EightNumber(lsn);
    assert ReadItem(f, log, 0, 0) == PageItem(Write(pid, image), end);
    assert ReadItem(f, log, end, 1) == CommitItem(lsn, |log|);
    assert NextSegment(f, log, end, [Write(pid, image)]) == Found(Segment([Write(pid, image)], lsn, |log|));
    assert [] + [Write(pid, image)] == [Write(pid, image)];
    assert Segments(f, log, |log|) == [];
  }

  /** A checkpoint cuts the log and one more transaction makes it as long as it was: the replica sees nothing
      new, and the committed page of that transaction is missing. */
  lemma RegrownLogLosesCommit(f: Format, a: seq<Byte>, b: seq<Byte>)
    requires f.cap > 0 && |a| == |b| == f.page
    ensures var before := Stream(f, [OnePage(0, a, 1)]); var log := OnePage(1, b, 2);
            && before.data == map[0 := a] && Increasing(Segments(f, log, 0), before.lsn)
            && AllWrites(Segments(f, log, 0)) == [Write(1, b)]
            && Stream(f, [OnePage(0, a, 1), log]) == before
  {
    var first, log := OnePage(0, a, 1), OnePage(1, b, 2);
    OnePageSegment(f, 0, a, 1);
    OnePageSegment(f, 1, b, 2);
    var s, t := Segments(f, first, 0)[0], Segments(f, log, 0)[0];
    StreamingIsOneShot(f, [first]);
    var before := Apply(f, Fresh, first);
    assert [s][..0] == [] && [Write(0, a)][..0] == [] && ReplayAll(Fresh, [s]) == Replay(Fresh, s);
    assert [t][..0] == [] && AllWrites([t]) == [] + [Write(1, b)] == [Write(1, b)];
    assert WriteAll(map[], [Write(0, a)]) == map[0 := a];
    assert Stream(f, [first]) == before;
    assert [first, log][..1] == [first];
    assert [t][..1] == [t] && [t][1..] == [];
    SegmentsFrom(f, log, 0, 1);
    assert before.off == |log| && Apply(f, before, log) == before;
    assert Stream(f, [first, log]) == Apply(f, Stream(f, [first]), log);
  }

  // ----- the object -----

  datatype Outcome = Applied(segments: nat) | Failed

  class WalReplica {
    var data: map<nat, seq<Byte>>
    var applyOff: nat
    var appliedLsn: nat
    var commitsApplied: nat

    ghost function Value(): State
      reads this
    {
      State(data, applyOff, appliedLsn, commitsApplied)
    }

    constructor ()
      ensures Value() == Fresh
    {
      data, applyOff, appliedLsn, commitsApplied := map[], 0, 0, 0;
    }

    /** The commit marker of a segment: write its pages unless it was applied before. */
    method Commit(writes: seq<Write>, lsn: nat, end: nat) returns (applied: bool)
      modifies this
      ensures Value() == Replay(old(Value()), Segment(writes, lsn, end)) && applied == (lsn > old(appliedLsn))
    {
      applied := lsn > appliedLsn;
      if applied {
        for i := 0 to |writes|
          invariant data == WriteAll(old(data), writes[..i])
          invariant applyOff == old(applyOff) && appliedLsn == old(appliedLsn) && commitsApplied == old(commitsApplied)
        {
          assert writes[..i + 1][..i] == writes[..i];
          data := data[writes[i].pid := writes[i].image];
        }
        assert writes[..|writes|] == writes;
        appliedLsn := lsn;
        commitsApplied := commitsApplied + 1;
      }
      applyOff := end;
    }

    /** replica_apply: read on from the last commit boundary until the log ends. */
    method CatchUp(f: Format, log: seq<Byte>) returns (out: Outcome)
      modifies this
      ensures Value() == Apply(f, old(Value()), log)
      ensures out.Failed? <==> Overflows(f, log, StartOf(old(Value()), log))
      ensures out.Applied? ==> out.segments == commitsApplied - old(commitsApplied)
    {
      if |log| < applyOff {
        applyOff := 0;
      }
      var off, pend, n := applyOff, [], 0;
      ghost var first := Value();
      ScanStarts(f, log, first);
      while true
        invariant Scanned(f, log, first, Value(), off, pend) && n == commitsApplied - old(commitsApplied)
        decreases |log| - off
      {
        match ReadItem(f, log, off, |pend|)
        case PageItem(w, next) => off, pend := next, pend + [w];
        case SkipItem(next) => off := next;
        case CommitItem(lsn, next) =>
          ScanCommits(f, log, first, Value(), off, pend);
          var applied := Commit(pend, lsn, next);
          if applied { n := n + 1; }
          off, pend := next, [];
        case NoRoom =>
          ScanEnds(f, log, first, Value(), off, pend);
          return Failed;
        case EndItem =>
          ScanEnds(f, log, first, Value(), off, pend);
          return Applied(n);
      }
    }
  }

  /** In the middle of a scan that began in `first`: what remains to be read completes its result. */
  ghost predicate Scanned(f: Format, log: seq<Byte>, first: State, r: State, off: nat, pend: seq<Write>) {
    && ReplayAll(r, Segments(f, log, r.off)) == ReplayAll(first, Segments(f, log, first.off))
    && NextSegment(f, log, off, pend) == NextSegment(f, log, r.off, [])
    && Overflows(f, log, r.off) == Overflows(f, log, first.off)
  }

  lemma ScanStarts(f: Format, log: seq<Byte>, first: State)
    ensures Scanned(f, log, first, first, first.off, [])
  {
  }

  lemma ScanCommits(f: Format, log: seq<Byte>, first: State, r: State, off: nat, pend: seq<Write>)
    requires Scanned(f, log, first, r, off, pend) && ReadItem(f, log, off, |pend|).CommitItem?
    ensures var i := ReadItem(f, log, off, |pend|);
            Scanned(f, log, first, Replay(r, Segment(pend, i.lsn, i.next)), i.next, [])
  {
    var i := ReadItem(f, log, off, |pend|);
    var s := Segment(pend, i.lsn, i.next);
    assert Segments(f, log, r.off) == [s] + Segments(f, log, s.end);
    ReplayJoin(r, [s], Segments(f, log, s.end));
    assert [s][..0] == [] && ReplayAll(r, [s]) == Replay(r, s);
  }

  lemma ScanEnds(f: Format, log: seq<Byte>, first: State, r: State, off: nat, pend: seq<Write>)
    requires Scanned(f, log, first, r, off, pend)
    requires ReadItem(f, log, off, |pend|).NoRoom? || ReadItem(f, log, off, |pend|).EndItem?
    ensures r == ReplayAll(first, Segments(f, log, first.off))
    ensures Overflows(f, log, first.off) <==> ReadItem(f, log, off, |pend|).NoRoom?
  {
    assert Segments(f, log, r.off) == [];
  }
}
