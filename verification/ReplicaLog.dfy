/** The bytes src/wal.c writes, and what src/replica.c makes of them. */
module ReplicaLog {
  import W = Wal
  import WalFile
  import opened Replica

  // ----- the bytes of a record -----

  /** n in k bytes, least significant first. */
  function Little(n: nat, k: nat): (b: seq<Byte>)
    ensures |b| == k
  {
    if k == 0 then [] else [n % 256] + Little(n / 256, k - 1)
  }

  function Range(k: nat): nat {
    if k == 0 then 1 else 256 * Range(k - 1)
  }

  lemma {:induction false} NumberOfLittle(n: nat, k: nat)
    requires n < Range(k)
    ensures Number(Little(n, k)) == n
    decreases k
  {
    if k > 0 {
      assert n / 256 < Range(k - 1);
      NumberOfLittle(n / 256, k - 1);
      assert Little(n, k)[1..] == Little(n / 256, k - 1);
    }
  }

  /** A record of the log with the sequence number in its header. */
  datatype Logged = Logged(rec: W.Rec, lsn: nat)

  function Header(kind: char, lsn: nat): (b: seq<Byte>)
    requires kind as int < 256
    ensures |b| == 9
  {
    [kind as int] + Little(lsn, 8)
  }

  /** The bytes of a page image. */
  function PageOf(f: Format, v: W.Image): (b: seq<Byte>)
    ensures |b| == f.page
  {
    Little(if v < 0 then 0 else v, f.page)
  }

  function Size(f: Format, x: Logged): nat {
    if x.rec.Commit? then 9 else if x.rec.Begin? then 17 else 17 + f.page
  }

  /** One record. */
  function Record(f: Format, x: Logged): (b: seq<Byte>)
    ensures |b| == Size(f, x)
  {
    match x.rec
    case After(pid, v) => Header('P', x.lsn) + Little(pid, 8) + PageOf(f, v)
    case Commit => Header('C', x.lsn)
    case Begin(base) => Header('B', x.lsn) + Little(base, 8)
    case Before(pid, v) => Header('U', x.lsn) + Little(pid, 8) + PageOf(f, v)
  }

  function Bytes(f: Format, xs: seq<Logged>): seq<Byte> {
    if xs == [] then [] else Record(f, xs[0]) + Bytes(f, xs[1..])
  }

  /** Numbers fit their eight bytes and every image a page. */
  ghost predicate Encodable(f: Format, x: Logged) {
    && x.lsn < Range(8)
    && (x.rec.After? || x.rec.Before? ==> x.rec.pid < Range(8) && 0 <= x.rec.image < Range(f.page))
  }

  ghost predicate AllEncodable(f: Format, xs: seq<Logged>) {
    forall i | 0 <= i < |xs| :: Encodable(f, xs[i])
  }

  // ----- reading it back -----

  /** Per commit the after-images since the last one; nothing else counts.  More of them than the buffer
      holds end the reading. */
  function Committed(f: Format, xs: seq<Logged>, off: nat, pend: seq<Write>): seq<Segment>
    decreases |xs|
  {
    if xs == [] then []
    else
      var next := off + Size(f, xs[0]);
      match xs[0].rec
      case After(pid, v) =>
        if |pend| >= f.cap then [] else Committed(f, xs[1..], next, pend + [Write(pid, PageOf(f, v))])
      case Commit => [Segment(pend, xs[0].lsn, next)] + Committed(f, xs[1..], next, [])
      case _ => Committed(f, xs[1..], next, pend)
  }

  /** Some commit has more after-images than the buffer holds. */
  predicate TooMany(f: Format, xs: seq<Logged>, pending: nat)
    decreases |xs|
  {
    xs != []
    && match xs[0].rec
       case After(_, _) => pending >= f.cap || TooMany(f, xs[1..], pending + 1)
       case Commit => TooMany(f, xs[1..], 0)
       case _ => TooMany(f, xs[1..], pending)
  }

  function SegmentsFrom(f: Format, log: seq<Byte>, off: nat, pend: seq<Write>): seq<Segment> {
    match NextSegment(f, log, off, pend)
    case Found(s) => [s] + Segments(f, log, s.end)
    case _ => []
  }

  function OverflowsFrom(f: Format, log: seq<Byte>, off: nat, pend: seq<Write>): bool {
    match NextSegment(f, log, off, pend)
    case Found(s) => Overflows(f, log, s.end)
    case TooLong => true
    case Ended => false
  }

  lemma HeaderAt(log: seq<Byte>, off: nat, kind: char, lsn: nat)
    requires kind as int < 256 && lsn < Range(8) && off + 9 <= |log| && log[off..off + 9] == Header(kind, lsn)
    ensures log[off] == kind as int && Number(log[off + 1..off + 9]) == lsn
  {
    assert log[off] == log[off..off + 9][0];
    assert log[off + 1..off + 9] == log[off..off + 9][1..] == Little(lsn, 8);
    NumberOfLittle(lsn, 8);
  }

  lemma NumberAt(log: seq<Byte>, off: nat, n: nat)
    requires off + 8 <= |log| && log[off..off + 8] == Little(n, 8) && n < Range(8)
    ensures Number(log[off..off + 8]) == n
  {
    NumberOfLittle(n, 8);
  }

  /** The bytes at `off` are these. */
  ghost predicate At(log: seq<Byte>, off: nat, b: seq<Byte>) {
    off + |b| <= |log| && log[off..off + |b|] == b
  }

  lemma Inside(log: seq<Byte>, off: nat, r: seq<Byte>, i: nat, j: nat)
    requires At(log, off, r) && i <= j <= |r|
    ensures off + j <= |log| && log[off + i..off + j] == r[i..j]
  {
    forall k | 0 <= k < j - i
      ensures log[off + i..off + j][k] == r[i..j][k]
    {
      assert log[off..off + |r|][i + k] == log[off + i + k];
    }
  }

  lemma Pieces(log: seq<Byte>, off: nat, a: seq<Byte>, b: seq<Byte>, c: seq<Byte>)
    requires At(log, off, a + b + c)
    ensures At(log, off, a) && At(log, off + |a|, b) && At(log, off + |a| + |b|, c)
  {
    var r, i, j := a + b + c, |a|, |a| + |b|;
    assert r[0..i] == a && r[i..j] == b && r[j..|r|] == c;
    Inside(log, off, r, 0, i);
    Inside(log, off, r, i, j);
    Inside(log, off, r, j, |r|);
  }

  /** What a record is read as when `n` images are buffered. */
  function ItemOf(f: Format, x: Logged, off: nat, n: nat): Item {
    var next := off + Size(f, x);
    match x.rec
    case After(pid, v) => if n >= f.cap then NoRoom else PageItem(Write(pid, PageOf(f, v)), next)
    case Commit => CommitItem(x.lsn, next)
    case _ => SkipItem(next)
  }

  lemma ReadAfter(f: Format, log: seq<Byte>, off: nat, x: Logged, n: nat)
    requires Encodable(f, x) && At(log, off, Record(f, x)) && x.rec.After?
    ensures ReadItem(f, log, off, n) == ItemOf(f, x, off, n)
  {
    Pieces(log, off, Header('P', x.lsn), Little(x.rec.pid, 8), PageOf(f, x.rec.image));
    HeaderAt(log, off, 'P', x.lsn);
    NumberAt(log, off + 9, x.rec.pid);
  }

  lemma ReadOther(f: Format, log: seq<Byte>, off: nat, x: Logged, n: nat)
    requires Encodable(f, x) && At(log, off, Record(f, x)) && !x.rec.After?
    ensures ReadItem(f, log, off, n) == ItemOf(f, x, off, n)
  {
    match x.rec
    case Commit =>
      HeaderAt(log, off, 'C', x.lsn);
    case Begin(base) =>
      assert Header('B', x.lsn) + Little(base, 8) + [] == Header('B', x.lsn) + Little(base, 8);
      Pieces(log, off, Header('B', x.lsn), Little(base, 8), []);
      HeaderAt(log, off, 'B', x.lsn);
    case Before(pid, v) =>
      Pieces(log, off, Header('U', x.lsn), Little(pid, 8), PageOf(f, v));
      HeaderAt(log, off, 'U', x.lsn);
  }

  lemma ReadRecord(f: Format, log: seq<Byte>, off: nat, x: Logged, n: nat)
    requires Encodable(f, x) && At(log, off, Record(f, x))
    ensures ReadItem(f, log, off, n) == ItemOf(f, x, off, n)
  {
    if x.rec.After? { ReadAfter(f, log, off, x, n); } else { ReadOther(f, log, off, x, n); }
  }

  ghost predicate Asked(z: int) {
    true
  }

  /** Scanning from `off` with `pend` buffered finds the segments `ss` and overflows or not; as one fact. */
  ghost predicate Finds(f: Format, log: seq<Byte>, off: nat, pend: seq<Write>, ss: seq<Segment>, over: bool) {
    forall z: int {:trigger Asked(z)} :: Asked(z) ==>
      SegmentsFrom(f, log, off, pend) == ss && OverflowsFrom(f, log, off, pend) == over
  }

  lemma FindsPage(f: Format, log: seq<Byte>, off: nat, pend: seq<Write>, w: Write, next: nat,
                  ss: seq<Segment>, over: bool)
    requires ReadItem(f, log, off, |pend|) == PageItem(w, next) && Finds(f, log, next, pend + [w], ss, over)
    ensures Finds(f, log, off, pend, ss, over)
  {
    assert Asked(0);
  }

  lemma FindsSkip(f: Format, log: seq<Byte>, off: nat, pend: seq<Write>, next: nat, ss: seq<Segment>, over: bool)
    requires ReadItem(f, log, off, |pend|) == SkipItem(next) && Finds(f, log, next, pend, ss, over)
    ensures Finds(f, log, off, pend, ss, over)
  {
    assert Asked(0);
  }

  lemma FindsCommit(f: Format, log: seq<Byte>, off: nat, pend: seq<Write>, lsn: nat, next: nat,
                    ss: seq<Segment>, over: bool)
    requires ReadItem(f, log, off, |pend|) == CommitItem(lsn, next) && Finds(f, log, next, [], ss, over)
    ensures Finds(f, log, off, pend, [Segment(pend, lsn, next)] + ss, over)
  {
    assert Asked(0);
  }

  lemma FindsNothing(f: Format, log: seq<Byte>, off: nat, pend: seq<Write>)
    requires var i := ReadItem(f, log, off, |pend|); i.NoRoom? || i.EndItem?
    ensures Finds(f, log, off, pend, [], ReadItem(f, log, off, |pend|).NoRoom?)
  {
  }

  lemma TailAfter(log: seq<Byte>, off: nat, r: seq<Byte>, rest: seq<Byte>)
    requires off <= |log| && log[off..] == r + rest
    ensures At(log, off, r) && log[off + |r|..] == rest
  {
    assert log[off..][..|r|] == r && log[off..][|r|..] == rest;
  }

  /** At `off` the record is read for what it is; as one fact. */
  ghost predicate ReadsIt(f: Format, log: seq<Byte>, off: nat, x: Logged, n: nat) {
    forall z: int {:trigger Asked(z)} :: Asked(z) ==> ReadItem(f, log, off, n) == ItemOf(f, x, off, n)
  }

  /** From `off` on the log holds these records. */
  ghost predicate Holds(f: Format, log: seq<Byte>, off: nat, xs: seq<Logged>) {
    forall z: int {:trigger Asked(z)} :: Asked(z) ==>
      AllEncodable(f, xs) && off <= |log| && log[off..] == Bytes(f, xs)
  }

  lemma HoldsNone(f: Format, log: seq<Byte>, off: nat, n: nat)
    requires Holds(f, log, off, [])
    ensures ReadItem(f, log, off, n) == EndItem
  {
    assert Asked(0);
    assert |log[off..]| == 0;
  }

  lemma HoldsFirst(f: Format, log: seq<Byte>, off: nat, xs: seq<Logged>, n: nat)
    requires xs != [] && Holds(f, log, off, xs)
    ensures Holds(f, log, off + Size(f, xs[0]), xs[1..])
    ensures ReadsIt(f, log, off, xs[0], n)
  {
    assert Asked(0);
    TailAfter(log, off, Record(f, xs[0]), Bytes(f, xs[1..]));
    ReadRecord(f, log, off, xs[0], n);
  }

  /** Scanning from `off` finds what these records commit; as one fact. */
  ghost predicate FindsThese(f: Format, log: seq<Byte>, off: nat, xs: seq<Logged>, pend: seq<Write>) {
    forall z: int {:trigger Asked(z)} :: Asked(z) ==>
      Finds(f, log, off, pend, Committed(f, xs, off, pend), TooMany(f, xs, |pend|))
  }

  lemma FindsNone(f: Format, log: seq<Byte>, off: nat, pend: seq<Write>)
    requires Holds(f, log, off, [])
    ensures FindsThese(f, log, off, [], pend)
  {
    HoldsNone(f, log, off, |pend|);
    FindsNothing(f, log, off, pend);
  }

  lemma FindsAfter(f: Format, log: seq<Byte>, off: nat, xs: seq<Logged>, pend: seq<Write>)
    requires xs != [] && xs[0].rec.After? && ReadsIt(f, log, off, xs[0], |pend|)
    requires var next, w := off + Size(f, xs[0]), Write(xs[0].rec.pid, PageOf(f, xs[0].rec.image));
             |pend| < f.cap ==> FindsThese(f, log, next, xs[1..], pend + [w])
    ensures FindsThese(f, log, off, xs, pend)
  {
    assert Asked(0);
    var rest, next, w := xs[1..], off + Size(f, xs[0]), Write(xs[0].rec.pid, PageOf(f, xs[0].rec.image));
    if |pend| < f.cap {
      FindsPage(f, log, off, pend, w, next, Committed(f, rest, next, pend + [w]), TooMany(f, rest, |pend| + 1));
    } else {
      FindsNothing(f, log, off, pend);
    }
  }

  lemma FindsOther(f: Format, log: seq<Byte>, off: nat, xs: seq<Logged>, pend: seq<Write>)
    requires xs != [] && !xs[0].rec.After? && ReadsIt(f, log, off, xs[0], |pend|)
    requires var next, kept := off + Size(f, xs[0]), if xs[0].rec.Commit? then [] else pend;
             FindsThese(f, log, next, xs[1..], kept)
    ensures FindsThese(f, log, off, xs, pend)
  {
    assert Asked(0);
    var rest, next := xs[1..], off + Size(f, xs[0]);
    if xs[0].rec.Commit? {
      FindsCommit(f, log, off, pend, xs[0].lsn, next, Committed(f, rest, next, []), TooMany(f, rest, 0));
    } else {
      FindsSkip(f, log, off, pend, next, Committed(f, rest, next, pend), TooMany(f, rest, |pend|));
    }
  }

  /** What is buffered once the record is read. */
  function Kept(f: Format, x: Logged, pend: seq<Write>): seq<Write> {
    match x.rec
    case After(pid, v) => pend + [Write(pid, PageOf(f, v))]
    case Commit => []
    case _ => pend
  }

  lemma FindsFull(f: Format, log: seq<Byte>, off: nat, xs: seq<Logged>, pend: seq<Write>)
    requires Holds(f, log, off, xs) && xs != [] && xs[0].rec.After? && |pend| >= f.cap
    ensures FindsThese(f, log, off, xs, pend)
  {
    HoldsFirst(f, log, off, xs, |pend|);
    FindsAfter(f, log, off, xs, pend);
  }

  lemma FindsOn(f: Format, log: seq<Byte>, off: nat, xs: seq<Logged>, pend: seq<Write>)
    requires Holds(f, log, off, xs) && xs != [] && (xs[0].rec.After? ==> |pend| < f.cap)
    requires FindsThese(f, log, off + Size(f, xs[0]), xs[1..], Kept(f, xs[0], pend))
    ensures FindsThese(f, log, off, xs, pend)
  {
    HoldsFirst(f, log, off, xs, |pend|);
    if xs[0].rec.After? { FindsAfter(f, log, off, xs, pend); } else { FindsOther(f, log, off, xs, pend); }
  }

  lemma {:induction false} ReadsBackFrom(f: Format, log: seq<Byte>, off: nat, xs: seq<Logged>, pend: seq<Write>)
    requires Holds(f, log, off, xs)
    ensures FindsThese(f, log, off, xs, pend)
    decreases |xs|
  {
    if xs == [] {
      FindsNone(f, log, off, pend);
    } else if xs[0].rec.After? && |pend| >= f.cap {
      FindsFull(f, log, off, xs, pend);
    } else {
      HoldsFirst(f, log, off, xs, |pend|);
      ReadsBackFrom(f, log, off + Size(f, xs[0]), xs[1..], Kept(f, xs[0], pend));
      FindsOn(f, log, off, xs, pend);
    }
  }

  /** For every list of records, the bytes the log writer produces are read back as exactly the committed
      after-images, commit by commit; the reading fails exactly when a commit has too many. */
  lemma ReadsBack(f: Format, xs: seq<Logged>)
    requires AllEncodable(f, xs)
    ensures Segments(f, Bytes(f, xs), 0) == Committed(f, xs, 0, [])
    ensures Overflows(f, Bytes(f, xs), 0) <==> TooMany(f, xs, 0)
  {
    assert Bytes(f, xs)[0..] == Bytes(f, xs);
    ReadsBackFrom(f, Bytes(f, xs), 0, xs, []);
    assert Asked(0);
  }

  // ----- the length of the log -----

  function Recs(xs: seq<Logged>): (rs: seq<W.Rec>)
    ensures |rs| == |xs|
  {
    seq(|xs|, i requires 0 <= i < |xs| => xs[i].rec)
  }

  lemma {:induction false} BytesLast(f: Format, xs: seq<Logged>)
    requires xs != []
    ensures |Bytes(f, xs)| == |Bytes(f, xs[..|xs| - 1])| + Size(f, xs[|xs| - 1])
    decreases |xs|
  {
    var n := |xs| - 1;
    if n > 0 {
      assert xs[1..][..n - 1] == xs[..n][1..];
      BytesLast(f, xs[1..]);
    } else {
      assert xs[1..] == [] && xs[..n] == [];
    }
  }

  /** The length that decides about a checkpoint is that of the bytes. */
  lemma {:induction false} LogLength(f: Format, xs: seq<Logged>)
    ensures |Bytes(f, xs)| == WalFile.LogBytes(Recs(xs), f.page)
    decreases |xs|
  {
    if xs != [] {
      BytesLast(f, xs);
      LogLength(f, xs[..|xs| - 1]);
      assert Recs(xs)[..|xs| - 1] == Recs(xs[..|xs| - 1]);
    }
  }

  // ----- the replica against the redo pass of recovery -----

  /** The after-images of a list of records. */
  function Images(f: Format, rs: seq<W.Rec>): seq<Write>
    decreases |rs|
  {
    if rs == [] then []
    else
      var n := |rs| - 1;
      Images(f, rs[..n]) + if rs[n].After? then [Write(rs[n].pid, PageOf(f, rs[n].image))] else []
  }

  lemma {:induction false} ImagesJoin(f: Format, a: seq<W.Rec>, b: seq<W.Rec>)
    ensures Images(f, a + b) == Images(f, a) + Images(f, b)
    decreases |b|
  {
    if b == [] {
      assert a + b == a;
    } else {
      assert (a + b)[..|a + b| - 1] == a + b[..|b| - 1];
      ImagesJoin(f, a, b[..|b| - 1]);
    }
  }

  lemma {:induction false} WritesJoin(a: seq<Segment>, b: seq<Segment>)
    ensures AllWrites(a + b) == AllWrites(a) + AllWrites(b)
    decreases |b|
  {
    if b == [] {
      assert a + b == a;
    } else {
      assert (a + b)[..|a + b| - 1] == a + b[..|b| - 1];
      WritesJoin(a, b[..|b| - 1]);
    }
  }

  /** Up to the last commit, seen from the front. */
  lemma WinnersCons(rs: seq<W.Rec>)
    requires rs != []
    ensures var k := W.Winners(rs[1..]);
            W.Winners(rs) == if k > 0 then k + 1 else if rs[0] == W.Commit then 1 else 0
  {
    var n, k := W.Winners(rs), W.Winners(rs[1..]);
    assert k > 0 ==> rs[k] == rs[1..][k - 1];
    assert n > 1 ==> rs[1..][n - 2] == rs[n - 1];
    assert forall i | 1 <= i < |rs| :: rs[1..][i - 1] == rs[i];
  }

  lemma FirstImage(f: Format, rs: seq<W.Rec>, k: nat)
    requires 0 < k <= |rs|
    ensures Images(f, rs[..k]) ==
            (if rs[0].After? then [Write(rs[0].pid, PageOf(f, rs[0].image))] else []) + Images(f, rs[1..][..k - 1])
  {
    assert rs[..k] == [rs[0]] + rs[1..][..k - 1];
    ImagesJoin(f, [rs[0]], rs[1..][..k - 1]);
    assert [rs[0]][..0] == [];
  }

  /** The writes that reach a commit, with `pend` buffered at the start. */
  function Reaching(f: Format, rs: seq<W.Rec>, pend: seq<Write>): seq<Write> {
    var n := W.Winners(rs);
    if n == 0 then [] else pend + Images(f, rs[..n])
  }

  lemma ReachingCons(f: Format, rs: seq<W.Rec>, pend: seq<Write>)
    requires rs != []
    ensures Reaching(f, rs, pend) ==
            match rs[0]
            case After(pid, v) => Reaching(f, rs[1..], pend + [Write(pid, PageOf(f, v))])
            case Commit => pend + Reaching(f, rs[1..], [])
            case _ => Reaching(f, rs[1..], pend)
  {
    WinnersCons(rs);
    var n := W.Winners(rs);
    if n > 0 { FirstImage(f, rs, n); }
    if n == 1 { assert rs[1..][..0] == []; }
  }

  lemma FirstWrites(s: Segment, rest: seq<Segment>)
    ensures AllWrites([s] + rest) == s.writes + AllWrites(rest)
  {
    WritesJoin([s], rest);
    assert [s][..0] == [] && AllWrites([s]) == s.writes;
  }

  /** The writes of `ss` are those of `rs` that reach a commit; as one fact. */
  ghost predicate WritesReach(f: Format, ss: seq<Segment>, rs: seq<W.Rec>, pend: seq<Write>) {
    forall z: int {:trigger Asked(z)} :: Asked(z) ==> AllWrites(ss) == Reaching(f, rs, pend)
  }

  lemma ReachAfter(f: Format, ss: seq<Segment>, rs: seq<W.Rec>, pend: seq<Write>)
    requires rs != [] && rs[0].After?
    requires WritesReach(f, ss, rs[1..], pend + [Write(rs[0].pid, PageOf(f, rs[0].image))])
    ensures WritesReach(f, ss, rs, pend)
  {
    assert Asked(0);
    ReachingCons(f, rs, pend);
  }

  lemma ReachCommit(f: Format, s: Segment, ss: seq<Segment>, rs: seq<W.Rec>)
    requires rs != [] && rs[0] == W.Commit && WritesReach(f, ss, rs[1..], [])
    ensures WritesReach(f, [s] + ss, rs, s.writes)
  {
    assert Asked(0);
    ReachingCons(f, rs, s.writes);
    FirstWrites(s, ss);
  }

  lemma ReachSkip(f: Format, ss: seq<Segment>, rs: seq<W.Rec>, pend: seq<Write>)
    requires rs != [] && (rs[0].Begin? || rs[0].Before?) && WritesReach(f, ss, rs[1..], pend)
    ensures WritesReach(f, ss, rs, pend)
  {
    assert Asked(0);
    ReachingCons(f, rs, pend);
  }

  lemma {:induction false} CommittedImages(f: Format, xs: seq<Logged>, off: nat, pend: seq<Write>)
    requires !TooMany(f, xs, |pend|)
    ensures WritesReach(f, Committed(f, xs, off, pend), Recs(xs), pend)
    decreases |xs|
  {
    if xs != [] {
      var rest, next, rs := xs[1..], off + Size(f, xs[0]), Recs(xs);
      assert rs[1..] == Recs(rest) && rs[0] == xs[0].rec;
      match xs[0].rec
      case After(pid, v) =>
        var w := Write(pid, PageOf(f, v));
        CommittedImages(f, rest, next, pend + [w]);
        ReachAfter(f, Committed(f, rest, next, pend + [w]), rs, pend);
      case Commit =>
        CommittedImages(f, rest, next, []);
        ReachCommit(f, Segment(pend, xs[0].lsn, next), Committed(f, rest, next, []), rs);
      case _ =>
        CommittedImages(f, rest, next, pend);
        ReachSkip(f, Committed(f, rest, next, pend), rs, pend);
    }
  }

  lemma {:induction false} ImagesLast(f: Format, rs: seq<W.Rec>, p: nat)
    ensures var d := WriteAll(map[], Images(f, rs)); var r := W.LastAfter(rs, p);
            (p in d <==> r.Some?) && (r.Some? ==> d[p] == PageOf(f, r.value))
    decreases |rs|
  {
    if rs != [] {
      var n := |rs| - 1;
      ImagesLast(f, rs[..n], p);
      if rs[n].After? {
        var w := Write(rs[n].pid, PageOf(f, rs[n].image));
        assert (Images(f, rs[..n]) + [w])[..|Images(f, rs[..n])|] == Images(f, rs[..n]);
      } else {
        assert Images(f, rs) == Images(f, rs[..n]);
      }
    }
  }

  /** A replica that reads the whole log has on every page what the redo pass of recovery would leave there:
      the last after-image before the last commit. */
  lemma ReplicaIsRedo(f: Format, xs: seq<Logged>, p: nat)
    requires AllEncodable(f, xs) && !TooMany(f, xs, 0) && Increasing(Committed(f, xs, 0, []), 0)
    ensures var d := Apply(f, Fresh, Bytes(f, xs)).data; var rs := Recs(xs);
            var r := W.LastAfter(rs[..W.Winners(rs)], p);
            (p in d <==> r.Some?) && (r.Some? ==> d[p] == PageOf(f, r.value))
  {
    var ss, rs := Committed(f, xs, 0, []), Recs(xs);
    ReadsBack(f, xs);
    ReplaysEverything(Fresh, ss);
    CommittedImages(f, xs, 0, []);
    assert Asked(0);
    var n := W.Winners(rs);
    assert [] + Images(f, rs[..n]) == Images(f, rs[..n]);
    if n == 0 { assert rs[..0] == []; }
    ImagesLast(f, rs[..n], p);
  }
}
