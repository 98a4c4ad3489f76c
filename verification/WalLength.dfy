/** How many pages recovery leaves in the data file. */
module WalLength {
  import opened Wrappers
  import opened Wal
  import opened WalRecovery
  import opened WalRuns

  /** The records of the transaction that recovery will undo. */
  function Tail(d: Disk): seq<Rec> {
    Readable(d)[Winners(Readable(d))..]
  }

  function Head(d: Disk): seq<Rec> {
    Readable(d)[..Winners(Readable(d))]
  }

  predicate Based(d: Disk) {
    LastBase(Tail(d)).Some?
  }

  /** Recovery of d leaves n pages, of which it writes only those below `lo`: it cuts the file back to the
      logged page count if there is one. */
  ghost predicate Ends(d: Disk, n: nat, lo: nat) {
    && lo <= n <= |d.data|
    && (if Based(d) then LastBase(Tail(d)).value == n else |d.data| == n)
    && (forall p: nat | LastBefore(Tail(d), p).Some? :: p < lo)
    && (forall p: nat | LastAfter(Head(d), p).Some? :: p < lo)
  }

  /** A write that leaves that number as it is. */
  predicate Quiet(based: bool, marked: bool, n: nat, lo: nat, io: Io) {
    match io
    case Write(p, _) => p < n || based
    case Resize(m) => m == n && based
    case Open(r) => r != Commit && !marked
    case Close(r) => (r.After? || (r.Before? && r.pid < lo)) && !marked
    case Cut(_) => false
  }

  predicate MarkOpen(d: Disk) {
    d.part == Some(Commit)
  }

  lemma BaseSnoc(log: seq<Rec>, r: Rec)
    ensures LastBase(log + [r]) == if r.Begin? then Some(r.base) else LastBase(log)
  {
    assert (log + [r])[..|log|] == log;
  }

  lemma QuietRecord(d: Disk, n: nat, lo: nat, r: Rec)
    requires Ends(d, n, lo) && !MarkOpen(d) && (r.After? || (r.Before? && r.pid < lo))
    ensures var e := Perform(d, Close(r)); Ends(e, n, lo) && Based(e) == Based(d) && !MarkOpen(e)
  {
    var e, w := Perform(d, Close(r)), Winners(d.log);
    WinnersSnoc(d.log, r);
    SnocSlices(d.log, r, w);
    BaseSnoc(Tail(d), r);
    assert Tail(e) == Tail(d) + [r] && Head(e) == Head(d);
    forall p: nat | LastBefore(Tail(e), p).Some?
      ensures p < lo
    {
      LastSnoc(Tail(d), r, p);
    }
  }

  lemma QuietStep(d: Disk, n: nat, lo: nat, io: Io)
    requires Ends(d, n, lo) && Quiet(Based(d), MarkOpen(d), n, lo, io)
    ensures var e := Perform(d, io); Ends(e, n, lo) && Based(e) == Based(d) && MarkOpen(e) == MarkOpen(d)
  {
    if io.Close? {
      QuietRecord(d, n, lo, io.rec);
    } else {
      var e := Perform(d, io);
      assert Readable(e) == Readable(d);
      assert Tail(e) == Tail(d) && Head(e) == Head(d);
    }
  }

  lemma {:induction false} QuietAll(d: Disk, n: nat, lo: nat, ios: seq<Io>)
    requires Ends(d, n, lo) && forall i | 0 <= i < |ios| :: Quiet(Based(d), MarkOpen(d), n, lo, ios[i])
    ensures var e := PerformAll(d, ios); Ends(e, n, lo) && Based(e) == Based(d) && MarkOpen(e) == MarkOpen(d)
    decreases |ios|
  {
    if ios != [] {
      var front := ios[..|ios| - 1];
      QuietAll(d, n, lo, front);
      QuietStep(PerformAll(d, front), n, lo, ios[|ios| - 1]);
    }
  }

  lemma {:induction false} WritesKeepLength(d: Disk, ios: seq<Io>)
    requires forall i | 0 <= i < |ios| :: ios[i].Write? && ios[i].pid < |d.data|
    ensures var e := PerformAll(d, ios); |e.data| == |d.data| && e.log == d.log && e.part == d.part
    decreases |ios|
  {
    if ios != [] { WritesKeepLength(d, ios[..|ios| - 1]); }
  }

  /** The page writes of recovery, and the cut of the data file. */
  function Passes(d: Disk, cap: nat): seq<Io> {
    RedoWrites(Readable(d), cap) + UndoWrites(Tail(d))
  }

  function Shrinking(d: Disk): seq<Io> {
    var base := LastBase(Tail(d));
    if base.Some? && base.value < |d.data| then [Resize(base.value)] else []
  }

  lemma RecoverParts(d: Disk, cap: nat)
    ensures RecoverIos(d, cap) == Passes(d, cap) + Shrinking(d) + [Cut(0)]
  {
  }

  lemma PassesBelow(d: Disk, n: nat, lo: nat, cap: nat, i: nat)
    requires Ends(d, n, lo) && Fits(Readable(d), cap) && i < |Passes(d, cap)|
    ensures Passes(d, cap)[i].Write? && Passes(d, cap)[i].pid < lo
  {
    var k := |RedoWrites(Readable(d), cap)|;
    if i < k {
      RedoLogged(Readable(d), cap, i);
      assert LastAfter(Head(d), Passes(d, cap)[i].pid).Some?;
    } else {
      UndoLogged(Tail(d), i - k);
      assert LastBefore(Tail(d), Passes(d, cap)[i].pid).Some?;
    }
  }

  lemma RecoverLength(d: Disk, n: nat, lo: nat, cap: nat)
    requires Ends(d, n, lo) && Fits(Readable(d), cap)
    ensures var e := PerformAll(d, RecoverIos(d, cap)); |e.data| == n && e.log == [] && e.part == None
  {
    var a, b := Passes(d, cap), Shrinking(d);
    RecoverParts(d, cap);
    forall i | 0 <= i < |a|
      ensures a[i].Write? && a[i].pid < lo
    {
      PassesBelow(d, n, lo, cap, i);
    }
    WritesKeepLength(d, a);
    PerformJoin(d, a + b, [Cut(0)]);
    PerformJoin(d, a, b);
    PerformOne(PerformAll(d, a + b), Cut(0));
    if b != [] { PerformOne(PerformAll(d, a), b[0]); }
  }

  lemma RecoverQuiet(d: Disk, n: nat, lo: nat, cap: nat, k: nat)
    requires Ends(d, n, lo) && Fits(Readable(d), cap) && k < |RecoverIos(d, cap)|
    ensures Ends(PerformAll(d, RecoverIos(d, cap)[..k]), n, lo)
  {
    var ios := RecoverIos(d, cap);
    RecoverParts(d, cap);
    forall i | 0 <= i < k
      ensures Quiet(Based(d), MarkOpen(d), n, lo, ios[i])
    {
      if i < |Passes(d, cap)| {
        PassesBelow(d, n, lo, cap, i);
        assert ios[i] == Passes(d, cap)[i];
      }
    }
    QuietAll(d, n, lo, ios[..k]);
  }

  lemma EndsEmpty(d: Disk, lo: nat)
    requires d.log == [] && d.part == None && lo <= |d.data|
    ensures Ends(d, |d.data|, lo)
  {
    assert Tail(d) == [] && Head(d) == [];
  }

  lemma {:induction false} RetriedEnds(d: Disk, db: seq<Image>, n: nat, lo: nat, cap: nat, tries: seq<nat>)
    requires Survives(d, db, cap) && Ends(d, n, lo)
    ensures Ends(Retried(d, cap, tries), n, lo)
    decreases |tries|
  {
    if tries != [] {
      var front, t := tries[..|tries| - 1], tries[|tries| - 1];
      var e := Retried(d, cap, front);
      RetriedEnds(d, db, n, lo, cap, front);
      RetriedExact(d, db, cap, front);
      if t < |RecoverIos(e, cap)| {
        RecoverQuiet(e, n, lo, cap, t);
      } else {
        RecoverLength(e, n, lo, cap);
        EndsEmpty(Retried(d, cap, tries), lo);
      }
    }
  }

  /** However often recovery is killed, the file it leaves is the committed contents and not a page more. */
  lemma RecoversTo(d: Disk, db: seq<Image>, lo: nat, cap: nat, tries: seq<nat>)
    requires Survives(d, db, cap) && Ends(d, |db|, lo)
    ensures var r := Retried(d, cap, tries); PerformAll(r, RecoverIos(r, cap)) == Disk(db, [], None)
  {
    var r := Retried(d, cap, tries);
    RetriedEnds(d, db, |db|, lo, cap, tries);
    RetriedExact(d, db, cap, tries);
    RecoverLength(r, |db|, lo, cap);
    CrashRecoveryExact(d, db, cap, tries);
    assert PerformAll(r, RecoverIos(r, cap)).data == db;
  }
}
