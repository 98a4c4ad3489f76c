/** Recovery restores the committed contents, from any disk a kill can leave and
    however often recovery itself is killed. */
module WalRecovery {
  import opened Wrappers
  import opened Wal

  // ----- lists of writes -----

  lemma {:induction false} PerformJoin(d: Disk, a: seq<Io>, b: seq<Io>)
    ensures PerformAll(d, a + b) == PerformAll(PerformAll(d, a), b)
    decreases |b|
  {
    if b == [] {
      assert a + b == a;
    } else {
      assert (a + b)[..|a + b| - 1] == a + b[..|b| - 1];
      PerformJoin(d, a, b[..|b| - 1]);
    }
  }

  lemma PerformOne(d: Disk, io: Io)
    ensures PerformAll(d, [io]) == Perform(d, io)
  {
    assert [io][..0] == [];
  }

  lemma {:induction false} ApplyEffect(d: Disk, staged: seq<Staged>)
    ensures var e := PerformAll(d, ApplyIos(staged));
            && e.log == d.log && e.part == d.part && |e.data| >= |d.data|
            && (forall p: nat | StagedImage(staged, p).Some? ::
                p < |e.data|
                && e.data[p] == StagedImage(staged, p).value)
            && (forall p: nat | StagedImage(staged, p).None? && p < |d.data| :: e.data[p] == d.data[p])
            && ((forall i | 0 <= i < |staged| :: staged[i].pid < |d.data|) ==> |e.data| == |d.data|)
    decreases |staged|
  {
    if staged != [] {
      var n := |staged| - 1;
      assert ApplyIos(staged)[..n] == ApplyIos(staged[..n]);
      ApplyEffect(d, staged[..n]);
    }
  }

  // ----- what the log says about a page -----

  /** The number of after-images since the last commit marker. */
  function PendingCount(log: seq<Rec>): nat
    decreases |log|
  {
    if log == [] || log[|log| - 1] == Commit then 0
    else PendingCount(log[..|log| - 1]) + if log[|log| - 1].After? then 1 else 0
  }

  /** No segment holds more after-images than the redo buffer. */
  ghost predicate Fits(log: seq<Rec>, cap: nat) {
    forall i | 0 <= i <= |log| :: PendingCount(log[..i]) <= cap
  }

  lemma FitsPrefix(log: seq<Rec>, cap: nat, n: nat)
    requires Fits(log, cap) && n <= |log|
    ensures Fits(log[..n], cap)
  {
    assert forall i | 0 <= i <= n :: log[..n][..i] == log[..i];
  }

  lemma {:induction false} PendingImage(log: seq<Rec>, cap: nat, p: nat)
    requires Fits(log, cap)
    ensures |Pending(log, cap)| == PendingCount(log)
    ensures var s := StagedImage(Pending(log, cap), p);
            if s.Some? then LastAfter(log, p) == s else LastAfter(log, p) == LastAfter(log[..Winners(log)], p)
    decreases |log|
  {
    if log != [] {
      var front := log[..|log| - 1];
      FitsPrefix(log, cap, |log| - 1);
      assert log[..|log|] == log;
      PendingImage(front, cap, p);
      if log[|log| - 1] != Commit {
        assert front[..Winners(front)] == log[..Winners(log)];
        var r := log[|log| - 1];
        if r.After? { StagedSnoc(Pending(front, cap), Staged(r.pid, r.image), p); }
      }
    }
  }

  lemma StagedSnoc(staged: seq<Staged>, x: Staged, p: nat)
    ensures StagedImage(staged + [x], p) == if x.pid == p then Some(x.image) else StagedImage(staged, p)
  {
    assert (staged + [x])[..|staged|] == staged;
  }

  /** e is d with, on each page, the last after-image of a winner. */
  ghost predicate Redone(d: Disk, e: Disk, log: seq<Rec>) {
    && e.log == d.log && e.part == d.part && |e.data| >= |d.data|
    && forall p: nat | p < |d.data| ::
         e.data[p] == (var r := LastAfter(log[..Winners(log)], p); if r.Some? then r.value else d.data[p])
  }

  /** Pass 1 leaves on each page the last after-image of a winner. */
  lemma {:induction false} RedoEffect(d: Disk, log: seq<Rec>, cap: nat)
    requires Fits(log, cap)
    ensures Redone(d, PerformAll(d, RedoWrites(log, cap)), log)
    decreases |log|
  {
    if log != [] {
      var front := log[..|log| - 1];
      FitsPrefix(log, cap, |log| - 1);
      RedoEffect(d, front, cap);
      if log[|log| - 1] == Commit {
        RedoCommit(d, front, cap);
        assert front + [Commit] == log;
      } else {
        assert RedoWrites(log, cap) == RedoWrites(front, cap);
        assert log[..Winners(log)] == front[..Winners(front)];
      }
    }
  }

  lemma RedoCommit(d: Disk, front: seq<Rec>, cap: nat)
    requires Fits(front, cap) && Redone(d, PerformAll(d, RedoWrites(front, cap)), front)
    ensures Redone(d, PerformAll(d, RedoWrites(front + [Commit], cap)), front + [Commit])
  {
    var log, d1, staged := front + [Commit], PerformAll(d, RedoWrites(front, cap)), Pending(front, cap);
    assert log[..|log| - 1] == front && log[..|log|] == log;
    PerformJoin(d, RedoWrites(front, cap), ApplyIos(staged));
    ApplyEffect(d1, staged);
    var e := PerformAll(d1, ApplyIos(staged));
    forall p: nat | p < |d.data|
      ensures e.data[p] == (var r := LastAfter(log, p); if r.Some? then r.value else d.data[p])
    {
      PendingImage(front, cap, p);
      assert LastAfter(log, p) == LastAfter(front, p);
    }
  }

  /** The contents after before-images are written back: on each page its last one. */
  ghost predicate Undone(d: Disk, log: seq<Rec>, e: Disk) {
    && e.log == d.log && e.part == d.part && |e.data| >= |d.data|
    && (forall p: nat | p < |d.data| ::
          e.data[p] == (var r := LastBefore(log, p); if r.Some? then r.value else d.data[p]))
    && ((forall i | 0 <= i < |log| && log[i].Before? :: log[i].pid < |d.data|) ==> |e.data| == |d.data|)
  }

  lemma UndoneStep(d: Disk, front: seq<Rec>, e: Disk, r: Rec)
    requires Undone(d, front, e)
    ensures Undone(d, front + [r], if r.Before? then Perform(e, Write(r.pid, r.image)) else e)
  {
    var log := front + [r];
    assert log[..|front|] == front && log[|front|] == r;
    assert forall i | 0 <= i < |front| :: log[i] == front[i];
  }

  lemma {:induction false} UndoEffect(d: Disk, log: seq<Rec>)
    ensures Undone(d, log, PerformAll(d, UndoWrites(log)))
    decreases |log|
  {
    if log != [] {
      var front, r := log[..|log| - 1], log[|log| - 1];
      UndoEffect(d, front);
      UndoneStep(d, front, PerformAll(d, UndoWrites(front)), r);
      assert log == front + [r];
      if r.Before? {
        PerformJoin(d, UndoWrites(front), [Write(r.pid, r.image)]);
        PerformOne(PerformAll(d, UndoWrites(front)), Write(r.pid, r.image));
      } else {
        assert UndoWrites(log) == UndoWrites(front);
      }
    }
  }

  // ----- exactness -----

  /** A complete recovery of d leaves the contents db. */
  ghost predicate Exact(d: Disk, db: seq<Image>) {
    var log := Readable(d);
    && |db| <= |d.data|
    && (forall p: nat | p < |db| :: Recovered(d, p) == Some(db[p]))
    && (forall i | Winners(log) <= i < |log| && log[i].Begin? :: |db| <= log[i].base)
  }

  lemma {:induction false} BaseAbove(log: seq<Rec>, n: nat)
    requires forall i | 0 <= i < |log| && log[i].Begin? :: n <= log[i].base
    ensures LastBase(log).Some? ==> n <= LastBase(log).value
    decreases |log|
  {
    if log != [] { BaseAbove(log[..|log| - 1], n); }
  }

  /** The data file after both passes, before it is cut back. */
  lemma PassesRestore(d: Disk, db: seq<Image>, cap: nat)
    requires Exact(d, db) && Fits(Readable(d), cap)
    ensures var log := Readable(d); var d1 := PerformAll(d, RedoWrites(log, cap));
            var d2 := PerformAll(d1, UndoWrites(log[Winners(log)..]));
            |db| <= |d2.data| && d2.data[..|db|] == db
  {
    var log := Readable(d);
    RedoEffect(d, log, cap);
    var d1 := PerformAll(d, RedoWrites(log, cap));
    UndoEffect(d1, log[Winners(log)..]);
    var d2 := PerformAll(d1, UndoWrites(log[Winners(log)..]));
    assert forall p: nat | p < |db| :: d2.data[p] == Recovered(d, p).value;
  }

  /** A complete recovery of an exact disk restores every committed page and empties the log. */
  lemma RecoverRestores(d: Disk, db: seq<Image>, cap: nat)
    requires Exact(d, db) && Fits(Readable(d), cap)
    ensures var e := PerformAll(d, RecoverIos(d, cap));
            && e.log == [] && e.part == None && |db| <= |e.data|
            && forall p: nat | p < |db| :: e.data[p] == db[p]
  {
    var log := Readable(d);
    var tail := log[Winners(log)..];
    PassesRestore(d, db, cap);
    var d1 := PerformAll(d, RedoWrites(log, cap));
    var d2 := PerformAll(d1, UndoWrites(tail));
    BaseAbove(tail, |db|);
    var base := LastBase(tail);
    var cut := if base.Some? && base.value < |d.data| then [Resize(base.value)] else [];
    PerformJoin(d1, UndoWrites(tail), cut);
    PerformJoin(d, RedoWrites(log, cap), UndoWrites(tail) + cut);
    PerformJoin(d, RedoWrites(log, cap) + (UndoWrites(tail) + cut), [Cut(0)]);
    ResizeEffect(d2, cut, |db|);
    PerformOne(PerformAll(d2, cut), Cut(0));
    PrefixRead(PerformAll(d, RecoverIos(d, cap)).data, db);
  }

  lemma PrefixRead(data: seq<Image>, db: seq<Image>)
    requires |db| <= |data| && data[..|db|] == db
    ensures forall p: nat | p < |db| :: data[p] == db[p]
  {
    assert forall p: nat | p < |db| :: data[..|db|][p] == data[p];
  }

  lemma ResizeEffect(d: Disk, cut: seq<Io>, n: nat)
    requires n <= |d.data| && (cut == [] || (|cut| == 1 && cut[0].Resize? && n <= cut[0].pages))
    ensures var e := PerformAll(d, cut);
            n <= |e.data| && e.data[..n] == d.data[..n] && e.log == d.log
            && e.part == d.part
  {
    if cut != [] {
      assert cut == [cut[0]];
      PerformOne(d, cut[0]);
    }
  }

  // ----- writes that do not disturb recovery -----

  /** The log holds an image of page p that recovery will write. */
  ghost predicate Logged(d: Disk, p: nat) {
    var log := Readable(d);
    LastBefore(log[Winners(log)..], p).Some? || LastAfter(log[..Winners(log)], p).Some?
  }

  /** A write to the data file that recovery would overwrite, or that leaves the committed pages alone. */
  ghost predicate Harmless(d: Disk, db: seq<Image>, io: Io) {
    (io.Write? && (io.pid < |db| ==> Logged(d, io.pid))) || (io.Resize? && |db| <= io.pages)
  }

  lemma HarmlessStep(d: Disk, db: seq<Image>, io: Io)
    requires Exact(d, db) && Harmless(d, db, io)
    ensures Exact(Perform(d, io), db) && Perform(d, io).log == d.log && Perform(d, io).part == d.part
  {
    var e := Perform(d, io);
    assert Readable(e) == Readable(d);
    forall p: nat | p < |db|
      ensures Recovered(e, p) == Recovered(d, p)
    {
      if e.data[p] != d.data[p] { assert Logged(d, p); }
    }
  }

  lemma {:induction false} HarmlessAll(d: Disk, db: seq<Image>, ios: seq<Io>)
    requires Exact(d, db) && forall i | 0 <= i < |ios| :: Harmless(d, db, ios[i])
    ensures var e := PerformAll(d, ios); Exact(e, db) && e.log == d.log && e.part == d.part
    decreases |ios|
  {
    if ios != [] {
      HarmlessAll(d, db, ios[..|ios| - 1]);
      HarmlessStep(PerformAll(d, ios[..|ios| - 1]), db, ios[|ios| - 1]);
    }
  }

  lemma {:induction false} StagedFound(staged: seq<Staged>, i: nat)
    requires i < |staged|
    ensures StagedImage(staged, staged[i].pid).Some?
    decreases |staged|
  {
    if i < |staged| - 1 { StagedFound(staged[..|staged| - 1], i); }
  }

  lemma StillLogged(log: seq<Rec>, cap: nat, p: nat)
    requires log != [] && Fits(log[..|log| - 1], cap)
    requires var front := log[..|log| - 1]; LastAfter(front[..Winners(front)], p).Some?
    ensures LastAfter(log[..Winners(log)], p).Some?
  {
    var front := log[..|log| - 1];
    if log[|log| - 1] == Commit {
      assert log[..|log|] == log;
      PendingImage(front, cap, p);
    } else {
      assert log[..Winners(log)] == front[..Winners(front)];
    }
  }

  /** Every page pass 1 writes has an after-image in a winner. */
  lemma {:induction false} RedoLogged(log: seq<Rec>, cap: nat, i: nat)
    requires Fits(log, cap) && i < |RedoWrites(log, cap)|
    ensures var io := RedoWrites(log, cap)[i]; io.Write? && LastAfter(log[..Winners(log)], io.pid).Some?
    decreases |log|
  {
    var front := log[..|log| - 1];
    var k := |RedoWrites(front, cap)|;
    FitsPrefix(log, cap, |log| - 1);
    if i < k {
      RedoLogged(front, cap, i);
      StillLogged(log, cap, RedoWrites(front, cap)[i].pid);
    } else {
      assert log[..|log|] == log;
      var s := Pending(front, cap)[i - k];
      StagedFound(Pending(front, cap), i - k);
      PendingImage(front, cap, s.pid);
    }
  }

  lemma {:induction false} UndoLogged(log: seq<Rec>, i: nat)
    requires i < |UndoWrites(log)|
    ensures var io := UndoWrites(log)[i]; io.Write? && LastBefore(log, io.pid).Some?
    decreases |log|
  {
    var front := log[..|log| - 1];
    if i < |UndoWrites(front)| { UndoLogged(front, i); }
  }

  /** All writes of recovery before its last are harmless: killed anywhere, it can start again. */
  lemma RecoverHarmless(d: Disk, db: seq<Image>, cap: nat, k: nat)
    requires Exact(d, db) && Fits(Readable(d), cap) && k < |RecoverIos(d, cap)|
    ensures var e := PerformAll(d, RecoverIos(d, cap)[..k]); Exact(e, db) && e.log == d.log && e.part == d.part
  {
    var log, ios := Readable(d), RecoverIos(d, cap);
    var tail := log[Winners(log)..];
    BaseAbove(tail, |db|);
    forall i | 0 <= i < k
      ensures Harmless(d, db, ios[i])
    {
      var n := |RedoWrites(log, cap)|;
      if i < n {
        RedoLogged(log, cap, i);
      } else if i < n + |UndoWrites(tail)| {
        UndoLogged(tail, i - n);
      }
    }
    HarmlessAll(d, db, ios[..k]);
  }

  /** The disk after recoveries killed after tries[0], tries[1], ... of their writes. */
  function Retried(d: Disk, cap: nat, tries: seq<nat>): Disk
    decreases |tries|
  {
    if tries == [] then d
    else
      var e := Retried(d, cap, tries[..|tries| - 1]);
      var ios := RecoverIos(e, cap);
      var t := tries[|tries| - 1];
      PerformAll(e, if t < |ios| then ios[..t] else ios)
  }

  lemma {:induction false} RetriedExact(d: Disk, db: seq<Image>, cap: nat, tries: seq<nat>)
    requires Exact(d, db) && Fits(Readable(d), cap)
    ensures Exact(Retried(d, cap, tries), db) && Fits(Readable(Retried(d, cap, tries)), cap)
    decreases |tries|
  {
    if tries != [] {
      RetriedExact(d, db, cap, tries[..|tries| - 1]);
      var e := Retried(d, cap, tries[..|tries| - 1]);
      var t := tries[|tries| - 1];
      if t < |RecoverIos(e, cap)| { RecoverHarmless(e, db, cap, t); } else { RecoverRestores(e, db, cap); }
    }
  }

  /** Crash recovery is exact: however often recovery is killed on the way, once it
      completes the committed contents are back and the log is empty. */
  lemma CrashRecoveryExact(d: Disk, db: seq<Image>, cap: nat, tries: seq<nat>)
    requires Exact(d, db) && Fits(Readable(d), cap)
    ensures var r := Retried(d, cap, tries); var e := PerformAll(r, RecoverIos(r, cap));
            && e.log == [] && e.part == None && |db| <= |e.data|
            && forall p: nat | p < |db| :: e.data[p] == db[p]
  {
    RetriedExact(d, db, cap, tries);
    RecoverRestores(Retried(d, cap, tries), db, cap);
  }
}
