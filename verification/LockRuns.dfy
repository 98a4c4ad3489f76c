/** What transactions hold and wait for, in terms of the requests they made (src/lock.c). */
module LockRuns {
  import opened Lock

  // ----- held locks -----

  /** Every stored name fits its field. */
  ghost predicate NamesFit(l: Locks) {
    forall i | 0 <= i < |l.entries| :: |l.entries[i].table| < l.sizes.name
  }

  /** After lock_release_all no slot belongs to the transaction, and every other slot is as it was. */
  lemma ReleaseFreesOwn(l: Locks, txn: int)
    requires txn != 0
    ensures var k := ReleaseAll(l, txn);
            && |k.entries| == |l.entries| && k.waits == l.waits && k.sizes == l.sizes
            && forall i | 0 <= i < |l.entries| ::
                 if l.entries[i].txn == txn then k.entries[i].txn == 0 else k.entries[i] == l.entries[i]
  {
  }

  /** The event is a granted request of u for the object, in this mode or a stronger one. */
  predicate Grants(l: Locks, e: Event, u: int, table: string, key: int, mode: Mode) {
    && e.AcquireLock? && e.txn == u && Stored(e.table, l.sizes.name) == table && e.key == key
    && (mode == Shared || e.mode == Exclusive) && Acquire(l, e.txn, e.table, e.key, e.mode).1
  }

  lemma AcquireHolds(l: Locks, e: Event, u: int, table: string, key: int, mode: Mode)
    requires e.AcquireLock? && u != 0 && NamesFit(l) && l.sizes.name > 0
    ensures var k := Acquire(l, e.txn, e.table, e.key, e.mode).0;
            && NamesFit(k) && k.sizes == l.sizes
            && (Holds(k.entries, u, table, key, mode) <==>
                Holds(l.entries, u, table, key, mode) || Grants(l, e, u, table, key, mode))
  {
    var es := l.entries;
    var mine := OwnSlot(es, e.txn, e.table, e.key);
    if mine != -1 {
      AcquireOwn(l, e, u, table, key, mode, mine);
    } else {
      AcquireNew(l, e, u, table, key, mode);
    }
  }

  /** A request for an object already held stays as it is or is upgraded in place. */
  lemma AcquireOwn(l: Locks, e: Event, u: int, table: string, key: int, mode: Mode, mine: int)
    requires e.AcquireLock? && u != 0 && NamesFit(l) && l.sizes.name > 0
    requires mine == OwnSlot(l.entries, e.txn, e.table, e.key) != -1
    ensures var k := Acquire(l, e.txn, e.table, e.key, e.mode).0;
            && NamesFit(k) && k.sizes == l.sizes
            && (Holds(k.entries, u, table, key, mode) <==>
                Holds(l.entries, u, table, key, mode) || Grants(l, e, u, table, key, mode))
  {
    var es := l.entries;
    var (k, granted) := Acquire(l, e.txn, e.table, e.key, e.mode);
    assert Stored(e.table, l.sizes.name) == e.table;
    assert forall i :: Owns(es, i, u, table, key) <==> Owns(k.entries, i, u, table, key);
    if Grants(l, e, u, table, key, mode) { assert Owns(k.entries, mine, u, table, key); }
    if Holds(l.entries, u, table, key, mode) {
      var i :| Owns(es, i, u, table, key) && (mode == Shared || es[i].mode == Exclusive);
      assert Owns(k.entries, i, u, table, key);
    }
    if Holds(k.entries, u, table, key, mode) {
      var i :| Owns(k.entries, i, u, table, key) && (mode == Shared || k.entries[i].mode == Exclusive);
      assert Owns(es, i, u, table, key);
    }
  }

  lemma AcquireNew(l: Locks, e: Event, u: int, table: string, key: int, mode: Mode)
    requires e.AcquireLock? && u != 0 && NamesFit(l) && l.sizes.name > 0
    requires OwnSlot(l.entries, e.txn, e.table, e.key) == -1
    ensures var k := Acquire(l, e.txn, e.table, e.key, e.mode).0;
            && NamesFit(k) && k.sizes == l.sizes
            && (Holds(k.entries, u, table, key, mode) <==>
                Holds(l.entries, u, table, key, mode) || Grants(l, e, u, table, key, mode))
  {
    var es, slot := l.entries, FreeSlot(l.entries, 0);
    var (k, granted) := Acquire(l, e.txn, e.table, e.key, e.mode);
    if granted {
      assert k.entries[slot] == Claim(e.txn, Stored(e.table, l.sizes.name), e.key, e.mode);
      assert forall i | 0 <= i < |es| && i != slot :: k.entries[i] == es[i];
      assert Grants(l, e, u, table, key, mode) ==> Owns(k.entries, slot, u, table, key);
      if Holds(es, u, table, key, mode) {
        var i :| Owns(es, i, u, table, key) && (mode == Shared || es[i].mode == Exclusive);
        assert Owns(k.entries, i, u, table, key);
      }
      if Holds(k.entries, u, table, key, mode) {
        var i :| Owns(k.entries, i, u, table, key) && (mode == Shared || k.entries[i].mode == Exclusive);
        assert i != slot ==> Owns(es, i, u, table, key);
      }
    }
  }

  lemma ReleaseHolds(l: Locks, txn: int, u: int, table: string, key: int, mode: Mode)
    requires u != 0 && NamesFit(l)
    ensures NamesFit(ReleaseAll(l, txn))
    ensures Holds(ReleaseAll(l, txn).entries, u, table, key, mode) <==>
            u != txn && Holds(l.entries, u, table, key, mode)
  {
    var es, fs := l.entries, ReleaseAll(l, txn).entries;
    if u != txn && Holds(es, u, table, key, mode) {
      var i :| Owns(es, i, u, table, key) && (mode == Shared || es[i].mode == Exclusive);
      assert Owns(fs, i, u, table, key);
    }
    if Holds(fs, u, table, key, mode) {
      var i :| Owns(fs, i, u, table, key) && (mode == Shared || fs[i].mode == Exclusive);
      assert Owns(es, i, u, table, key);
    }
  }

  /** An event gives u a lock only by granting it, and takes one only by releasing all of u's. */
  lemma StepHolds(l: Locks, e: Event, u: int, table: string, key: int, mode: Mode)
    requires u != 0 && NamesFit(l) && l.sizes.name > 0
    ensures NamesFit(Step(l, e)) && Step(l, e).sizes == l.sizes
    ensures Holds(Step(l, e).entries, u, table, key, mode) <==>
            e != ReleaseLocks(u) && (Holds(l.entries, u, table, key, mode) || Grants(l, e, u, table, key, mode))
  {
    match e
    case AcquireLock(_, _, _, _) => AcquireHolds(l, e, u, table, key, mode);
    case ReleaseLocks(txn) => ReleaseHolds(l, txn, u, table, key, mode);
    case _ =>
  }

  /** Event i of the run granted u the object, and u has not released its locks since. */
  ghost predicate GrantedAt(sizes: Sizes, xs: seq<Event>, i: nat, u: int, table: string, key: int, mode: Mode) {
    && i < |xs| && Grants(Run(Empty(sizes), xs[..i]), xs[i], u, table, key, mode)
    && forall j | i < j < |xs| :: xs[j] != ReleaseLocks(u)
  }

  ghost predicate GrantedSince(sizes: Sizes, xs: seq<Event>, u: int, table: string, key: int, mode: Mode) {
    exists i: nat :: GrantedAt(sizes, xs, i, u, table, key, mode)
  }

  lemma GrantedEarlier(sizes: Sizes, xs: seq<Event>, i: nat, u: int, table: string, key: int, mode: Mode)
    requires i < |xs| - 1
    ensures var n := |xs| - 1;
            GrantedAt(sizes, xs, i, u, table, key, mode) <==>
            xs[n] != ReleaseLocks(u) && GrantedAt(sizes, xs[..n], i, u, table, key, mode)
  {
    var n := |xs| - 1;
    assert xs[..n][..i] == xs[..i] && xs[..n][i] == xs[i];
    assert forall j | i < j < n :: xs[..n][j] == xs[j];
  }

  lemma GrantedSnoc(sizes: Sizes, xs: seq<Event>, u: int, table: string, key: int, mode: Mode)
    requires xs != []
    ensures var n := |xs| - 1;
            GrantedSince(sizes, xs, u, table, key, mode) <==>
            xs[n] != ReleaseLocks(u)
            && (GrantedSince(sizes, xs[..n], u, table, key, mode)
                || Grants(Run(Empty(sizes), xs[..n]), xs[n], u, table, key, mode))
  {
    var n := |xs| - 1;
    if GrantedSince(sizes, xs, u, table, key, mode) {
      var i: nat :| GrantedAt(sizes, xs, i, u, table, key, mode);
      if i < n { GrantedEarlier(sizes, xs, i, u, table, key, mode); }
    }
    if xs[n] != ReleaseLocks(u) && GrantedSince(sizes, xs[..n], u, table, key, mode) {
      var i: nat :| GrantedAt(sizes, xs[..n], i, u, table, key, mode);
      GrantedEarlier(sizes, xs, i, u, table, key, mode);
    }
    assert Grants(Run(Empty(sizes), xs[..n]), xs[n], u, table, key, mode) ==>
        GrantedAt(sizes, xs, n, u, table, key, mode);
  }

  /** Over every run, u holds an object in a mode if and only if a request of u for it, in that mode or a
      stronger one, was granted since u last released its locks. */
  lemma {:induction false} HoldsWhatWasGranted(
    sizes: Sizes, xs: seq<Event>, u: int, table: string, key: int, mode: Mode)
    requires u != 0 && sizes.name > 0
    ensures NamesFit(Run(Empty(sizes), xs)) && Run(Empty(sizes), xs).sizes == sizes
    ensures Holds(Run(Empty(sizes), xs).entries, u, table, key, mode) <==>
            GrantedSince(sizes, xs, u, table, key, mode)
    decreases |xs|
  {
    if xs != [] {
      var n := |xs| - 1;
      HoldsWhatWasGranted(sizes, xs[..n], u, table, key, mode);
      StepHolds(Run(Empty(sizes), xs[..n]), xs[n], u, table, key, mode);
      GrantedSnoc(sizes, xs, u, table, key, mode);
    }
  }

  // ----- recorded waits -----

  /** The wait recorded for u. */
  ghost predicate Waits(l: Locks, u: int, w: Claim) {
    w.txn == u && w in l.waits
  }

  /** The event records this wait of u. */
  predicate Records(l: Locks, e: Event, u: int, w: Claim) {
    && e.AddWait? && e.txn == u && w == Claim(u, Stored(e.table, l.sizes.name), e.key, e.mode)
    && (WaitSlot(l.waits, u, 0) < |l.waits| || |l.waits| < l.sizes.waits)
  }

  predicate WaitGone(l: Locks, e: Event, u: int) {
    (e.AddWait? || e.ClearWait?) && e.txn == u && (e.AddWait? ==> WaitSlot(l.waits, u, 0) < |l.waits|)
  }

  lemma AddWaitExact(l: Locks, e: Event, u: int, w: Claim)
    requires WaitsOk(l) && e.AddWait? && e.txn != 0
    ensures Waits(Step(l, e), u, w) <==> Records(l, e, u, w) || (!WaitGone(l, e, u) && Waits(l, u, w))
  {
    var ws, i := l.waits, WaitSlot(l.waits, e.txn, 0);
    var x := Claim(e.txn, Stored(e.table, l.sizes.name), e.key, e.mode);
    if i < |ws| {
      assert Step(l, e).waits == ws[i := x];
      assert ws[i := x][i] == x;
      forall j | 0 <= j < |ws| && j != i
        ensures ws[i := x][j] == ws[j] && ws[j].txn != e.txn
      {
      }
      if Waits(l, u, w) && u != e.txn {
        var j :| 0 <= j < |ws| && ws[j] == w;
        assert ws[i := x][j] == w;
      }
    } else if |ws| < l.sizes.waits {
      assert (ws + [x])[|ws|] == x;
    }
  }

  lemma ClearWaitExact(l: Locks, e: Event, u: int, w: Claim)
    requires WaitsOk(l) && e.ClearWait?
    ensures Waits(Step(l, e), u, w) <==> u != e.txn && Waits(l, u, w)
  {
    var ws, i := l.waits, WaitSlot(l.waits, e.txn, 0);
    if i < |ws| {
      var n := |ws| - 1;
      var vs := ws[i := ws[n]][..n];
      assert forall j | 0 <= j < n :: vs[j] == if j == i then ws[n] else ws[j];
      if u != e.txn && Waits(l, u, w) {
        var j :| 0 <= j < |ws| && ws[j] == w;
        assert w == vs[if j == n then i else j];
      }
    }
  }

  /** An event records a wait of u, replaces it or clears it, and touches nobody else's. */
  lemma StepWaitsExact(l: Locks, e: Event, u: int, w: Claim)
    requires WaitsOk(l) && e.txn != 0
    ensures Waits(Step(l, e), u, w) <==> Records(l, e, u, w) || (!WaitGone(l, e, u) && Waits(l, u, w))
  {
    match e
    case AddWait(_, _, _, _) => AddWaitExact(l, e, u, w);
    case ClearWait(_) => ClearWaitExact(l, e, u, w);
    case _ =>
  }

  ghost predicate GoneAt(sizes: Sizes, xs: seq<Event>, j: nat, u: int) {
    j < |xs| && WaitGone(Run(Empty(sizes), xs[..j]), xs[j], u)
  }

  ghost predicate RecordedAt(sizes: Sizes, xs: seq<Event>, i: nat, u: int, w: Claim) {
    && i < |xs| && Records(Run(Empty(sizes), xs[..i]), xs[i], u, w)
    && forall j: nat | i < j < |xs| :: !GoneAt(sizes, xs, j, u)
  }

  ghost predicate RecordedSince(sizes: Sizes, xs: seq<Event>, u: int, w: Claim) {
    exists i: nat :: RecordedAt(sizes, xs, i, u, w)
  }

  lemma GonePrefix(sizes: Sizes, xs: seq<Event>, n: nat, j: nat, u: int)
    requires j < n <= |xs|
    ensures GoneAt(sizes, xs[..n], j, u) <==> GoneAt(sizes, xs, j, u)
  {
    assert xs[..n][..j] == xs[..j];
  }

  lemma RecordedEarlier(sizes: Sizes, xs: seq<Event>, i: nat, u: int, w: Claim)
    requires i < |xs| - 1
    ensures var n := |xs| - 1;
            RecordedAt(sizes, xs, i, u, w) <==> !GoneAt(sizes, xs, n, u) && RecordedAt(sizes, xs[..n], i, u, w)
  {
    var n := |xs| - 1;
    assert xs[..n][..i] == xs[..i] && xs[..n][i] == xs[i];
    forall j: nat | i < j < n
      ensures GoneAt(sizes, xs[..n], j, u) <==> GoneAt(sizes, xs, j, u)
    {
      GonePrefix(sizes, xs, n, j, u);
    }
  }

  lemma RecordedSnoc(sizes: Sizes, xs: seq<Event>, u: int, w: Claim)
    requires xs != []
    ensures var n := |xs| - 1; var l := Run(Empty(sizes), xs[..n]);
            RecordedSince(sizes, xs, u, w) <==>
            Records(l, xs[n], u, w) || (!WaitGone(l, xs[n], u) && RecordedSince(sizes, xs[..n], u, w))
  {
    var n := |xs| - 1;
    assert GoneAt(sizes, xs, n, u) <==> WaitGone(Run(Empty(sizes), xs[..n]), xs[n], u);
    if RecordedSince(sizes, xs, u, w) {
      var i: nat :| RecordedAt(sizes, xs, i, u, w);
      if i < n { RecordedEarlier(sizes, xs, i, u, w); }
    }
    assert Records(Run(Empty(sizes), xs[..n]), xs[n], u, w) ==> RecordedAt(sizes, xs, n, u, w);
    if !GoneAt(sizes, xs, n, u) && RecordedSince(sizes, xs[..n], u, w) {
      var i: nat :| RecordedAt(sizes, xs[..n], i, u, w);
      RecordedEarlier(sizes, xs, i, u, w);
    }
  }

  /** Over every run, u waits for a lock if and only if that is the wait of u last recorded, and it was neither
      replaced nor cleared since. */
  lemma {:induction false} WaitsForWhatWasRecorded(sizes: Sizes, xs: seq<Event>, u: int, w: Claim)
    requires forall i | 0 <= i < |xs| :: xs[i].txn != 0
    ensures Waits(Run(Empty(sizes), xs), u, w) <==> RecordedSince(sizes, xs, u, w)
    decreases |xs|
  {
    if xs != [] {
      var n := |xs| - 1;
      WaitsForWhatWasRecorded(sizes, xs[..n], u, w);
      RunWaits(sizes, xs[..n]);
      StepWaitsExact(Run(Empty(sizes), xs[..n]), xs[n], u, w);
      RecordedSnoc(sizes, xs, u, w);
    }
  }
}
