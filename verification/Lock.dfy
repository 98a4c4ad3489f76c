/** The lock manager of src/lock.c: shared/exclusive locks per (table, key), recorded
    waits, and deadlock detection on the wait-for graph.

    The sizes LOCK_MAX, LOCK_MAX_WAITS and LOCK_NAME_LEN are the symbolic `Sizes`. */
module Lock {
  datatype Mode = Shared | Exclusive

  /** A held lock (txn 0 marks a free slot) or a recorded wait. */
  datatype Claim = Claim(txn: int, table: string, key: int, mode: Mode)

  datatype Sizes = Sizes(locks: nat, waits: nat, name: nat)

  datatype Locks = Locks(entries: seq<Claim>, waits: seq<Claim>, sizes: Sizes)

  function Empty(sizes: Sizes): Locks {
    Locks([], [], sizes)
  }

  /** snprintf into a buffer of `size` bytes: at most size - 1 characters survive. */
  function Stored(name: string, size: nat): string {
    if |name| < size then name else if size == 0 then "" else name[..size - 1]
  }

  predicate On(e: Claim, table: string, key: int) {
    e.key == key && e.table == table
  }

  /** Another transaction holds this object in a mode that satisfies the flag. */
  predicate OtherHolds(es: seq<Claim>, txn: int, table: string, key: int, onlyExclusive: bool) {
    exists i :: 0 <= i < |es| && es[i].txn != 0 && On(es[i], table, key) && es[i].txn != txn
                && (onlyExclusive ==> es[i].mode == Exclusive)
  }

  predicate Owns(es: seq<Claim>, i: int, txn: int, table: string, key: int) {
    0 <= i < |es| && es[i].txn != 0 && es[i].txn == txn && On(es[i], table, key)
  }

  /** The last slot this transaction holds on the object, or -1. */
  function OwnSlot(es: seq<Claim>, txn: int, table: string, key: int): (i: int)
    ensures i == -1 || Owns(es, i, txn, table, key)
    ensures i == -1 ==> forall j :: !Owns(es, j, txn, table, key)
    decreases |es|
  {
    if es == [] then -1
    else
      var n := |es| - 1;
      if Owns(es, n, txn, table, key) then n
      else
        var i := OwnSlot(es[..n], txn, table, key);
        assert forall j | Owns(es, j, txn, table, key) :: Owns(es[..n], j, txn, table, key);
        i
  }

  function FreeSlot(es: seq<Claim>, from: nat): (i: nat)
    requires from <= |es|
    ensures from <= i <= |es| && (i < |es| ==> es[i].txn == 0)
    decreases |es| - from
  {
    if from == |es| || es[from].txn == 0 then from else FreeSlot(es, from + 1)
  }

  /** lock_acquire: the new table, and whether the lock was granted. */
  function Acquire(l: Locks, txn: int, table: string, key: int, mode: Mode): (Locks, bool) {
    var es := l.entries;
    var mine := OwnSlot(es, txn, table, key);
    if mine != -1 then
      if mode == Shared || es[mine].mode == Exclusive then (l, true)
      else if OtherHolds(es, txn, table, key, false) then (l, false)
      else (l.(entries := es[mine := es[mine].(mode := Exclusive)]), true)
    else if OtherHolds(es, txn, table, key, mode == Shared) then (l, false)
    else
      var slot := FreeSlot(es, 0);
      var e := Claim(txn, Stored(table, l.sizes.name), key, mode);
      if slot < |es| then (l.(entries := es[slot := e]), true)
      else if |es| >= l.sizes.locks then (l, false)
      else (l.(entries := es + [e]), true)
  }

  function ReleaseAll(l: Locks, txn: int): Locks {
    l.(entries := seq(|l.entries|, i requires 0 <= i < |l.entries| =>
                        if l.entries[i].txn == txn then l.entries[i].(txn := 0) else l.entries[i]))
  }

  function WaitSlot(ws: seq<Claim>, txn: int, from: nat): (i: nat)
    requires from <= |ws|
    ensures from <= i <= |ws| && (i < |ws| ==> ws[i].txn == txn) && forall j | from <= j < i :: ws[j].txn != txn
    decreases |ws| - from
  {
    if from == |ws| || ws[from].txn == txn then from else WaitSlot(ws, txn, from + 1)
  }

  function WaitAdd(l: Locks, txn: int, table: string, key: int, mode: Mode): Locks {
    var w := Claim(txn, Stored(table, l.sizes.name), key, mode);
    var i := WaitSlot(l.waits, txn, 0);
    if i < |l.waits| then l.(waits := l.waits[i := w])
    else if |l.waits| >= l.sizes.waits then l
    else l.(waits := l.waits + [w])
  }

  /** The freed wait slot is filled with the last one. */
  function WaitClear(l: Locks, txn: int): Locks {
    var i := WaitSlot(l.waits, txn, 0);
    if i < |l.waits| then l.(waits := l.waits[i := l.waits[|l.waits| - 1]][..|l.waits| - 1]) else l
  }

  // ----- mutual exclusion -----

  datatype Event =
    | AcquireLock(txn: int, table: string, key: int, mode: Mode)
    | ReleaseLocks(txn: int)
    | AddWait(txn: int, table: string, key: int, mode: Mode)
    | ClearWait(txn: int)

  function Step(l: Locks, e: Event): Locks {
    match e
    case AcquireLock(txn, table, key, mode) => Acquire(l, txn, table, key, mode).0
    case ReleaseLocks(txn) => ReleaseAll(l, txn)
    case AddWait(txn, table, key, mode) => WaitAdd(l, txn, table, key, mode)
    case ClearWait(txn) => WaitClear(l, txn)
  }

  function Run(l: Locks, xs: seq<Event>): Locks
    decreases |xs|
  {
    if xs == [] then l else Step(Run(l, xs[..|xs| - 1]), xs[|xs| - 1])
  }

  /** A slot in use on this object. */
  predicate HeldOn(e: Claim, table: string, key: int) {
    e.txn != 0 && On(e, table, key)
  }

  /** Two slots in use on this object belong to different transactions, both sharing. */
  ghost predicate ExclusiveOn(es: seq<Claim>, table: string, key: int) {
    forall i, j | 0 <= i < j < |es| && HeldOn(es[i], table, key) && HeldOn(es[j], table, key) ::
      es[i].txn != es[j].txn && es[i].mode == Shared && es[j].mode == Shared
  }

  /** Another transaction holds the object in a mode that does not go with this one. */
  ghost predicate Conflict(es: seq<Claim>, txn: int, table: string, key: int, mode: Mode) {
    exists i :: 0 <= i < |es| && es[i].txn != 0 && es[i].txn != txn && On(es[i], table, key)
                && (mode == Exclusive || es[i].mode == Exclusive)
  }

  /** This transaction holds the object, in this mode or a stronger one. */
  ghost predicate Holds(es: seq<Claim>, txn: int, table: string, key: int, mode: Mode) {
    exists i :: Owns(es, i, txn, table, key) && (mode == Shared || es[i].mode == Exclusive)
  }

  predicate Room(l: Locks, txn: int, table: string, key: int) {
    OwnSlot(l.entries, txn, table, key) != -1 || FreeSlot(l.entries, 0) < |l.entries| || |l.entries| < l.sizes.locks
  }

  /** A request of a name that fits is granted exactly when no other holder conflicts and there is room;
      then the lock is held and the object still excludes.  A refusal changes nothing. */
  lemma AcquireExcludes(l: Locks, txn: int, table: string, key: int, mode: Mode)
    requires ExclusiveOn(l.entries, table, key) && txn != 0 && |table| < l.sizes.name
    ensures var (k, granted) := Acquire(l, txn, table, key, mode);
            && (granted <==> !Conflict(l.entries, txn, table, key, mode) && Room(l, txn, table, key))
            && (if granted then Holds(k.entries, txn, table, key, mode) else k == l)
            && ExclusiveOn(k.entries, table, key)
  {
    var es := l.entries;
    var (k, granted) := Acquire(l, txn, table, key, mode);
    var mine, slot := OwnSlot(es, txn, table, key), FreeSlot(es, 0);
    if mine != -1 {
      assert granted ==> Owns(k.entries, mine, txn, table, key);
    } else {
      assert forall i | 0 <= i < |es| && es[i].txn == txn :: !Owns(es, i, txn, table, key);
      assert granted ==> Owns(k.entries, slot, txn, table, key);
    }
  }

  /** A request that is stored under another name, or for another key, leaves the object alone. */
  lemma AcquireElsewhere(l: Locks, e: Event, table: string, key: int)
    requires ExclusiveOn(l.entries, table, key) && e.AcquireLock? && e.txn != 0
    requires Stored(e.table, l.sizes.name) != table || e.key != key
    ensures ExclusiveOn(Acquire(l, e.txn, e.table, e.key, e.mode).0.entries, table, key)
  {
  }

  /** The event does not store a name that was cut off to this one. */
  predicate Fits(e: Event, sizes: Sizes, table: string, key: int) {
    e.AcquireLock? && Stored(e.table, sizes.name) == table && e.key == key ==> |e.table| < sizes.name
  }

  /** In every run, whatever names other requests use, no two transactions hold conflicting locks on an
      object to whose name no longer name was cut off. */
  lemma {:induction false} LocksExclude(sizes: Sizes, xs: seq<Event>, table: string, key: int)
    requires forall i | 0 <= i < |xs| :: xs[i].txn != 0 && Fits(xs[i], sizes, table, key)
    ensures ExclusiveOn(Run(Empty(sizes), xs).entries, table, key) && Run(Empty(sizes), xs).sizes == sizes
    decreases |xs|
  {
    if xs != [] {
      var l, e := Run(Empty(sizes), xs[..|xs| - 1]), xs[|xs| - 1];
      LocksExclude(sizes, xs[..|xs| - 1], table, key);
      if e.AcquireLock? {
        if Stored(e.table, sizes.name) == table && e.key == key {
          AcquireExcludes(l, e.txn, table, key, e.mode);
        } else {
          AcquireElsewhere(l, e, table, key);
        }
      }
    }
  }

  // ----- recorded waits -----

  ghost predicate WaitsDistinct(ws: seq<Claim>) {
    forall i, j | 0 <= i < j < |ws| :: ws[i].txn != ws[j].txn
  }

  /** One wait per transaction, within the table. */
  ghost predicate WaitsOk(l: Locks) {
    && WaitsDistinct(l.waits) && |l.waits| <= l.sizes.waits && forall i | 0 <= i < |l.waits| :: l.waits[i].txn != 0
  }

  lemma {:induction false} RunWaits(sizes: Sizes, xs: seq<Event>)
    requires forall i | 0 <= i < |xs| :: xs[i].txn != 0
    ensures WaitsOk(Run(Empty(sizes), xs)) && Run(Empty(sizes), xs).sizes == sizes
    decreases |xs|
  {
    if xs != [] {
      RunWaits(sizes, xs[..|xs| - 1]);
      StepWaits(Run(Empty(sizes), xs[..|xs| - 1]), xs[|xs| - 1]);
    }
  }

  lemma StepWaits(l: Locks, e: Event)
    requires WaitsOk(l) && e.txn != 0
    ensures WaitsOk(Step(l, e)) && Step(l, e).sizes == l.sizes
  {
  }

  /** The length condition is exact: a second exclusive request of another transaction on the
      same object is refused if and only if the table's name fits the name buffer. */
  lemma NameMustFit(sizes: Sizes, a: int, b: int, table: string, key: int)
    requires a != 0 && b != 0 && a != b && sizes.locks >= 2 && sizes.name > 0
    ensures var (l, first) := Acquire(Empty(sizes), a, table, key, Exclusive);
            var (k, second) := Acquire(l, b, table, key, Exclusive);
            && first && (!second <==> |table| < sizes.name)
            && (second ==> !ExclusiveOn(k.entries, Stored(table, sizes.name), key))
  {
    var (l, first) := Acquire(Empty(sizes), a, table, key, Exclusive);
    assert l.entries == [Claim(a, Stored(table, sizes.name), key, Exclusive)];
    if |table| < sizes.name {
      assert l.entries[0].txn != 0 && On(l.entries[0], table, key) && l.entries[0].txn != b;
      assert OwnSlot(l.entries, b, table, key) == -1;
    } else {
      assert |l.entries[0].table| < |table|;
      assert !On(l.entries[0], table, key);
      assert OwnSlot(l.entries, b, table, key) == -1 && FreeSlot(l.entries, 0) == 1;
      var (k, second) := Acquire(l, b, table, key, Exclusive);
      assert k.entries == l.entries + [Claim(b, Stored(table, sizes.name), key, Exclusive)];
      assert k.entries[0].txn != 0 && k.entries[1].txn != 0;
    }
  }

  /** The requests of the run are for tables of these names. */
  ghost predicate UsesOnly(xs: seq<Event>, names: iset<string>) {
    forall i | 0 <= i < |xs| :: xs[i].txn != 0 && (xs[i].AcquireLock? ==> xs[i].table in names)
  }

  ghost predicate AlwaysExclusive(sizes: Sizes, names: iset<string>, table: string, key: int) {
    forall xs | UsesOnly(xs, names) :: ExclusiveOn(Run(Empty(sizes), xs).entries, table, key)
  }

  lemma {:induction false} RunSize(sizes: Sizes, xs: seq<Event>)
    ensures |Run(Empty(sizes), xs).entries| <= sizes.locks && Run(Empty(sizes), xs).sizes == sizes
    decreases |xs|
  {
    if xs != [] { RunSize(sizes, xs[..|xs| - 1]); }
  }

  /** Two transactions both hold an object to whose name this one is cut off. */
  lemma CutOffBreaks(sizes: Sizes, name: string, key: int) returns (xs: seq<Event>)
    requires sizes.locks >= 2 && 0 < sizes.name <= |name|
    ensures UsesOnly(xs, iset{name}) && !ExclusiveOn(Run(Empty(sizes), xs).entries, Stored(name, sizes.name), key)
  {
    xs := [AcquireLock(1, name, key, Exclusive), AcquireLock(2, name, key, Exclusive)];
    NameMustFit(sizes, 1, 2, name, key);
    RunTwo(Empty(sizes), xs[0], xs[1]);
  }

  lemma RunTwo(l: Locks, a: Event, b: Event)
    ensures Run(l, [a, b]) == Step(Step(l, a), b)
  {
    assert [a, b][..1] == [a] && [a][..0] == [];
    assert Run(l, [a]) == Step(l, a);
  }

  /** One object is safe in every run over these names exactly when none of them is cut off to its name,
      or the table has no room for two locks. */
  lemma ObjectExcludes(sizes: Sizes, names: iset<string>, table: string, key: int)
    requires sizes.name > 0
    ensures AlwaysExclusive(sizes, names, table, key) <==>
            sizes.locks < 2 || forall n | n in names && Stored(n, sizes.name) == table :: |n| < sizes.name
  {
    if sizes.locks < 2 {
      forall xs | UsesOnly(xs, names)
        ensures ExclusiveOn(Run(Empty(sizes), xs).entries, table, key)
      {
        RunSize(sizes, xs);
      }
    } else if n: string :| n in names && Stored(n, sizes.name) == table && |n| >= sizes.name {
      var xs := CutOffBreaks(sizes, n, key);
      assert UsesOnly(xs, names);
    } else {
      forall xs | UsesOnly(xs, names)
        ensures ExclusiveOn(Run(Empty(sizes), xs).entries, table, key)
      {
        LocksExclude(sizes, xs, table, key);
      }
    }
  }

  /** Locks exclude on every object, in every run over these names, exactly when every name fits its field,
      or the table has no room for two locks. */
  lemma NamesMustFit(sizes: Sizes, names: iset<string>)
    requires sizes.name > 0
    ensures (forall table, key :: AlwaysExclusive(sizes, names, table, key)) <==>
            sizes.locks < 2 || forall n | n in names :: |n| < sizes.name
  {
    forall table, key
      ensures AlwaysExclusive(sizes, names, table, key) <==>
              sizes.locks < 2 || forall n | n in names && Stored(n, sizes.name) == table :: |n| < sizes.name
    {
      ObjectExcludes(sizes, names, table, key);
    }
    if n: string :| n in names && |n| >= sizes.name {
      assert AlwaysExclusive(sizes, names, Stored(n, sizes.name), 0) <==> sizes.locks < 2;
    }
  }

  // ----- the wait-for graph -----

  predicate Blocks(w: Claim, e: Claim) {
    e.txn != 0 && e.txn != w.txn && e.key == w.key && e.table == w.table && (w.mode == Exclusive || e.mode == Exclusive)
  }

  /** The distinct holders among the first k slots that w waits for, in slot order. */
  function Targets(es: seq<Claim>, w: Claim, k: nat): (ts: seq<int>)
    requires k <= |es|
    ensures |ts| <= k && forall t | t in ts :: t != 0
    decreases k
  {
    if k == 0 then []
    else
      var ts := Targets(es, w, k - 1);
      if Blocks(w, es[k - 1]) && es[k - 1].txn !in ts then ts + [es[k - 1].txn] else ts
  }

  /** wait_targets: whom txn waits for. */
  function WaitsFor(l: Locks, txn: int): (ts: seq<int>)
    ensures |ts| <= |l.entries| && forall t | t in ts :: t != 0
  {
    var i := WaitSlot(l.waits, txn, 0);
    if i < |l.waits| then Targets(l.entries, l.waits[i], |l.entries|) else []
  }

  /** The edge of the wait-for graph as the compatibility matrix defines it. */
  ghost predicate Edge(l: Locks, a: int, b: int) {
    exists i, j :: 0 <= i < |l.waits| && 0 <= j < |l.entries|
                   && l.waits[i].txn == a && l.entries[j].txn == b && Blocks(l.waits[i], l.entries[j])
  }

  lemma {:induction false} TargetsExact(es: seq<Claim>, w: Claim, k: nat, t: int)
    requires k <= |es|
    ensures t in Targets(es, w, k) <==> exists j :: 0 <= j < k && es[j].txn == t && Blocks(w, es[j])
    decreases k
  {
    if k > 0 { TargetsExact(es, w, k - 1, t); }
  }

  lemma WaitsForExact(l: Locks, a: int, b: int)
    requires WaitsOk(l)
    ensures b in WaitsFor(l, a) <==> Edge(l, a, b)
  {
    var i := WaitSlot(l.waits, a, 0);
    if i < |l.waits| {
      TargetsExact(l.entries, l.waits[i], |l.entries|, b);
    }
    if Edge(l, a, b) {
      var k, j :| 0 <= k < |l.waits| && 0 <= j < |l.entries|
                  && l.waits[k].txn == a && l.entries[j].txn == b && Blocks(l.waits[k], l.entries[j]);
      assert k == i;
    }
  }

  /** A walk along edges. */
  ghost predicate Walk(l: Locks, w: seq<int>) {
    0 < |w| && forall i | 0 <= i < |w| - 1 :: Edge(l, w[i], w[i + 1])
  }

  /** A closed walk through v: v waits, directly or not, for itself. */
  ghost predicate Deadlocked(l: Locks, v: int) {
    exists w: seq<int> :: |w| > 1 && Walk(l, w) && w[0] == v && w[|w| - 1] == v
  }

  // ----- depth-first search -----

  /** dfs_cycle: a transaction seen again on the path, or 0. */
  function Search(l: Locks, txn: int, path: seq<int>): int
    decreases l.sizes.waits - |path|, 1, 0
  {
    if txn in path then txn
    else if |path| >= l.sizes.waits then 0
    else SearchAny(l, WaitsFor(l, txn), path + [txn])
  }

  /** The first nonzero answer among the targets. */
  function SearchAny(l: Locks, ts: seq<int>, path: seq<int>): int
    decreases l.sizes.waits - |path|, 2, |ts|
  {
    if ts == [] then 0
    else
      var v := Search(l, ts[0], path);
      if v != 0 then v else SearchAny(l, ts[1..], path)
  }

  /** lock_deadlock_victim: search from every recorded wait in turn. */
  function VictimFrom(l: Locks, i: nat): int
    requires i <= |l.waits|
    decreases |l.waits| - i
  {
    if i == |l.waits| then 0
    else
      var v := Search(l, l.waits[i].txn, []);
      if v != 0 then v else VictimFrom(l, i + 1)
  }

  function Victim(l: Locks): int {
    VictimFrom(l, 0)
  }

  // ----- the search is sound -----

  lemma WalkSnoc(l: Locks, path: seq<int>, t: int)
    requires path == [] || (Walk(l, path) && Edge(l, path[|path| - 1], t))
    ensures Walk(l, path + [t])
  {
    var w := path + [t];
    forall i | 0 <= i < |w| - 1
      ensures Edge(l, w[i], w[i + 1])
    {
      if i < |path| - 1 { assert Edge(l, path[i], path[i + 1]); }
    }
  }

  lemma WalkFrom(l: Locks, w: seq<int>, i: nat)
    requires Walk(l, w) && i < |w|
    ensures Walk(l, w[i..])
  {
    forall k | 0 <= k < |w[i..]| - 1
      ensures Edge(l, w[i..][k], w[i..][k + 1])
    {
      assert Edge(l, w[i + k], w[i + k + 1]);
    }
  }

  lemma {:induction false} SearchSound(l: Locks, txn: int, path: seq<int>)
    requires WaitsOk(l) && txn != 0 && (path == [] || (Walk(l, path) && Edge(l, path[|path| - 1], txn)))
    requires Search(l, txn, path) != 0
    ensures Deadlocked(l, Search(l, txn, path))
    decreases l.sizes.waits - |path|, 1, 0
  {
    WalkSnoc(l, path, txn);
    if txn in path {
      var i :| 0 <= i < |path| && path[i] == txn;
      WalkFrom(l, path + [txn], i);
      var w := (path + [txn])[i..];
      assert w[0] == txn && w[|w| - 1] == txn;
    } else {
      assert (path + [txn])[|path|] == txn;
      forall t | t in WaitsFor(l, txn)
        ensures Edge(l, txn, t) && t != 0
      {
        WaitsForExact(l, txn, t);
      }
      SearchAnySound(l, WaitsFor(l, txn), path + [txn]);
    }
  }

  lemma {:induction false} SearchAnySound(l: Locks, ts: seq<int>, path: seq<int>)
    requires WaitsOk(l) && path != [] && Walk(l, path)
    requires forall t | t in ts :: Edge(l, path[|path| - 1], t) && t != 0
    requires SearchAny(l, ts, path) != 0
    ensures Deadlocked(l, SearchAny(l, ts, path))
    decreases l.sizes.waits - |path|, 2, |ts|
  {
    assert ts[0] in ts && forall t | t in ts[1..] :: t in ts;
    if Search(l, ts[0], path) != 0 {
      SearchSound(l, ts[0], path);
    } else {
      SearchAnySound(l, ts[1..], path);
    }
  }

  // ----- the search is complete -----

  ghost predicate Distinct(w: seq<int>) {
    forall i, j | 0 <= i < j < |w| :: w[i] != w[j]
  }

  ghost predicate Waiting(l: Locks, t: int) {
    exists i :: 0 <= i < |l.waits| && l.waits[i].txn == t
  }

  function Waiters(ws: seq<Claim>): set<int>
    decreases |ws|
  {
    if ws == [] then {} else Waiters(ws[..|ws| - 1]) + {ws[|ws| - 1].txn}
  }

  lemma {:induction false} WaitersSize(ws: seq<Claim>)
    ensures |Waiters(ws)| <= |ws| && forall i | 0 <= i < |ws| :: ws[i].txn in Waiters(ws)
    decreases |ws|
  {
    if ws != [] { WaitersSize(ws[..|ws| - 1]); }
  }

  lemma {:induction false} DistinctSize(w: seq<int>, s: set<int>)
    requires Distinct(w) && forall i | 0 <= i < |w| :: w[i] in s
    ensures |w| <= |s|
    decreases |w|
  {
    if w != [] {
      var n := |w| - 1;
      DistinctSize(w[..n], s - {w[n]});
    }
  }

  /** The depth cut-off loses nothing: a path of LOCK_MAX_WAITS distinct waiting
      transactions holds them all, so the next one on it does not wait. */
  lemma CutOffIsSafe(l: Locks, path: seq<int>, t: int)
    requires WaitsOk(l) && Distinct(path) && t !in path && |path| >= l.sizes.waits
    requires forall i | 0 <= i < |path| :: Waiting(l, path[i])
    ensures !Waiting(l, t)
  {
    if Waiting(l, t) {
      WaitersSize(l.waits);
      DistinctSize(path + [t], Waiters(l.waits));
    }
  }

  lemma {:induction false} SearchComplete(l: Locks, txn: int, path: seq<int>, w: seq<int>)
    requires WaitsOk(l) && Distinct(path) && (forall i | 0 <= i < |path| :: Waiting(l, path[i]))
    requires txn != 0 && Search(l, txn, path) == 0 && Walk(l, w) && w[0] == txn
    ensures Distinct(w) && forall i | 0 <= i < |w| :: w[i] !in path
    decreases l.sizes.waits - |path|, 1, |w|
  {
    if |w| > 1 {
      assert Edge(l, w[0], w[1]);
      assert Waiting(l, txn);
      if |path| >= l.sizes.waits {
        CutOffIsSafe(l, path, txn);
        assert false;
      }
      WaitsForExact(l, txn, w[1]);
      SearchAnyComplete(l, WaitsFor(l, txn), path + [txn], w[1..]);
      forall i | 0 < i < |w|
        ensures w[i] !in path && w[i] != txn
      {
        assert w[i] == w[1..][i - 1];
        assert (path + [txn])[|path|] == txn;
        assert forall x | x in path :: x in path + [txn];
      }
      assert forall i, j | 0 < i < j < |w| :: w[i] == w[1..][i - 1] && w[j] == w[1..][j - 1];
    }
  }

  lemma {:induction false} SearchAnyComplete(l: Locks, ts: seq<int>, path: seq<int>, w: seq<int>)
    requires WaitsOk(l) && Distinct(path) && (forall i | 0 <= i < |path| :: Waiting(l, path[i]))
    requires (forall t | t in ts :: t != 0) && SearchAny(l, ts, path) == 0 && Walk(l, w) && w[0] in ts
    ensures Distinct(w) && forall i | 0 <= i < |w| :: w[i] !in path
    decreases l.sizes.waits - |path|, 2, |ts|
  {
    assert ts[0] in ts && forall t | t in ts[1..] :: t in ts;
    if w[0] == ts[0] {
      SearchComplete(l, ts[0], path, w);
    } else {
      SearchAnyComplete(l, ts[1..], path, w);
    }
  }

  lemma {:induction false} VictimSound(l: Locks, i: nat)
    requires WaitsOk(l) && i <= |l.waits| && VictimFrom(l, i) != 0
    ensures Deadlocked(l, VictimFrom(l, i))
    decreases |l.waits| - i
  {
    if Search(l, l.waits[i].txn, []) != 0 { SearchSound(l, l.waits[i].txn, []); } else { VictimSound(l, i + 1); }
  }

  lemma {:induction false} VictimZero(l: Locks, i: nat, k: nat)
    requires i <= k < |l.waits| && VictimFrom(l, i) == 0
    ensures Search(l, l.waits[k].txn, []) == 0
    decreases |l.waits| - i
  {
    if i < k { VictimZero(l, i + 1, k); }
  }

  /** A nonzero answer lies on a cycle of the wait-for graph, and the answer is zero only when the
      graph has no cycle. */
  lemma VictimExact(l: Locks)
    requires WaitsOk(l)
    ensures Victim(l) != 0 ==> Deadlocked(l, Victim(l))
    ensures Victim(l) == 0 ==> forall v :: !Deadlocked(l, v)
  {
    if Victim(l) != 0 {
      VictimSound(l, 0);
    } else {
      forall v
        ensures !Deadlocked(l, v)
      {
        if Deadlocked(l, v) {
          var w: seq<int> :| |w| > 1 && Walk(l, w) && w[0] == v && w[|w| - 1] == v;
          assert Edge(l, w[0], w[1]);
          var k, j :| 0 <= k < |l.waits| && 0 <= j < |l.entries|
                      && l.waits[k].txn == w[0] && l.entries[j].txn == w[1] && Blocks(l.waits[k], l.entries[j]);
          VictimZero(l, 0, k);
          SearchComplete(l, v, [], w);
        }
      }
    }
  }

  /** Deadlock detection is sound and complete in every run of nonzero transaction ids, whatever names it uses. */
  lemma DeadlockDetection(sizes: Sizes, xs: seq<Event>)
    requires forall i | 0 <= i < |xs| :: xs[i].txn != 0
    ensures var l := Run(Empty(sizes), xs);
            && (Victim(l) != 0 <==> exists v :: Deadlocked(l, v))
            && (Victim(l) != 0 ==> Deadlocked(l, Victim(l)))
  {
    RunWaits(sizes, xs);
    VictimExact(Run(Empty(sizes), xs));
  }
}
