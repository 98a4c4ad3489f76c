/** Runs of the LSM tree, with a process kill possible between any two file operations. */
module LsmRuns {
  import opened Wrappers
  import opened Lsm

  /** A file that was not written to its end is skipped when the directory is opened. */
  datatype File = Torn | Whole(run: seq<Entry>)

  datatype FileOp = Start(id: nat) | Finish(id: nat, run: seq<Entry>) | Unlink(id: nat)

  /** The in-memory tree and the directory below it. */
  datatype Store = Store(multi: bool, threshold: nat, mem: seq<Entry>, ssts: seq<Table>, next: nat, dir: map<nat, File>)

  function Perform(dir: map<nat, File>, op: FileOp): map<nat, File> {
    match op
    case Start(id) => dir[id := Torn]
    case Finish(id, run) => dir[id := Whole(run)]
    case Unlink(id) => dir - {id}
  }

  function PerformAll(dir: map<nat, File>, ops: seq<FileOp>): map<nat, File>
    decreases |ops|
  {
    if ops == [] then dir else Perform(PerformAll(dir, ops[..|ops| - 1]), ops[|ops| - 1])
  }

  // ----- flush and compact -----

  function FlushOps(s: Store): seq<FileOp> {
    if s.mem == [] then [] else [Start(s.next), Finish(s.next, s.mem)]
  }

  /** lsm_flush. */
  function Flush(s: Store): Store {
    if s.mem == [] then s
    else s.(mem := [], ssts := s.ssts + [Table(s.next, s.mem)], next := s.next + 1,
        dir := PerformAll(s.dir, FlushOps(s)))
  }

  function Unlinks(ts: seq<Table>): seq<FileOp> {
    seq(|ts|, i requires 0 <= i < |ts| => Unlink(ts[i].id))
  }

  /** The merged table is written whole before the old files go, oldest first. */
  function CompactOps(s: Store): seq<FileOp> {
    if Collect(s.ssts) == [] then []
    else [Start(s.next), Finish(s.next, Merge(s.multi, s.ssts))] + Unlinks(s.ssts)
  }

  /** lsm_compact. */
  function Compact(s: Store): Store {
    if Collect(s.ssts) == [] then s
    else s.(ssts := [Table(s.next, Merge(s.multi, s.ssts))], next := s.next + 1,
        dir := PerformAll(s.dir, CompactOps(s)))
  }

  // ----- opening a directory -----

  function Tables(dir: map<nat, File>, n: nat): seq<Table> {
    if n == 0 then []
    else Tables(dir, n - 1) + if n - 1 in dir && dir[n - 1].Whole? then [Table(n - 1, dir[n - 1].run)] else []
  }

  /** A number above every file of the directory. */
  function Above(ids: set<nat>): (n: nat)
    ensures forall i | i in ids :: i < n
  {
    if ids == {} then 0 else MaxOf(ids) + 1
  }

  function MaxOf(ids: set<nat>): (m: nat)
    requires ids != {}
    ensures m in ids && forall i | i in ids :: i <= m
  {
    HasMax(ids);
    var m :| m in ids && forall i | i in ids :: i <= m;
    m
  }

  lemma {:induction false} HasMax(ids: set<nat>)
    requires ids != {}
    ensures exists m :: m in ids && forall i | i in ids :: i <= m
  {
    var x :| x in ids;
    var rest := ids - {x};
    if rest == {} {
      assert forall i | i in ids :: i in rest || i == x;
    } else {
      HasMax(rest);
      var m :| m in rest && forall i | i in rest :: i <= m;
      var top := if x > m then x else m;
      assert top in ids && forall i | i in ids :: i in rest || i == x;
    }
  }

  /** lsm_open_multi: the whole files in the order of their numbers, with an empty memtable. */
  function Opened(multi: bool, threshold: nat, dir: map<nat, File>): Store {
    var ts := Tables(dir, Above(dir.Keys));
    Store(multi, threshold, [], ts, if ts == [] then 1 else ts[|ts| - 1].id + 1, dir)
  }

  // ----- runs -----

  datatype Event = Write(entry: Entry) | FlushNow | CompactNow

  /** An event, or an event killed after `ops` of its file operations and the directory opened again. */
  datatype Action = Do(event: Event) | Kill(event: Event, ops: nat)

  /** The tree and what it stands for: the contents now, and those a kill would leave. */
  datatype World = World(store: Store, now: map<Group, int>, durable: map<Group, int>)

  function Fresh(multi: bool, threshold: nat): World {
    World(Store(multi, threshold, [], [], 1, map[]), map[], map[])
  }

  function Upserted(s: Store, e: Entry): Store {
    s.(mem := Upsert(s.multi, s.mem, e))
  }

  function Full(s: Store): bool {
    |s.mem| >= s.threshold
  }

  function After(s: Store, e: Event): Store {
    match e
    case Write(entry) => var t := Upserted(s, entry); if Full(t) then Flush(t) else t
    case FlushNow => Flush(s)
    case CompactNow => Compact(s)
  }

  function Ops(s: Store, e: Event): seq<FileOp> {
    match e
    case Write(entry) => var t := Upserted(s, entry); if Full(t) then FlushOps(t) else []
    case FlushNow => FlushOps(s)
    case CompactNow => CompactOps(s)
  }

  /** The contents after a write: the entry of the group is replaced, or removed by a tombstone. */
  function Put(multi: bool, m: map<Group, int>, e: Entry): map<Group, int> {
    if e.tomb then m - {GroupOf(multi, e)} else m[GroupOf(multi, e) := e.val]
  }

  function NowAfter(w: World, e: Event): map<Group, int> {
    if e.Write? then Put(w.store.multi, w.now, e.entry) else w.now
  }

  /** The event writes out the memtable. */
  predicate Flushes(s: Store, e: Event) {
    e.FlushNow? || (e.Write? && Full(Upserted(s, e.entry)))
  }

  function Act(w: World, a: Action): World {
    var s, e := w.store, a.event;
    match a
    case Do(_) => World(After(s, e), NowAfter(w, e), if Flushes(s, e) then NowAfter(w, e) else w.durable)
    case Kill(_, k) =>
      var ops := Ops(s, e);
      var left := if Flushes(s, e) && |ops| <= k then NowAfter(w, e) else w.durable;
      World(Opened(s.multi, s.threshold, PerformAll(s.dir, if k < |ops| then ops[..k] else ops)), left, left)
  }

  function Run(w: World, xs: seq<Action>): World
    decreases |xs|
  {
    if xs == [] then w else Act(Run(w, xs[..|xs| - 1]), xs[|xs| - 1])
  }

  // ----- what every run keeps -----

  /** All layers, the memtable as the newest. */
  function Layers(s: Store): seq<Table> {
    s.ssts + [Table(s.next, s.mem)]
  }

  function View(s: Store, g: Group): Option<int> {
    Value(Newest(s.multi, Layers(s), g))
  }

  function DiskView(s: Store, g: Group): Option<int> {
    Value(Newest(s.multi, s.ssts, g))
  }

  function At(m: map<Group, int>, g: Group): Option<int> {
    if g in m then Some(m[g]) else None
  }

  /** The open tables are the whole files of the directory. */
  ghost predicate Mirrors(ts: seq<Table>, dir: map<nat, File>) {
    forall t: Table :: t in ts <==> t.id in dir && dir[t.id] == Whole(t.run)
  }

  ghost predicate Valid(s: Store) {
    Layered(s.multi, Layers(s)) && Mirrors(s.ssts, s.dir) && s.next > 0
  }

  ghost predicate Stands(w: World) {
    && Valid(w.store)
    && Holds(w.store.multi, Layers(w.store), w.now) && Holds(w.store.multi, w.store.ssts, w.durable)
  }

  // ----- views -----

  lemma NewestSnoc(multi: bool, ts: seq<Table>, t: Table, g: Group)
    ensures Newest(multi, ts + [t], g) == var e := Find(multi, t.run, g); if e.Some? then e else Newest(multi, ts, g)
  {
    assert (ts + [t])[..|ts|] == ts;
  }

  lemma WriteViews(s: Store, e: Entry, g: Group)
    requires IsRun(s.multi, s.mem)
    ensures View(Upserted(s, e), g) == if g == GroupOf(s.multi, e) then Value(Some(e)) else View(s, g)
  {
    UpsertFind(s.multi, s.mem, e, g);
    NewestSnoc(s.multi, s.ssts, Table(s.next, s.mem), g);
    NewestSnoc(s.multi, s.ssts, Table(s.next, Upserted(s, e).mem), g);
  }

  lemma FlushViews(s: Store, g: Group)
    ensures View(Flush(s), g) == View(s, g) && DiskView(Flush(s), g) == View(s, g)
  {
    NewestSnoc(s.multi, s.ssts, Table(s.next, s.mem), g);
    if s.mem != [] { NewestSnoc(s.multi, Layers(s), Table(s.next + 1, []), g); }
  }

  lemma CompactViews(s: Store, g: Group)
    requires Layered(s.multi, s.ssts)
    ensures View(Compact(s), g) == View(s, g) && DiskView(Compact(s), g) == DiskView(s, g)
  {
    var merged := Table(s.next, Merge(s.multi, s.ssts));
    MergeExact(s.multi, s.ssts, g);
    NewestSnoc(s.multi, [], merged, g);
    assert [] + [merged] == [merged];
    NewestSnoc(s.multi, s.ssts, Table(s.next, s.mem), g);
    NewestSnoc(s.multi, [merged], Table(s.next + 1, s.mem), g);
  }

  /** With the merged table in place, any number of the oldest tables may be missing:
      a tombstone still hides what it hid, because nothing older than it outlives it. */
  lemma PartialViews(multi: bool, ts: seq<Table>, merged: Table, j: nat, g: Group)
    requires Layered(multi, ts) && j <= |ts| && merged.run == Merge(multi, ts)
    ensures Value(Newest(multi, ts[j..] + [merged], g)) == Value(Newest(multi, ts, g))
  {
    MergeExact(multi, ts, g);
    NewestSnoc(multi, ts[j..], merged, g);
    NewestSuffix(multi, ts, j, g);
  }

  lemma {:induction false} NewestSuffix(multi: bool, ts: seq<Table>, j: nat, g: Group)
    requires j <= |ts|
    ensures var e := Newest(multi, ts[j..], g); e.Some? ==> e == Newest(multi, ts, g)
    decreases |ts|
  {
    if j < |ts| {
      var n := |ts| - 1;
      assert ts[j..][..n - j] == ts[..n][j..] && ts[j..][n - j] == ts[n];
      NewestSuffix(multi, ts[..n], j, g);
    }
  }

  // ----- the directory -----

  lemma PerformSnoc(dir: map<nat, File>, ops: seq<FileOp>, op: FileOp)
    ensures PerformAll(dir, ops + [op]) == Perform(PerformAll(dir, ops), op)
  {
    assert (ops + [op])[..|ops|] == ops;
  }

  lemma PerformTwo(dir: map<nat, File>, a: FileOp, b: FileOp)
    ensures PerformAll(dir, [a]) == Perform(dir, a) && PerformAll(dir, [a, b]) == Perform(Perform(dir, a), b)
  {
    PerformSnoc(dir, [], a);
    PerformSnoc(dir, [a], b);
    assert [] + [a] == [a] && [a] + [b] == [a, b];
  }

  ghost predicate AllBelow(ts: seq<Table>, n: nat) {
    forall i | 0 <= i < |ts| :: ts[i].id < n
  }

  /** Writing a new file: until it is whole the directory shows the same tables. */
  lemma NewFile(ts: seq<Table>, dir: map<nat, File>, t: Table)
    requires Mirrors(ts, dir) && AllBelow(ts, t.id)
    ensures Mirrors(ts, Perform(dir, Start(t.id)))
    ensures Mirrors(ts + [t], Perform(Perform(dir, Start(t.id)), Finish(t.id, t.run)))
  {
  }

  lemma {:induction false} UnlinkOldest(multi: bool, ts: seq<Table>, dir: map<nat, File>, j: nat)
    requires Layered(multi, ts) && Mirrors(ts, dir) && j <= |ts|
    ensures Mirrors(ts[j..], PerformAll(dir, Unlinks(ts)[..j]))
    decreases j
  {
    if j == 0 {
      assert ts[0..] == ts;
    } else {
      UnlinkOldest(multi, ts, dir, j - 1);
      assert Unlinks(ts)[..j] == Unlinks(ts)[..j - 1] + [Unlink(ts[j - 1].id)];
      PerformSnoc(dir, Unlinks(ts)[..j - 1], Unlink(ts[j - 1].id));
      UnlinkOne(multi, ts, PerformAll(dir, Unlinks(ts)[..j - 1]), j - 1);
    }
  }

  lemma UnlinkOne(multi: bool, ts: seq<Table>, dir: map<nat, File>, j: nat)
    requires Layered(multi, ts) && j < |ts| && Mirrors(ts[j..], dir)
    ensures Mirrors(ts[j + 1..], dir - {ts[j].id})
  {
    assert ts[j..] == [ts[j]] + ts[j + 1..];
    assert forall t | t in ts[j + 1..] :: t.id != ts[j].id;
  }

  lemma {:induction false} PerformJoin(dir: map<nat, File>, a: seq<FileOp>, b: seq<FileOp>)
    ensures PerformAll(dir, a + b) == PerformAll(PerformAll(dir, a), b)
    decreases |b|
  {
    if b == [] {
      assert a + b == a;
    } else {
      assert (a + b)[..|a + b| - 1] == a + b[..|b| - 1];
      PerformJoin(dir, a, b[..|b| - 1]);
    }
  }

  /** The tables a kill leaves: the old ones, or the younger of them below the merged one. */
  function LeftByCompact(s: Store, k: nat): seq<Table> {
    if k < 2 || k > |s.ssts| + 2 then s.ssts else s.ssts[k - 2..] + [Table(s.next, Merge(s.multi, s.ssts))]
  }

  lemma CompactLeaves(s: Store, k: nat)
    requires Valid(s) && k <= |CompactOps(s)|
    ensures Mirrors(LeftByCompact(s, k), PerformAll(s.dir, CompactOps(s)[..k]))
  {
    if Collect(s.ssts) != [] {
      IdsBelow(s);
      if k < 2 {
        NewFile(s.ssts, s.dir, Table(s.next, []));
        PerformTwo(s.dir, Start(s.next), Start(s.next));
        assert CompactOps(s)[..k] == if k == 0 then [] else [Start(s.next)];
      } else {
        MergedLeaves(s, k - 2);
      }
    }
  }

  lemma MergedLeaves(s: Store, j: nat)
    requires Layered(s.multi, s.ssts) && AllBelow(s.ssts, s.next) && Mirrors(s.ssts, s.dir)
    requires j <= |s.ssts| && Collect(s.ssts) != []
    ensures Mirrors(LeftByCompact(s, j + 2), PerformAll(s.dir, CompactOps(s)[..j + 2]))
  {
    var t := Table(s.next, Merge(s.multi, s.ssts));
    var a, b, c := Start(s.next), Finish(s.next, t.run), Unlinks(s.ssts)[..j];
    MergeExact(s.multi, s.ssts, Group(0, 0));
    SnocLayered(s.multi, s.ssts, t);
    NewFile(s.ssts, s.dir, t);
    UnlinkBelow(s.multi, s.ssts, t, Perform(Perform(s.dir, a), b), j);
    PerformTwo(s.dir, a, b);
    CompactPrefix(s, j);
    PerformJoin(s.dir, [a, b], c);
  }

  lemma CompactPrefix(s: Store, j: nat)
    requires j <= |s.ssts| && Collect(s.ssts) != []
    ensures CompactOps(s)[..j + 2] ==
            [Start(s.next), Finish(s.next, Merge(s.multi, s.ssts))] + Unlinks(s.ssts)[..j]
  {
  }

  lemma IdsBelow(s: Store)
    requires Layered(s.multi, Layers(s))
    ensures Layered(s.multi, s.ssts) && AllBelow(s.ssts, s.next) && IsRun(s.multi, s.mem)
  {
    var ls := Layers(s);
    assert ls[|s.ssts|] == Table(s.next, s.mem);
    assert forall i | 0 <= i < |s.ssts| :: ls[i] == s.ssts[i];
  }

  lemma SnocLayered(multi: bool, ts: seq<Table>, t: Table)
    requires Layered(multi, ts) && AllBelow(ts, t.id) && IsRun(multi, t.run)
    ensures Layered(multi, ts + [t])
  {
  }

  lemma UnlinkBelow(multi: bool, ts: seq<Table>, t: Table, dir: map<nat, File>, j: nat)
    requires Layered(multi, ts + [t]) && j <= |ts| && Mirrors(ts + [t], dir)
    ensures Mirrors(ts[j..] + [t], PerformAll(dir, Unlinks(ts)[..j]))
  {
    UnlinkOldest(multi, ts + [t], dir, j);
    assert (ts + [t])[j..] == ts[j..] + [t];
    assert Unlinks(ts + [t])[..j] == Unlinks(ts)[..j];
  }

  // ----- opening finds exactly the tables the directory shows -----

  lemma {:induction false} TablesShow(dir: map<nat, File>, n: nat)
    ensures forall i, j | 0 <= i < j < |Tables(dir, n)| :: Tables(dir, n)[i].id < Tables(dir, n)[j].id
    ensures AllBelow(Tables(dir, n), n)
    ensures forall t :: t in Tables(dir, n) <==> t.id < n && t.id in dir && dir[t.id] == Whole(t.run)
  {
    if n > 0 { TablesShow(dir, n - 1); }
  }

  ghost predicate Ascending(ts: seq<Table>) {
    forall i, j | 0 <= i < j < |ts| :: ts[i].id < ts[j].id
  }

  lemma LastIsTop(a: seq<Table>, t: Table)
    requires Ascending(a) && t in a
    ensures t.id <= a[|a| - 1].id && (t.id == a[|a| - 1].id ==> t == a[|a| - 1])
  {
  }

  lemma InitMembers(a: seq<Table>, t: Table)
    requires Ascending(a) && a != []
    ensures t in a[..|a| - 1] <==> t in a && t != a[|a| - 1]
  {
    assert a == a[..|a| - 1] + [a[|a| - 1]];
  }

  ghost predicate SameMembers(a: seq<Table>, b: seq<Table>) {
    forall t :: t in a <==> t in b
  }

  /** An ascending list is determined by its members. */
  lemma {:induction false} AscendingUnique(a: seq<Table>, b: seq<Table>)
    requires Ascending(a) && Ascending(b) && SameMembers(a, b)
    ensures a == b
    decreases |a|
  {
    if a == [] {
      if b != [] { NotEmpty(b, a); }
    } else {
      NotEmpty(a, b);
      LastsEqual(a, b);
      var c, d := a[..|a| - 1], b[..|b| - 1];
      forall t
        ensures t in c <==> t in d
      {
        InitMembers(a, t);
        InitMembers(b, t);
      }
      AscendingUnique(c, d);
      assert a == c + [a[|a| - 1]] && b == d + [b[|b| - 1]];
    }
  }

  lemma NotEmpty(a: seq<Table>, b: seq<Table>)
    requires SameMembers(a, b) && a != []
    ensures b != []
  {
    assert a[0] in b;
  }

  lemma LastsEqual(a: seq<Table>, b: seq<Table>)
    requires Ascending(a) && Ascending(b) && SameMembers(a, b) && a != [] && b != []
    ensures a[|a| - 1] == b[|b| - 1]
  {
    LastIsTop(a, b[|b| - 1]);
    LastIsTop(b, a[|a| - 1]);
  }

  lemma OpenedTables(dir: map<nat, File>, ts: seq<Table>)
    requires Ascending(ts) && Mirrors(ts, dir)
    ensures Tables(dir, Above(dir.Keys)) == ts
  {
    var n := Above(dir.Keys);
    TablesShow(dir, n);
    AscendingUnique(Tables(dir, n), ts);
  }

  lemma OpenedNext(multi: bool, ts: seq<Table>, next: nat)
    requires Layered(multi, ts) && next == if ts == [] then 1 else ts[|ts| - 1].id + 1
    ensures Layered(multi, ts + [Table(next, [])])
  {
    assert AllBelow(ts, next);
    SnocLayered(multi, ts, Table(next, []));
  }

  /** Every whole file of the directory is a sorted run. */
  ghost predicate RunFiles(multi: bool, dir: map<nat, File>) {
    forall id | id in dir && dir[id].Whole? :: IsRun(multi, dir[id].run)
  }

  /** A directory opens to a valid tree exactly when its files are runs. */
  lemma OpenedValid(multi: bool, threshold: nat, dir: map<nat, File>, ts: seq<Table>)
    requires Ascending(ts) && Mirrors(ts, dir)
    ensures Valid(Opened(multi, threshold, dir)) <==> RunFiles(multi, dir)
  {
    OpenedTables(dir, ts);
    var s := Opened(multi, threshold, dir);
    if RunFiles(multi, dir) {
      assert forall i | 0 <= i < |ts| :: ts[i] in ts;
      OpenedNext(multi, ts, s.next);
    }
    if Valid(s) { ValidFiles(s); }
  }

  lemma ValidFiles(s: Store)
    requires Valid(s)
    ensures RunFiles(s.multi, s.dir)
  {
    forall id | id in s.dir && s.dir[id].Whole?
      ensures IsRun(s.multi, s.dir[id].run)
    {
      var t := Table(id, s.dir[id].run);
      assert t in s.ssts;
      var i :| 0 <= i < |s.ssts| && s.ssts[i] == t;
      assert Layers(s)[i] == t;
    }
  }

  /** After a write its group reads as written, and every other group as before. */
  lemma WrittenView(s: Store, e: Entry, g: Group)
    requires Valid(s)
    ensures View(After(s, Write(e)), g) == if g == GroupOf(s.multi, e) then Value(Some(e)) else View(s, g)
  {
    assert Layers(s)[|s.ssts|].run == s.mem;
    WriteViews(s, e, g);
    FlushViews(Upserted(s, e), g);
  }

  ghost predicate Holds(multi: bool, ts: seq<Table>, m: map<Group, int>) {
    forall g :: Value(Newest(multi, ts, g)) == At(m, g)
  }

  lemma HoldsBelowEmpty(multi: bool, ts: seq<Table>, next: nat, m: map<Group, int>)
    requires Holds(multi, ts, m)
    ensures Holds(multi, ts + [Table(next, [])], m)
  {
    forall g
      ensures Value(Newest(multi, ts + [Table(next, [])], g)) == At(m, g)
    {
      NewestSnoc(multi, ts, Table(next, []), g);
    }
  }

  /** Opening a directory that shows these tables: they are the whole contents. */
  lemma OpenedStands(multi: bool, threshold: nat, dir: map<nat, File>, ts: seq<Table>, m: map<Group, int>)
    requires Layered(multi, ts) && Mirrors(ts, dir) && Holds(multi, ts, m)
    ensures Stands(World(Opened(multi, threshold, dir), m, m))
  {
    OpenedTables(dir, ts);
    var next := Opened(multi, threshold, dir).next;
    OpenedNext(multi, ts, next);
    HoldsBelowEmpty(multi, ts, next, m);
  }

  // ----- every action -----

  lemma UpsertValid(s: Store, e: Entry)
    requires Valid(s)
    ensures Valid(Upserted(s, e))
  {
    IdsBelow(s);
    UpsertRun(s.multi, s.mem, e);
    SnocLayered(s.multi, s.ssts, Table(s.next, Upserted(s, e).mem));
  }

  lemma FlushValid(s: Store)
    requires Valid(s)
    ensures Valid(Flush(s))
  {
    if s.mem != [] {
      IdsBelow(s);
      NewFile(s.ssts, s.dir, Table(s.next, s.mem));
      PerformTwo(s.dir, Start(s.next), Finish(s.next, s.mem));
      SnocLayered(s.multi, Flush(s).ssts, Table(s.next + 1, []));
    }
  }

  lemma CompactValid(s: Store)
    requires Valid(s)
    ensures Valid(Compact(s))
  {
    if Collect(s.ssts) != [] {
      var t := Compact(s);
      IdsBelow(s);
      MergeExact(s.multi, s.ssts, Group(0, 0));
      SnocLayered(s.multi, t.ssts, Table(t.next, t.mem));
      CompactLeaves(s, |CompactOps(s)|);
      assert CompactOps(s)[..|CompactOps(s)|] == CompactOps(s);
      assert LeftByCompact(s, |CompactOps(s)|) == t.ssts;
    }
  }

  lemma KeepWrite(w: World, e: Entry)
    requires Stands(w)
    ensures Stands(World(Upserted(w.store, e), Put(w.store.multi, w.now, e), w.durable))
  {
    var s := w.store;
    UpsertValid(s, e);
    IdsBelow(s);
    forall g
      ensures View(Upserted(s, e), g) == At(Put(s.multi, w.now, e), g)
    {
      WriteViews(s, e, g);
      assert View(s, g) == At(w.now, g);
    }
  }

  lemma KeepFlush(w: World)
    requires Stands(w)
    ensures Stands(World(Flush(w.store), w.now, w.now))
  {
    FlushValid(w.store);
    forall g
      ensures View(Flush(w.store), g) == At(w.now, g) && DiskView(Flush(w.store), g) == At(w.now, g)
    {
      FlushViews(w.store, g);
      assert View(w.store, g) == At(w.now, g);
    }
  }

  lemma KeepCompact(w: World)
    requires Stands(w)
    ensures Stands(w.(store := Compact(w.store)))
  {
    var s := w.store;
    CompactValid(s);
    IdsBelow(s);
    forall g
      ensures View(Compact(s), g) == At(w.now, g) && DiskView(Compact(s), g) == At(w.durable, g)
    {
      CompactViews(s, g);
      assert View(s, g) == At(w.now, g) && DiskView(s, g) == At(w.durable, g);
    }
  }

  lemma KeepDo(w: World, e: Event)
    requires Stands(w)
    ensures Stands(Act(w, Do(e)))
  {
    match e
    case Write(entry) =>
      KeepWrite(w, entry);
      KeepFlush(World(Upserted(w.store, entry), Put(w.store.multi, w.now, entry), w.durable));
    case FlushNow => KeepFlush(w);
    case CompactNow => KeepCompact(w);
  }

  /** Stopped anywhere inside a compaction and opened again, the directory holds the same contents. */
  lemma CompactCrashAtomic(w: World, k: nat)
    requires Stands(w)
    ensures Stands(Act(w, Kill(CompactNow, k)))
  {
    var ops := CompactOps(w.store);
    assert ops[..|ops|] == ops;
    CutStands(w, if k < |ops| then k else |ops|);
  }

  lemma CutStands(w: World, n: nat)
    requires Stands(w) && n <= |CompactOps(w.store)|
    ensures var s := w.store;
            Stands(World(Opened(s.multi, s.threshold, PerformAll(s.dir, CompactOps(s)[..n])), w.durable, w.durable))
  {
    var s := w.store;
    IdsBelow(s);
    CompactLeaves(s, n);
    LeftLayered(s, n);
    LeftHolds(s, n, w.durable);
    OpenedStands(s.multi, s.threshold, PerformAll(s.dir, CompactOps(s)[..n]), LeftByCompact(s, n), w.durable);
  }

  lemma LeftHolds(s: Store, k: nat, m: map<Group, int>)
    requires Layered(s.multi, s.ssts) && Holds(s.multi, s.ssts, m)
    ensures Holds(s.multi, LeftByCompact(s, k), m)
  {
    if 2 <= k <= |s.ssts| + 2 {
      forall g
        ensures Value(Newest(s.multi, LeftByCompact(s, k), g)) == At(m, g)
      {
        PartialViews(s.multi, s.ssts, Table(s.next, Merge(s.multi, s.ssts)), k - 2, g);
      }
    }
  }

  lemma LeftLayered(s: Store, k: nat)
    requires Layered(s.multi, s.ssts) && AllBelow(s.ssts, s.next)
    ensures Layered(s.multi, LeftByCompact(s, k))
  {
    if 2 <= k <= |s.ssts| + 2 {
      MergeExact(s.multi, s.ssts, Group(0, 0));
      SnocLayered(s.multi, s.ssts[k - 2..], Table(s.next, Merge(s.multi, s.ssts)));
    }
  }

  lemma FlushKilled(w: World, k: nat)
    requires Stands(w)
    ensures var s := w.store; var ops := FlushOps(s);
            var m := if |ops| <= k then w.now else w.durable;
            Stands(World(Opened(s.multi, s.threshold, PerformAll(s.dir, if k < |ops| then ops[..k] else ops)), m, m))
  {
    var s := w.store;
    var ops := FlushOps(s);
    IdsBelow(s);
    KeepFlush(w);
    if k < |ops| {
      NewFile(s.ssts, s.dir, Table(s.next, s.mem));
      PerformTwo(s.dir, ops[0], ops[1]);
      assert ops[..k] == if k == 0 then [] else [ops[0]];
      OpenedStands(s.multi, s.threshold, PerformAll(s.dir, ops[..k]), s.ssts, w.durable);
    } else {
      var t := Flush(s);
      IdsBelow(t);
      OpenedStands(s.multi, s.threshold, PerformAll(s.dir, ops), t.ssts, w.now);
    }
  }

  lemma KeepKill(w: World, e: Event, k: nat)
    requires Stands(w)
    ensures Stands(Act(w, Kill(e, k)))
  {
    match e
    case Write(entry) =>
      KeepWrite(w, entry);
      if Full(Upserted(w.store, entry)) {
        FlushKilled(World(Upserted(w.store, entry), Put(w.store.multi, w.now, entry), w.durable), k);
      } else {
        IdsBelow(w.store);
        OpenedStands(w.store.multi, w.store.threshold, w.store.dir, w.store.ssts, w.durable);
      }
    case FlushNow => FlushKilled(w, k);
    case CompactNow => CompactCrashAtomic(w, k);
  }

  lemma FreshStands(multi: bool, threshold: nat)
    ensures Stands(Fresh(multi, threshold))
  {
    forall g
      ensures View(Fresh(multi, threshold).store, g) == None
    {
      NewestSnoc(multi, [], Table(1, []), g);
    }
  }

  lemma {:induction false} RunStands(multi: bool, threshold: nat, xs: seq<Action>)
    ensures Stands(Run(Fresh(multi, threshold), xs))
    decreases |xs|
  {
    if xs == [] {
      FreshStands(multi, threshold);
    } else {
      var w, a := Run(Fresh(multi, threshold), xs[..|xs| - 1]), xs[|xs| - 1];
      RunStands(multi, threshold, xs[..|xs| - 1]);
      match a
      case Do(e) => KeepDo(w, e);
      case Kill(e, k) => KeepKill(w, e, k);
    }
  }

  /** Over every run of writes, flushes, compactions and kills, the layered tree is the simple map:
      for every group the newest-to-oldest search gives what the map holds. */
  lemma LsmRefinesMap(multi: bool, threshold: nat, xs: seq<Action>, g: Group)
    ensures var w := Run(Fresh(multi, threshold), xs);
            View(w.store, g) == At(w.now, g) && DiskView(w.store, g) == At(w.durable, g)
  {
    RunStands(multi, threshold, xs);
  }
}
