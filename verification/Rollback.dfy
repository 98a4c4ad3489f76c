/** Aborting a transaction: table_begin_write and txn_abort_tables of src/db.c over the buffer
    pool and the write-ahead log, which share one data file.

    A step of the pool that evicts a dirty page hands it to wal_steal; a new page is
    allocated in the data file; everything else stays in the pool. */
module Rollback {
  import opened Wrappers
  import P = BufPool
  import W = Wal
  import V = WalRecovery
  import R = WalRuns

  datatype Table = Table(world: P.World, session: R.Session)

  /** The pool reads and writes the data file of the log. */
  ghost predicate OneFile(t: Table) {
    var disk, data := t.world.pool.disk, t.session.disk.data;
    forall p: nat :: (p in disk <==> p < |data|) && (p < |data| ==> disk[p] == data[p])
  }

  ghost predicate Valid(t: Table) {
    P.Inv(t.world) && R.Inv(t.session) && OneFile(t)
  }

  /** Every cached page is as on disk, and no thread is writing one. */
  ghost predicate Clean(t: Table) {
    && (forall i | 0 <= i < |t.world.pool.frames| && t.world.pool.frames[i].valid :: !t.world.pool.frames[i].dirty)
    && forall i | 0 <= i < |t.world.pins| :: !t.world.pins[i].wrote
  }

  /** table_begin_write: dirty pages may leave the pool only through the steal handler.
      The contents an abort has to restore are those of the data file now. */
  function BeginWrite(t: Table): Table {
    Table(t.world.(pool := t.world.pool.(noSteal := true, handler := true)),
          R.Done(t.session.(db := t.session.disk.data), R.BeginTxn))
  }

  /** The page a miss would push out while it is dirty. */
  function DirtyVictim(m: P.Pool): Option<P.Frame> {
    var fs := m.frames;
    if P.FreeFrame(fs, 0) < |fs| then None
    else
      var v := P.Lru(fs, P.MayStealDirty(m), |fs|);
      if v.Some? && fs[v.value].dirty then Some(fs[v.value]) else None
  }

  /** Steps a thread may take while the transaction is open. */
  predicate InTransaction(t: Table, s: P.Step) {
    match s
    case FlushUpTo(_) => false
    case SetSteal(_, _) => false
    case Allocate(p) => p == |t.session.disk.data|
    case _ => true
  }

  function Next(t: Table, s: P.Step): Table {
    if !InTransaction(t, s) || !P.Enabled(t.world, s) then t
    else
      var session := match s
        case Allocate(_) => R.Done(t.session, R.Allocate)
        case Miss(_, _, writeOk) =>
          var v := DirtyVictim(t.world.pool);
          if v.Some? && writeOk then R.Done(t.session, R.Steal(v.value.page, v.value.data)) else t.session
        case _ => t.session;
      Table(P.Next(t.world, s), session)
  }

  function Run(t: Table, ss: seq<P.Step>): Table
    decreases |ss|
  {
    if ss == [] then t else Next(Run(t, ss[..|ss| - 1]), ss[|ss| - 1])
  }

  /** The pages of the data file, as the pool sees them. */
  function Pages(data: seq<W.Image>): map<nat, P.Image> {
    map p: nat | p < |data| :: data[p]
  }

  /** txn_abort_tables: undo what was stolen, drop the whole pool, cut off the new pages. */
  function Abort(t: Table): Table {
    var s := R.Done(t.session, R.Undo);
    var data := if t.session.base <= |s.disk.data| then s.disk.data[..t.session.base] else s.disk.data;
    Table(t.world.(pool := P.Pool(P.Invalidated(t.world.pool.frames), t.world.pool.clock, Pages(data), false, false),
        pins := []),
          s.(disk := s.disk.(data := data)))
  }

  // ----- the data file through a transaction -----

  lemma StealData(s: R.Session, p: nat, v: W.Image)
    requires p < |s.disk.data|
    ensures R.Done(s, R.Steal(p, v)).disk.data == s.disk.data[p := v]
  {
    var a := if s.stole then [] else W.Record(W.Begin(s.base));
    var b := if p in s.spilled || p >= s.base || p >= |s.disk.data| then [] else W.Record(W.Before(p, s.disk.data[p]));
    V.PerformJoin(s.disk, a + b, [W.Write(p, v)]);
    V.PerformJoin(s.disk, a, b);
    if !s.stole { R.RecordDone(s.disk, W.Begin(s.base)); }
    if b != [] { R.RecordDone(W.PerformAll(s.disk, a), W.Before(p, s.disk.data[p])); }
    V.PerformOne(W.PerformAll(s.disk, a + b), W.Write(p, v));
  }

  lemma AllocateData(s: R.Session)
    ensures R.Done(s, R.Allocate).disk.data == s.disk.data + [0]
  {
    V.PerformOne(s.disk, W.Write(|s.disk.data|, 0));
  }

  /** What the open transaction must get back to. */
  ghost predicate Open(t: Table, start: seq<W.Image>) {
    && Valid(t) && t.session.active && t.session.base == |start| && t.session.db == start
    && t.world.pool.noSteal && t.world.pool.handler
  }

  lemma VictimPage(t: Table)
    requires Valid(t) && DirtyVictim(t.world.pool).Some?
    ensures DirtyVictim(t.world.pool).value.page < |t.session.disk.data|
  {
    var m := t.world.pool;
    var v := P.Lru(m.frames, P.MayStealDirty(m), |m.frames|);
    assert P.FrameOk(m.frames[v.value], t.world.pins, m.disk);
  }

  lemma AllocateDisk(t: Table, p: nat)
    requires Valid(t) && t.session.active && InTransaction(t, P.Allocate(p)) && P.Enabled(t.world, P.Allocate(p))
    ensures OneFile(Next(t, P.Allocate(p))) && R.Inv(Next(t, P.Allocate(p)).session)
  {
    AllocateData(t.session);
    R.KeepAllocate(t.session);
  }

  /** The disk a miss leaves differs by the dirty victim, if there is one. */
  lemma MissDisk(w: P.World, tid: nat, p: nat, writeOk: bool)
    requires P.Enabled(w, P.Miss(tid, p, writeOk))
    ensures var v := DirtyVictim(w.pool);
            P.Next(w, P.Miss(tid, p, writeOk)).pool.disk ==
            if v.Some? && writeOk then w.pool.disk[v.value.page := v.value.data] else w.pool.disk
  {
  }

  lemma StealDisk(t: Table, tid: nat, p: nat, writeOk: bool)
    requires Valid(t) && t.session.active && P.Enabled(t.world, P.Miss(tid, p, writeOk))
    ensures OneFile(Next(t, P.Miss(tid, p, writeOk))) && R.Inv(Next(t, P.Miss(tid, p, writeOk)).session)
  {
    var v := DirtyVictim(t.world.pool);
    MissDisk(t.world, tid, p, writeOk);
    if v.Some? && writeOk {
      VictimPage(t);
      StealData(t.session, v.value.page, v.value.data);
      R.KeepSteal(t.session, v.value.page, v.value.data);
    }
  }

  lemma StepDisk(t: Table, s: P.Step)
    requires Valid(t) && t.session.active && InTransaction(t, s) && P.Enabled(t.world, s)
    ensures OneFile(Next(t, s)) && R.Inv(Next(t, s).session)
  {
    match s
    case Allocate(p) => AllocateDisk(t, p);
    case Miss(tid, p, writeOk) => StealDisk(t, tid, p, writeOk);
    case _ =>
  }

  lemma StepKeeps(t: Table, s: P.Step)
    requires t.session.active && t.world.pool.noSteal && t.world.pool.handler
    ensures var n := Next(t, s);
            && n.session.active && n.session.base == t.session.base && n.session.db == t.session.db
            && n.world.pool.noSteal && n.world.pool.handler
  {
  }

  lemma KeepOpen(t: Table, s: P.Step, start: seq<W.Image>)
    requires Open(t, start)
    ensures Open(Next(t, s), start)
  {
    if InTransaction(t, s) && P.Enabled(t.world, s) {
      StepDisk(t, s);
      P.KeepStep(t.world, s);
    }
    StepKeeps(t, s);
  }

  lemma {:induction false} RunOpen(t: Table, ss: seq<P.Step>, start: seq<W.Image>)
    requires Open(t, start)
    ensures Open(Run(t, ss), start)
    decreases |ss|
  {
    if ss != [] {
      RunOpen(t, ss[..|ss| - 1], start);
      KeepOpen(Run(t, ss[..|ss| - 1]), ss[|ss| - 1], start);
    }
  }

  // ----- begin and abort -----

  lemma SessionStart(s: R.Session)
    requires R.Inv(s) && !s.active
    ensures R.Inv(s.(db := s.disk.data))
  {
    assert s.disk.data[..|s.disk.data|] == s.disk.data;
    assert forall p: nat | p < |s.db| :: s.disk.data[..|s.db|][p] == s.disk.data[p];
  }

  lemma BeginOpens(t: Table)
    requires Valid(t) && !t.session.active
    ensures Open(BeginWrite(t), t.session.disk.data)
  {
    SessionStart(t.session);
    R.KeepBegin(t.session.(db := t.session.disk.data));
    P.KeepSteal(t.world, true, true);
  }

  lemma AbortRestoresData(t: Table, start: seq<W.Image>)
    requires Open(t, start)
    ensures Abort(t).session.disk.data == start
  {
    R.KeepUndo(t.session);
  }

  lemma NothingCached(t: Table, p: nat)
    ensures P.View(Abort(t).world.pool, p) ==
            if p < |Abort(t).session.disk.data| then Some(Abort(t).session.disk.data[p]) else None
  {
    var fs := Abort(t).world.pool.frames;
    assert forall i | 0 <= i < |fs| :: !fs[i].valid;
    P.ViewDisk(Abort(t).world.pool, p);
  }

  lemma CleanView(t: Table, p: nat)
    requires Valid(t) && Clean(t)
    ensures P.View(t.world.pool, p) == if p < |t.session.disk.data| then Some(t.session.disk.data[p]) else None
  {
    var m := t.world.pool;
    if P.Cached(m.frames, p) {
      var k :| 0 <= k < |m.frames| && P.Ready(m.frames[k], p);
      P.ViewReady(m, p, k);
      assert P.FrameOk(m.frames[k], t.world.pins, m.disk);
    } else {
      P.ViewDisk(m, p);
    }
  }

  /** After any mix of loads, writes, allocations and steals by any number of threads, an abort
      leaves every page as it was seen when the transaction began, and the file as long as it was. */
  lemma RollbackRestores(t: Table, ss: seq<P.Step>, p: nat)
    requires Valid(t) && Clean(t) && !t.session.active
    ensures var e := Abort(Run(BeginWrite(t), ss));
            e.session.disk.data == t.session.disk.data && P.View(e.world.pool, p) == P.View(t.world.pool, p)
  {
    BeginOpens(t);
    RunOpen(BeginWrite(t), ss, t.session.disk.data);
    AbortRestoresData(Run(BeginWrite(t), ss), t.session.disk.data);
    NothingCached(Run(BeginWrite(t), ss), p);
    CleanView(t, p);
  }

  /** No thread is in the middle of loading a page. */
  ghost predicate Quiet(w: P.World) {
    w.loads == map[] && forall i | 0 <= i < |w.pool.frames| :: !w.pool.frames[i].loading
  }

  /** Dropping every page keeps the pool's invariant exactly when no load is under way: bufpool_invalidate_all
      leaves the loading flag of a frame as it is. */
  lemma InvalidPool(w: P.World, disk: map<nat, P.Image>)
    ensures var e := w.(pool := P.Pool(P.Invalidated(w.pool.frames), w.pool.clock, disk, false, false), pins := []);
            P.Inv(e) <==> Quiet(w)
  {
    var fs := P.Invalidated(w.pool.frames);
    var e := w.(pool := P.Pool(fs, w.pool.clock, disk, false, false), pins := []);
    if Quiet(w) { assert forall i | 0 <= i < |fs| :: P.FrameOk(fs[i], [], disk); }
    if P.Inv(e) {
      assert forall i | 0 <= i < |fs| :: P.FrameOk(fs[i], [], disk) && fs[i].loading == w.pool.frames[i].loading;
      assert forall t | t in e.loads :: P.LoadOk(e.loads[t], fs, disk);
    }
  }

  lemma AbortSession(t: Table, start: seq<W.Image>)
    requires Open(t, start)
    ensures R.Inv(Abort(t).session) && !Abort(t).session.active
  {
    AbortRestoresData(t, start);
    R.KeepUndo(t.session);
    assert start[..|start|] == start;
  }

  /** The state an abort leaves is one a new transaction may begin in, exactly when no thread is
      loading a page at that moment. */
  lemma AbortLeavesValid(t: Table, ss: seq<P.Step>)
    requires Valid(t) && Clean(t) && !t.session.active
    ensures var n := Run(BeginWrite(t), ss);
            Clean(Abort(n)) && !Abort(n).session.active && (Valid(Abort(n)) <==> Quiet(n.world))
  {
    BeginOpens(t);
    var n := Run(BeginWrite(t), ss);
    RunOpen(BeginWrite(t), ss, t.session.disk.data);
    AbortSession(n, t.session.disk.data);
    InvalidPool(n.world, Pages(Abort(n).session.disk.data));
  }

  /** When no load is under way at the abort, the views change only by writes in everything that follows. */
  lemma QuietAbortIsSafe(t: Table, ss: seq<P.Step>, later: seq<P.Step>, s: P.Step, p: nat)
    requires Valid(t) && Clean(t) && !t.session.active && Quiet(Run(BeginWrite(t), ss).world)
    ensures var w := P.Run(Abort(Run(BeginWrite(t), ss)).world, later);
            P.View(P.Step1(w, s).pool, p) == P.ViewAfter(w, s, p)
  {
    AbortLeavesValid(t, ss);
    var e := Abort(Run(BeginWrite(t), ss));
    P.RunKeeps(e.world, later);
    P.StepView(P.Run(e.world, later), s, p);
  }

  // ----- an abort while a page is being loaded -----

  /** A table just opened, over any data file. */
  function Opened(frames: nat, data: seq<W.Image>, cap: nat): Table {
    Table(P.Fresh(frames, Pages(data)), R.Fresh(data, cap))
  }

  lemma OpenedLoadable(frames: nat, data: seq<W.Image>, cap: nat, p: nat)
    requires frames > 0 && p < |data|
    ensures var t := Opened(frames, data, cap);
            Valid(t) && Clean(t) && !t.session.active && Loadable(t, p) && t.world.loads == map[]
  {
    R.FreshInv(data, cap);
    P.RunInv(frames, Pages(data), []);
  }

  /** Frame 0 is free, and page p is not in the pool. */
  ghost predicate Loadable(t: Table, p: nat) {
    var fs := t.world.pool.frames;
    fs != [] && !fs[0].valid && P.FindFrame(fs, p, 0) == |fs| && p < |t.session.disk.data|
  }

  /** The state after page p was being loaded into frame 0 and the transaction was aborted. */
  lemma AbortDuringLoad(t: Table, a: nat, p: nat)
    requires Valid(t) && Clean(t) && !t.session.active && Loadable(t, p) && a !in t.world.loads
    ensures var e := Abort(Run(BeginWrite(t), [P.Miss(a, p, true)]));
            && e.session.disk.data == t.session.disk.data && e.world.pool.disk == Pages(t.session.disk.data)
            && |e.world.pool.frames| == |t.world.pool.frames|
            && (forall i | 0 <= i < |e.world.pool.frames| :: !e.world.pool.frames[i].valid)
            && e.world.loads == t.world.loads[a := P.Load(0, p, false)]
  {
    var b, s := BeginWrite(t), P.Miss(a, p, true);
    BeginOpens(t);
    assert [s][..0] == [];
    assert Run(b, [s]) == Next(b, s);
    KeepOpen(b, s, t.session.disk.data);
    AbortRestoresData(Next(b, s), t.session.disk.data);
    assert P.FreeFrame(t.world.pool.frames, 0) == 0;
  }

  /** One frame is handed to a second load while the first still reads into it. */
  function TwoLoads(a: nat, b: nat, q: nat): seq<P.Step> {
    [P.Miss(b, q, true), P.ReadIn(b), P.ReadIn(a), P.Finish(b, true)]
  }

  lemma TwoLoadsMix(w: P.World, a: nat, b: nat, p: nat, q: nat)
    requires w.pool.frames != [] && forall i | 0 <= i < |w.pool.frames| :: !w.pool.frames[i].valid
    requires a != b && a in w.loads && b !in w.loads && w.loads[a] == P.Load(0, p, false)
    requires p in w.pool.disk && q in w.pool.disk
    ensures P.View(P.Run(w, TwoLoads(a, b, q)).pool, q) == Some(w.pool.disk[p])
  {
    var ss := TwoLoads(a, b, q);
    assert ss[..3][..2] == ss[..2] && ss[..2][..1] == ss[..1] && ss[..1][..0] == [] && ss[..4] == ss;
    assert P.FindFrame(w.pool.frames, q, 0) == |w.pool.frames| && P.FreeFrame(w.pool.frames, 0) == 0;
    var w1 := P.Step1(w, ss[0]);
    assert P.Run(w, ss[..1]) == w1;
    assert w1.loads == w.loads[b := P.Load(0, q, false)] && w1.pool.disk == w.pool.disk;
    var w2 := P.Step1(w1, ss[1]);
    assert P.Run(w, ss[..2]) == w2;
    var w3 := P.Step1(w2, ss[2]);
    assert P.Run(w, ss[..3]) == w3;
    assert w3.pool.frames[0].data == w.pool.disk[p] && w3.pool.frames[0].page == q && w3.pool.frames[0].valid;
    var w4 := P.Step1(w3, ss[3]);
    assert P.Run(w, ss) == w4;
  }

  /** Without that condition a page can show another page's contents: from every such table, with any two
      pages that differ, a load in flight at the abort makes page q read as page p, though nobody wrote. */
  lemma AbortDuringLoadMixesPages(t: Table, a: nat, b: nat, p: nat, q: nat)
    requires Valid(t) && Clean(t) && !t.session.active && Loadable(t, p) && q < |t.session.disk.data|
    requires a != b && a !in t.world.loads && b !in t.world.loads
    requires t.session.disk.data[p] != t.session.disk.data[q]
    ensures var e := Abort(Run(BeginWrite(t), [P.Miss(a, p, true)])).world;
            && P.View(e.pool, q) == P.View(t.world.pool, q) == Some(t.session.disk.data[q])
            && P.View(P.Run(e, TwoLoads(a, b, q)).pool, q) == Some(t.session.disk.data[p]) != P.View(e.pool, q)
  {
    AbortDuringLoad(t, a, p);
    RollbackRestores(t, [P.Miss(a, p, true)], q);
    CleanView(t, q);
    TwoLoadsMix(Abort(Run(BeginWrite(t), [P.Miss(a, p, true)])).world, a, b, p, q);
  }
}
