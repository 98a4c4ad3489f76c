/** The buffer pool of src/bufpool.c as a state machine: threads take turns at its critical
    sections, and a loading thread drops the latch while it reads from disk.

    A page image is an opaque value.  `pins` and `loads` record what the threads hold. */
module BufPool {
  import opened Wrappers

  type Image = int

  datatype Frame = Frame(page: nat, valid: bool, dirty: bool, pin: nat, loading: bool, used: nat, data: Image)

  /** The frame table, the LRU clock, the disk, and whether dirty pages may be evicted (and through a handler). */
  datatype Pool = Pool(frames: seq<Frame>, clock: nat, disk: map<nat, Image>, noSteal: bool, handler: bool)

  /** A page a thread holds, and whether it has written to it since. */
  datatype Pin = Pin(page: nat, wrote: bool)

  /** A thread between reserving a frame and publishing what it read. */
  datatype Load = Load(frame: nat, page: nat, read: bool)

  datatype World = World(pool: Pool, pins: seq<Pin>, loads: map<nat, Load>)

  // ----- find_frame and pick_frame -----

  /** The first frame from i on that holds the page, or |fs|. */
  function FindFrame(fs: seq<Frame>, p: nat, i: nat): (k: nat)
    requires i <= |fs|
    ensures i <= k <= |fs| && (k < |fs| ==> fs[k].valid && fs[k].page == p)
    ensures forall j | i <= j < k :: !(fs[j].valid && fs[j].page == p)
    decreases |fs| - i
  {
    if i < |fs| && !(fs[i].valid && fs[i].page == p) then FindFrame(fs, p, i + 1) else i
  }

  function FreeFrame(fs: seq<Frame>, i: nat): (k: nat)
    requires i <= |fs|
    ensures i <= k <= |fs| && (k < |fs| ==> !fs[k].valid)
    ensures forall j | i <= j < k :: fs[j].valid
    decreases |fs| - i
  {
    if i < |fs| && fs[i].valid then FreeFrame(fs, i + 1) else i
  }

  /** May be evicted: not pinned, and clean unless dirty pages may go. */
  predicate Eligible(f: Frame, stealDirty: bool) {
    f.pin == 0 && (!f.dirty || stealDirty)
  }

  /** The least recently used eligible frame among those before i; the first of several. */
  ghost predicate IsLru(fs: seq<Frame>, stealDirty: bool, i: nat, best: Option<nat>)
    requires i <= |fs|
  {
    match best
    case None => forall j | 0 <= j < i :: !Eligible(fs[j], stealDirty)
    case Some(b) =>
      && b < i && Eligible(fs[b], stealDirty)
      && forall j | 0 <= j < i && Eligible(fs[j], stealDirty) :: fs[b].used < fs[j].used
          || (fs[b].used == fs[j].used && b <= j)
  }

  function Lru(fs: seq<Frame>, stealDirty: bool, i: nat): (best: Option<nat>)
    requires i <= |fs|
    ensures IsLru(fs, stealDirty, i, best)
  {
    if i == 0 then None else
      var b := Lru(fs, stealDirty, i - 1);
      if Eligible(fs[i - 1], stealDirty) && (b.None? || fs[i - 1].used < fs[b.value].used) then Some(i - 1) else b
  }

  function MayStealDirty(m: Pool): bool {
    !m.noSteal || m.handler
  }

  /** pick_frame: a free frame, else the LRU victim, written out first when it is dirty. */
  function PickFrame(m: Pool, writeOk: bool): (Pool, Option<nat>) {
    var fs := m.frames;
    var k := FreeFrame(fs, 0);
    if k < |fs| then (m, Some(k))
    else
      var v := Lru(fs, MayStealDirty(m), |fs|);
      if v.None? || (fs[v.value].dirty && !writeOk) then (m, None)
      else
        var f := fs[v.value];
        (m.(frames := fs[v.value := f.(valid := false, dirty := false)],
            disk := if f.dirty then m.disk[f.page := f.data] else m.disk), v)
  }

  // ----- the steps of the threads -----

  datatype Step =
    | Hit(page: nat)
    | Miss(tid: nat, page: nat, writeOk: bool)
    | ReadIn(tid: nat)
    | Finish(tid: nat, ok: bool)
    | WriteData(pin: nat, image: Image)
    | Unpin(pin: nat, dirty: bool)
    | FlushUpTo(n: nat)
    | Allocate(page: nat)
    | SetSteal(noSteal: bool, handler: bool)

  /** The first half of a miss: the frame is reserved and pinned before the latch is dropped. */
  function Reserve(m: Pool, p: nat, writeOk: bool): (Pool, Option<nat>) {
    var (m1, k) := PickFrame(m, writeOk);
    if k.None? || k.value >= |m1.frames| then (m1, None)
    else
      var f := m1.frames[k.value].(page := p, valid := true, dirty := false, loading := true, pin := 1);
      (m1.(frames := m1.frames[k.value := f]), k)
  }

  /** The second half: publish what was read, or give the frame back. */
  function Publish(m: Pool, i: nat, ok: bool): Pool
    requires i < |m.frames|
  {
    var f := m.frames[i];
    if ok then m.(frames := m.frames[i := f.(loading := false, used := m.clock + 1)], clock := m.clock + 1)
    else m.(frames := m.frames[i := f.(loading := false, pin := 0, valid := false)])
  }

  function Touch(m: Pool, i: nat): Pool
    requires i < |m.frames|
  {
    m.(frames := m.frames[i := m.frames[i].(pin := m.frames[i].pin + 1, used := m.clock + 1)], clock := m.clock + 1)
  }

  /** bufpool_unpin. */
  function Release(m: Pool, p: nat, dirty: bool): Pool {
    var i := FindFrame(m.frames, p, 0);
    if i == |m.frames| then m
    else
      var f := m.frames[i];
      m.(frames := m.frames[i := f.(dirty := f.dirty || dirty, pin := if f.pin > 0 then f.pin - 1 else 0)])
  }

  /** bufpool_flush_all, stopped by a failed write before frame n. */
  function Flushed(m: Pool, n: nat): Pool
    requires n <= |m.frames|
  {
    if n == 0 then m
    else
      var b := Flushed(m, n - 1);
      if n > |b.frames| then b else
      var f := b.frames[n - 1];
      if f.valid && f.dirty
      then b.(frames := b.frames[n - 1 := f.(dirty := false)], disk := b.disk[f.page := f.data]) else b
  }

  /** bufpool_invalidate_all: every frame is given up, pinned or not. */
  function Invalidated(fs: seq<Frame>): seq<Frame> {
    seq(|fs|, i requires 0 <= i < |fs| => fs[i].(valid := false, dirty := false, pin := 0))
  }

  function Without(pins: seq<Pin>, i: nat): seq<Pin>
    requires i < |pins|
  {
    pins[..i] + pins[i + 1..]
  }

  /** The protocol: a thread waits while its page is loading, misses only pages that are not cached,
      writes only pages it holds, and unpins what it wrote as dirty. */
  predicate Enabled(w: World, s: Step) {
    var m := w.pool;
    match s
    case Hit(p) => var i := FindFrame(m.frames, p, 0); i < |m.frames| && !m.frames[i].loading
    case Miss(t, p, _) => FindFrame(m.frames, p, 0) == |m.frames| && t !in w.loads
    case ReadIn(t) => t in w.loads && w.loads[t].page in m.disk && w.loads[t].frame < |m.frames|
    case Finish(t, ok) => t in w.loads && (ok ==> w.loads[t].read) && w.loads[t].frame < |m.frames|
    case WriteData(i, _) => i < |w.pins| && FindFrame(m.frames, w.pins[i].page, 0) < |m.frames|
    case Unpin(i, dirty) => i < |w.pins| && (w.pins[i].wrote ==> dirty)
    case FlushUpTo(n) => n <= |m.frames|
    case Allocate(p) => p !in m.disk && FindFrame(m.frames, p, 0) == |m.frames|
    case SetSteal(_, _) => true
  }

  function Next(w: World, s: Step): World
    requires Enabled(w, s)
  {
    var m := w.pool;
    match s
    case Hit(p) => w.(pool := Touch(m, FindFrame(m.frames, p, 0)), pins := w.pins + [Pin(p, false)])
    case Miss(t, p, writeOk) =>
      var (n, k) := Reserve(m, p, writeOk);
      w.(pool := n, loads := if k.None? then w.loads else w.loads[t := Load(k.value, p, false)])
    case ReadIn(t) =>
      var l := w.loads[t];
      World(m.(frames := m.frames[l.frame := m.frames[l.frame].(data := m.disk[l.page])]), w.pins,
          w.loads[t := l.(read := true)])
    case Finish(t, ok) =>
      var l := w.loads[t];
      World(Publish(m, l.frame, ok), if ok then w.pins + [Pin(l.page, false)] else w.pins, w.loads - {t})
    case WriteData(i, v) =>
      var k := FindFrame(m.frames, w.pins[i].page, 0);
      w.(pool := m.(frames := m.frames[k := m.frames[k].(data := v)]), pins := w.pins[i := w.pins[i].(wrote := true)])
    case Unpin(i, dirty) => w.(pool := Release(m, w.pins[i].page, dirty), pins := Without(w.pins, i))
    case FlushUpTo(n) => w.(pool := Flushed(m, n))
    case Allocate(p) => w.(pool := m.(disk := m.disk[p := 0]))
    case SetSteal(noSteal, handler) => w.(pool := m.(noSteal := noSteal, handler := handler))
  }

  function Step1(w: World, s: Step): World {
    if Enabled(w, s) then Next(w, s) else w
  }

  function Fresh(frames: nat, disk: map<nat, Image>): World {
    World(Pool(seq(frames, _ => Frame(0, false, false, 0, false, 0, 0)), 0, disk, false, false), [], map[])
  }

  function Run(w: World, ss: seq<Step>): World
    decreases |ss|
  {
    if ss == [] then w else Step1(Run(w, ss[..|ss| - 1]), ss[|ss| - 1])
  }

  // ----- the view and the invariant -----

  /** The frame of a cached page that is not loading. */
  predicate Ready(f: Frame, p: nat) {
    f.valid && f.page == p && !f.loading
  }

  /** What a reader of the page gets: the cached frame, else the disk. */
  function View(m: Pool, p: nat): Option<Image> {
    var i := FindFrame(m.frames, p, 0);
    if i < |m.frames| && !m.frames[i].loading then Some(m.frames[i].data)
    else if p in m.disk then Some(m.disk[p]) else None
  }

  function Count(pins: seq<Pin>, p: nat): nat {
    if pins == [] then 0 else (if pins[0].page == p then 1 else 0) + Count(pins[1..], p)
  }

  ghost predicate OneFrame(fs: seq<Frame>) {
    forall i, j | 0 <= i < j < |fs| && fs[i].valid && fs[j].valid :: fs[i].page != fs[j].page
  }

  ghost predicate BeingWritten(pins: seq<Pin>, p: nat) {
    exists i :: 0 <= i < |pins| && pins[i].page == p && pins[i].wrote
  }

  /** Pin counts are exactly the pins held; loading frames are pinned by their loader alone;
      a clean frame nobody is writing equals the disk. */
  ghost predicate FrameOk(f: Frame, pins: seq<Pin>, disk: map<nat, Image>) {
    if !f.valid then f.pin == 0 && !f.loading && !f.dirty
    else if f.loading then f.pin == 1 && !f.dirty && Count(pins, f.page) == 0
    else
      && f.pin == Count(pins, f.page) && f.page in disk
      && (!f.dirty && !BeingWritten(pins, f.page) ==> disk[f.page] == f.data)
  }

  /** Every pin is on a cached page that is not loading. */
  ghost predicate PinsCached(fs: seq<Frame>, pins: seq<Pin>) {
    forall i | 0 <= i < |pins| :: Cached(fs, pins[i].page)
  }

  ghost predicate Cached(fs: seq<Frame>, p: nat) {
    exists k :: 0 <= k < |fs| && Ready(fs[k], p)
  }

  ghost predicate LoadOk(l: Load, fs: seq<Frame>, disk: map<nat, Image>) {
    && l.frame < |fs| && fs[l.frame].valid && fs[l.frame].loading && fs[l.frame].page == l.page
    && (l.read ==> l.page in disk && fs[l.frame].data == disk[l.page])
  }

  ghost predicate LoadsOk(w: World) {
    && (forall t | t in w.loads :: LoadOk(w.loads[t], w.pool.frames, w.pool.disk))
    && forall t, u | t in w.loads && u in w.loads && t != u :: w.loads[t].frame != w.loads[u].frame
  }

  ghost predicate Inv(w: World) {
    && OneFrame(w.pool.frames)
    && (forall i | 0 <= i < |w.pool.frames| :: FrameOk(w.pool.frames[i], w.pins, w.pool.disk))
    && PinsCached(w.pool.frames, w.pins)
    && LoadsOk(w)
  }

  // ----- counting pins -----

  lemma {:induction false} CountSnoc(pins: seq<Pin>, x: Pin, p: nat)
    ensures Count(pins + [x], p) == Count(pins, p) + if x.page == p then 1 else 0
  {
    if pins == [] {
      assert [] + [x] == [x];
    } else {
      assert (pins + [x])[1..] == pins[1..] + [x];
      CountSnoc(pins[1..], x, p);
    }
  }

  lemma {:induction false} CountWithout(pins: seq<Pin>, i: nat, p: nat)
    requires i < |pins|
    ensures Count(pins, p) == Count(Without(pins, i), p) + if pins[i].page == p then 1 else 0
  {
    if i == 0 {
      assert Without(pins, 0) == pins[1..];
    } else {
      assert Without(pins, i)[1..] == Without(pins[1..], i - 1);
      CountWithout(pins[1..], i - 1, p);
    }
  }

  lemma {:induction false} CountSame(a: seq<Pin>, b: seq<Pin>, p: nat)
    requires |a| == |b| && forall i | 0 <= i < |a| :: a[i].page == b[i].page
    ensures Count(a, p) == Count(b, p)
  {
    if a != [] { CountSame(a[1..], b[1..], p); }
  }

  lemma HeldCounts(pins: seq<Pin>, i: nat)
    requires i < |pins|
    ensures Count(pins, pins[i].page) > 0
  {
    CountWithout(pins, i, pins[i].page);
  }

  lemma NotHeld(pins: seq<Pin>, p: nat)
    requires Count(pins, p) == 0
    ensures !BeingWritten(pins, p)
  {
    forall i | 0 <= i < |pins|
      ensures pins[i].page != p
    {
      HeldCounts(pins, i);
    }
  }

  lemma {:induction false} HolderOf(pins: seq<Pin>, p: nat) returns (i: nat)
    requires Count(pins, p) > 0
    ensures i < |pins| && pins[i].page == p
  {
    if pins[0].page == p { i := 0; } else { i := HolderOf(pins[1..], p); i := i + 1; }
  }

  // ----- finding frames -----

  lemma FindUnique(fs: seq<Frame>, p: nat, k: nat)
    requires OneFrame(fs) && k < |fs| && fs[k].valid && fs[k].page == p
    ensures FindFrame(fs, p, 0) == k
  {
  }

  lemma ViewReady(m: Pool, p: nat, k: nat)
    requires OneFrame(m.frames) && k < |m.frames| && Ready(m.frames[k], p)
    ensures View(m, p) == Some(m.frames[k].data)
  {
    FindUnique(m.frames, p, k);
  }

  lemma ViewDisk(m: Pool, p: nat)
    requires !Cached(m.frames, p)
    ensures View(m, p) == if p in m.disk then Some(m.disk[p]) else None
  {
  }

  /** Two pools give the same view of a page when it is ready in the same frame with the same data,
      or ready in neither and the same on disk. */
  lemma SameView(a: Pool, b: Pool, p: nat)
    requires OneFrame(a.frames) && OneFrame(b.frames) && |a.frames| == |b.frames|
    requires forall k | 0 <= k < |a.frames| ::
               Ready(a.frames[k], p) <==> Ready(b.frames[k], p)
    requires forall k | 0 <= k < |a.frames| && Ready(a.frames[k], p) :: a.frames[k].data == b.frames[k].data
    requires (p in a.disk <==> p in b.disk) && (p in a.disk ==> a.disk[p] == b.disk[p])
    ensures View(a, p) == View(b, p)
  {
    if Cached(a.frames, p) {
      var k :| 0 <= k < |a.frames| && Ready(a.frames[k], p);
      ViewReady(a, p, k);
      ViewReady(b, p, k);
    } else {
      ViewDisk(a, p);
      ViewDisk(b, p);
    }
  }

  ghost predicate SameViews(a: Pool, b: Pool) {
    forall p: nat :: View(a, p) == View(b, p)
  }

  lemma PinnedFrame(w: World, i: nat) returns (k: nat)
    requires Inv(w) && i < |w.pins|
    ensures k == FindFrame(w.pool.frames, w.pins[i].page, 0) && k < |w.pool.frames|
            && Ready(w.pool.frames[k], w.pins[i].page)
  {
    assert Cached(w.pool.frames, w.pins[i].page);
    k :| 0 <= k < |w.pool.frames| && Ready(w.pool.frames[k], w.pins[i].page);
    FindUnique(w.pool.frames, w.pins[i].page, k);
  }

  // ----- each step keeps the invariant -----

  lemma WrittenSnoc(pins: seq<Pin>, x: Pin, p: nat)
    requires !x.wrote
    ensures BeingWritten(pins + [x], p) <==> BeingWritten(pins, p)
  {
    if BeingWritten(pins, p) {
      var i :| 0 <= i < |pins| && pins[i].page == p && pins[i].wrote;
      assert (pins + [x])[i] == pins[i];
    }
  }

  /** Frames that stay ready keep their pins cached. */
  lemma KeepCached(fs: seq<Frame>, gs: seq<Frame>, p: nat)
    requires |fs| == |gs| && Cached(fs, p) && forall k | 0 <= k < |fs| && Ready(fs[k], p) :: Ready(gs[k], p)
    ensures Cached(gs, p)
  {
    var k :| 0 <= k < |fs| && Ready(fs[k], p);
    assert Ready(gs[k], p);
  }

  /** Loads go on undisturbed when their frames and the disk below them stay. */
  lemma KeepLoads(w: World, n: World)
    requires LoadsOk(w) && n.loads == w.loads && |n.pool.frames| == |w.pool.frames|
    requires forall t | t in w.loads ::
               var l := w.loads[t];
               && n.pool.frames[l.frame] == w.pool.frames[l.frame]
               && (l.page in w.pool.disk ==> l.page in n.pool.disk && n.pool.disk[l.page] == w.pool.disk[l.page])
    ensures LoadsOk(n)
  {
    forall t | t in n.loads
      ensures LoadOk(n.loads[t], n.pool.frames, n.pool.disk)
    {
      assert LoadOk(w.loads[t], w.pool.frames, w.pool.disk);
    }
  }

  lemma KeepHit(w: World, p: nat)
    requires Inv(w) && Enabled(w, Hit(p))
    ensures Inv(Next(w, Hit(p))) && SameViews(w.pool, Next(w, Hit(p)).pool)
  {
    var n, i := Next(w, Hit(p)), FindFrame(w.pool.frames, p, 0);
    HitFrames(w, p);
    assert Ready(n.pool.frames[i], p);
    forall j | 0 <= j < |n.pins|
      ensures Cached(n.pool.frames, n.pins[j].page)
    {
      if j < |w.pins| { KeepCached(w.pool.frames, n.pool.frames, w.pins[j].page); }
    }
    KeepLoads(w, n);
    forall q: nat
      ensures View(w.pool, q) == View(n.pool, q)
    {
      SameView(w.pool, n.pool, q);
    }
  }

  lemma HitFrames(w: World, p: nat)
    requires Inv(w) && Enabled(w, Hit(p))
    ensures var n := Next(w, Hit(p));
            forall j | 0 <= j < |n.pool.frames| :: FrameOk(n.pool.frames[j], n.pins, n.pool.disk)
  {
    var n := Next(w, Hit(p));
    forall j | 0 <= j < |n.pool.frames|
      ensures FrameOk(n.pool.frames[j], n.pins, n.pool.disk)
    {
      var f := w.pool.frames[j];
      assert FrameOk(f, w.pins, w.pool.disk);
      CountSnoc(w.pins, Pin(p, false), f.page);
      WrittenSnoc(w.pins, Pin(p, false), f.page);
    }
  }

  /** A frame written out: the disk catches up with it and it becomes clean, or leaves the pool. */
  ghost predicate WrittenOut(w: World, n: World, k: nat) {
    && k < |w.pool.frames| && n.pins == w.pins && n.loads == w.loads
    && var f := w.pool.frames[k];
       && f.valid && !f.loading
       && n.pool.disk == (if f.dirty then w.pool.disk[f.page := f.data] else w.pool.disk)
       && (n.pool.frames == w.pool.frames[k := f.(dirty := false)]
           || (f.pin == 0 && n.pool.frames == w.pool.frames[k := f.(valid := false, dirty := false)]))
  }

  lemma KeepWrittenOut(w: World, n: World, k: nat)
    requires Inv(w) && WrittenOut(w, n, k)
    ensures Inv(n) && SameViews(w.pool, n.pool)
  {
    var f := w.pool.frames[k];
    forall j | 0 <= j < |n.pool.frames|
      ensures FrameOk(n.pool.frames[j], n.pins, n.pool.disk)
    {
      assert FrameOk(w.pool.frames[j], w.pins, w.pool.disk);
    }
    forall j | 0 <= j < |n.pins|
      ensures Cached(n.pool.frames, n.pins[j].page)
    {
      HeldCounts(w.pins, j);
      assert FrameOk(f, w.pins, w.pool.disk);
      KeepCached(w.pool.frames, n.pool.frames, w.pins[j].page);
    }
    KeepLoads(w, n);
    forall q: nat
      ensures View(w.pool, q) == View(n.pool, q)
    {
      WrittenOutView(w, n, k, q);
    }
  }

  lemma WrittenOutView(w: World, n: World, k: nat, q: nat)
    requires Inv(w) && WrittenOut(w, n, k) && OneFrame(n.pool.frames)
    ensures View(w.pool, q) == View(n.pool, q)
  {
    var f := w.pool.frames[k];
    if q == f.page {
      ViewReady(w.pool, q, k);
      if n.pool.frames[k].valid {
        ViewReady(n.pool, q, k);
      } else {
        assert FrameOk(f, w.pins, w.pool.disk);
        NotHeld(w.pins, q);
        ViewDisk(n.pool, q);
      }
    } else {
      SameView(w.pool, n.pool, q);
    }
  }

  /** Evicting a victim keeps every view: nobody holds it, and the disk has its contents. */
  lemma KeepPick(w: World, writeOk: bool)
    requires Inv(w)
    ensures var (m, k) := PickFrame(w.pool, writeOk); var n := w.(pool := m);
            && Inv(n) && SameViews(w.pool, m) && |m.frames| == |w.pool.frames|
            && (k.Some? ==> k.value < |m.frames| && !m.frames[k.value].valid)
  {
    var m, fs := w.pool, w.pool.frames;
    if FreeFrame(fs, 0) == |fs| {
      var v := Lru(fs, MayStealDirty(m), |fs|);
      if v.Some? && (fs[v.value].dirty ==> writeOk) {
        assert FrameOk(fs[v.value], w.pins, m.disk);
        KeepWrittenOut(w, w.(pool := PickFrame(m, writeOk).0), v.value);
      }
    }
  }

  /** An unused frame becomes the loading frame of a page that is not cached. */
  lemma KeepReserve(w: World, t: nat, p: nat, k: nat)
    requires Inv(w) && k < |w.pool.frames| && !w.pool.frames[k].valid && t !in w.loads
    requires FindFrame(w.pool.frames, p, 0) == |w.pool.frames|
    ensures var f := w.pool.frames[k].(page := p, valid := true, dirty := false, loading := true, pin := 1);
            var n := World(w.pool.(frames := w.pool.frames[k := f]), w.pins, w.loads[t := Load(k, p, false)]);
            Inv(n) && SameViews(w.pool, n.pool)
  {
    var f := w.pool.frames[k].(page := p, valid := true, dirty := false, loading := true, pin := 1);
    var n := World(w.pool.(frames := w.pool.frames[k := f]), w.pins, w.loads[t := Load(k, p, false)]);
    NobodyHolds(w, p);
    forall j | 0 <= j < |n.pool.frames|
      ensures FrameOk(n.pool.frames[j], n.pins, n.pool.disk)
    {
      assert FrameOk(w.pool.frames[j], w.pins, w.pool.disk);
    }
    forall j | 0 <= j < |n.pins|
      ensures Cached(n.pool.frames, n.pins[j].page)
    {
      KeepCached(w.pool.frames, n.pool.frames, w.pins[j].page);
    }
    KeepLoads(w, n.(loads := w.loads));
    forall q: nat
      ensures View(w.pool, q) == View(n.pool, q)
    {
      SameView(w.pool, n.pool, q);
    }
  }

  lemma NobodyHolds(w: World, p: nat)
    requires Inv(w) && FindFrame(w.pool.frames, p, 0) == |w.pool.frames|
    ensures Count(w.pins, p) == 0
  {
    if Count(w.pins, p) > 0 {
      var i := HolderOf(w.pins, p);
      var k := PinnedFrame(w, i);
    }
  }

  /** Evicting a victim does not bring another page in. */
  lemma StillMissing(m: Pool, p: nat, writeOk: bool)
    requires FindFrame(m.frames, p, 0) == |m.frames|
    ensures var n := PickFrame(m, writeOk).0; FindFrame(n.frames, p, 0) == |n.frames| == |m.frames|
  {
  }

  lemma KeepMiss(w: World, t: nat, p: nat, writeOk: bool)
    requires Inv(w) && Enabled(w, Miss(t, p, writeOk))
    ensures var n := Next(w, Miss(t, p, writeOk)); Inv(n) && SameViews(w.pool, n.pool)
  {
    var (m, k) := PickFrame(w.pool, writeOk);
    KeepPick(w, writeOk);
    StillMissing(w.pool, p, writeOk);
    if k.Some? { KeepReserve(w.(pool := m), t, p, k.value); }
  }

  lemma KeepReadIn(w: World, t: nat)
    requires Inv(w) && Enabled(w, ReadIn(t))
    ensures var n := Next(w, ReadIn(t)); Inv(n) && SameViews(w.pool, n.pool)
  {
    var n, l := Next(w, ReadIn(t)), w.loads[t];
    assert LoadOk(l, w.pool.frames, w.pool.disk);
    forall j | 0 <= j < |n.pool.frames|
      ensures FrameOk(n.pool.frames[j], n.pins, n.pool.disk)
    {
      assert FrameOk(w.pool.frames[j], w.pins, w.pool.disk);
    }
    forall j | 0 <= j < |n.pins|
      ensures Cached(n.pool.frames, n.pins[j].page)
    {
      KeepCached(w.pool.frames, n.pool.frames, w.pins[j].page);
    }
    forall u | u in n.loads
      ensures LoadOk(n.loads[u], n.pool.frames, n.pool.disk)
    {
      assert LoadOk(w.loads[u], w.pool.frames, w.pool.disk);
    }
    forall q: nat
      ensures View(w.pool, q) == View(n.pool, q)
    {
      SameView(w.pool, n.pool, q);
    }
  }

  lemma FinishFrames(w: World, t: nat, ok: bool)
    requires Inv(w) && Enabled(w, Finish(t, ok))
    ensures var n := Next(w, Finish(t, ok));
            forall j | 0 <= j < |n.pool.frames| :: FrameOk(n.pool.frames[j], n.pins, n.pool.disk)
  {
    var n, l := Next(w, Finish(t, ok)), w.loads[t];
    assert LoadOk(l, w.pool.frames, w.pool.disk);
    forall j | 0 <= j < |n.pool.frames|
      ensures FrameOk(n.pool.frames[j], n.pins, n.pool.disk)
    {
      var f := w.pool.frames[j];
      assert FrameOk(f, w.pins, w.pool.disk);
      CountSnoc(w.pins, Pin(l.page, false), f.page);
      WrittenSnoc(w.pins, Pin(l.page, false), f.page);
    }
  }

  lemma FinishLoads(w: World, t: nat, ok: bool)
    requires Inv(w) && Enabled(w, Finish(t, ok))
    ensures LoadsOk(Next(w, Finish(t, ok)))
  {
    var n := Next(w, Finish(t, ok));
    KeepLoads(w.(loads := w.loads - {t}), n);
  }

  lemma FinishView(w: World, t: nat, ok: bool, q: nat)
    requires Inv(w) && Enabled(w, Finish(t, ok)) && OneFrame(Next(w, Finish(t, ok)).pool.frames)
    ensures View(w.pool, q) == View(Next(w, Finish(t, ok)).pool, q)
  {
    var n, l := Next(w, Finish(t, ok)), w.loads[t];
    assert LoadOk(l, w.pool.frames, w.pool.disk);
    if q == l.page {
      ViewDisk(w.pool, q);
      if ok { ViewReady(n.pool, q, l.frame); } else { ViewDisk(n.pool, q); }
    } else {
      SameView(w.pool, n.pool, q);
    }
  }

  lemma KeepFinish(w: World, t: nat, ok: bool)
    requires Inv(w) && Enabled(w, Finish(t, ok))
    ensures var n := Next(w, Finish(t, ok)); Inv(n) && SameViews(w.pool, n.pool)
  {
    var n, l := Next(w, Finish(t, ok)), w.loads[t];
    assert LoadOk(l, w.pool.frames, w.pool.disk);
    FinishFrames(w, t, ok);
    FinishLoads(w, t, ok);
    assert ok ==> Ready(n.pool.frames[l.frame], l.page);
    forall j | 0 <= j < |n.pins|
      ensures Cached(n.pool.frames, n.pins[j].page)
    {
      if j < |w.pins| { KeepCached(w.pool.frames, n.pool.frames, w.pins[j].page); }
    }
    forall q: nat
      ensures View(w.pool, q) == View(n.pool, q)
    {
      FinishView(w, t, ok, q);
    }
  }

  lemma WrittenUpdate(pins: seq<Pin>, i: nat, p: nat)
    requires i < |pins| && pins[i].page != p
    ensures BeingWritten(pins[i := pins[i].(wrote := true)], p) <==> BeingWritten(pins, p)
  {
    var after := pins[i := pins[i].(wrote := true)];
    if BeingWritten(pins, p) {
      var j :| 0 <= j < |pins| && pins[j].page == p && pins[j].wrote;
      assert after[j] == pins[j];
    }
    if BeingWritten(after, p) {
      var j :| 0 <= j < |after| && after[j].page == p && after[j].wrote;
      assert after[j] == pins[j];
    }
  }

  /** A pin holder's write changes the view of that page to what was written, and of no other. */
  lemma KeepWriteData(w: World, i: nat, v: Image)
    requires Inv(w) && Enabled(w, WriteData(i, v))
    ensures var n := Next(w, WriteData(i, v));
            && Inv(n) && View(n.pool, w.pins[i].page) == Some(v)
            && forall q: nat | q != w.pins[i].page :: View(n.pool, q) == View(w.pool, q)
  {
    var n, p := Next(w, WriteData(i, v)), w.pins[i].page;
    var k := PinnedFrame(w, i);
    assert n.pins[i].page == p && n.pins[i].wrote;
    forall j | 0 <= j < |n.pool.frames|
      ensures FrameOk(n.pool.frames[j], n.pins, n.pool.disk)
    {
      var f := w.pool.frames[j];
      assert FrameOk(f, w.pins, w.pool.disk);
      CountSame(w.pins, n.pins, f.page);
      if f.page != p { WrittenUpdate(w.pins, i, f.page); }
    }
    forall j | 0 <= j < |n.pins|
      ensures Cached(n.pool.frames, n.pins[j].page)
    {
      KeepCached(w.pool.frames, n.pool.frames, w.pins[j].page);
    }
    KeepLoads(w, n);
    ViewReady(n.pool, p, k);
    forall q: nat | q != p
      ensures View(n.pool, q) == View(w.pool, q)
    {
      SameView(w.pool, n.pool, q);
    }
  }

  lemma WrittenWithout(pins: seq<Pin>, i: nat, p: nat)
    requires i < |pins| && BeingWritten(pins, p)
    ensures BeingWritten(Without(pins, i), p) || (pins[i].page == p && pins[i].wrote)
  {
    var j :| 0 <= j < |pins| && pins[j].page == p && pins[j].wrote;
    if j < i {
      assert Without(pins, i)[j] == pins[j];
    } else if j > i {
      assert Without(pins, i)[j - 1] == pins[j];
    }
  }

  lemma UnpinFrames(w: World, i: nat, dirty: bool)
    requires Inv(w) && Enabled(w, Unpin(i, dirty))
    ensures var n := Next(w, Unpin(i, dirty));
            forall j | 0 <= j < |n.pool.frames| :: FrameOk(n.pool.frames[j], n.pins, n.pool.disk)
  {
    var n := Next(w, Unpin(i, dirty));
    var k := PinnedFrame(w, i);
    HeldCounts(w.pins, i);
    forall j | 0 <= j < |n.pool.frames|
      ensures FrameOk(n.pool.frames[j], n.pins, n.pool.disk)
    {
      var f := w.pool.frames[j];
      assert FrameOk(f, w.pins, w.pool.disk);
      CountWithout(w.pins, i, f.page);
      if BeingWritten(w.pins, f.page) { WrittenWithout(w.pins, i, f.page); }
    }
  }

  lemma KeepUnpin(w: World, i: nat, dirty: bool)
    requires Inv(w) && Enabled(w, Unpin(i, dirty))
    ensures var n := Next(w, Unpin(i, dirty)); Inv(n) && SameViews(w.pool, n.pool)
  {
    var n := Next(w, Unpin(i, dirty));
    var k := PinnedFrame(w, i);
    UnpinFrames(w, i, dirty);
    forall j | 0 <= j < |n.pins|
      ensures Cached(n.pool.frames, n.pins[j].page)
    {
      var was := if j < i then j else j + 1;
      assert n.pins[j] == w.pins[was];
      KeepCached(w.pool.frames, n.pool.frames, w.pins[was].page);
    }
    KeepLoads(w, n);
    forall q: nat
      ensures View(w.pool, q) == View(n.pool, q)
    {
      SameView(w.pool, n.pool, q);
    }
  }

  lemma SameViewsTrans(a: Pool, b: Pool, c: Pool)
    requires SameViews(a, b) && SameViews(b, c)
    ensures SameViews(a, c)
  {
    assert forall p: nat :: View(a, p) == View(b, p) && View(b, p) == View(c, p);
  }

  lemma {:induction false} KeepFlush(w: World, n: nat)
    requires Inv(w) && n <= |w.pool.frames|
    ensures var f := Flushed(w.pool, n); |f.frames| == |w.pool.frames| && Inv(w.(pool := f)) && SameViews(w.pool, f)
  {
    if n > 0 {
      KeepFlush(w, n - 1);
      FlushOne(w.(pool := Flushed(w.pool, n - 1)), n - 1, Flushed(w.pool, n));
      SameViewsTrans(w.pool, Flushed(w.pool, n - 1), Flushed(w.pool, n));
    }
  }

  lemma FlushOne(w: World, k: nat, m: Pool)
    requires Inv(w) && k < |w.pool.frames|
    requires var f := w.pool.frames[k];
             m == if f.valid && f.dirty
                  then w.pool.(frames := w.pool.frames[k := f.(dirty := false)],
                      disk := w.pool.disk[f.page := f.data]) else w.pool
    ensures Inv(w.(pool := m)) && SameViews(w.pool, m)
  {
    var f := w.pool.frames[k];
    assert FrameOk(f, w.pins, w.pool.disk);
    if f.valid && f.dirty { KeepWrittenOut(w, w.(pool := m), k); }
  }

  lemma KeepAllocate(w: World, p: nat)
    requires Inv(w) && Enabled(w, Allocate(p))
    ensures var n := Next(w, Allocate(p));
            Inv(n) && View(n.pool, p) == Some(0) && forall q: nat | q != p :: View(n.pool, q) == View(w.pool, q)
  {
    var n := Next(w, Allocate(p));
    forall j | 0 <= j < |n.pool.frames|
      ensures FrameOk(n.pool.frames[j], n.pins, n.pool.disk)
    {
      assert FrameOk(w.pool.frames[j], w.pins, w.pool.disk);
    }
    forall t | t in n.loads
      ensures LoadOk(n.loads[t], n.pool.frames, n.pool.disk)
    {
      assert LoadOk(w.loads[t], w.pool.frames, w.pool.disk);
    }
    forall q: nat | q != p
      ensures View(n.pool, q) == View(w.pool, q)
    {
      SameView(w.pool, n.pool, q);
    }
  }

  lemma KeepSteal(w: World, noSteal: bool, handler: bool)
    requires Inv(w)
    ensures var n := Next(w, SetSteal(noSteal, handler)); Inv(n) && SameViews(w.pool, n.pool)
  {
    var n := Next(w, SetSteal(noSteal, handler));
    KeepLoads(w, n);
  }

  // ----- over every run -----

  lemma KeepStep(w: World, s: Step)
    requires Inv(w)
    ensures Inv(Step1(w, s))
  {
    if Enabled(w, s) {
      match s
      case Hit(p) => KeepHit(w, p);
      case Miss(t, p, writeOk) => KeepMiss(w, t, p, writeOk);
      case ReadIn(t) => KeepReadIn(w, t);
      case Finish(t, ok) => KeepFinish(w, t, ok);
      case WriteData(i, v) => KeepWriteData(w, i, v);
      case Unpin(i, dirty) => KeepUnpin(w, i, dirty);
      case FlushUpTo(n) => KeepFlush(w, n);
      case Allocate(p) => KeepAllocate(w, p);
      case SetSteal(noSteal, handler) => KeepSteal(w, noSteal, handler);
    }
  }

  lemma {:induction false} RunKeeps(w: World, ss: seq<Step>)
    requires Inv(w)
    ensures Inv(Run(w, ss))
    decreases |ss|
  {
    if ss != [] {
      RunKeeps(w, ss[..|ss| - 1]);
      KeepStep(Run(w, ss[..|ss| - 1]), ss[|ss| - 1]);
    }
  }

  lemma RunInv(frames: nat, disk: map<nat, Image>, ss: seq<Step>)
    ensures Inv(Run(Fresh(frames, disk), ss))
  {
    RunKeeps(Fresh(frames, disk), ss);
  }

  /** The view of a page after a step: a pin holder's write sets it, a new page starts as zeros,
      and nothing else - no load, eviction, flush or unpin - changes it. */
  function ViewAfter(w: World, s: Step, p: nat): Option<Image> {
    if !Enabled(w, s) then View(w.pool, p)
    else if s.WriteData? && w.pins[s.pin].page == p then Some(s.image)
    else if s.Allocate? && s.page == p then Some(0)
    else View(w.pool, p)
  }

  /** In every reachable state, at every step, the view changes only by a pin holder's write. */
  lemma ViewChangesOnlyByWrites(frames: nat, disk: map<nat, Image>, ss: seq<Step>, s: Step, p: nat)
    ensures var w := Run(Fresh(frames, disk), ss); View(Step1(w, s).pool, p) == ViewAfter(w, s, p)
  {
    RunInv(frames, disk, ss);
    StepView(Run(Fresh(frames, disk), ss), s, p);
  }

  lemma StepView(w: World, s: Step, p: nat)
    requires Inv(w)
    ensures View(Step1(w, s).pool, p) == ViewAfter(w, s, p)
  {
    if Enabled(w, s) {
      match s
      case Hit(q) => KeepHit(w, q);
      case Miss(t, q, writeOk) => KeepMiss(w, t, q, writeOk);
      case ReadIn(t) => KeepReadIn(w, t);
      case Finish(t, ok) => KeepFinish(w, t, ok);
      case WriteData(i, v) => KeepWriteData(w, i, v);
      case Unpin(i, dirty) => KeepUnpin(w, i, dirty);
      case FlushUpTo(n) => KeepFlush(w, n);
      case Allocate(q) => KeepAllocate(w, q);
      case SetSteal(noSteal, handler) => KeepSteal(w, noSteal, handler);
    }
  }

  /** In every reachable state a page is in at most one valid frame, and a miss leaves every pinned
      or loading frame as it was. */
  lemma NeverEvictsPinned(frames: nat, disk: map<nat, Image>, ss: seq<Step>, t: nat, p: nat, writeOk: bool, i: nat)
    requires var w := Run(Fresh(frames, disk), ss);
             i < |w.pool.frames| && (w.pool.frames[i].pin > 0 || w.pool.frames[i].loading)
    ensures var w := Run(Fresh(frames, disk), ss); var n := Step1(w, Miss(t, p, writeOk));
            OneFrame(w.pool.frames) && i < |n.pool.frames| && n.pool.frames[i] == w.pool.frames[i]
  {
    RunInv(frames, disk, ss);
    var w := Run(Fresh(frames, disk), ss);
    assert FrameOk(w.pool.frames[i], w.pins, w.pool.disk);
    VictimUnpinned(w.pool, writeOk);
  }

  lemma VictimUnpinned(m: Pool, writeOk: bool)
    ensures var (n, k) := PickFrame(m, writeOk);
            && |n.frames| == |m.frames| && (k.Some? ==>
                k.value < |m.frames|
                && (!m.frames[k.value].valid || m.frames[k.value].pin == 0))
            && forall j | 0 <= j < |m.frames| && k != Some(j) :: n.frames[j] == m.frames[j]
  {
  }

  /** The image last written to the page by a pin holder of the run, or what the disk held at first. */
  function LastWritten(frames: nat, disk: map<nat, Image>, ss: seq<Step>, p: nat): Option<Image>
    decreases |ss|
  {
    if ss == [] then if p in disk then Some(disk[p]) else None
    else
      var n := |ss| - 1;
      var w, s := Run(Fresh(frames, disk), ss[..n]), ss[n];
      if Enabled(w, s) && s.WriteData? && w.pins[s.pin].page == p then Some(s.image)
      else if Enabled(w, s) && s.Allocate? && s.page == p then Some(0)
      else LastWritten(frames, disk, ss[..n], p)
  }

  lemma {:induction false} ViewIsLastWritten(frames: nat, disk: map<nat, Image>, ss: seq<Step>, p: nat)
    ensures View(Run(Fresh(frames, disk), ss).pool, p) == LastWritten(frames, disk, ss, p)
    decreases |ss|
  {
    if ss != [] {
      ViewIsLastWritten(frames, disk, ss[..|ss| - 1], p);
      ViewChangesOnlyByWrites(frames, disk, ss[..|ss| - 1], ss[|ss| - 1], p);
    }
  }

  /** Every fetch reads the last write: the frame a hit pins, and the frame a load publishes, hold the image
      last written to their page, through whatever loads, evictions and flushes lie between. */
  lemma FetchReadsLastWrite(frames: nat, disk: map<nat, Image>, ss: seq<Step>, s: Step)
    requires Enabled(Run(Fresh(frames, disk), ss), s) && (s.Hit? || (s.Finish? && s.ok))
    ensures var w := Run(Fresh(frames, disk), ss); var n := Next(w, s);
            var p := if s.Hit? then s.page else w.loads[s.tid].page;
            exists i :: 0 <= i < |n.pool.frames| && Ready(n.pool.frames[i], p) && n.pool.frames[i].pin > 0
                        && LastWritten(frames, disk, ss, p) == Some(n.pool.frames[i].data)
  {
    RunInv(frames, disk, ss);
    var w := Run(Fresh(frames, disk), ss);
    var p := if s.Hit? then s.page else w.loads[s.tid].page;
    var i := if s.Hit? then FindFrame(w.pool.frames, p, 0) else w.loads[s.tid].frame;
    ViewIsLastWritten(frames, disk, ss, p);
    ViewChangesOnlyByWrites(frames, disk, ss, s, p);
    KeepStep(w, s);
    if s.Finish? { FinishPins(w, s.tid); }
    assert Ready(Next(w, s).pool.frames[i], p);
    ViewReady(Next(w, s).pool, p, i);
  }

  lemma FinishPins(w: World, t: nat)
    requires Inv(w) && Enabled(w, Finish(t, true))
    ensures var i := w.loads[t].frame; var n := Next(w, Finish(t, true));
            i < |n.pool.frames| && Ready(n.pool.frames[i], w.loads[t].page) && n.pool.frames[i].pin > 0
  {
    var i := w.loads[t].frame;
    assert LoadOk(w.loads[t], w.pool.frames, w.pool.disk);
    assert FrameOk(w.pool.frames[i], w.pins, w.pool.disk);
  }

  // ----- what a flush writes -----

  /** Frame i is one the flush has to write. */
  predicate Unsaved(m: Pool, i: nat) {
    i < |m.frames| && m.frames[i].valid && m.frames[i].dirty
  }

  /** f is m with its dirty pages before frame n on disk and clean, and nothing else changed. */
  ghost predicate Saved(m: Pool, f: Pool, n: nat) {
    && f == m.(frames := f.frames, disk := f.disk) && |f.frames| == |m.frames|
    && (forall i: nat | i < |m.frames| ::
          f.frames[i] == if i < n && Unsaved(m, i) then m.frames[i].(dirty := false) else m.frames[i])
    && (forall i: nat | i < n && Unsaved(m, i) ::
          m.frames[i].page in f.disk && f.disk[m.frames[i].page] == m.frames[i].data)
    && forall p: nat | forall i: nat | i < n && Unsaved(m, i) :: m.frames[i].page != p ::
         (p in f.disk <==> p in m.disk) && (p in m.disk ==> f.disk[p] == m.disk[p])
  }

  /** A flush stopped before frame n has written exactly the dirty pages of the frames before it. */
  lemma {:induction false} FlushWrites(m: Pool, n: nat)
    requires OneFrame(m.frames) && n <= |m.frames|
    ensures Saved(m, Flushed(m, n), n)
  {
    if n > 0 {
      FlushWrites(m, n - 1);
      FlushWritesOne(m, Flushed(m, n - 1), Flushed(m, n), n - 1);
    }
  }

  lemma FlushWritesOne(m: Pool, b: Pool, f: Pool, k: nat)
    requires OneFrame(m.frames) && k < |m.frames| && Saved(m, b, k)
    requires f == if Unsaved(b, k)
                  then b.(frames := b.frames[k := b.frames[k].(dirty := false)],
                          disk := b.disk[b.frames[k].page := b.frames[k].data])
                  else b
    ensures Saved(m, f, k + 1)
  {
    assert b.frames[k] == m.frames[k];
    assert Unsaved(b, k) <==> Unsaved(m, k);
    forall i: nat | i < k + 1 && Unsaved(m, i)
      ensures m.frames[i].page in f.disk && f.disk[m.frames[i].page] == m.frames[i].data
    {
      if i < k { assert m.frames[i].page != m.frames[k].page || !m.frames[k].valid; }
    }
    forall p: nat | forall i: nat | i < k + 1 && Unsaved(m, i) :: m.frames[i].page != p
      ensures (p in f.disk <==> p in m.disk) && (p in m.disk ==> f.disk[p] == m.disk[p])
    {
      assert Unsaved(m, k) ==> m.frames[k].page != p;
    }
  }

  /** After a full flush, with no page being written, the disk alone holds for every page the image last
      written to it. */
  lemma FlushMakesDurable(frames: nat, disk: map<nat, Image>, ss: seq<Step>, p: nat)
    requires var w := Run(Fresh(frames, disk), ss); forall i | 0 <= i < |w.pins| :: !w.pins[i].wrote
    ensures var w := Run(Fresh(frames, disk), ss); var d := Flushed(w.pool, |w.pool.frames|).disk;
            (if p in d then Some(d[p]) else None) == LastWritten(frames, disk, ss, p)
  {
    var w := Run(Fresh(frames, disk), ss);
    RunInv(frames, disk, ss);
    ViewIsLastWritten(frames, disk, ss, p);
    KeepFlush(w, |w.pool.frames|);
    FlushWrites(w.pool, |w.pool.frames|);
    CleanIsDisk(w.(pool := Flushed(w.pool, |w.pool.frames|)), p);
  }

  lemma CleanIsDisk(w: World, p: nat)
    requires Inv(w) && (forall i | 0 <= i < |w.pins| :: !w.pins[i].wrote)
    requires forall i: nat | i < |w.pool.frames| :: !Unsaved(w.pool, i)
    ensures View(w.pool, p) == if p in w.pool.disk then Some(w.pool.disk[p]) else None
  {
    var i := FindFrame(w.pool.frames, p, 0);
    if i < |w.pool.frames| {
      assert FrameOk(w.pool.frames[i], w.pins, w.pool.disk);
      assert !Unsaved(w.pool, i);
    }
  }

  // ----- least recently used, in terms of the run -----

  /** The step hands a page to a thread. */
  predicate IsFetch(w: World, s: Step) {
    Enabled(w, s) && (s.Hit? || (s.Finish? && s.ok))
  }

  function FetchedPage(w: World, s: Step): nat
    requires IsFetch(w, s)
  {
    if s.Hit? then s.page else w.loads[s.tid].page
  }

  /** How many fetches the run made. */
  function FetchCount(w: World, ss: seq<Step>): nat
    decreases |ss|
  {
    if ss == [] then 0
    else FetchCount(w, ss[..|ss| - 1]) + if IsFetch(Run(w, ss[..|ss| - 1]), ss[|ss| - 1]) then 1 else 0
  }

  /** The number of the last fetch of page p among them; 0 if there is none. */
  function FetchTime(w: World, ss: seq<Step>, p: nat): nat
    decreases |ss|
  {
    if ss == [] then 0
    else
      var n := |ss| - 1;
      var v := Run(w, ss[..n]);
      if IsFetch(v, ss[n]) && FetchedPage(v, ss[n]) == p then FetchCount(w, ss) else FetchTime(w, ss[..n], p)
  }

  /** Frames handed out carry the clock of their page's last fetch. */
  ghost predicate Stamped(m: Pool, count: nat, time: nat -> nat) {
    m.clock == count
    && forall i: nat | i < |m.frames| && m.frames[i].valid && !m.frames[i].loading ::
         m.frames[i].used == time(m.frames[i].page)
  }

  lemma StampHit(w: World, p: nat, count: nat, time: nat -> nat)
    requires Inv(w) && Enabled(w, Hit(p)) && Stamped(w.pool, count, time)
    ensures Stamped(Next(w, Hit(p)).pool, count + 1, q => if q == p then count + 1 else time(q))
  {
  }

  lemma StampFinish(w: World, t: nat, ok: bool, count: nat, time: nat -> nat)
    requires Inv(w) && Enabled(w, Finish(t, ok)) && Stamped(w.pool, count, time)
    ensures var n := Next(w, Finish(t, ok)).pool; var p := w.loads[t].page;
            if ok then Stamped(n, count + 1, q => if q == p then count + 1 else time(q)) else Stamped(n, count, time)
  {
    assert LoadOk(w.loads[t], w.pool.frames, w.pool.disk);
  }

  lemma StampMiss(w: World, t: nat, p: nat, writeOk: bool, count: nat, time: nat -> nat)
    requires Enabled(w, Miss(t, p, writeOk)) && Stamped(w.pool, count, time)
    ensures Stamped(Next(w, Miss(t, p, writeOk)).pool, count, time)
  {
    VictimUnpinned(w.pool, writeOk);
  }

  lemma StampStep(w: World, s: Step, count: nat, time: nat -> nat)
    requires Inv(w) && Enabled(w, s) && Stamped(w.pool, count, time)
    ensures if IsFetch(w, s)
            then Stamped(Next(w, s).pool, count + 1, p => if p == FetchedPage(w, s) then count + 1 else time(p))
            else Stamped(Next(w, s).pool, count, time)
  {
    match s
    case Hit(p) => StampHit(w, p, count, time);
    case Finish(t, ok) => StampFinish(w, t, ok, count, time);
    case Miss(t, p, writeOk) => StampMiss(w, t, p, writeOk, count, time);
    case FlushUpTo(n) => FlushWrites(w.pool, n);
    case _ =>
  }

  lemma {:induction false} RunStamped(frames: nat, disk: map<nat, Image>, ss: seq<Step>)
    ensures var w := Fresh(frames, disk); Stamped(Run(w, ss).pool, FetchCount(w, ss), p => FetchTime(w, ss, p))
    decreases |ss|
  {
    if ss != [] {
      var w, n := Fresh(frames, disk), |ss| - 1;
      var v := Run(w, ss[..n]);
      RunStamped(frames, disk, ss[..n]);
      RunInv(frames, disk, ss[..n]);
      if Enabled(v, ss[n]) { StampStep(v, ss[n], FetchCount(w, ss[..n]), p => FetchTime(w, ss[..n], p)); }
    }
  }

  /** In every reachable state the page a miss pushes out was fetched least recently of all that may go. */
  lemma VictimLeastRecent(frames: nat, disk: map<nat, Image>, ss: seq<Step>, stealDirty: bool, v: nat, j: nat)
    requires var w := Run(Fresh(frames, disk), ss);
             && (forall i | 0 <= i < |w.pool.frames| :: w.pool.frames[i].valid) && j < |w.pool.frames|
             && Lru(w.pool.frames, stealDirty, |w.pool.frames|) == Some(v) && Eligible(w.pool.frames[j], stealDirty)
    ensures var w := Run(Fresh(frames, disk), ss);
            FetchTime(Fresh(frames, disk), ss, w.pool.frames[v].page) <=
            FetchTime(Fresh(frames, disk), ss, w.pool.frames[j].page)
  {
    var w := Run(Fresh(frames, disk), ss);
    RunStamped(frames, disk, ss);
    RunInv(frames, disk, ss);
    assert FrameOk(w.pool.frames[v], w.pins, w.pool.disk) && FrameOk(w.pool.frames[j], w.pins, w.pool.disk);
  }
}
