/** What the data file is meant to hold, from the calls alone: no log, no before-images, no recovery.
    Every run of `WalRuns` commits exactly that. */
module WalContents {
  import opened Wrappers
  import opened Wal
  import opened WalRecovery
  import opened WalRuns
  import opened WalLength

  /** Committed contents, length of the data file, and the open transaction: the file length it started
      with and, per page, the image last staged and the image last stolen. */
  datatype Intent = Intent(
    db: seq<Image>, pages: nat, active: bool, base: nat, staged: map<nat, Image>, stolen: map<nat, Image>)

  function Initially(data: seq<Image>): Intent {
    Intent(data, |data|, false, 0, map[], map[])
  }

  /** Pages past the committed ones are zero. */
  function Pad(db: seq<Image>, n: nat): seq<Image> {
    seq(n, p requires 0 <= p < n => if p < |db| then db[p] else 0)
  }

  /** What a commit makes of the pages: staged, else stolen, else as before, else zero. */
  function Overlay(m: Intent): seq<Image> {
    seq(m.pages, p requires 0 <= p < m.pages =>
      if p in m.staged then m.staged[p] else if p in m.stolen then m.stolen[p]
      else if p < |m.db| then m.db[p] else 0)
  }

  predicate Accepts(m: Intent, e: Event) {
    match e
    case BeginTxn => !m.active
    case Stage(p, _) => m.active && p < m.pages
    case Steal(p, _) => m.active && p < m.pages
    case _ => m.active
  }

  function Taken(m: Intent): Intent {
    m.(active := false, db := Overlay(m))
  }

  /** New pages go only if something was stolen. */
  function Dropped(m: Intent): Intent {
    m.(active := false, pages := if m.stolen == map[] then m.pages else m.base)
  }

  function Meant(m: Intent, cap: nat, e: Event): Intent {
    match e
    case BeginTxn => m.(active := true, base := m.pages, staged := map[], stolen := map[])
    case Allocate => m.(pages := m.pages + 1)
    case Stage(p, v) => if p in m.staged || |m.staged| < cap then m.(staged := m.staged[p := v]) else m
    case Steal(p, v) => m.(stolen := m.stolen[p := v])
    case Undo => Dropped(m)
    case CommitTxn(_) => Taken(m)
  }

  /** A kill drops the transaction, unless the commit marker is begun: past two writes per staged page. */
  function MeantKilled(m: Intent, e: Event, k: nat): Intent {
    match e
    case BeginTxn => m
    case Allocate => Dropped(if k > 0 then m.(pages := m.pages + 1) else m)
    case Steal(p, v) => Dropped(if k >= 2 then m.(stolen := m.stolen[p := v]) else m)
    case CommitTxn(_) => if k > 2 * |m.staged| then Taken(m) else Dropped(m)
    case _ => Dropped(m)
  }

  function MeantAct(m: Intent, cap: nat, a: Action): Intent {
    if !Accepts(m, a.event) then m
    else
      match a
      case Do(e) => Meant(m, cap, e)
      case Kill(e, k, _) => MeantKilled(m, e, k)
  }

  function MeantRun(m: Intent, cap: nat, xs: seq<Action>): Intent
    decreases |xs|
  {
    if xs == [] then m else MeantAct(MeantRun(m, cap, xs[..|xs| - 1]), cap, xs[|xs| - 1])
  }

  // ----- a session against it -----

  /** The file an abort goes back to. */
  function File(m: Intent): seq<Image> {
    Pad(m.db, if m.active then m.base else m.pages)
  }

  function Find(m: map<nat, Image>, p: nat): Option<Image> {
    if p in m then Some(m[p]) else None
  }

  ghost predicate SameStaged(staged: seq<Staged>, m: map<nat, Image>) {
    |staged| == |m| && forall p: nat :: StagedImage(staged, p) == Find(m, p)
  }

  /** The data file during the transaction: the stolen images over the old ones. */
  ghost predicate SameData(data: seq<Image>, m: Intent) {
    && |data| == m.pages && (forall p: nat | p in m.stolen :: p < m.pages)
    && forall p: nat | p < m.pages ::
         data[p] == if p in m.stolen then m.stolen[p] else if p < |m.db| then m.db[p] else 0
  }

  /** The open transaction as meant. */
  ghost predicate SameTxn(s: Session, m: Intent) {
    && m.base == s.base <= m.pages && |m.db| <= m.base && s.start <= |s.disk.log|
    && (s.stole <==> m.stolen != map[]) && s.spilled == m.stolen.Keys
    && (s.stole ==> LastBase(s.disk.log[s.start..]).Some?)
    && SameStaged(s.staged, m.staged)
    && SameData(s.disk.data, m)
  }

  /** The session whose committed contents are all of the file an abort goes back to. */
  function Whole(s: Session, m: Intent): Session {
    s.(db := File(m))
  }

  ghost predicate Same(s: Session, m: Intent) {
    && s.active == m.active && s.db == m.db && |s.disk.data| == m.pages && |m.db| <= m.pages
    && Inv(Whole(s, m))
    && (m.active ==> SameTxn(s, m))
  }

  lemma SameAllowed(s: Session, m: Intent, e: Event)
    requires Same(s, m)
    ensures Allowed(s, e) == Accepts(m, e)
  {
  }

  /** What an event does does not depend on the contents counted as committed. */
  lemma WholeDone(s: Session, f: seq<Image>, e: Event)
    ensures var t := s.(db := f);
            && Ios(t, e) == Ios(s, e) && Installed(t) == Installed(s)
            && (!e.CommitTxn? ==> Done(t, e) == Done(s, e).(db := f))
            && (e.CommitTxn? ==> Done(t, e) == Done(s, e))
            && (Guarded(s) ==> Guarded(t))
  {
  }

  lemma IdleFile(s: Session, m: Intent)
    requires Same(s, m) && !m.active
    ensures s.disk.data == File(m)
  {
    assert |File(m)| == |s.disk.data|;
    assert s.disk.data[..|File(m)|] == s.disk.data;
  }

  // ----- the events one by one -----

  lemma SameBegin(s: Session, m: Intent)
    requires Same(s, m) && !m.active
    ensures Same(Done(s, BeginTxn), Meant(m, s.cap, BeginTxn))
  {
    WholeDone(s, File(m), BeginTxn);
    KeepBegin(Whole(s, m));
    IdleFile(s, m);
  }

  lemma AllocatedDisk(s: Session)
    ensures Done(s, Allocate).disk == s.disk.(data := s.disk.data + [0])
  {
    PerformOne(s.disk, Write(|s.disk.data|, 0));
  }

  lemma AllocatedTxn(s: Session, m: Intent, d: Disk)
    requires SameTxn(s, m) && d == s.disk.(data := s.disk.data + [0])
    ensures SameTxn(s.(disk := d), m.(pages := m.pages + 1))
  {
  }

  lemma SameAllocate(s: Session, m: Intent)
    requires Same(s, m) && m.active
    ensures Same(Done(s, Allocate), Meant(m, s.cap, Allocate))
  {
    WholeDone(s, File(m), Allocate);
    KeepAllocate(Whole(s, m));
    AllocatedDisk(s);
    AllocatedTxn(s, m, Done(s, Allocate).disk);
  }

  lemma {:induction false} ReplacedImage(staged: seq<Staged>, p: nat, v: Image, r: seq<Staged>, q: nat)
    requires |r| == |staged|
    requires forall i | 0 <= i < |staged| :: r[i] == if staged[i].pid == p then Staged(p, v) else staged[i]
    ensures StagedImage(r, q) == if q == p && StagedImage(staged, p).Some? then Some(v) else StagedImage(staged, q)
    decreases |staged|
  {
    if staged != [] {
      var n := |staged| - 1;
      assert forall i | 0 <= i < n :: r[..n][i] == r[i] && staged[..n][i] == staged[i];
      ReplacedImage(staged[..n], p, v, r[..n], q);
    }
  }

  /** Staging changes one page and keeps the others. */
  lemma StagedAfter(staged: seq<Staged>, p: nat, v: Image, cap: nat, q: nat)
    ensures var room := StagedImage(staged, p).Some? || |staged| < cap;
            StagedImage(StageIn(staged, p, v, cap), q) ==
            if q == p && room then Some(v) else StagedImage(staged, q)
  {
    StagedHas(staged, p);
    if StagedImage(staged, p).Some? {
      ReplacedImage(staged, p, v, StageIn(staged, p, v, cap), q);
    } else if |staged| < cap {
      StagedSnoc(staged, Staged(p, v), q);
    }
  }

  /** wal_stage is an update of the map from pages to images, while there is room. */
  lemma StageIsUpdate(staged: seq<Staged>, p: nat, v: Image, cap: nat, m: map<nat, Image>)
    requires SameStaged(staged, m)
    ensures SameStaged(StageIn(staged, p, v, cap), if p in m || |m| < cap then m[p := v] else m)
  {
    StagedHas(staged, p);
    assert StagedImage(staged, p) == Find(m, p);
    SameSize(m, p, v);
    forall q: nat
      ensures StagedImage(StageIn(staged, p, v, cap), q) == Find(if p in m || |m| < cap then m[p := v] else m, q)
    {
      StagedAfter(staged, p, v, cap, q);
    }
  }

  lemma SameSize(m: map<nat, Image>, p: nat, v: Image)
    ensures |m[p := v]| == if p in m then |m| else |m| + 1
  {
    assert m[p := v].Keys == m.Keys + {p};
    assert |m.Keys| == |m| && |m[p := v].Keys| == |m[p := v]|;
  }

  lemma SameStage(s: Session, m: Intent, p: nat, v: Image)
    requires Same(s, m) && m.active && p < m.pages
    ensures Same(Done(s, Stage(p, v)), Meant(m, s.cap, Stage(p, v)))
  {
    WholeDone(s, File(m), Stage(p, v));
    KeepStage(Whole(s, m), p, v);
    StageIsUpdate(s.staged, p, v, s.cap, m.staged);
  }

  lemma BaseKept(log: seq<Rec>, start: nat, r: Rec)
    requires start <= |log| && (r.Begin? || LastBase(log[start..]).Some?)
    ensures LastBase((log + [r])[start..]).Some?
  {
    SnocSlices(log, r, start);
    BaseSnoc(log[start..], r);
  }

  lemma StealBased(s: Session, p: nat)
    requires s.start <= |s.disk.log| && (s.stole ==> LastBase(s.disk.log[s.start..]).Some?)
    ensures var log := StealBefore(StealBegin(s), p).disk.log;
            s.start <= |log| && LastBase(log[s.start..]).Some?
  {
    if !s.stole { BaseKept(s.disk.log, s.start, Begin(s.base)); }
    if p < |s.disk.data| { BaseKept(StealBegin(s).disk.log, s.start, Before(p, s.disk.data[p])); }
  }

  lemma StealSteps(s: Session, p: nat)
    requires s.disk.part == None
    ensures PerformAll(s.disk, BeginIos(s)) == StealBegin(s).disk
    ensures PerformAll(StealBegin(s).disk, BeforeIos(s, p)) == StealBefore(StealBegin(s), p).disk
  {
    if !s.stole { RecordDone(s.disk, Begin(s.base)); }
    if p < |s.disk.data| { RecordDone(StealBegin(s).disk, Before(p, s.disk.data[p])); }
  }

  /** The log and the data file after a steal. */
  lemma StolenDisk(s: Session, p: nat, v: Image)
    requires s.disk.part == None && s.start <= |s.disk.log| && p < |s.disk.data|
    requires s.stole ==> LastBase(s.disk.log[s.start..]).Some?
    ensures var t := Done(s, Steal(p, v));
            && t.disk.data == s.disk.data[p := v]
            && s.start <= |t.disk.log| && LastBase(t.disk.log[s.start..]).Some?
  {
    StealSteps(s, p);
    StealParts(s, p, v);
    StealBased(s, p);
  }

  lemma StolenData(data: seq<Image>, m: Intent, p: nat, v: Image)
    requires SameData(data, m) && p < m.pages
    ensures SameData(data[p := v], m.(stolen := m.stolen[p := v]))
  {
  }

  lemma StolenKeys(m: map<nat, Image>, p: nat, v: Image)
    ensures m[p := v].Keys == m.Keys + {p} && m[p := v] != map[]
  {
    assert p in m[p := v];
  }

  lemma StolenTxn(s: Session, m: Intent, t: Session, p: nat, v: Image)
    requires SameTxn(s, m) && p < m.pages && t.disk.data == s.disk.data[p := v]
    requires t.start == s.start <= |t.disk.log| && LastBase(t.disk.log[s.start..]).Some?
    requires t.base == s.base && t.stole && t.spilled == s.spilled + {p} && t.staged == s.staged
    ensures SameTxn(t, m.(stolen := m.stolen[p := v]))
  {
    StolenData(s.disk.data, m, p, v);
    StolenKeys(m.stolen, p, v);
  }

  lemma SameSteal(s: Session, m: Intent, p: nat, v: Image)
    requires Same(s, m) && m.active && p < m.pages
    ensures Same(Done(s, Steal(p, v)), Meant(m, s.cap, Steal(p, v)))
  {
    WholeDone(s, File(m), Steal(p, v));
    KeepSteal(Whole(s, m), p, v);
    StolenDisk(s, p, v);
    StolenTxn(s, m, Done(s, Steal(p, v)), p, v);
  }

  lemma ShrunkLength(e: Disk, base: nat, start: nat)
    requires base <= |e.data|
    ensures |Perform(PerformAll(e, if base < |e.data| then [Resize(base)] else []), Cut(start)).data| == base
  {
    if base < |e.data| { PerformOne(e, Resize(base)); }
  }

  /** The length of the file after an undo. */
  lemma UndoneLength(s: Session)
    requires Inv(s) && s.active
    ensures |Done(s, Undo).disk.data| == if s.stole then s.base else |s.disk.data|
  {
    if s.stole {
      UndoRestores(s);
      UndoParts(s.disk, s.start, s.base, |s.disk.data|);
      ShrunkLength(PerformAll(s.disk, UndoWrites(s.disk.log[s.start..])), s.base, s.start);
    }
  }

  /** Without a steal the pages past the base are zero: they may as well count as committed. */
  lemma WidenIdle(s: Session, m: Intent)
    requires Same(s, m) && m.active && m.stolen == map[]
    ensures var d := Dropped(m); Inv(Done(s, Undo).(db := File(d))) && File(d) == s.disk.data
  {
    var d := Dropped(m);
    assert File(d) == s.disk.data;
    assert s.disk.log[..s.start] == s.disk.log;
    assert s.disk.data[..|s.disk.data|] == s.disk.data;
    assert forall p: nat | p < m.base :: File(m)[p] == File(d)[p];
  }

  lemma SameUndo(s: Session, m: Intent)
    requires Same(s, m) && m.active
    ensures Same(Done(s, Undo), Meant(m, s.cap, Undo))
  {
    WholeDone(s, File(m), Undo);
    KeepUndo(Whole(s, m));
    UndoneLength(Whole(s, m));
    if m.stolen == map[] { WidenIdle(s, m); }
  }

  /** What a commit installs is what is meant. */
  lemma InstalledIsOverlay(s: Session, m: Intent)
    requires Same(s, m) && m.active
    ensures Installed(s) == Overlay(m)
  {
    ApplyEffect(s.disk, s.staged);
    var r := Installed(s);
    assert |r| == m.pages;
    forall p | 0 <= p < m.pages
      ensures r[p] == Overlay(m)[p]
    {
      assert StagedImage(s.staged, p) == Find(m.staged, p);
    }
  }

  lemma SameCommit(s: Session, m: Intent, checkpoint: bool)
    requires Same(s, m) && m.active && Guarded(s)
    ensures Same(Done(s, CommitTxn(checkpoint)), Meant(m, s.cap, CommitTxn(checkpoint)))
  {
    var t := Whole(s, m);
    WholeDone(s, File(m), CommitTxn(checkpoint));
    KeepCommit(t, checkpoint);
    CommitDisk(t, checkpoint);
    InstalledIsOverlay(s, m);
    assert File(Taken(m)) == Overlay(m);
  }

  lemma SameDo(s: Session, m: Intent, e: Event)
    requires Same(s, m) && Allowed(s, e) && (e.CommitTxn? ==> Guarded(s))
    ensures Same(Done(s, e), Meant(m, s.cap, e))
  {
    match e
    case BeginTxn => SameBegin(s, m);
    case Allocate => SameAllocate(s, m);
    case Stage(p, v) => SameStage(s, m, p, v);
    case Steal(p, v) => SameSteal(s, m, p, v);
    case Undo => SameUndo(s, m);
    case CommitTxn(checkpoint) => SameCommit(s, m, checkpoint);
  }

  // ----- kills -----

  /** d recovers to exactly the file meant by m. */
  ghost predicate Heals(d: Disk, m: Intent, cap: nat, lo: nat) {
    && !m.active && |m.db| <= m.pages
    && Survives(d, File(m), cap) && Ends(d, m.pages, lo)
  }

  ghost predicate Healed(d: Disk, m: Intent, cap: nat) {
    exists lo: nat :: Heals(d, m, cap, lo)
  }

  lemma HealedSame(s: Session, e: Event, k: nat, tries: seq<nat>, m: Intent, lo: nat)
    requires Allowed(s, e) && Heals(KilledDisk(s, e, k), m, s.cap, lo) && KilledDb(s, e, k) == m.db
    ensures Same(Act(s, Kill(e, k, tries)), m)
  {
    RecoversTo(KilledDisk(s, e, k), File(m), lo, s.cap, tries);
    ReopenedInv(s, Disk(File(m), [], None), File(m));
  }

  lemma {:induction false} BaseOf(log: seq<Rec>, base: nat)
    requires forall i | 0 <= i < |log| && log[i].Begin? :: log[i].base == base
    ensures LastBase(log).Some? ==> LastBase(log).value == base
    decreases |log|
  {
    if log != [] { BaseOf(log[..|log| - 1], base); }
  }

  lemma {:induction false} NoBase(log: seq<Rec>, i: nat)
    requires LastBase(log).None? && i < |log|
    ensures !log[i].Begin?
    decreases |log|
  {
    if i < |log| - 1 { NoBase(log[..|log| - 1], i); }
  }

  lemma HealsIdle(s: Session, m: Intent)
    requires Same(s, m) && !m.active
    ensures Heals(s.disk, m, s.cap, m.pages)
  {
    InvExact(Whole(s, m));
    var log := s.disk.log;
    assert log[|log|..] == [] && log[..|log|] == log;
  }

  /** The disk of an open transaction, as recovery will find it. */
  lemma EndsOpen(s: Session, m: Intent)
    requires Same(s, m) && m.active
    ensures Ends(s.disk, Dropped(m).pages, m.base) && Based(s.disk) == s.stole && !MarkOpen(s.disk)
  {
    var tail := s.disk.log[s.start..];
    assert Tail(s.disk) == tail && Head(s.disk) == s.disk.log[..s.start];
    BaseOf(tail, s.base);
  }

  /** With nothing to undo, the pages past the base are kept. */
  lemma Widen(d: Disk, db: seq<Image>, base: nat, cap: nat)
    requires Survives(d, Pad(db, base), cap) && Ends(d, |d.data|, base) && !Based(d)
    requires |db| <= base && forall p: nat | base <= p < |d.data| :: d.data[p] == 0
    ensures Survives(d, Pad(db, |d.data|), cap)
  {
    var f, g := Pad(db, base), Pad(db, |d.data|);
    forall p: nat | p < |g|
      ensures Recovered(d, p) == Some(g[p])
    {
      if p < base {
        assert Recovered(d, p) == Some(f[p]);
      } else {
        assert LastBefore(Tail(d), p).None? && LastAfter(Head(d), p).None?;
      }
    }
    var log, w := Readable(d), Winners(Readable(d));
    forall i | w <= i < |log|
      ensures !log[i].Begin?
    {
      NoBase(Tail(d), i - w);
      assert Tail(d)[i - w] == log[i];
    }
  }

  /** Killed before the marker, from what recovery keeps and from the length it leaves. */
  lemma HealsDropped(s: Session, m: Intent, d: Disk)
    requires Same(s, m) && m.active && Survives(d, File(m), s.cap) && Ends(d, Dropped(m).pages, m.base)
    requires m.stolen == map[] ==> !Based(d) && d.data == s.disk.data
    ensures Heals(d, Dropped(m), s.cap, m.base)
  {
    if m.stolen == map[] {
      assert forall p: nat | m.base <= p < |d.data| :: d.data[p] == 0;
      Widen(d, m.db, m.base, s.cap);
    }
  }

  lemma HealsOpen(s: Session, m: Intent)
    requires Same(s, m) && m.active
    ensures Heals(s.disk, Dropped(m), s.cap, m.base)
  {
    InvExact(Whole(s, m));
    EndsOpen(s, m);
    HealsDropped(s, m, s.disk);
  }

  /** The kept contents of a killed session, counted with the whole file. */
  lemma KilledWhole(s: Session, m: Intent, e: Event, k: nat)
    requires Same(s, m) && Allowed(s, e) && (e.CommitTxn? ==> Guarded(s))
    ensures Survives(KilledDisk(s, e, k), if e.CommitTxn? && MarkerAt(s) < k then Installed(s) else File(m), s.cap)
  {
    WholeDone(s, File(m), e);
    KilledDiskSurvives(Whole(s, m), e, k);
  }

  lemma KilledAllocate(s: Session, m: Intent, k: nat)
    requires Same(s, m) && m.active
    ensures Heals(KilledDisk(s, Allocate, k), MeantKilled(m, Allocate, k), s.cap, m.base)
  {
    if k == 0 {
      HealsOpen(s, m);
    } else {
      SameAllocate(s, m);
      HealsOpen(Done(s, Allocate), Meant(m, s.cap, Allocate));
    }
  }

  /** A kill inside a transaction that has stolen before. */
  lemma KilledQuiet(s: Session, m: Intent, e: Event, k: nat, ios: seq<Io>)
    requires Same(s, m) && m.active && Allowed(s, e) && (e.CommitTxn? ==> Guarded(s) && k <= MarkerAt(s))
    requires KilledDisk(s, e, k) == PerformAll(s.disk, ios)
    requires forall i | 0 <= i < |ios| :: Quiet(s.stole, false, Dropped(m).pages, m.base, ios[i])
    requires m.stolen == map[] ==> PerformAll(s.disk, ios).data == s.disk.data
    ensures Heals(KilledDisk(s, e, k), Dropped(m), s.cap, m.base)
  {
    KilledWhole(s, m, e, k);
    EndsOpen(s, m);
    QuietAll(s.disk, Dropped(m).pages, m.base, ios);
    HealsDropped(s, m, KilledDisk(s, e, k));
  }

  lemma StealQuiet(s: Session, p: nat, v: Image, i: nat)
    requires i < |Ios(s, Steal(p, v))|
    ensures var io := Ios(s, Steal(p, v))[i]; var r := if s.stole then 0 else 2;
            && (i < r ==> io == [Open(Begin(s.base)), Close(Begin(s.base))][i])
            && (i >= r ==> Quiet(true, false, s.base, s.base, io))
  {
    StealIosAre(s, p, v);
    var a, b := BeginIos(s), BeforeIos(s, p);
    if i < |a| {
    } else if i < |a| + |b| {
      assert (a + b + [Write(p, v)])[i] == b[i - |a|];
    }
  }

  lemma KilledAgain(s: Session, m: Intent, p: nat, v: Image, k: nat)
    requires Same(s, m) && m.active && p < m.pages && s.stole
    ensures Heals(KilledDisk(s, Steal(p, v), k), Dropped(m), s.cap, m.base)
  {
    var all := Ios(s, Steal(p, v));
    var ios := if k < |all| then all[..k] else all;
    forall i | 0 <= i < |ios|
      ensures Quiet(s.stole, false, Dropped(m).pages, m.base, ios[i])
    {
      StealQuiet(s, p, v, i);
    }
    KilledQuiet(s, m, Steal(p, v), k, ios);
  }

  /** Once the page count is logged, recovery goes back to it. */
  lemma EndsBegun(s: Session, m: Intent)
    requires Same(s, m) && m.active && !s.stole
    ensures var d := StealBegin(s).disk; Ends(d, m.base, m.base) && Based(d) && !MarkOpen(d)
  {
    EndsOpen(s, m);
    var d, r, w := s.disk, Begin(s.base), s.start;
    assert Tail(d) == [];
    WinnersSnoc(d.log, r);
    SnocSlices(d.log, r, w);
    BaseSnoc(Tail(d), r);
    var e := StealBegin(s).disk;
    assert Tail(e) == Tail(d) + [r] && Head(e) == Head(d);
    forall q: nat
      ensures LastBefore(Tail(e), q).None?
    {
      LastSnoc(Tail(d), r, q);
    }
  }

  lemma FirstStealDisk(s: Session, p: nat, v: Image, k: nat)
    requires s.disk.part == None && !s.stole && k >= 2
    ensures var all := Ios(s, Steal(p, v)); var n := if k < |all| then k else |all|;
            n >= 2 && KilledDisk(s, Steal(p, v), k) == PerformAll(StealBegin(s).disk, all[2..n])
  {
    var all := Ios(s, Steal(p, v));
    var n := if k < |all| then k else |all|;
    StealIosAre(s, p, v);
    RecordDone(s.disk, Begin(s.base));
    assert all[..2] == Record(Begin(s.base)) && all[..n] == all[..2] + all[2..n] && all[..|all|] == all;
    PerformJoin(s.disk, all[..2], all[2..n]);
  }

  lemma BegunEnds(s: Session, m: Intent, p: nat, v: Image, k: nat)
    requires Same(s, m) && m.active && !s.stole && k >= 2
    ensures Ends(KilledDisk(s, Steal(p, v), k), m.base, m.base)
  {
    EndsBegun(s, m);
    FirstStealDisk(s, p, v, k);
    var all := Ios(s, Steal(p, v));
    var n := if k < |all| then k else |all|;
    forall i | 0 <= i < n - 2
      ensures Quiet(true, false, m.base, m.base, all[2..n][i])
    {
      StealQuiet(s, p, v, i + 2);
      assert all[2..n][i] == all[i + 2];
    }
    QuietAll(StealBegin(s).disk, m.base, m.base, all[2..n]);
  }

  lemma KilledBegun(s: Session, m: Intent, p: nat, v: Image, k: nat)
    requires Same(s, m) && m.active && p < m.pages && !s.stole && k >= 2
    ensures Heals(KilledDisk(s, Steal(p, v), k), Dropped(m.(stolen := m.stolen[p := v])), s.cap, m.base)
  {
    KilledWhole(s, m, Steal(p, v), k);
    BegunEnds(s, m, p, v, k);
    StolenKeys(m.stolen, p, v);
  }

  lemma KilledUnbegun(s: Session, m: Intent, p: nat, v: Image, k: nat)
    requires Same(s, m) && m.active && p < m.pages && !s.stole && k < 2
    ensures Heals(KilledDisk(s, Steal(p, v), k), Dropped(m), s.cap, m.base)
  {
    StealIosAre(s, p, v);
    var ios := if k == 0 then [] else [Open(Begin(s.base))];
    assert Ios(s, Steal(p, v))[..k] == ios;
    if k == 1 { PerformOne(s.disk, Open(Begin(s.base))); }
    KilledQuiet(s, m, Steal(p, v), k, ios);
  }

  lemma KilledSteal(s: Session, m: Intent, p: nat, v: Image, k: nat)
    requires Same(s, m) && m.active && p < m.pages
    ensures Heals(KilledDisk(s, Steal(p, v), k), MeantKilled(m, Steal(p, v), k), s.cap, m.base)
  {
    StolenKeys(m.stolen, p, v);
    if s.stole { KilledAgain(s, m, p, v, k); }
    else if k >= 2 { KilledBegun(s, m, p, v, k); }
    else { KilledUnbegun(s, m, p, v, k); }
  }

  lemma UndoQuiet(s: Session, m: Intent, i: nat)
    requires Same(s, m) && m.active && s.stole && i < |Ios(s, Undo)| - 1
    ensures Quiet(true, false, m.base, m.base, Ios(s, Undo)[i])
  {
    var a := UndoWrites(s.disk.log[s.start..]);
    if i < |a| {
      UndoLogged(s.disk.log[s.start..], i);
      assert Ios(s, Undo)[i] == a[i];
    }
  }

  lemma KilledUndo(s: Session, m: Intent, k: nat)
    requires Same(s, m) && m.active
    ensures Healed(KilledDisk(s, Undo, k), MeantKilled(m, Undo, k), s.cap)
  {
    var all := Ios(s, Undo);
    assert MeantKilled(m, Undo, k) == Dropped(m);
    if !s.stole {
      assert KilledDisk(s, Undo, k) == s.disk;
      HealsOpen(s, m);
    } else if k < |all| {
      forall i | 0 <= i < k
        ensures Quiet(s.stole, false, Dropped(m).pages, m.base, all[..k][i])
      {
        UndoQuiet(s, m, i);
      }
      KilledQuiet(s, m, Undo, k, all[..k]);
    } else {
      SameUndo(s, m);
      assert KilledDisk(s, Undo, k) == Done(s, Undo).disk;
      HealsIdle(Done(s, Undo), Dropped(m));
    }
  }

  // ----- killed in a commit -----

  lemma {:induction false} AfterIosQuiet(staged: seq<Staged>)
    ensures |AfterIos(staged)| == 2 * |staged|
    ensures forall i | 0 <= i < |AfterIos(staged)| ::
              var io := AfterIos(staged)[i]; (io.Open? || io.Close?) && io.rec.After?
    decreases |staged|
  {
    if staged != [] { AfterIosQuiet(staged[..|staged| - 1]); }
  }

  lemma {:induction false} RecordsKeepData(d: Disk, ios: seq<Io>)
    requires forall i | 0 <= i < |ios| :: ios[i].Open? || ios[i].Close?
    ensures PerformAll(d, ios).data == d.data
    decreases |ios|
  {
    if ios != [] { RecordsKeepData(d, ios[..|ios| - 1]); }
  }

  lemma KilledUnmarked(s: Session, m: Intent, checkpoint: bool, k: nat)
    requires Same(s, m) && m.active && Guarded(s) && k <= MarkerAt(s)
    ensures Heals(KilledDisk(s, CommitTxn(checkpoint), k), Dropped(m), s.cap, m.base)
  {
    var ios := AfterIos(s.staged)[..k];
    assert Ios(s, CommitTxn(checkpoint))[..k] == ios;
    AfterIosQuiet(s.staged);
    RecordsKeepData(s.disk, ios);
    KilledQuiet(s, m, CommitTxn(checkpoint), k, ios);
  }

  lemma EndsMarked(s: Session, m: Intent, d: Disk)
    requires Same(s, m) && m.active && Readable(d) == MarkedLog(s) && |d.data| == m.pages
    ensures Ends(d, m.pages, m.pages)
  {
    var t, log := Whole(s, m), MarkedLog(s);
    MarkedFits(t);
    assert log[|log|..] == [] && log[..|log|] == log;
    forall p: nat | LastAfter(log, p).Some?
      ensures p < m.pages
    {
      MarkedImage(t, p);
      StagedHas(s.staged, p);
    }
  }

  lemma MarkerOpened(s: Session)
    requires Inv(s) && s.active
    ensures var d := PerformAll(s.disk, CommitIos(s.staged, false)[..MarkerAt(s) + 1]);
            Readable(d) == MarkedLog(s) && |d.data| == |s.disk.data|
  {
    AftersLogged(s);
    OpenPrefix(s.staged);
    PerformJoin(s.disk, AfterIos(s.staged), [Open(Commit)]);
    PerformOne(PerformAll(s.disk, AfterIos(s.staged)), Open(Commit));
  }

  lemma AppliedLength(s: Session, d: Disk, j: nat)
    requires Inv(s) && s.active && j <= |s.staged| && d == s.disk.(log := MarkedLog(s))
    ensures var e := PerformAll(d, ApplyIos(s.staged)[..j]);
            Readable(e) == MarkedLog(s) && |e.data| == |s.disk.data|
  {
    WritesKeepLength(d, ApplyIos(s.staged)[..j]);
  }

  lemma MarkerApplying(s: Session, j: nat)
    requires Inv(s) && s.active && j <= |s.staged|
    ensures var d := PerformAll(s.disk, CommitIos(s.staged, false)[..MarkerAt(s) + 2 + j]);
            Readable(d) == MarkedLog(s) && |d.data| == |s.disk.data|
  {
    ApplyingAt(s, j);
    AppliedLength(s, s.disk.(log := MarkedLog(s)), j);
  }

  /** The disk from the marker's first byte to the last page write. */
  lemma MarkedDiskAt(s: Session, k: nat)
    requires Inv(s) && s.active && MarkerAt(s) < k <= |CommitIos(s.staged, false)|
    ensures var d := PerformAll(s.disk, CommitIos(s.staged, false)[..k]);
            Readable(d) == MarkedLog(s) && |d.data| == |s.disk.data|
  {
    if k == MarkerAt(s) + 1 {
      MarkerOpened(s);
    } else {
      var j := k - MarkerAt(s) - 2;
      assert k == MarkerAt(s) + 2 + j;
      MarkerApplying(s, j);
    }
  }

  lemma HealsTaken(s: Session, m: Intent, d: Disk)
    requires Same(s, m) && m.active && Survives(d, Installed(s), s.cap) && Ends(d, m.pages, m.pages)
    ensures Heals(d, Taken(m), s.cap, m.pages)
  {
    InstalledIsOverlay(s, m);
    assert File(Taken(m)) == Overlay(m);
  }

  lemma ApplyingEnds(s: Session, m: Intent, checkpoint: bool, k: nat)
    requires Same(s, m) && m.active && MarkerAt(s) < k < |Ios(s, CommitTxn(checkpoint))|
    ensures Ends(KilledDisk(s, CommitTxn(checkpoint), k), m.pages, m.pages)
  {
    assert Ios(s, CommitTxn(checkpoint))[..k] == CommitIos(s.staged, false)[..k];
    MarkedDiskAt(Whole(s, m), k);
    EndsMarked(s, m, KilledDisk(s, CommitTxn(checkpoint), k));
  }

  lemma KilledMarked(s: Session, m: Intent, checkpoint: bool, k: nat)
    requires Same(s, m) && m.active && Guarded(s) && k > MarkerAt(s)
    ensures Heals(KilledDisk(s, CommitTxn(checkpoint), k), Taken(m), s.cap, m.pages)
  {
    if k < |Ios(s, CommitTxn(checkpoint))| {
      KilledWhole(s, m, CommitTxn(checkpoint), k);
      ApplyingEnds(s, m, checkpoint, k);
      HealsTaken(s, m, KilledDisk(s, CommitTxn(checkpoint), k));
    } else {
      SameCommit(s, m, checkpoint);
      HealsIdle(Done(s, CommitTxn(checkpoint)), Taken(m));
    }
  }

  lemma KilledCommit(s: Session, m: Intent, checkpoint: bool, k: nat)
    requires Same(s, m) && m.active && Guarded(s)
    ensures var e := CommitTxn(checkpoint); Healed(KilledDisk(s, e, k), MeantKilled(m, e, k), s.cap)
  {
    AfterIosQuiet(s.staged);
    assert MarkerAt(s) == 2 * |m.staged|;
    if k > MarkerAt(s) { KilledMarked(s, m, checkpoint, k); } else { KilledUnmarked(s, m, checkpoint, k); }
  }

  lemma KilledNoWrites(s: Session, m: Intent, e: Event, k: nat)
    requires Same(s, m) && Allowed(s, e) && (e.BeginTxn? || e.Stage?)
    ensures Healed(KilledDisk(s, e, k), MeantKilled(m, e, k), s.cap)
  {
    assert KilledDisk(s, e, k) == s.disk;
    if e.BeginTxn? { HealsIdle(s, m); } else { HealsOpen(s, m); }
  }

  lemma KilledHeals(s: Session, m: Intent, e: Event, k: nat)
    requires Same(s, m) && Allowed(s, e) && (e.CommitTxn? ==> Guarded(s))
    ensures Healed(KilledDisk(s, e, k), MeantKilled(m, e, k), s.cap)
  {
    match e
    case BeginTxn => KilledNoWrites(s, m, e, k);
    case Allocate => KilledAllocate(s, m, k);
    case Stage(p, v) => KilledNoWrites(s, m, e, k);
    case Steal(p, v) => KilledSteal(s, m, p, v, k);
    case Undo => KilledUndo(s, m, k);
    case CommitTxn(checkpoint) => KilledCommit(s, m, checkpoint, k);
  }

  lemma KilledDbMeant(s: Session, m: Intent, e: Event, k: nat)
    requires Same(s, m) && Allowed(s, e)
    ensures KilledDb(s, e, k) == MeantKilled(m, e, k).db
  {
    AfterIosQuiet(s.staged);
    if e.CommitTxn? { InstalledIsOverlay(s, m); }
  }

  lemma SameAct(s: Session, m: Intent, a: Action)
    requires Same(s, m) && (a.event.CommitTxn? && s.active ==> Guarded(s))
    ensures Same(Act(s, a), MeantAct(m, s.cap, a)) && Act(s, a).cap == s.cap
  {
    SameAllowed(s, m, a.event);
    if Allowed(s, a.event) {
      match a
      case Do(e) => SameDo(s, m, e);
      case Kill(e, k, tries) =>
        KilledHeals(s, m, e, k);
        KilledDbMeant(s, m, e, k);
        var lo: nat :| Heals(KilledDisk(s, e, k), MeantKilled(m, e, k), s.cap, lo);
        HealedSame(s, e, k, tries, MeantKilled(m, e, k), lo);
    }
  }

  lemma SameFresh(data: seq<Image>, cap: nat)
    ensures Same(Fresh(data, cap), Initially(data))
  {
    assert Pad(data, |data|) == data;
    FreshInv(data, cap);
  }

  lemma {:induction false} SameRun(data: seq<Image>, cap: nat, xs: seq<Action>)
    requires GuardedRun(Fresh(data, cap), xs)
    ensures Same(Run(Fresh(data, cap), xs), MeantRun(Initially(data), cap, xs)) && Run(Fresh(data, cap), xs).cap == cap
    decreases |xs|
  {
    if xs == [] {
      SameFresh(data, cap);
    } else {
      var n := |xs| - 1;
      assert forall i | 0 <= i <= n :: xs[..n][..i] == xs[..i];
      assert GuardedRun(Fresh(data, cap), xs[..n]);
      SameRun(data, cap, xs[..n]);
      SameAct(Run(Fresh(data, cap), xs[..n]), MeantRun(Initially(data), cap, xs[..n]), xs[n]);
    }
  }

  /** Every run commits what its calls mean: page by page the last staged image since the transaction
      began, else the last stolen one, else the old contents, else zero; taken over by a commit or a kill
      past its marker, dropped by an undo and by every other kill.  Between transactions the file is that,
      with the pages allocated meanwhile as zeros. */
  lemma CommitsWhatIsMeant(data: seq<Image>, cap: nat, xs: seq<Action>)
    requires GuardedRun(Fresh(data, cap), xs)
    ensures var s, m := Run(Fresh(data, cap), xs), MeantRun(Initially(data), cap, xs);
            && s.db == m.db && s.active == m.active && |s.disk.data| == m.pages
            && (!m.active ==> s.disk.data == Pad(m.db, m.pages))
  {
    SameRun(data, cap, xs);
    var s, m := Run(Fresh(data, cap), xs), MeantRun(Initially(data), cap, xs);
    if !m.active { IdleFile(s, m); }
  }
}
