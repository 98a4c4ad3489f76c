/** Runs of transactions over the write-ahead log, with a process kill possible at every write. */
module WalRuns {
  import opened Wrappers
  import opened Wal
  import opened WalRecovery

  /** The files, the in-memory state of Wal, and the contents `db` as of the last
      transaction whose commit marker reached the log. */
  datatype Session = Session(
    disk: Disk, staged: seq<Staged>, stole: bool, base: nat, spilled: set<nat>, start: nat,
    active: bool, cap: nat, db: seq<Image>)

  datatype Event =
    | BeginTxn
    | Allocate
    | Stage(pid: nat, image: Image)
    | Steal(pid: nat, image: Image)
    | Undo
    | CommitTxn(checkpoint: bool)

  /** An event runs to its end, or the process is killed after `writes` of its writes,
      recovery is killed after tries[0], tries[1], ... writes, and then completes. */
  datatype Action = Do(event: Event) | Kill(event: Event, writes: nat, tries: seq<nat>)

  function Fresh(data: seq<Image>, cap: nat): Session {
    Session(Disk(data, [], None), [], false, 0, {}, 0, false, cap, data)
  }

  /** The protocol the callers of wal.c keep: operations happen inside a transaction, on existing pages. */
  predicate Allowed(s: Session, e: Event) {
    match e
    case BeginTxn => !s.active
    case Stage(p, _) => s.active && p < |s.disk.data|
    case Steal(p, _) => s.active && p < |s.disk.data|
    case _ => s.active
  }

  function Ios(s: Session, e: Event): seq<Io> {
    match e
    case BeginTxn => []
    case Allocate => [Write(|s.disk.data|, 0)]
    case Stage(_, _) => []
    case Steal(p, v) => StealIos(s.disk, s.stole, s.base, s.spilled, p, v)
    case Undo => if s.stole && s.start <= |s.disk.log| then UndoIos(s.disk, s.start, s.base, |s.disk.data|) else []
    case CommitTxn(checkpoint) => CommitIos(s.staged, checkpoint)
  }

  /** wal_stage: replace the image of a staged page, else add it while there is room. */
  function StageIn(staged: seq<Staged>, p: nat, v: Image, cap: nat): seq<Staged> {
    if exists i :: 0 <= i < |staged| && staged[i].pid == p
    then seq(|staged|, i requires 0 <= i < |staged| => if staged[i].pid == p then Staged(p, v) else staged[i])
    else if |staged| < cap then staged + [Staged(p, v)] else staged
  }

  /** The contents once the staged images are applied to the data file. */
  function Installed(s: Session): seq<Image> {
    PerformAll(s.disk, ApplyIos(s.staged)).data
  }

  function Done(s: Session, e: Event): Session {
    var d := PerformAll(s.disk, Ios(s, e));
    match e
    case BeginTxn =>
      s.(staged := [], stole := false, base := |s.disk.data|, spilled := {}, start := |s.disk.log|, active := true)
    case Allocate => s.(disk := d)
    case Stage(p, v) => s.(staged := StageIn(s.staged, p, v, s.cap))
    case Steal(p, _) => s.(disk := d, stole := true, spilled := s.spilled + {p})
    case Undo => s.(disk := d, stole := false, spilled := {}, active := false)
    case CommitTxn(_) => s.(disk := d, staged := [], stole := false, spilled := {}, active := false, db := Installed(s))
  }

  /** The position of the write that makes a commit final. */
  function MarkerAt(s: Session): nat {
    |AfterIos(s.staged)|
  }

  function Reopened(s: Session, d: Disk, db: seq<Image>): Session {
    Session(d, [], false, 0, {}, 0, false, s.cap, db)
  }

  function Act(s: Session, a: Action): Session {
    if !Allowed(s, a.event) then s
    else
      match a
      case Do(e) => Done(s, e)
      case Kill(e, k, tries) =>
        var r := Retried(KilledDisk(s, e, k), s.cap, tries);
        Reopened(s, PerformAll(r, RecoverIos(r, s.cap)), KilledDb(s, e, k))
  }

  /** The files when the process is killed after k writes of the event. */
  function KilledDisk(s: Session, e: Event, k: nat): Disk {
    var ios := Ios(s, e);
    PerformAll(s.disk, if k < |ios| then ios[..k] else ios)
  }

  /** The contents that count as committed then. */
  function KilledDb(s: Session, e: Event, k: nat): seq<Image> {
    if e.CommitTxn? && MarkerAt(s) < k then Installed(s) else s.db
  }

  function Run(s: Session, xs: seq<Action>): Session
    decreases |xs|
  {
    if xs == [] then s else Act(Run(s, xs[..|xs| - 1]), xs[|xs| - 1])
  }

  /** A stolen page that is not staged again has no other after-image in the retained log. */
  predicate Guarded(s: Session) {
    forall p | p in s.spilled && p !in StagedPids(s.staged) && p < |s.disk.data| ::
      var r := LastAfter(s.disk.log, p); r.None? || r == Some(s.disk.data[p])
  }

  ghost predicate GuardedRun(s: Session, xs: seq<Action>) {
    forall i | 0 <= i < |xs| && xs[i].event.CommitTxn? && Run(s, xs[..i]).active :: Guarded(Run(s, xs[..i]))
  }

  // ----- the invariant -----

  ghost predicate LogAgrees(log: seq<Rec>, db: seq<Image>) {
    forall p: nat | LastAfter(log, p).Some? :: p < |db| && LastAfter(log, p).value == db[p]
  }

  ghost predicate Common(s: Session) {
    && s.disk.part == None && |s.db| <= |s.disk.data| && Fits(s.disk.log, s.cap)
  }

  ghost predicate Idle(s: Session)
    requires |s.db| <= |s.disk.data|
  {
    && Winners(s.disk.log) == |s.disk.log| && LogAgrees(s.disk.log, s.db)
    && s.disk.data[..|s.db|] == s.db
  }

  /** The records of the open transaction: its base, and one before-image per stolen old page. */
  ghost predicate TailOk(s: Session)
    requires s.start <= |s.disk.log|
  {
    var tail := s.disk.log[s.start..];
    && (forall i | 0 <= i < |tail| ::
        (tail[i].Begin? && tail[i].base == s.base)
        || (tail[i].Before? && tail[i].pid < s.base))
    && (forall p: nat :: LastBefore(tail, p).Some? <==> p in s.spilled && p < s.base)
    && (forall p: nat | p in s.spilled && p < |s.db| :: LastBefore(tail, p) == Some(s.db[p]))
    && (!s.stole ==> tail == [] && s.spilled == {})
  }

  ghost predicate Active(s: Session) {
    && s.start <= |s.disk.log| && Winners(s.disk.log) == s.start && LogAgrees(s.disk.log[..s.start], s.db)
    && |s.db| <= s.base <= |s.disk.data|
    && TailOk(s)
    && (forall p: nat | p < |s.db| && p !in s.spilled :: s.disk.data[p] == s.db[p])
    && |s.staged| <= s.cap && (forall i | 0 <= i < |s.staged| :: s.staged[i].pid < |s.disk.data|)
  }

  ghost predicate Inv(s: Session) {
    |s.db| <= |s.disk.data| && Common(s) && if s.active then Active(s) else Idle(s)
  }

  // ----- records of the open transaction -----

  lemma {:induction false} NoAfterTail(log: seq<Rec>, tail: seq<Rec>, p: nat)
    requires forall i | 0 <= i < |tail| :: !tail[i].After?
    ensures LastAfter(log + tail, p) == LastAfter(log, p)
    decreases |tail|
  {
    if tail == [] {
      assert log + tail == log;
    } else {
      assert (log + tail)[..|log + tail| - 1] == log + tail[..|tail| - 1];
      NoAfterTail(log, tail[..|tail| - 1], p);
    }
  }

  lemma WinnersSnoc(log: seq<Rec>, r: Rec)
    ensures Winners(log + [r]) == if r == Commit then |log| + 1 else Winners(log)
  {
    assert (log + [r])[..|log|] == log;
  }

  lemma LastSnoc(log: seq<Rec>, r: Rec, p: nat)
    ensures LastBefore(log + [r], p) == if r.Before? && r.pid == p then Some(r.image) else LastBefore(log, p)
    ensures LastAfter(log + [r], p) == if r.After? && r.pid == p then Some(r.image) else LastAfter(log, p)
  {
    assert (log + [r])[..|log|] == log;
  }

  lemma FitsSnoc(log: seq<Rec>, r: Rec, cap: nat)
    requires Fits(log, cap) && (r.After? ==> PendingCount(log) < cap)
    ensures Fits(log + [r], cap) && PendingCount(log + [r]) == if r == Commit then 0
            else PendingCount(log) + if r.After? then 1 else 0
  {
    assert (log + [r])[..|log|] == log;
    assert log[..|log|] == log;
    assert (log + [r])[..|log| + 1] == log + [r];
    forall i | 0 <= i <= |log| + 1
      ensures PendingCount((log + [r])[..i]) <= cap
    {
      if i <= |log| { assert (log + [r])[..i] == log[..i]; }
    }
  }

  /** A record that recovery may add to the loser without changing what it restores. */
  ghost predicate Tame(d: Disk, db: seq<Image>, r: Rec) {
    && r != Commit
    && (r.Before? && r.pid < |db| ==> r.image == db[r.pid])
    && (r.Begin? ==> |db| <= r.base)
  }

  lemma OpenTame(d: Disk, db: seq<Image>, r: Rec)
    requires Exact(d, db) && d.part == None && r != Commit
    ensures Exact(Perform(d, Open(r)), db)
  {
    assert Readable(Perform(d, Open(r))) == Readable(d);
    assert forall p: nat | p < |db| :: Recovered(Perform(d, Open(r)), p) == Recovered(d, p);
  }

  lemma CloseTamePage(d: Disk, e: Disk, db: seq<Image>, r: Rec, p: nat)
    requires Exact(d, db) && d.part == None && Tame(d, db, r) && p < |db| && e == d.(log := d.log + [r])
    ensures Recovered(e, p) == Some(db[p])
  {
    var n := Winners(d.log);
    WinnersSnoc(d.log, r);
    SnocSlices(d.log, r, n);
    LastSnoc(d.log[n..], r, p);
    assert Recovered(d, p) == Some(db[p]);
  }

  lemma SnocSlices(log: seq<Rec>, r: Rec, n: nat)
    requires n <= |log|
    ensures (log + [r])[..n] == log[..n] && (log + [r])[n..] == log[n..] + [r]
  {
  }

  /** Appending a whole tame record. */
  lemma TameRecord(d: Disk, db: seq<Image>, r: Rec)
    requires Exact(d, db) && d.part == None && Tame(d, db, r)
    ensures Exact(d.(log := d.log + [r]), db)
  {
    var e := d.(log := d.log + [r]);
    WinnersSnoc(d.log, r);
    forall p: nat | p < |db|
      ensures Recovered(e, p) == Some(db[p])
    {
      CloseTamePage(d, e, db, r, p);
    }
  }

  lemma InvExact(s: Session)
    requires Inv(s)
    ensures Exact(s.disk, s.db)
  {
    var log := s.disk.log;
    if s.active {
      assert log[..s.start] + log[s.start..] == log;
    } else {
      assert log[..|log|] == log && log[|log|..] == [];
      forall p: nat | p < |s.db|
        ensures Recovered(s.disk, p) == Some(s.db[p])
      {
        assert s.disk.data[..|s.db|][p] == s.disk.data[p];
      }
    }
  }

  // ----- killed between two writes -----

  /** A kill now, and recovery restores db. */
  ghost predicate Survives(d: Disk, db: seq<Image>, cap: nat) {
    Exact(d, db) && Fits(Readable(d), cap)
  }

  ghost predicate AllSurvive(d: Disk, ios: seq<Io>, db: seq<Image>, cap: nat) {
    forall k | 0 <= k <= |ios| :: Survives(PerformAll(d, ios[..k]), db, cap)
  }

  lemma SurviveJoin(d: Disk, a: seq<Io>, b: seq<Io>, db: seq<Image>, cap: nat)
    requires AllSurvive(d, a, db, cap) && AllSurvive(PerformAll(d, a), b, db, cap)
    ensures AllSurvive(d, a + b, db, cap)
  {
    forall k | 0 <= k <= |a + b|
      ensures Survives(PerformAll(d, (a + b)[..k]), db, cap)
    {
      if k <= |a| {
        assert (a + b)[..k] == a[..k];
      } else {
        assert (a + b)[..k] == a + b[..k - |a|];
        PerformJoin(d, a, b[..k - |a|]);
      }
    }
  }

  lemma SurviveNone(d: Disk, db: seq<Image>, cap: nat)
    requires Survives(d, db, cap)
    ensures AllSurvive(d, [], db, cap)
  {
  }

  lemma SurviveOne(d: Disk, io: Io, db: seq<Image>, cap: nat)
    requires Survives(d, db, cap) && Survives(Perform(d, io), db, cap)
    ensures AllSurvive(d, [io], db, cap) && PerformAll(d, [io]) == Perform(d, io)
  {
    PerformOne(d, io);
    forall k | 0 <= k <= 1
      ensures Survives(PerformAll(d, [io][..k]), db, cap)
    {
      if k == 1 { assert [io][..1] == [io]; }
    }
  }

  lemma SurviveRecord(d: Disk, r: Rec, db: seq<Image>, cap: nat)
    requires Survives(d, db, cap) && d.part == None && Tame(d, db, r) && (r.After? ==> PendingCount(d.log) < cap)
    ensures AllSurvive(d, Record(r), db, cap) && PerformAll(d, Record(r)) == d.(log := d.log + [r])
  {
    var o := Perform(d, Open(r));
    OpenTame(d, db, r);
    TameRecord(d, db, r);
    FitsSnoc(d.log, r, cap);
    SurviveOne(d, Open(r), db, cap);
    SurviveOne(o, Close(r), db, cap);
    assert Record(r) == [Open(r)] + [Close(r)];
    SurviveJoin(d, [Open(r)], [Close(r)], db, cap);
    PerformJoin(d, [Open(r)], [Close(r)]);
  }

  lemma {:induction false} SurviveHarmless(d: Disk, ios: seq<Io>, db: seq<Image>, cap: nat)
    requires Survives(d, db, cap) && forall i | 0 <= i < |ios| :: Harmless(d, db, ios[i])
    ensures AllSurvive(d, ios, db, cap)
  {
    forall k | 0 <= k <= |ios|
      ensures Survives(PerformAll(d, ios[..k]), db, cap)
    {
      HarmlessAll(d, db, ios[..k]);
    }
  }

  // ----- begin, allocate, stage -----

  lemma KeepBegin(s: Session)
    requires Inv(s) && !s.active
    ensures Inv(Done(s, BeginTxn))
  {
    var log := s.disk.log;
    assert log[..|log|] == log && log[|log|..] == [];
    assert forall p: nat | p < |s.db| :: s.disk.data[..|s.db|][p] == s.disk.data[p];
  }

  lemma KeepAllocate(s: Session)
    requires Inv(s) && s.active
    ensures Inv(Done(s, Allocate)) && AllSurvive(s.disk, Ios(s, Allocate), s.db, s.cap)
  {
    InvExact(s);
    var io := Write(|s.disk.data|, 0);
    PerformOne(s.disk, io);
    HarmlessStep(s.disk, s.db, io);
    SurviveOne(s.disk, io, s.db, s.cap);
  }

  lemma KeepStage(s: Session, p: nat, v: Image)
    requires Inv(s) && s.active && p < |s.disk.data|
    ensures Inv(Done(s, Stage(p, v)))
  {
  }

  // ----- steal -----

  /** The first steal of a transaction logs the page count it started with. */
  function StealBegin(s: Session): Session {
    if s.stole then s else s.(disk := s.disk.(log := s.disk.log + [Begin(s.base)]), stole := true)
  }

  lemma KeepStealBegin(s: Session)
    requires Inv(s) && s.active
    ensures Inv(StealBegin(s))
    ensures AllSurvive(s.disk, if s.stole then [] else Record(Begin(s.base)), s.db, s.cap)
    ensures PerformAll(s.disk, if s.stole then [] else Record(Begin(s.base))) == StealBegin(s).disk
  {
    InvExact(s);
    if s.stole {
      SurviveNone(s.disk, s.db, s.cap);
    } else {
      SurviveRecord(s.disk, Begin(s.base), s.db, s.cap);
      KeepFirstSteal(s);
    }
  }

  lemma KeepFirstSteal(s: Session)
    requires Inv(s) && s.active && !s.stole
    ensures Inv(StealBegin(s))
  {
    var r, t := Begin(s.base), StealBegin(s);
    WinnersSnoc(s.disk.log, r);
    FitsSnoc(s.disk.log, r, s.cap);
    assert t.disk.log[..s.start] == s.disk.log[..s.start];
    assert t.disk.log[s.start..] == [r];
    assert forall p: nat :: LastBefore([r], p).None? by {
      assert [r][..0] == [];
    }
  }

  /** The first steal of an old page logs its before-image. */
  function StealBefore(s: Session, p: nat): Session {
    if p in s.spilled || p >= s.base || p >= |s.disk.data| then s.(spilled := s.spilled + {p})
    else s.(disk := s.disk.(log := s.disk.log + [Before(p, s.disk.data[p])]), spilled := s.spilled + {p})
  }

  lemma TailBefore(s: Session, p: nat)
    requires Inv(s) && s.active && s.stole && p < |s.disk.data|
    ensures TailOk(StealBefore(s, p))
  {
    var t := StealBefore(s, p);
    var tail := s.disk.log[s.start..];
    if p !in s.spilled && p < s.base {
      var r := Before(p, s.disk.data[p]);
      assert t.disk.log[s.start..] == tail + [r];
      forall q: nat
        ensures LastBefore(tail + [r], q) == if q == p then Some(r.image) else LastBefore(tail, q)
      {
        LastSnoc(tail, r, q);
      }
    }
  }

  lemma KeepStealBefore(s: Session, p: nat)
    requires Inv(s) && s.active && s.stole && p < |s.disk.data|
    ensures Inv(StealBefore(s, p))
    ensures var ios := if p in s.spilled || p >= s.base || p >= |s.disk.data| then []
            else Record(Before(p, s.disk.data[p]));
            AllSurvive(s.disk, ios, s.db, s.cap) && PerformAll(s.disk, ios) == StealBefore(s, p).disk
  {
    InvExact(s);
    TailBefore(s, p);
    if p in s.spilled || p >= s.base {
      SurviveNone(s.disk, s.db, s.cap);
    } else {
      SurviveRecord(s.disk, Before(p, s.disk.data[p]), s.db, s.cap);
      KeepNewBefore(s, p);
    }
  }

  lemma KeepNewBefore(s: Session, p: nat)
    requires Inv(s) && s.active && s.stole && p < s.base && p !in s.spilled && TailOk(StealBefore(s, p))
    ensures Inv(StealBefore(s, p))
  {
    var r := Before(p, s.disk.data[p]);
    WinnersSnoc(s.disk.log, r);
    FitsSnoc(s.disk.log, r, s.cap);
    assert (s.disk.log + [r])[..s.start] == s.disk.log[..s.start];
  }

  lemma KeepStealWrite(s: Session, p: nat, v: Image)
    requires Inv(s) && s.active && p in s.spilled && p < |s.disk.data|
    ensures Inv(s.(disk := Perform(s.disk, Write(p, v)))) && AllSurvive(s.disk, [Write(p, v)], s.db, s.cap)
  {
    InvExact(s);
    SpilledLogged(s, p);
    HarmlessStep(s.disk, s.db, Write(p, v));
    SurviveOne(s.disk, Write(p, v), s.db, s.cap);
    WrittenInv(s, p, v);
  }

  lemma SpilledLogged(s: Session, p: nat)
    requires Inv(s) && s.active && p in s.spilled && p < |s.disk.data|
    ensures Harmless(s.disk, s.db, Write(p, 0))
  {
    assert s.disk.log[..s.start] + s.disk.log[s.start..] == s.disk.log;
  }

  lemma WrittenInv(s: Session, p: nat, v: Image)
    requires Inv(s) && s.active && p in s.spilled && p < |s.disk.data|
    ensures Inv(s.(disk := Perform(s.disk, Write(p, v))))
  {
  }

  function BeginIos(s: Session): seq<Io> {
    if s.stole then [] else Record(Begin(s.base))
  }

  function BeforeIos(s: Session, p: nat): seq<Io> {
    if p in s.spilled || p >= s.base || p >= |s.disk.data| then [] else Record(Before(p, s.disk.data[p]))
  }

  /** The three parts of a steal, one after the other. */
  lemma StealParts(s: Session, p: nat, v: Image)
    requires PerformAll(s.disk, BeginIos(s)) == StealBegin(s).disk
    requires PerformAll(StealBegin(s).disk, BeforeIos(s, p)) == StealBefore(StealBegin(s), p).disk
    ensures Done(s, Steal(p, v)) ==
            var u := StealBefore(StealBegin(s), p); u.(disk := Perform(u.disk, Write(p, v)))
  {
    var a, b := BeginIos(s), BeforeIos(s, p);
    PerformJoin(s.disk, a + b, [Write(p, v)]);
    PerformJoin(s.disk, a, b);
    PerformOne(StealBefore(StealBegin(s), p).disk, Write(p, v));
  }

  lemma StealSurvives(s: Session, p: nat, v: Image)
    requires PerformAll(s.disk, BeginIos(s)) == StealBegin(s).disk
    requires PerformAll(StealBegin(s).disk, BeforeIos(s, p)) == StealBefore(StealBegin(s), p).disk
    requires AllSurvive(s.disk, BeginIos(s), s.db, s.cap) && AllSurvive(StealBegin(s).disk, BeforeIos(s, p), s.db,
             s.cap)
    requires AllSurvive(StealBefore(StealBegin(s), p).disk, [Write(p, v)], s.db, s.cap)
    ensures AllSurvive(s.disk, BeginIos(s) + BeforeIos(s, p) + [Write(p, v)], s.db, s.cap)
  {
    var a, b := BeginIos(s), BeforeIos(s, p);
    SurviveJoin(s.disk, a, b, s.db, s.cap);
    PerformJoin(s.disk, a, b);
    SurviveJoin(s.disk, a + b, [Write(p, v)], s.db, s.cap);
  }

  lemma KeepSteal(s: Session, p: nat, v: Image)
    requires Inv(s) && s.active && p < |s.disk.data|
    ensures Inv(Done(s, Steal(p, v))) && AllSurvive(s.disk, Ios(s, Steal(p, v)), s.db, s.cap)
  {
    KeepStealBegin(s);
    KeepStealBefore(StealBegin(s), p);
    KeepStealWrite(StealBefore(StealBegin(s), p), p, v);
    StealParts(s, p, v);
    StealSurvives(s, p, v);
    StealIosAre(s, p, v);
  }

  lemma StealIosAre(s: Session, p: nat, v: Image)
    ensures Ios(s, Steal(p, v)) == BeginIos(s) + BeforeIos(s, p) + [Write(p, v)]
  {
  }

  // ----- undo -----

  /** The data file of an aborted transaction, before its log records are cut. */
  lemma UndoRestores(s: Session)
    requires Inv(s) && s.active && s.stole
    ensures var tail := s.disk.log[s.start..]; var e := PerformAll(s.disk, UndoWrites(tail));
            && |e.data| == |s.disk.data| && e.log == s.disk.log && e.part == s.disk.part && e.data[..|s.db|] == s.db
  {
    var tail := s.disk.log[s.start..];
    UndoEffect(s.disk, tail);
    var e := PerformAll(s.disk, UndoWrites(tail));
    forall p: nat | p < |s.db|
      ensures e.data[p] == s.db[p]
    {
      if p !in s.spilled { assert LastBefore(tail, p).None?; }
    }
  }

  lemma UndoHarmless(s: Session)
    requires Inv(s) && s.active && s.stole
    ensures forall i | 0 <= i < |UndoWrites(s.disk.log[s.start..])| ::
              Harmless(s.disk, s.db, UndoWrites(s.disk.log[s.start..])[i])
  {
    var tail := s.disk.log[s.start..];
    forall i | 0 <= i < |UndoWrites(tail)|
      ensures Harmless(s.disk, s.db, UndoWrites(tail)[i])
    {
      UndoLogged(tail, i);
    }
  }

  lemma UndoneInv(s: Session, d: Disk)
    requires Inv(s) && s.active && d.part == None && d.log == s.disk.log[..s.start]
    requires |s.db| <= |d.data| && d.data[..|s.db|] == s.db
    ensures Inv(s.(disk := d, stole := false, spilled := {}, active := false))
  {
    FitsPrefix(s.disk.log, s.cap, s.start);
    WinnersPrefix(s.disk.log);
  }

  lemma UndoDisk(s: Session)
    requires Inv(s) && s.active && s.stole
    ensures var d := PerformAll(s.disk, UndoIos(s.disk, s.start, s.base, |s.disk.data|));
            d.part == None && d.log == s.disk.log[..s.start] && |s.db| <= |d.data| && d.data[..|s.db|] == s.db
  {
    var e := PerformAll(s.disk, UndoWrites(s.disk.log[s.start..]));
    UndoRestores(s);
    UndoParts(s.disk, s.start, s.base, |s.disk.data|);
    ShrinkKeeps(e, s.base, |s.disk.data|, s.db, s.start);
  }

  lemma ShrinkKeeps(e: Disk, base: nat, numPages: nat, db: seq<Image>, start: nat)
    requires |db| <= base <= |e.data| && e.data[..|db|] == db && start <= |e.log|
    ensures var d := Perform(PerformAll(e, if base < numPages then [Resize(base)] else []), Cut(start));
            d.part == None && d.log == e.log[..start] && |db| <= |d.data| && d.data[..|db|] == db
  {
    ResizeEffect(e, if base < numPages then [Resize(base)] else [], |db|);
  }

  /** The writes of an undo, one part after the other. */
  lemma UndoParts(d: Disk, start: nat, base: nat, numPages: nat)
    requires start <= |d.log|
    ensures var shrink := if base < numPages then [Resize(base)] else [];
            PerformAll(d, UndoIos(d, start, base, numPages)) ==
            Perform(PerformAll(PerformAll(d, UndoWrites(d.log[start..])), shrink), Cut(start))
  {
    var a, b := UndoWrites(d.log[start..]), if base < numPages then [Resize(base)] else [];
    PerformJoin(d, a, b);
    PerformJoin(d, a + b, [Cut(start)]);
    PerformOne(PerformAll(PerformAll(d, a), b), Cut(start));
  }

  lemma UndoDone(s: Session)
    requires Inv(s) && s.active && s.stole
    ensures Inv(Done(s, Undo))
  {
    UndoDisk(s);
    UndoneInv(s, PerformAll(s.disk, UndoIos(s.disk, s.start, s.base, |s.disk.data|)));
  }

  lemma WinnersPrefix(log: seq<Rec>)
    ensures Winners(log[..Winners(log)]) == Winners(log)
  {
    var n := Winners(log);
    if n > 0 { assert log[..n][|log[..n]| - 1] == Commit; }
  }

  lemma KeepUndo(s: Session)
    requires Inv(s) && s.active
    ensures Inv(Done(s, Undo)) && AllSurvive(s.disk, Ios(s, Undo), s.db, s.cap)
  {
    InvExact(s);
    if s.stole {
      UndoDone(s);
      UndoKilled(s);
    } else {
      assert s.disk.log[..s.start] == s.disk.log;
      assert s.disk.data[..|s.db|] == s.db;
      SurviveNone(s.disk, s.db, s.cap);
    }
  }

  lemma UndoKilled(s: Session)
    requires Inv(s) && s.active && s.stole && Inv(Done(s, Undo))
    ensures AllSurvive(s.disk, Ios(s, Undo), s.db, s.cap)
  {
    var tail := s.disk.log[s.start..];
    var shrink := if s.base < |s.disk.data| then [Resize(s.base)] else [];
    InvExact(s);
    UndoHarmless(s);
    SurviveHarmless(s.disk, UndoWrites(tail) + shrink, s.db, s.cap);
    var d := PerformAll(s.disk, UndoWrites(tail) + shrink);
    PerformJoin(s.disk, UndoWrites(tail) + shrink, [Cut(s.start)]);
    InvExact(Done(s, Undo));
    PerformOne(d, Cut(s.start));
    assert Survives(PerformAll(s.disk, (UndoWrites(tail) + shrink)[..|UndoWrites(tail) + shrink|]), s.db, s.cap);
    assert (UndoWrites(tail) + shrink)[..|UndoWrites(tail) + shrink|] == UndoWrites(tail) + shrink;
    SurviveOne(d, Cut(s.start), s.db, s.cap);
    SurviveJoin(s.disk, UndoWrites(tail) + shrink, [Cut(s.start)], s.db, s.cap);
  }

  // ----- commit -----

  function Afters(staged: seq<Staged>): seq<Rec> {
    seq(|staged|, i requires 0 <= i < |staged| => Rec.After(staged[i].pid, staged[i].image))
  }

  lemma {:induction false} AftersFit(log: seq<Rec>, staged: seq<Staged>, cap: nat)
    requires Fits(log, cap) && PendingCount(log) + |staged| <= cap
    ensures PendingCount(log + Afters(staged)) == PendingCount(log) + |staged| && Fits(log + Afters(staged), cap)
    decreases |staged|
  {
    if staged == [] {
      assert log + Afters(staged) == log;
    } else {
      AftersSnoc(log, staged);
      AftersFit(log, staged[..|staged| - 1], cap);
      FitsSnoc(log + Afters(staged[..|staged| - 1]), Rec.After(staged[|staged| - 1].pid, staged[|staged| - 1].image),
          cap);
    }
  }

  lemma AftersSnoc(log: seq<Rec>, staged: seq<Staged>)
    requires staged != []
    ensures var x := staged[|staged| - 1];
            log + Afters(staged) == (log + Afters(staged[..|staged| - 1])) + [Rec.After(x.pid, x.image)]
  {
  }

  /** Logging the after-images changes nothing yet. */
  lemma {:induction false} KeepAfters(d: Disk, staged: seq<Staged>, db: seq<Image>, cap: nat)
    requires Survives(d, db, cap) && d.part == None && PendingCount(d.log) + |staged| <= cap
    ensures AllSurvive(d, AfterIos(staged), db, cap)
    ensures PerformAll(d, AfterIos(staged)) == d.(log := d.log + Afters(staged))
    decreases |staged|
  {
    if staged == [] {
      SurviveNone(d, db, cap);
      assert d.log + Afters(staged) == d.log;
    } else {
      var front, x := staged[..|staged| - 1], staged[|staged| - 1];
      var r, ios := Rec.After(x.pid, x.image), AfterIos(staged[..|staged| - 1]);
      KeepAfters(d, front, db, cap);
      AftersFit(d.log, front, cap);
      var e := PerformAll(d, ios);
      assert Survives(PerformAll(d, ios[..|ios|]), db, cap) && ios[..|ios|] == ios;
      SurviveRecord(e, r, db, cap);
      AftersSnoc(d.log, staged);
      SurviveJoin(d, ios, Record(r), db, cap);
      PerformJoin(d, ios, Record(r));
    }
  }

  lemma {:induction false} AftersImage(log: seq<Rec>, staged: seq<Staged>, p: nat)
    ensures LastAfter(log + Afters(staged), p) ==
            (var v := StagedImage(staged, p); if v.Some? then v else LastAfter(log, p))
    decreases |staged|
  {
    if staged == [] {
      assert log + Afters(staged) == log;
    } else {
      var front, x := staged[..|staged| - 1], staged[|staged| - 1];
      var r := Rec.After(x.pid, x.image);
      assert log + Afters(staged) == (log + Afters(front)) + [r];
      LastSnoc(log + Afters(front), r, p);
      AftersImage(log, front, p);
    }
  }

  lemma {:induction false} StagedHas(staged: seq<Staged>, p: nat)
    ensures StagedImage(staged, p).Some? <==> p in StagedPids(staged)
    decreases |staged|
  {
    if staged != [] {
      var front := staged[..|staged| - 1];
      StagedHas(front, p);
      assert StagedPids(staged) == StagedPids(front) + {staged[|staged| - 1].pid};
    }
  }

  /** The log right after the commit marker's first byte. */
  function MarkedLog(s: Session): seq<Rec> {
    s.disk.log + Afters(s.staged) + [Commit]
  }

  /** The last after-image of a page once the marker is written. */
  lemma MarkedImage(s: Session, p: nat)
    requires Inv(s) && s.active
    ensures LastAfter(MarkedLog(s), p) ==
            (var v := StagedImage(s.staged, p); if v.Some? then v else LastAfter(s.disk.log[..s.start], p))
    ensures LastAfter(s.disk.log, p) == LastAfter(s.disk.log[..s.start], p)
  {
    LastSnoc(s.disk.log + Afters(s.staged), Commit, p);
    AftersImage(s.disk.log, s.staged, p);
    assert s.disk.log[..s.start] + s.disk.log[s.start..] == s.disk.log;
    NoAfterTail(s.disk.log[..s.start], s.disk.log[s.start..], p);
  }

  /** The log of a committed transaction agrees with the committed contents exactly under the guard. */
  lemma MarkedAgrees(s: Session)
    requires Inv(s) && s.active
    ensures LogAgrees(MarkedLog(s), Installed(s)) <==> Guarded(s)
  {
    ApplyEffect(s.disk, s.staged);
    var db := Installed(s);
    forall p: nat
      ensures (LastAfter(MarkedLog(s), p).Some? ==> p < |db| && LastAfter(MarkedLog(s), p).value == db[p]) <==>
              (p in s.spilled && p !in StagedPids(s.staged) && p < |s.disk.data| ==>
                 var r := LastAfter(s.disk.log, p); r.None? || r == Some(s.disk.data[p]))
    {
      MarkedImage(s, p);
      StagedHas(s.staged, p);
    }
  }

  lemma {:induction false} TailHasNoAfter(log: seq<Rec>, start: nat)
    requires start <= |log| && Winners(log) == start && Winners(log[..start]) == start
    requires forall i | start <= i < |log| :: !log[i].After?
    ensures PendingCount(log) == 0
    decreases |log|
  {
    if |log| > start {
      var front := log[..|log| - 1];
      assert front[..start] == log[..start];
      TailHasNoAfter(front, start);
    } else {
      assert log[..start] == log;
    }
  }

  lemma MarkedFits(s: Session)
    requires Inv(s) && s.active
    ensures PendingCount(s.disk.log) == 0 && Fits(MarkedLog(s), s.cap) && Winners(MarkedLog(s)) == |MarkedLog(s)|
  {
    WinnersPrefix(s.disk.log);
    assert forall i | s.start <= i < |s.disk.log| :: s.disk.log[i] == s.disk.log[s.start..][i - s.start];
    TailHasNoAfter(s.disk.log, s.start);
    AftersFit(s.disk.log, s.staged, s.cap);
    FitsSnoc(s.disk.log + Afters(s.staged), Commit, s.cap);
    WinnersSnoc(s.disk.log + Afters(s.staged), Commit);
  }

  /** A disk that holds the marker of s's transaction, with any images on the staged pages. */
  ghost predicate Marked(s: Session, d: Disk) {
    && Readable(d) == MarkedLog(s) && |d.data| == |s.disk.data|
    && forall p: nat | p < |d.data| && StagedImage(s.staged, p).None? :: d.data[p] == s.disk.data[p]
  }

  /** From the marker's first byte on, a kill is recovered to the new contents exactly under the guard. */
  lemma MarkedExact(s: Session, d: Disk)
    requires Inv(s) && s.active && Marked(s, d)
    ensures Exact(d, Installed(s)) <==> Guarded(s)
  {
    var log, db := MarkedLog(s), Installed(s);
    ApplyEffect(s.disk, s.staged);
    MarkedFits(s);
    MarkedAgrees(s);
    assert log[|log|..] == [] && log[..|log|] == log;
    forall p: nat | p < |db|
      ensures Recovered(d, p) == Some(db[p]) <==> (LastAfter(log, p).Some? ==> LastAfter(log, p).value == db[p])
    {
      MarkedImage(s, p);
    }
    forall p: nat | LastAfter(log, p).Some?
      ensures p < |db|
    {
      MarkedImage(s, p);
    }
  }

  lemma OpenPrefix(staged: seq<Staged>)
    ensures CommitIos(staged, false)[..|AfterIos(staged)| + 1] == AfterIos(staged) + [Open(Commit)]
  {
  }

  /** Killed after the marker's first byte, anywhere up to the checkpoint. */
  lemma CommitMarked(s: Session, k: nat)
    requires Inv(s) && s.active && Guarded(s)
    requires MarkerAt(s) < k <= MarkerAt(s) + 2 + |s.staged|
    ensures Survives(PerformAll(s.disk, CommitIos(s.staged, false)[..k]), Installed(s), s.cap)
  {
    if k == MarkerAt(s) + 1 { CommitOpened(s); } else { CommitApplying(s, k - MarkerAt(s) - 2); }
  }

  /** Killed right after the first byte of the marker. */
  lemma CommitOpened(s: Session)
    requires Inv(s) && s.active && Guarded(s)
    ensures Survives(PerformAll(s.disk, CommitIos(s.staged, false)[..MarkerAt(s) + 1]), Installed(s), s.cap)
  {
    InvExact(s);
    MarkedFits(s);
    KeepAfters(s.disk, s.staged, s.db, s.cap);
    var d := s.disk.(log := s.disk.log + Afters(s.staged));
    OpenPrefix(s.staged);
    PerformJoin(s.disk, AfterIos(s.staged), [Open(Commit)]);
    PerformOne(d, Open(Commit));
    MarkedExact(s, Perform(d, Open(Commit)));
  }

  lemma ApplyPrefix(staged: seq<Staged>, j: nat)
    requires j <= |staged|
    ensures CommitIos(staged, false)[..|AfterIos(staged)| + 2 + j] == MarkedIos(staged) + ApplyIos(staged)[..j]
  {
    var a, b := MarkedIos(staged), ApplyIos(staged);
    assert CommitIos(staged, false) == a + b;
    assert (a + b)[..|a| + j] == a + b[..j];
  }

  lemma ApplyingDisk(d: Disk, staged: seq<Staged>, j: nat)
    requires j <= |staged| && d.part == None && PerformAll(d, AfterIos(staged)) == d.(log := d.log + Afters(staged))
    ensures PerformAll(d, CommitIos(staged, false)[..|AfterIos(staged)| + 2 + j]) ==
            PerformAll(d.(log := d.log + Afters(staged) + [Commit]), ApplyIos(staged)[..j])
  {
    ApplyPrefix(staged, j);
    MarkerDisk(d, staged, d.(log := d.log + Afters(staged)));
    PerformJoin(d, MarkedIos(staged), ApplyIos(staged)[..j]);
  }

  /** Killed while the pages are being written. */
  lemma CommitApplying(s: Session, j: nat)
    requires Inv(s) && s.active && Guarded(s) && j <= |s.staged|
    ensures Survives(PerformAll(s.disk, CommitIos(s.staged, false)[..MarkerAt(s) + 2 + j]), Installed(s), s.cap)
  {
    ApplyingAt(s, j);
    AppliedPrefix(s, s.disk.(log := MarkedLog(s)), j);
  }

  lemma ApplyingAt(s: Session, j: nat)
    requires Inv(s) && s.active && j <= |s.staged|
    ensures PerformAll(s.disk, CommitIos(s.staged, false)[..MarkerAt(s) + 2 + j]) ==
            PerformAll(s.disk.(log := MarkedLog(s)), ApplyIos(s.staged)[..j])
  {
    AftersLogged(s);
    ApplyingDisk(s.disk, s.staged, j);
  }

  lemma AftersLogged(s: Session)
    requires Inv(s) && s.active
    ensures s.disk.part == None
    ensures PerformAll(s.disk, AfterIos(s.staged)) == s.disk.(log := s.disk.log + Afters(s.staged))
  {
    InvExact(s);
    MarkedFits(s);
    KeepAfters(s.disk, s.staged, s.db, s.cap);
  }

  lemma AppliedPrefix(s: Session, c: Disk, j: nat)
    requires Inv(s) && s.active && Guarded(s) && j <= |s.staged|
    requires c == s.disk.(log := MarkedLog(s))
    ensures var e := PerformAll(c, ApplyIos(s.staged)[..j]);
            Survives(e, Installed(s), s.cap) && e.log == MarkedLog(s) && e.part == None
            && (j == |s.staged| ==> e.data == Installed(s))
  {
    MarkedFits(s);
    assert ApplyIos(s.staged)[..j] == ApplyIos(s.staged[..j]);
    ApplyEffect(c, s.staged[..j]);
    forall p: nat | StagedImage(s.staged, p).None?
      ensures StagedImage(s.staged[..j], p).None?
    {
      StagedHas(s.staged, p);
      StagedHas(s.staged[..j], p);
    }
    var e := PerformAll(c, ApplyIos(s.staged[..j]));
    MarkedExact(s, e);
    if j == |s.staged| {
      assert s.staged[..j] == s.staged;
      ApplySame(s.disk, c, s.staged);
    }
  }

  lemma {:induction false} ApplySame(d: Disk, e: Disk, staged: seq<Staged>)
    requires d.data == e.data
    ensures PerformAll(d, ApplyIos(staged)).data == PerformAll(e, ApplyIos(staged)).data
    decreases |staged|
  {
    if staged != [] {
      var n := |staged| - 1;
      assert ApplyIos(staged)[..n] == ApplyIos(staged[..n]);
      ApplySame(d, e, staged[..n]);
    }
  }

  /** The disk of a completed commit, before and after its checkpoint. */
  lemma CommitDisk(s: Session, checkpoint: bool)
    requires Inv(s) && s.active && Guarded(s)
    ensures var d := PerformAll(s.disk, CommitIos(s.staged, checkpoint));
            d.data == Installed(s) && d.part == None && d.log == if checkpoint then [] else MarkedLog(s)
  {
    var ios := CommitIos(s.staged, false);
    CommitPlain(s);
    if checkpoint {
      assert CommitIos(s.staged, true) == ios + [Cut(0)];
      PerformJoin(s.disk, ios, [Cut(0)]);
      PerformOne(PerformAll(s.disk, ios), Cut(0));
    }
  }

  lemma CommitPlain(s: Session)
    requires Inv(s) && s.active && Guarded(s)
    ensures PerformAll(s.disk, CommitIos(s.staged, false)) == Disk(Installed(s), MarkedLog(s), None)
  {
    var a := AfterIos(s.staged);
    InvExact(s);
    MarkedFits(s);
    KeepAfters(s.disk, s.staged, s.db, s.cap);
    var d := s.disk.(log := s.disk.log + Afters(s.staged));
    var o := Perform(d, Open(Commit));
    var c := Perform(o, Close(Commit));
    assert CommitIos(s.staged, false) == a + Record(Commit) + ApplyIos(s.staged);
    PerformJoin(s.disk, a + Record(Commit), ApplyIos(s.staged));
    PerformJoin(s.disk, a, Record(Commit));
    assert PerformAll(d, Record(Commit)) == c by {
      PerformJoin(d, [Open(Commit)], [Close(Commit)]);
      PerformOne(d, Open(Commit));
      PerformOne(o, Close(Commit));
      assert Record(Commit) == [Open(Commit)] + [Close(Commit)];
    }
    AppliedPrefix(s, c, |s.staged|);
    assert ApplyIos(s.staged)[..|s.staged|] == ApplyIos(s.staged);
  }

  lemma CommittedInv(s: Session, d: Disk)
    requires d.part == None && Fits(d.log, s.cap) && Winners(d.log) == |d.log| && LogAgrees(d.log, d.data)
    ensures Inv(s.(disk := d, staged := [], stole := false, spilled := {}, active := false, db := d.data))
  {
    assert d.data[..|d.data|] == d.data;
  }

  lemma KeepCommit(s: Session, checkpoint: bool)
    requires Inv(s) && s.active && Guarded(s)
    ensures Inv(Done(s, CommitTxn(checkpoint)))
  {
    CommitDisk(s, checkpoint);
    MarkedFits(s);
    MarkedAgrees(s);
    var d := PerformAll(s.disk, CommitIos(s.staged, checkpoint));
    CommittedInv(s, d);
    CommittedState(s, checkpoint, d);
  }

  lemma CommittedState(s: Session, checkpoint: bool, d: Disk)
    requires d == PerformAll(s.disk, CommitIos(s.staged, checkpoint)) && d.data == Installed(s)
    ensures Done(s, CommitTxn(checkpoint)) == s.(disk := d, staged := [], stole := false, spilled := {},
            active := false, db := d.data)
  {
  }

  lemma CommitKilledEarly(s: Session, checkpoint: bool, k: nat)
    requires Inv(s) && s.active && k <= MarkerAt(s)
    ensures Survives(PerformAll(s.disk, CommitIos(s.staged, checkpoint)[..k]), s.db, s.cap)
  {
    InvExact(s);
    MarkedFits(s);
    KeepAfters(s.disk, s.staged, s.db, s.cap);
    assert CommitIos(s.staged, checkpoint)[..k] == AfterIos(s.staged)[..k];
  }

  lemma CommitKilledLate(s: Session, checkpoint: bool)
    requires Inv(s) && s.active && Guarded(s)
    ensures Survives(PerformAll(s.disk, CommitIos(s.staged, checkpoint)), Installed(s), s.cap)
  {
    KeepCommit(s, checkpoint);
    InvExact(Done(s, CommitTxn(checkpoint)));
  }

  lemma CommitKilled(s: Session, checkpoint: bool, k: nat)
    requires Inv(s) && s.active && Guarded(s) && k <= |CommitIos(s.staged, checkpoint)|
    ensures var db := if MarkerAt(s) < k then Installed(s) else s.db;
            Survives(PerformAll(s.disk, CommitIos(s.staged, checkpoint)[..k]), db, s.cap)
  {
    var ios := CommitIos(s.staged, checkpoint);
    if k <= MarkerAt(s) {
      CommitKilledEarly(s, checkpoint, k);
    } else if k <= MarkerAt(s) + 2 + |s.staged| {
      CommitMarked(s, k);
      assert ios[..k] == CommitIos(s.staged, false)[..k];
    } else {
      assert ios[..k] == ios;
      CommitKilledLate(s, checkpoint);
    }
  }

  // ----- runs -----

  lemma KeepEvent(s: Session, e: Event)
    requires Inv(s) && Allowed(s, e) && (e.CommitTxn? ==> Guarded(s))
    ensures Inv(Done(s, e))
  {
    match e
    case BeginTxn => KeepBegin(s);
    case Allocate => KeepAllocate(s);
    case Stage(p, v) => KeepStage(s, p, v);
    case Steal(p, v) => KeepSteal(s, p, v);
    case Undo => KeepUndo(s);
    case CommitTxn(checkpoint) => KeepCommit(s, checkpoint);
  }

  /** Killed after any number of the writes of any event, the disk still holds the committed contents. */
  lemma KilledSurvives(s: Session, e: Event, k: nat)
    requires Inv(s) && Allowed(s, e) && (e.CommitTxn? ==> Guarded(s)) && k <= |Ios(s, e)|
    ensures var db := if e.CommitTxn? && MarkerAt(s) < k then Installed(s) else s.db;
            Survives(PerformAll(s.disk, Ios(s, e)[..k]), db, s.cap)
  {
    InvExact(s);
    match e
    case BeginTxn =>
    case Allocate => KeepAllocate(s);
    case Stage(p, v) =>
    case Steal(p, v) => KeepSteal(s, p, v);
    case Undo => KeepUndo(s);
    case CommitTxn(checkpoint) => CommitKilled(s, checkpoint, k);
  }

  lemma ReopenedInv(s: Session, d: Disk, db: seq<Image>)
    requires d.log == [] && d.part == None && |db| <= |d.data| && forall p: nat | p < |db| :: d.data[p] == db[p]
    ensures Inv(Reopened(s, d, db))
  {
    assert d.data[..|db|] == db;
  }

  lemma KilledDiskSurvives(s: Session, e: Event, k: nat)
    requires Inv(s) && Allowed(s, e) && (e.CommitTxn? ==> Guarded(s))
    ensures Survives(KilledDisk(s, e, k), KilledDb(s, e, k), s.cap)
  {
    var ios := Ios(s, e);
    var n := if k < |ios| then k else |ios|;
    assert ios[..|ios|] == ios;
    KilledSurvives(s, e, n);
  }

  lemma KeepKill(s: Session, e: Event, k: nat, tries: seq<nat>)
    requires Inv(s) && Allowed(s, e) && (e.CommitTxn? ==> Guarded(s))
    ensures Inv(Act(s, Kill(e, k, tries)))
  {
    var d, db := KilledDisk(s, e, k), KilledDb(s, e, k);
    KilledDiskSurvives(s, e, k);
    KilledReopens(s, d, db, tries);
  }

  lemma KilledReopens(s: Session, d: Disk, db: seq<Image>, tries: seq<nat>)
    requires Survives(d, db, s.cap)
    ensures var r := Retried(d, s.cap, tries); Inv(Reopened(s, PerformAll(r, RecoverIos(r, s.cap)), db))
  {
    CrashRecoveryExact(d, db, s.cap, tries);
    var r := Retried(d, s.cap, tries);
    ReopenedInv(s, PerformAll(r, RecoverIos(r, s.cap)), db);
  }

  lemma KeepAct(s: Session, a: Action)
    requires Inv(s) && (a.event.CommitTxn? && s.active ==> Guarded(s))
    ensures Inv(Act(s, a))
  {
    if Allowed(s, a.event) {
      match a
      case Do(e) => KeepEvent(s, e);
      case Kill(e, k, tries) => KeepKill(s, e, k, tries);
    }
  }

  lemma FreshInv(data: seq<Image>, cap: nat)
    ensures Inv(Fresh(data, cap))
  {
    assert data[..|data|] == data;
  }

  lemma {:induction false} RunInv(data: seq<Image>, cap: nat, xs: seq<Action>)
    requires GuardedRun(Fresh(data, cap), xs)
    ensures Inv(Run(Fresh(data, cap), xs))
    decreases |xs|
  {
    if xs == [] {
      FreshInv(data, cap);
    } else {
      var n := |xs| - 1;
      assert forall i | 0 <= i <= n :: xs[..n][..i] == xs[..i];
      assert GuardedRun(Fresh(data, cap), xs[..n]);
      RunInv(data, cap, xs[..n]);
      KeepAct(Run(Fresh(data, cap), xs[..n]), xs[n]);
    }
  }

  /** Between transactions - after a commit, a rollback, or a recovery from a kill at any write,
      itself killed any number of times - the data file holds the contents of the last
      transaction whose commit marker reached the log. */
  lemma DataMatchesCommitted(data: seq<Image>, cap: nat, xs: seq<Action>)
    requires GuardedRun(Fresh(data, cap), xs)
    ensures var s := Run(Fresh(data, cap), xs);
            !s.active ==> |s.db| <= |s.disk.data| && s.disk.data[..|s.db|] == s.db
  {
    RunInv(data, cap, xs);
  }

  lemma RecoverCommitted(d: Disk, cap: nat)
    requires Fits(Readable(d), cap) && Winners(Readable(d)) == |Readable(d)|
    ensures var e := PerformAll(d, RecoverIos(d, cap));
            |e.data| >= |d.data| && forall p: nat | p < |d.data| :: Recovered(d, p) == Some(e.data[p])
  {
    RedoEffect(d, Readable(d), cap);
    RecoverRedo(d, cap);
    RedoneExact(d, PerformAll(d, RedoWrites(Readable(d), cap)));
  }

  lemma RedoneExact(d: Disk, e: Disk)
    requires Redone(d, e, Readable(d)) && Winners(Readable(d)) == |Readable(d)|
    ensures forall p: nat | p < |d.data| :: Recovered(d, p) == Some(e.data[p])
  {
    var log := Readable(d);
    assert log[|log|..] == [] && log[..|log|] == log;
  }

  /** With nothing to undo, recovery is the first pass and the cut of the log. */
  lemma RecoverRedo(d: Disk, cap: nat)
    requires Winners(Readable(d)) == |Readable(d)|
    ensures PerformAll(d, RecoverIos(d, cap)) == Perform(PerformAll(d, RedoWrites(Readable(d), cap)), Cut(0))
  {
    var log := Readable(d);
    assert log[|log|..] == [];
    assert RecoverIos(d, cap) == RedoWrites(log, cap) + [Cut(0)];
    PerformJoin(d, RedoWrites(log, cap), [Cut(0)]);
    PerformOne(PerformAll(d, RedoWrites(log, cap)), Cut(0));
  }

  lemma ExactIsNeeded(s: Session, d: Disk)
    requires Inv(s) && s.active && Marked(s, d)
    ensures var e := PerformAll(d, RecoverIos(d, s.cap)); var db := Installed(s);
            |db| <= |e.data| && e.data[..|db|] == db <==> Guarded(s)
  {
    var e, db := PerformAll(d, RecoverIos(d, s.cap)), Installed(s);
    MarkedFits(s);
    MarkedExact(s, d);
    RecoverCommitted(d, s.cap);
    ApplyEffect(s.disk, s.staged);
    var log := Readable(d);
    assert log[|log|..] == [];
    if |db| <= |e.data| && e.data[..|db|] == db {
      forall p: nat | p < |db|
        ensures Recovered(d, p) == Some(db[p])
      {
        assert e.data[..|db|][p] == e.data[p];
      }
      assert Exact(d, db);
    }
  }

  function MarkedIos(staged: seq<Staged>): seq<Io> {
    AfterIos(staged) + Record(Commit)
  }

  lemma CommitPrefix(staged: seq<Staged>, checkpoint: bool)
    ensures |CommitIos(staged, checkpoint)| >= |AfterIos(staged)| + 2
    ensures CommitIos(staged, checkpoint)[..|AfterIos(staged)| + 2] == MarkedIos(staged)
  {
    TakeTwo(AfterIos(staged), Record(Commit), ApplyIos(staged), if checkpoint then [Cut(0)] else []);
  }

  lemma TakeTwo(a: seq<Io>, b: seq<Io>, c: seq<Io>, d: seq<Io>)
    ensures (a + b + c + d)[..|a| + |b|] == a + b
  {
  }

  /** The disk once the after-images and the marker are written. */
  lemma MarkerDisk(d: Disk, staged: seq<Staged>, e: Disk)
    requires PerformAll(d, AfterIos(staged)) == e
    ensures PerformAll(d, MarkedIos(staged)) == e.(log := e.log + [Commit], part := None)
  {
    PerformJoin(d, AfterIos(staged), Record(Commit));
    RecordDone(e, Commit);
  }

  lemma MarkedBy(s: Session, d: Disk)
    requires d.log == s.disk.log + Afters(s.staged) + [Commit] && d.part == None && d.data == s.disk.data
    ensures Marked(s, d)
  {
  }

  lemma MarkedDisk(s: Session, checkpoint: bool)
    requires Inv(s) && s.active
    ensures Marked(s, PerformAll(s.disk, CommitIos(s.staged, checkpoint)[..MarkerAt(s) + 2]))
  {
    InvExact(s);
    MarkedFits(s);
    KeepAfters(s.disk, s.staged, s.db, s.cap);
    CommitPrefix(s.staged, checkpoint);
    MarkerDisk(s.disk, s.staged, s.disk.(log := s.disk.log + Afters(s.staged)));
    MarkedBy(s, PerformAll(s.disk, MarkedIos(s.staged)));
  }

  /** The guard is exact: a commit that meets it survives a kill at once after its marker, one that does not loses a
      page. */
  lemma GuardIsExact(data: seq<Image>, cap: nat, xs: seq<Action>, checkpoint: bool)
    requires GuardedRun(Fresh(data, cap), xs) && Run(Fresh(data, cap), xs).active
    ensures var s := Run(Fresh(data, cap), xs);
            var t := Act(s, Kill(CommitTxn(checkpoint), MarkerAt(s) + 2, []));
            |t.db| <= |t.disk.data| && t.disk.data[..|t.db|] == t.db <==> Guarded(s)
  {
    RunInv(data, cap, xs);
    KilledAtMarker(Run(Fresh(data, cap), xs), checkpoint);
  }

  lemma KilledAtMarkerDisk(s: Session, checkpoint: bool)
    ensures KilledDisk(s, CommitTxn(checkpoint), MarkerAt(s) + 2) ==
            PerformAll(s.disk, CommitIos(s.staged, checkpoint)[..MarkerAt(s) + 2])
  {
    var ios := CommitIos(s.staged, checkpoint);
    assert ios[..|ios|] == ios;
  }

  lemma KillAct(s: Session, checkpoint: bool)
    requires s.active
    ensures var d := PerformAll(s.disk, CommitIos(s.staged, checkpoint)[..MarkerAt(s) + 2]);
            Act(s, Kill(CommitTxn(checkpoint), MarkerAt(s) + 2, [])) ==
            Reopened(s, PerformAll(d, RecoverIos(d, s.cap)), Installed(s))
  {
    KilledAtMarkerDisk(s, checkpoint);
    assert KilledDb(s, CommitTxn(checkpoint), MarkerAt(s) + 2) == Installed(s);
  }

  lemma KilledAtMarker(s: Session, checkpoint: bool)
    requires Inv(s) && s.active
    ensures var t := Act(s, Kill(CommitTxn(checkpoint), MarkerAt(s) + 2, []));
            |t.db| <= |t.disk.data| && t.disk.data[..|t.db|] == t.db <==> Guarded(s)
  {
    MarkedDisk(s, checkpoint);
    ExactIsNeeded(s, PerformAll(s.disk, CommitIos(s.staged, checkpoint)[..MarkerAt(s) + 2]));
    KillAct(s, checkpoint);
  }

  lemma MarkedKeepsOld(s: Session, d: Disk, p: nat)
    requires Inv(s) && s.active && Marked(s, d) && p !in StagedPids(s.staged) && LastAfter(s.disk.log, p).Some?
    ensures Recovered(d, p) == LastAfter(s.disk.log, p)
  {
    MarkedFits(s);
    MarkedImage(s, p);
    StagedHas(s.staged, p);
    assert MarkedLog(s)[|MarkedLog(s)|..] == [] && MarkedLog(s)[..|MarkedLog(s)|] == MarkedLog(s);
  }

  lemma InstalledKeeps(s: Session, p: nat)
    requires p !in StagedPids(s.staged) && p < |s.disk.data|
    ensures p < |Installed(s)| && Installed(s)[p] == s.disk.data[p]
  {
    StagedHas(s.staged, p);
    ApplyEffect(s.disk, s.staged);
  }

  lemma RecoverMarked(s: Session, d: Disk, p: nat)
    requires Inv(s) && s.active && Marked(s, d) && p < |d.data|
    ensures var e := PerformAll(d, RecoverIos(d, s.cap)); p < |e.data| && Recovered(d, p) == Some(e.data[p])
  {
    MarkedFits(s);
    RecoverCommitted(d, s.cap);
  }

  /** What is lost without the guard: the page falls back to its older after-image. */
  lemma StalePage(s: Session, checkpoint: bool, p: nat)
    requires Inv(s) && s.active && p < |s.disk.data| && p !in StagedPids(s.staged) && LastAfter(s.disk.log, p).Some?
    ensures var t := Act(s, Kill(CommitTxn(checkpoint), MarkerAt(s) + 2, []));
            p < |t.disk.data| && p < |t.db| && t.db[p] == s.disk.data[p]
                && t.disk.data[p] == LastAfter(s.disk.log, p).value
  {
    var d := PerformAll(s.disk, CommitIos(s.staged, checkpoint)[..MarkerAt(s) + 2]);
    MarkedDisk(s, checkpoint);
    MarkedKeepsOld(s, d, p);
    RecoverMarked(s, d, p);
    InstalledKeeps(s, p);
    KillAct(s, checkpoint);
  }

  lemma RunSnoc(s: Session, xs: seq<Action>, a: Action)
    ensures Run(s, xs + [a]) == Act(Run(s, xs), a)
  {
    assert (xs + [a])[..|xs|] == xs;
  }

  lemma RunThree(s: Session, a: Action, b: Action, c: Action)
    ensures Run(s, [a, b, c]) == Act(Act(Act(s, a), b), c)
  {
    RunSnoc(s, [], a);
    RunSnoc(s, [a], b);
    RunSnoc(s, [a, b], c);
    assert [] + [a] == [a] && [a] + [b] == [a, b] && [a, b] + [c] == [a, b, c];
  }

  lemma {:induction false} RunJoin(s: Session, xs: seq<Action>, ys: seq<Action>)
    ensures Run(s, xs + ys) == Run(Run(s, xs), ys)
    decreases |ys|
  {
    if ys == [] {
      assert xs + ys == xs;
    } else {
      assert (xs + ys)[..|xs + ys| - 1] == xs + ys[..|ys| - 1];
      RunJoin(s, xs, ys[..|ys| - 1]);
    }
  }

  lemma StageOnce() returns (s: Session)
    ensures s == Act(Act(Fresh([0], 64), Do(BeginTxn)), Do(Stage(0, 1)))
    ensures Inv(s) && s.active && s.disk == Disk([0], [], None) && s.staged == [Staged(0, 1)] && s.spilled == {}
  {
    FreshInv([0], 64);
    KeepBegin(Fresh([0], 64));
    s := Done(Done(Fresh([0], 64), BeginTxn), Stage(0, 1));
    KeepStage(Done(Fresh([0], 64), BeginTxn), 0, 1);
  }

  lemma InstalledOnce(s: Session)
    requires s.disk == Disk([0], [], None) && s.staged == [Staged(0, 1)]
    ensures Installed(s) == [1] && LastAfter(MarkedLog(s), 0) == Some(1)
  {
    ApplyEffect(s.disk, s.staged);
    assert StagedImage(s.staged, 0) == Some(1);
    assert MarkedLog(s) == [Rec.After(0, 1), Commit] && MarkedLog(s)[..1] == [Rec.After(0, 1)];
  }

  /** A page committed with image 1 in one transaction. */
  lemma CommitOnce() returns (s: Session)
    ensures s == Run(Fresh([0], 64), [Do(BeginTxn), Do(Stage(0, 1)), Do(CommitTxn(false))])
    ensures Inv(s) && !s.active && s.disk.data == [1] && LastAfter(s.disk.log, 0) == Some(1)
  {
    var t := StageOnce();
    CommitPlain(t);
    KeepCommit(t, false);
    InstalledOnce(t);
    s := Done(t, CommitTxn(false));
    RunThree(Fresh([0], 64), Do(BeginTxn), Do(Stage(0, 1)), Do(CommitTxn(false)));
  }

  /** Stealing page 0 for the first time writes it and keeps its after-image in the log. */
  lemma StolenImage(s: Session)
    requires !s.stole && s.base == 1 && s.disk.data == [1] && s.spilled == {} && LastAfter(s.disk.log, 0) == Some(1)
    ensures var d := PerformAll(s.disk, Ios(s, Steal(0, 2))); d.data == [2] && LastAfter(d.log, 0) == Some(1)
  {
    var a, b, w := Record(Begin(1)), Record(Before(0, 1)), [Write(0, 2)];
    assert Ios(s, Steal(0, 2)) == a + b + w;
    PerformJoin(s.disk, a + b, w);
    PerformJoin(s.disk, a, b);
    RecordDone(s.disk, Begin(1));
    RecordDone(s.disk.(log := s.disk.log + [Begin(1)], part := None), Before(0, 1));
    PerformOne(PerformAll(s.disk, a + b), Write(0, 2));
    LastSnoc(s.disk.log, Begin(1), 0);
    LastSnoc(s.disk.log + [Begin(1)], Before(0, 1), 0);
  }

  lemma RecordDone(d: Disk, r: Rec)
    ensures PerformAll(d, Record(r)) == d.(log := d.log + [r], part := None)
  {
    assert Record(r) == [Open(r)] + [Close(r)];
    PerformJoin(d, [Open(r)], [Close(r)]);
    PerformOne(d, Open(r));
    PerformOne(Perform(d, Open(r)), Close(r));
  }

  lemma StolenSession(s: Session) returns (t: Session)
    requires Inv(s) && !s.active && s.disk.data == [1] && LastAfter(s.disk.log, 0) == Some(1)
    ensures t == Act(Act(s, Do(BeginTxn)), Do(Steal(0, 2))) && Inv(t) && t.active && t.staged == []
    ensures t.disk.data == [2] && LastAfter(t.disk.log, 0) == Some(1)
  {
    KeepBegin(s);
    var s1 := Done(s, BeginTxn);
    KeepSteal(s1, 0, 2);
    StolenImage(s1);
    t := Done(s1, Steal(0, 2));
  }

  /** The second transaction steals the page and commits without staging it. */
  lemma StealThenKill(s: Session)
    requires Inv(s) && !s.active && s.disk.data == [1] && LastAfter(s.disk.log, 0) == Some(1)
    ensures var t := Act(Act(Act(s, Do(BeginTxn)), Do(Steal(0, 2))), Kill(CommitTxn(false), 2, []));
            0 < |t.db| && t.db[0] == 2 && 0 < |t.disk.data| && t.disk.data[0] == 1
  {
    var t := StolenSession(s);
    assert StagedPids(t.staged) == {} && MarkerAt(t) == 0;
    StalePage(t, false, 0);
  }

  /** Without the guard a committed update is lost: the page is committed once, then stolen and
      committed without being staged again, and recovery writes the older image over it. */
  lemma LostStolenPage()
    ensures var xs := [Do(BeginTxn), Do(Stage(0, 1)), Do(CommitTxn(false))];
            var ys := [Do(BeginTxn), Do(Steal(0, 2)), Kill(CommitTxn(false), 2, [])];
            var s := Run(Fresh([0], 64), xs + ys);
            0 < |s.db| && s.db[0] == 2 && 0 < |s.disk.data| && s.disk.data[0] == 1
  {
    var s := CommitOnce();
    StealThenKill(s);
    RunThree(s, Do(BeginTxn), Do(Steal(0, 2)), Kill(CommitTxn(false), 2, []));
    RunJoin(Fresh([0], 64), [Do(BeginTxn), Do(Stage(0, 1)), Do(CommitTxn(false))],
            [Do(BeginTxn), Do(Steal(0, 2)), Kill(CommitTxn(false), 2, [])]);
  }
}
