/** The Wal struct of src/wal.c as an object over its two files.  Every method is proved
    to perform exactly the writes that `Wal` and `WalRuns` list for it, in that order. */
module WalFile {
  import opened Wrappers
  import opened Wal
  import opened WalRecovery
  import opened WalRuns
  import WalContents

  /** Bytes a record takes in the log: type, lsn, payload. */
  function RecBytes(r: Rec, pageSize: nat): nat {
    match r
    case After(_, _) => 17 + pageSize
    case Before(_, _) => 17 + pageSize
    case Begin(_) => 17
    case Commit => 9
  }

  function LogBytes(log: seq<Rec>, pageSize: nat): nat
    decreases |log|
  {
    if log == [] then 0 else LogBytes(log[..|log| - 1], pageSize) + RecBytes(log[|log| - 1], pageSize)
  }

  lemma PerformThree(d: Disk, a: seq<Io>, b: seq<Io>, c: seq<Io>)
    ensures PerformAll(d, a + b + c) == PerformAll(PerformAll(PerformAll(d, a), b), c)
  {
    PerformJoin(d, a + b, c);
    PerformJoin(d, a, b);
  }

  lemma StealView(s: Session, p: nat, v: Image, a: seq<Io>, t: Session)
    requires a == BeginIos(s) + BeforeIos(s, p)
    requires t == s.(disk := Perform(PerformAll(s.disk, a), Write(p, v)), stole := true, spilled := s.spilled + {p})
    ensures t == Done(s, Steal(p, v)) && Ios(s, Steal(p, v)) == a + [Write(p, v)]
  {
    StealIosAre(s, p, v);
    PerformJoin(s.disk, a, [Write(p, v)]);
    PerformOne(PerformAll(s.disk, a), Write(p, v));
  }

  lemma Assoc(a: seq<Io>, b: seq<Io>, c: seq<Io>)
    ensures (a + b) + c == a + (b + c) && (c == [] ==> a + (b + c) == a + b)
  {
  }

  lemma CommitSplit(staged: seq<Staged>, checkpoint: bool)
    ensures CommitIos(staged, checkpoint) == CommitIos(staged, false) + if checkpoint then [Cut(0)] else []
  {
  }

  /** One more after-image. */
  lemma AfterNext(staged: seq<Staged>, i: nat, log: seq<Rec>, d: Disk)
    requires i < |staged|
    ensures var r := Rec.After(staged[i].pid, staged[i].image);
            && AfterIos(staged[..i + 1]) == AfterIos(staged[..i]) + Record(r)
            && log + Afters(staged[..i + 1]) == log + Afters(staged[..i]) + [r]
            && PerformAll(d, AfterIos(staged[..i + 1])) == PerformAll(PerformAll(d, AfterIos(staged[..i])), Record(r))
  {
    assert staged[..i + 1][..i] == staged[..i];
    PerformJoin(d, AfterIos(staged[..i]), Record(Rec.After(staged[i].pid, staged[i].image)));
  }

  /** What reading one more record of the log adds to the redo pass. */
  lemma RedoStep(recs: seq<Rec>, i: nat, cap: nat, d: Disk)
    requires i < |recs|
    ensures var was, r := recs[..i], recs[i]; var ios := if r == Rec.Commit then ApplyIos(Pending(was, cap)) else [];
            && RedoWrites(recs[..i + 1], cap) == RedoWrites(was, cap) + ios
            && PerformAll(d, RedoWrites(recs[..i + 1], cap)) == PerformAll(PerformAll(d, RedoWrites(was, cap)), ios)
            && Winners(recs[..i + 1]) == (if r == Rec.Commit then i + 1 else Winners(was))
            && Pending(recs[..i + 1], cap) ==
               if r == Rec.Commit then []
               else if r.After? && |Pending(was, cap)| < cap then Pending(was, cap) + [Staged(r.pid, r.image)]
               else Pending(was, cap)
  {
    assert recs[..i + 1][..i] == recs[..i];
    PerformJoin(d, RedoWrites(recs[..i], cap), if recs[i] == Rec.Commit then ApplyIos(Pending(recs[..i], cap)) else []);
  }

  /** One more record of the undo loop. */
  lemma UndoNext(d: Disk, log: seq<Rec>, from: nat, i: nat)
    requires from <= i < |log|
    ensures var done, next := UndoWrites(log[from..i]), UndoWrites(log[from..i + 1]);
            if log[i].Before?
            then var io := Write(log[i].pid, log[i].image);
                 next == done + [io] && PerformAll(d, next) == Perform(PerformAll(d, done), io)
            else next == done
  {
    assert log[from..i + 1][..i - from] == log[from..i];
    if log[i].Before? {
      var done, io := UndoWrites(log[from..i]), Write(log[i].pid, log[i].image);
      PerformJoin(d, done, [io]);
      PerformOne(PerformAll(d, done), io);
    }
  }

  class WalFile {
    var data: seq<Image>
    var log: seq<Rec>
    var part: Option<Rec>
    var staged: seq<Staged>
    var stole: bool
    var base: nat
    var spilled: seq<nat>
    var start: nat
    const cap: nat
    const pageSize: nat
    const checkpointBytes: nat
    ghost var active: bool
    ghost var db: seq<Image>
    ghost var trace: seq<Io>

    ghost function OnDisk(): Disk
      reads this
    {
      Disk(data, log, part)
    }

    ghost function View(): Session
      reads this
    {
      Session(OnDisk(), staged, stole, base, (set p | p in spilled), start, active, cap, db)
    }

    /** The writes since the old state are ios, and the files are what those writes make of them. */
    twostate predicate Wrote(ios: seq<Io>)
      reads this
    {
      trace == old(trace) + ios && OnDisk() == PerformAll(old(OnDisk()), ios)
    }

    constructor (data: seq<Image>, cap: nat, pageSize: nat, checkpointBytes: nat)
      ensures View() == Fresh(data, cap) && trace == []
    {
      this.data, this.cap, this.pageSize, this.checkpointBytes := data, cap, pageSize, checkpointBytes;
      log, part, staged, stole, base, spilled, start := [], None, [], false, 0, [], 0;
      active, db, trace := false, data, [];
    }

    method Page(p: nat, v: Image)
      modifies `data, `trace
      ensures trace == old(trace) + [Write(p, v)] && OnDisk() == Perform(old(OnDisk()), Write(p, v))
    {
      data := WriteAt(data, p, v);
      trace := trace + [Write(p, v)];
    }

    method Append(r: Rec)
      modifies `log, `part, `trace
      ensures Wrote(Record(r)) && log == old(log) + [r] && part == None
    {
      RecordDone(OnDisk(), r);
      part := Some(r);
      trace := trace + [Open(r)];
      log := log + [r];
      part := None;
      trace := trace + [Close(r)];
    }

    method CutLog(n: nat)
      requires n <= |log|
      modifies `log, `part, `trace
      ensures trace == old(trace) + [Cut(n)] && OnDisk() == Perform(old(OnDisk()), Cut(n))
    {
      log := log[..n];
      part := None;
      trace := trace + [Cut(n)];
    }

    method SetLength(n: nat)
      requires n <= |data|
      modifies `data, `trace
      ensures trace == old(trace) + [Resize(n)] && OnDisk() == Perform(old(OnDisk()), Resize(n))
    {
      data := data[..n];
      trace := trace + [Resize(n)];
    }

    method Start()
      modifies this
      ensures View() == Done(old(View()), BeginTxn) && trace == old(trace)
    {
      staged := [];
      stole := false;
      base := |data|;
      spilled := [];
      start := |log|;
      active := true;
    }

    /** wal_stage; false when the table of staged pages is full. */
    method StagePage(p: nat, v: Image) returns (ok: bool)
      modifies `staged
      ensures View() == Done(old(View()), Stage(p, v)) && trace == old(trace)
      ensures !ok <==> |old(staged)| >= cap && forall i | 0 <= i < |old(staged)| :: old(staged)[i].pid != p
      ensures forall q: nat ::
                StagedImage(staged, q) == if ok && q == p then Some(v) else StagedImage(old(staged), q)
    {
      ghost var before := staged;
      var i := 0;
      var found := false;
      while i < |staged|
        invariant 0 <= i <= |staged| == |before|
        invariant forall j | 0 <= j < i :: staged[j] == if before[j].pid == p then Staged(p, v) else before[j]
        invariant forall j | i <= j < |staged| :: staged[j] == before[j]
        invariant found <==> exists j :: 0 <= j < i && before[j].pid == p
      {
        if staged[i].pid == p {
          staged := staged[i := Staged(p, v)];
          found := true;
        }
        i := i + 1;
      }
      ok := found || |staged| < cap;
      if !found && |staged| < cap {
        staged := staged + [Staged(p, v)];
      }
      assert staged == StageIn(before, p, v, cap);
      StagedHas(before, p);
      forall q: nat
        ensures StagedImage(staged, q) == if ok && q == p then Some(v) else StagedImage(before, q)
      {
        WalContents.StagedAfter(before, p, v, cap, q);
      }
    }

    method IsSpilled(p: nat) returns (b: bool)
      ensures b <==> p in spilled
    {
      for i := 0 to |spilled|
        invariant p !in spilled[..i]
      {
        if spilled[i] == p {
          return true;
        }
      }
      b := false;
    }

    method LogBase()
      modifies `log, `part, `trace, `stole
      ensures Wrote(if old(stole) then [] else Record(Begin(base))) && stole
    {
      if !stole {
        Append(Begin(base));
        stole := true;
      }
    }

    method LogBefore(p: nat)
      requires p < |data|
      modifies `log, `part, `trace, `spilled
      ensures Wrote(if p in old(spilled) || p >= base then [] else Record(Before(p, data[p])))
      ensures (set q | q in spilled) == (set q | q in old(spilled)) + {p}
    {
      var seen := IsSpilled(p);
      if !seen {
        if p < base {
          Append(Before(p, data[p]));
        }
        spilled := spilled + [p];
      }
    }

    method StealRecords(p: nat)
      requires p < |data|
      modifies `log, `part, `trace, `stole, `spilled
      ensures Wrote((if old(stole) then [] else Record(Begin(base)))
                    + (if p in old(spilled) || p >= base then [] else Record(Before(p, data[p]))))
      ensures stole && (set q | q in spilled) == (set q | q in old(spilled)) + {p}
    {
      ghost var a := if stole then [] else Record(Begin(base));
      ghost var b := if p in spilled || p >= base then [] else Record(Before(p, data[p]));
      PerformJoin(OnDisk(), a, b);
      LogBase();
      LogBefore(p);
      assert trace == old(trace) + (a + b);
    }

    /** wal_steal: write-ahead of the base and the before-image, then the page itself. */
    method StealPage(p: nat, v: Image)
      requires p < |data|
      modifies this
      ensures View() == Done(old(View()), Steal(p, v)) && trace == old(trace) + Ios(old(View()), Steal(p, v))
    {
      ghost var s := View();
      ghost var a := BeginIos(s) + BeforeIos(s, p);
      Assoc(trace, a, [Write(p, v)]);
      StealRecords(p);
      Page(p, v);
      StealView(s, p, v, a, View());
    }

    /** The undo of a transaction that stole pages. */
    method UndoStolen()
      requires start <= |log|
      modifies `data, `log, `part, `trace
      ensures Wrote(UndoIos(old(OnDisk()), start, base, |old(data)|))
    {
      ghost var d := OnDisk();
      var numPages := |data|;
      ghost var a := UndoWrites(log[start..]);
      ghost var b := if base < numPages then [Resize(base)] else [];
      PerformThree(d, a, b, [Cut(start)]);
      UndoSuffix(start);
      Shrink(base, numPages);
      PerformOne(OnDisk(), Cut(start));
      CutLog(start);
      assert OnDisk() == PerformAll(d, a + b + [Cut(start)]);
      assert trace == old(trace) + (a + b + [Cut(start)]);
    }

    /** wal_undo: before-images back in log order, new pages off, own records off. */
    method UndoTxn()
      requires start <= |log|
      modifies this
      ensures View() == Done(old(View()), Undo) && trace == old(trace) + Ios(old(View()), Undo)
    {
      if stole {
        UndoStolen();
      }
      stole := false;
      spilled := [];
      active := false;
    }

    /** The loop that writes before-images back, from log position `from` on. */
    method UndoSuffix(from: nat)
      requires from <= |log|
      modifies `data, `trace
      ensures Wrote(UndoWrites(log[from..])) && |data| >= |old(data)|
    {
      var i := from;
      while i < |log|
        invariant from <= i <= |log|
        invariant trace == old(trace) + UndoWrites(log[from..i])
        invariant OnDisk() == PerformAll(old(OnDisk()), UndoWrites(log[from..i])) && |data| >= |old(data)|
      {
        UndoNext(old(OnDisk()), log, from, i);
        if log[i].Before? {
          Assoc(old(trace), UndoWrites(log[from..i]), [Write(log[i].pid, log[i].image)]);
          Page(log[i].pid, log[i].image);
        }
        i := i + 1;
      }
      assert log[from..|log|] == log[from..];
    }

    method Shrink(n: nat, numPages: nat)
      requires numPages <= |data|
      modifies `data, `trace
      ensures Wrote(if n < numPages then [Resize(n)] else [])
    {
      if n < numPages {
        PerformOne(OnDisk(), Resize(n));
        SetLength(n);
      }
    }

    method LogStaged()
      modifies `log, `part, `trace
      ensures Wrote(AfterIos(staged)) && log == old(log) + Afters(staged)
    {
      for i := 0 to |staged|
        invariant log == old(log) + Afters(staged[..i])
        invariant trace == old(trace) + AfterIos(staged[..i])
        invariant OnDisk() == PerformAll(old(OnDisk()), AfterIos(staged[..i]))
      {
        var r := Rec.After(staged[i].pid, staged[i].image);
        AfterNext(staged, i, old(log), old(OnDisk()));
        Assoc(old(trace), AfterIos(staged[..i]), Record(r));
        Append(r);
      }
      assert staged[..|staged|] == staged;
    }

    /** Write a list of page images in order. */
    method ApplyPages(xs: seq<Staged>)
      modifies `data, `trace
      ensures Wrote(ApplyIos(xs)) && |data| >= |old(data)|
    {
      for i := 0 to |xs|
        invariant trace == old(trace) + ApplyIos(xs[..i])
        invariant OnDisk() == PerformAll(old(OnDisk()), ApplyIos(xs[..i])) && |data| >= |old(data)|
      {
        assert ApplyIos(xs[..i + 1]) == ApplyIos(xs[..i]) + [Write(xs[i].pid, xs[i].image)];
        PerformJoin(old(OnDisk()), ApplyIos(xs[..i]), [Write(xs[i].pid, xs[i].image)]);
        PerformOne(OnDisk(), Write(xs[i].pid, xs[i].image));
        Page(xs[i].pid, xs[i].image);
      }
      assert xs[..|xs|] == xs;
    }

    /** After-images, marker, pages. */
    method WriteOut()
      modifies `data, `log, `part, `trace
      ensures Wrote(CommitIos(staged, false)) && log == old(log) + Afters(staged) + [Rec.Commit]
    {
      ghost var d := OnDisk();
      PerformThree(d, AfterIos(staged), Record(Rec.Commit), ApplyIos(staged));
      Assoc(trace, AfterIos(staged), Record(Rec.Commit));
      Assoc(trace, AfterIos(staged) + Record(Rec.Commit), ApplyIos(staged));
      LogStaged();
      Append(Rec.Commit);
      ApplyPages(staged);
      assert CommitIos(staged, false) == AfterIos(staged) + Record(Rec.Commit) + ApplyIos(staged);
    }

    method Checkpoint() returns (cut: bool)
      modifies `log, `part, `trace
      ensures Wrote(if cut then [Cut(0)] else []) && (cut <==> LogBytes(old(log), pageSize) > checkpointBytes)
    {
      cut := LogBytes(log, pageSize) > checkpointBytes;
      if cut {
        PerformOne(OnDisk(), Cut(0));
        CutLog(0);
      }
    }

    /** The writes of wal_commit: the log is cut when it has grown long. */
    method WriteAndCut() returns (checkpoint: bool)
      modifies `data, `log, `part, `trace
      ensures Wrote(CommitIos(staged, checkpoint))
      ensures checkpoint <==> LogBytes(old(log) + Afters(staged) + [Rec.Commit], pageSize) > checkpointBytes
    {
      ghost var d := OnDisk();
      WriteOut();
      checkpoint := Checkpoint();
      ghost var cut := if checkpoint then [Cut(0)] else [];
      CommitSplit(staged, checkpoint);
      Assoc(old(trace), CommitIos(staged, false), cut);
      PerformJoin(d, CommitIos(staged, false), cut);
    }

    /** wal_commit, with a checkpoint when the log has grown long. */
    method Commit() returns (checkpoint: bool)
      modifies this
      ensures checkpoint <==> LogBytes(MarkedLog(old(View())), pageSize) > checkpointBytes
      ensures View() == Done(old(View()), CommitTxn(checkpoint))
              && trace == old(trace) + Ios(old(View()), CommitTxn(checkpoint))
    {
      ghost var s := View();
      checkpoint := WriteAndCut();
      Finish(s);
    }

    method Finish(ghost s: Session)
      modifies `db, `staged, `stole, `spilled, `active
      ensures View() == old(View()).(staged := [], stole := false, spilled := {}, active := false, db := Installed(s))
    {
      db := Installed(s);
      staged := [];
      stole := false;
      spilled := [];
      active := false;
    }

    /** Pass 1 of wal_recover; returns the position after the last commit marker. */
    method Redo(recs: seq<Rec>) returns (loser: nat)
      modifies `data, `trace
      ensures Wrote(RedoWrites(recs, cap)) && loser == Winners(recs) && |data| >= |old(data)|
    {
      var redo: seq<Staged> := [];
      loser := 0;
      for i := 0 to |recs|
        invariant redo == Pending(recs[..i], cap) && loser == Winners(recs[..i])
        invariant trace == old(trace) + RedoWrites(recs[..i], cap)
        invariant OnDisk() == PerformAll(old(OnDisk()), RedoWrites(recs[..i], cap)) && |data| >= |old(data)|
      {
        RedoStep(recs, i, cap, old(OnDisk()));
        Assoc(old(trace), RedoWrites(recs[..i], cap), if recs[i] == Rec.Commit then ApplyIos(redo) else []);
        var r := recs[i];
        if r == Rec.Commit {
          ApplyPages(redo);
          redo := [];
          loser := i + 1;
        } else if r.After? && |redo| < cap {
          redo := redo + [Staged(r.pid, r.image)];
        }
      }
      assert recs[..|recs|] == recs;
    }

    /** Pass 2 of wal_recover over the loser's records; returns the page count it started with, if logged. */
    method UndoLoser(tail: seq<Rec>) returns (from: Option<nat>)
      modifies `data, `trace
      ensures Wrote(UndoWrites(tail)) && from == LastBase(tail) && |data| >= |old(data)|
    {
      from := None;
      for i := 0 to |tail|
        invariant from == LastBase(tail[..i])
        invariant trace == old(trace) + UndoWrites(tail[..i])
        invariant OnDisk() == PerformAll(old(OnDisk()), UndoWrites(tail[..i])) && |data| >= |old(data)|
      {
        assert tail[..i + 1][..i] == tail[..i];
        ghost var done := UndoWrites(tail[..i]);
        match tail[i]
        case Begin(b) =>
          from := Some(b);
          assert UndoWrites(tail[..i + 1]) == done;
        case Before(p, v) =>
          PerformJoin(old(OnDisk()), done, [Write(p, v)]);
          PerformOne(OnDisk(), Write(p, v));
          Page(p, v);
        case _ =>
          assert UndoWrites(tail[..i + 1]) == done;
      }
      assert tail[..|tail|] == tail;
    }

    method RollBackLoser(tail: seq<Rec>, numPages: nat)
      requires numPages <= |data|
      modifies `data, `trace
      ensures var from := LastBase(tail);
              Wrote(UndoWrites(tail) + if from.Some? && from.value < numPages then [Resize(from.value)] else [])
    {
      ghost var d := OnDisk();
      ghost var c := if LastBase(tail).Some? && LastBase(tail).value < numPages then [Resize(LastBase(tail).value)]
          else [];
      PerformJoin(d, UndoWrites(tail), c);
      var from := UndoLoser(tail);
      if from.Some? {
        Shrink(from.value, numPages);
      }
      assert trace == old(trace) + (UndoWrites(tail) + c);
    }

    /** Both passes and the cut of the loser's new pages. */
    method RecoverData(recs: seq<Rec>)
      modifies `data, `trace
      ensures var tail := recs[Winners(recs)..]; var from := LastBase(tail);
              Wrote(RedoWrites(recs, cap)
                    + (UndoWrites(tail) + if from.Some? && from.value < |old(data)| then [Resize(from.value)] else []))
    {
      var numPages := |data|;
      ghost var tail := recs[Winners(recs)..];
      ghost var b := UndoWrites(tail)
        + if LastBase(tail).Some? && LastBase(tail).value < numPages then [Resize(LastBase(tail).value)] else [];
      PerformJoin(OnDisk(), RedoWrites(recs, cap), b);
      var loser := Redo(recs);
      RollBackLoser(recs[loser..], numPages);
      Assoc(old(trace), RedoWrites(recs, cap), b);
    }

    /** wal_recover, as wal_open runs it. */
    method Recover()
      modifies this
      ensures Wrote(RecoverIos(old(OnDisk()), cap))
    {
      ghost var d := OnDisk();
      var recs := if part == Some(Rec.Commit) then log + [Rec.Commit] else log;
      ghost var tail := recs[Winners(recs)..];
      ghost var a := RedoWrites(recs, cap)
        + (UndoWrites(tail) + if LastBase(tail).Some? && LastBase(tail).value < |data|
            then [Resize(LastBase(tail).value)] else []);
      PerformJoin(d, a, [Cut(0)]);
      Assoc(trace, a, [Cut(0)]);
      RecoverData(recs);
      PerformOne(OnDisk(), Cut(0));
      CutLog(0);
    }
  }
}
