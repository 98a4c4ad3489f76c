/** The write-ahead log of src/wal.c with steal, undo, no-force and recovery.

    A page image is an opaque value.  The data file and the log are values; what
    an operation does to them is the list of its writes, in order, so that a
    process kill anywhere is a prefix of that list.  A record is written in two
    steps: after `Open` its type byte is in the log, after `Close` all of it. */
module Wal {
  import opened Wrappers

  type Image = int

  datatype Rec =
    | After(pid: nat, image: Image)
    | Commit
    | Begin(base: nat)
    | Before(pid: nat, image: Image)

  datatype Disk = Disk(data: seq<Image>, log: seq<Rec>, part: Option<Rec>)

  datatype Io =
    | Open(rec: Rec)
    | Close(rec: Rec)
    | Write(pid: nat, image: Image)
    | Resize(pages: nat)
    | Cut(size: nat)

  datatype Staged = Staged(pid: nat, image: Image)

  function Zeros(n: nat): seq<Image> {
    seq(n, _ => 0)
  }

  /** pager_write: a page past the end of the file leaves a hole of zeros. */
  function WriteAt(data: seq<Image>, p: nat, v: Image): (r: seq<Image>)
    ensures |r| >= |data| && |r| > p && r[p] == v
    ensures forall q | 0 <= q < |data| && q != p :: r[q] == data[q]
  {
    if p < |data| then data[p := v] else data + Zeros(p - |data|) + [v]
  }

  function Perform(d: Disk, io: Io): Disk {
    match io
    case Open(r) => d.(part := Some(r))
    case Close(r) => d.(log := d.log + [r], part := None)
    case Write(p, v) => d.(data := WriteAt(d.data, p, v))
    case Resize(n) => d.(data := if n <= |d.data| then d.data[..n] else d.data + Zeros(n - |d.data|))
    case Cut(n) => d.(log := if n <= |d.log| then d.log[..n] else d.log, part := None)
  }

  function PerformAll(d: Disk, ios: seq<Io>): Disk
    decreases |ios|
  {
    if ios == [] then d else Perform(PerformAll(d, ios[..|ios| - 1]), ios[|ios| - 1])
  }

  // ----- reading the log -----

  /** The log as recovery reads it: a commit marker counts from its type byte on,
      any other unfinished record is past the end. */
  function Readable(d: Disk): seq<Rec> {
    if d.part == Some(Commit) then d.log + [Commit] else d.log
  }

  /** Length of the log up to and including its last commit marker. */
  function Winners(log: seq<Rec>): (n: nat)
    ensures n <= |log| && (n > 0 ==> log[n - 1] == Commit) && forall i | n <= i < |log| :: log[i] != Commit
    decreases |log|
  {
    if log == [] then 0
    else if log[|log| - 1] == Commit then |log|
    else Winners(log[..|log| - 1])
  }

  function LastAfter(log: seq<Rec>, p: nat): Option<Image>
    decreases |log|
  {
    if log == [] then None
    else
      var r := log[|log| - 1];
      if r.After? && r.pid == p then Some(r.image) else LastAfter(log[..|log| - 1], p)
  }

  function LastBefore(log: seq<Rec>, p: nat): Option<Image>
    decreases |log|
  {
    if log == [] then None
    else
      var r := log[|log| - 1];
      if r.Before? && r.pid == p then Some(r.image) else LastBefore(log[..|log| - 1], p)
  }

  function LastBase(log: seq<Rec>): Option<nat>
    decreases |log|
  {
    if log == [] then None
    else if log[|log| - 1].Begin? then Some(log[|log| - 1].base)
    else LastBase(log[..|log| - 1])
  }

  /** The image a complete recovery leaves on page p. */
  function Recovered(d: Disk, p: nat): Option<Image> {
    var log := Readable(d);
    var n := Winners(log);
    var undo := LastBefore(log[n..], p);
    if undo.Some? then undo
    else
      var redo := LastAfter(log[..n], p);
      if redo.Some? then redo else if p < |d.data| then Some(d.data[p]) else None
  }

  // ----- the writes of each operation -----

  function Record(r: Rec): seq<Io> {
    [Open(r), Close(r)]
  }

  function StagedPids(staged: seq<Staged>): set<nat> {
    set i | 0 <= i < |staged| :: staged[i].pid
  }

  function StagedImage(staged: seq<Staged>, p: nat): Option<Image>
    decreases |staged|
  {
    if staged == [] then None
    else if staged[|staged| - 1].pid == p then Some(staged[|staged| - 1].image)
    else StagedImage(staged[..|staged| - 1], p)
  }

  function AfterIos(staged: seq<Staged>): seq<Io>
    decreases |staged|
  {
    if staged == [] then []
    else AfterIos(staged[..|staged| - 1]) + Record(After(staged[|staged| - 1].pid, staged[|staged| - 1].image))
  }

  function ApplyIos(staged: seq<Staged>): seq<Io> {
    seq(|staged|, i requires 0 <= i < |staged| => Write(staged[i].pid, staged[i].image))
  }

  /** wal_commit; the checkpoint at its end is taken when the log has grown long enough. */
  function CommitIos(staged: seq<Staged>, checkpoint: bool): seq<Io> {
    AfterIos(staged) + Record(Commit) + ApplyIos(staged) + (if checkpoint then [Cut(0)] else [])
  }

  function StealIos(d: Disk, stole: bool, base: nat, spilled: set<nat>, p: nat, v: Image): seq<Io> {
    (if stole then [] else Record(Begin(base)))
    + (if p in spilled || p >= base || p >= |d.data| then [] else Record(Before(p, d.data[p])))
    + [Write(p, v)]
  }

  /** The before-images of a log suffix, written back in log order. */
  function UndoWrites(log: seq<Rec>): seq<Io>
    decreases |log|
  {
    if log == [] then []
    else
      var r := log[|log| - 1];
      UndoWrites(log[..|log| - 1]) + (if r.Before? then [Write(r.pid, r.image)] else [])
  }

  /** wal_undo of a transaction that stole pages and started at log position `start`. */
  function UndoIos(d: Disk, start: nat, base: nat, numPages: nat): seq<Io>
    requires start <= |d.log|
  {
    UndoWrites(d.log[start..]) + (if base < numPages then [Resize(base)] else []) + [Cut(start)]
  }

  /** The after-images since the last commit marker, up to the size of the redo buffer. */
  function Pending(log: seq<Rec>, cap: nat): seq<Staged>
    decreases |log|
  {
    if log == [] || log[|log| - 1] == Commit then []
    else
      var front := Pending(log[..|log| - 1], cap);
      var r := log[|log| - 1];
      if r.After? && |front| < cap then front + [Staged(r.pid, r.image)] else front
  }

  /** Pass 1 of wal_recover: at each commit marker the buffered after-images are written. */
  function RedoWrites(log: seq<Rec>, cap: nat): seq<Io>
    decreases |log|
  {
    if log == [] then []
    else
      var front := log[..|log| - 1];
      RedoWrites(front, cap) + (if log[|log| - 1] == Commit then ApplyIos(Pending(front, cap)) else [])
  }

  /** wal_recover: redo the winners, undo the loser, cut its new pages, then cut the log. */
  function RecoverIos(d: Disk, cap: nat): seq<Io> {
    var log := Readable(d);
    var n := Winners(log);
    var base := LastBase(log[n..]);
    RedoWrites(log, cap)
    + (UndoWrites(log[n..]) + if base.Some? && base.value < |d.data| then [Resize(base.value)] else [])
    + [Cut(0)]
  }
}
