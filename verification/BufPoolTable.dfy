/** The BufferPool struct of src/bufpool.c: each method is one critical section of the latch. */
module BufPoolTable {
  import opened Wrappers
  import opened BufPool

  /** How the first critical section of a fetch ends: pinned, wait for the loader, read into a
      reserved frame with the latch dropped, or no frame to be had. */
  datatype Fetch = Pinned(frame: nat) | Wait | Reserved(frame: nat) | NoFrame

  class BufferPool {
    const frames: array<Frame>
    var clock: nat
    var disk: map<nat, Image>
    var noSteal: bool
    var handler: bool

    ghost function Value(): Pool
      reads this, frames
    {
      Pool(frames[..], clock, disk, noSteal, handler)
    }

    constructor (n: nat, disk: map<nat, Image>)
      ensures Value() == Fresh(n, disk).pool && fresh(frames)
    {
      frames := new Frame[n](_ => Frame(0, false, false, 0, false, 0, 0));
      clock, noSteal, handler := 0, false, false;
      this.disk := disk;
    }

    /** find_frame. */
    method Find(p: nat) returns (i: nat)
      ensures i == FindFrame(frames[..], p, 0)
    {
      i := 0;
      while i < frames.Length && !(frames[i].valid && frames[i].page == p)
        invariant i <= frames.Length && FindFrame(frames[..], p, i) == FindFrame(frames[..], p, 0)
      {
        i := i + 1;
      }
    }

    method FindFree() returns (i: nat)
      ensures i == FreeFrame(frames[..], 0)
    {
      i := 0;
      while i < frames.Length && frames[i].valid
        invariant i <= frames.Length && FreeFrame(frames[..], i) == FreeFrame(frames[..], 0)
      {
        i := i + 1;
      }
    }

    /** The least recently used frame that may go. */
    method FindVictim() returns (best: Option<nat>)
      ensures best == Lru(frames[..], MayStealDirty(Value()), frames.Length)
    {
      var stealDirty := !noSteal || handler;
      best := None;
      for i := 0 to frames.Length
        invariant best == Lru(frames[..], stealDirty, i)
      {
        var f := frames[i];
        if f.pin == 0 && !(f.dirty && !stealDirty) {
          if best.None? || f.used < frames[best.value].used {
            best := Some(i);
          }
        }
      }
    }

    /** pick_frame; writeOk says whether the disk, or the steal handler, accepts a dirty victim. */
    method Pick(writeOk: bool) returns (k: Option<nat>)
      modifies this`disk, frames
      ensures (Value(), k) == PickFrame(old(Value()), writeOk)
    {
      var i := FindFree();
      if i < frames.Length { return Some(i); }
      k := FindVictim();
      if k.None? { return; }
      var f := frames[k.value];
      if f.dirty {
        if !writeOk { return None; }
        disk := disk[f.page := f.data];
      }
      frames[k.value] := f.(valid := false, dirty := false);
      assert frames[..] == old(frames[..])[k.value := f.(valid := false, dirty := false)];
    }

    /** fetch_locked up to the point where the latch is dropped or the page is pinned. */
    method BeginFetch(p: nat, writeOk: bool) returns (r: Fetch)
      modifies this, frames
      ensures var m := old(Value()); var i := FindFrame(m.frames, p, 0);
              if i < |m.frames| then
                if m.frames[i].loading then r == Wait && Value() == m else r == Pinned(i) && Value() == Touch(m, i)
              else
                && (r.Reserved? || r.NoFrame?)
                && (Value(), if r.Reserved? then Some(r.frame) else None) == Reserve(m, p, writeOk)
    {
      var i := Find(p);
      if i < frames.Length {
        if frames[i].loading { return Wait; }
        PinAgain(i);
        return Pinned(i);
      }
      var k := Pick(writeOk);
      if k.None? || k.value >= frames.Length { return NoFrame; }
      var f := frames[k.value].(page := p, valid := true, dirty := false, loading := true, pin := 1);
      ghost var now := frames[..][k.value := f];
      frames[k.value] := f;
      assert frames[..] == now;
      return Reserved(k.value);
    }

    method PinAgain(i: nat)
      requires i < frames.Length
      modifies this`clock, frames
      ensures Value() == Touch(old(Value()), i)
    {
      clock := clock + 1;
      var f := frames[i].(pin := frames[i].pin + 1, used := clock);
      frames[i] := f;
      assert frames[..] == old(frames[..])[i := f];
    }

    /** fetch_locked once the latch is taken again after the read. */
    method EndFetch(i: nat, ok: bool)
      requires i < frames.Length
      modifies this`clock, frames
      ensures Value() == Publish(old(Value()), i, ok)
    {
      var f := frames[i].(loading := false);
      if ok {
        clock := clock + 1;
        f := f.(used := clock);
      } else {
        f := f.(pin := 0, valid := false);
      }
      frames[i] := f;
      assert frames[..] == old(frames[..])[i := f];
    }

    /** bufpool_unpin. */
    method Unpin(p: nat, dirty: bool)
      modifies frames
      ensures Value() == Release(old(Value()), p, dirty)
    {
      var i := Find(p);
      if i < frames.Length {
        var f := frames[i];
        if dirty { f := f.(dirty := true); }
        if f.pin > 0 { f := f.(pin := f.pin - 1); }
        frames[i] := f;
        assert frames[..] == old(frames[..])[i := f];
      }
    }

    /** bufpool_flush_all: writes to the pages in `broken` fail and stop it. */
    method FlushAll(broken: set<nat>) returns (n: nat, ok: bool)
      modifies this`disk, frames
      ensures n <= frames.Length && Value() == Flushed(old(Value()), n) && (ok <==> n == frames.Length)
      ensures forall i: nat | i < n && Unsaved(old(Value()), i) :: old(frames[..])[i].page !in broken
      ensures !ok ==> Unsaved(old(Value()), n) && old(frames[..])[n].page in broken
      ensures OneFrame(old(frames[..])) ==> Saved(old(Value()), Value(), n)
    {
      n := 0;
      ghost var was := Value();
      while n < frames.Length
        invariant n <= frames.Length && Value() == Flushed(was, n) && frames[n..] == was.frames[n..]
        invariant forall i: nat | i < n && Unsaved(was, i) :: was.frames[i].page !in broken
      {
        var f := frames[n];
        assert f == frames[n..][0] == was.frames[n];
        if f.valid && f.dirty {
          if f.page in broken {
            if OneFrame(was.frames) { FlushWrites(was, n); }
            return n, false;
          }
          disk := disk[f.page := f.data];
          ghost var now := frames[..][n := f.(dirty := false)];
          frames[n] := f.(dirty := false);
          assert frames[..] == now;
        }
        assert frames[n + 1..] == was.frames[n + 1..];
        n := n + 1;
      }
      if OneFrame(was.frames) { FlushWrites(was, n); }
      ok := true;
    }

    /** bufpool_invalidate_all. */
    method InvalidateAll()
      modifies frames
      ensures Value() == old(Value()).(frames := Invalidated(old(frames[..])))
    {
      for i := 0 to frames.Length
        invariant frames[..i] == Invalidated(old(frames[..]))[..i] && frames[i..] == old(frames[..])[i..]
      {
        assert frames[i] == frames[i..][0];
        frames[i] := frames[i].(valid := false, dirty := false, pin := 0);
        assert frames[..i + 1] == frames[..i] + [frames[i]];
      }
      assert frames[..] == frames[..frames.Length];
    }
  }
}
