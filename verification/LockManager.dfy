/** The LockManager struct of src/lock.c as an object; each method does to it what the
    function of `Lock` of the same name does to its value. */
module LockManager {
  import opened Lock

  class Manager {
    var entries: seq<Claim>
    var waits: seq<Claim>
    const sizes: Sizes

    ghost function State(): Locks
      reads this
    {
      Locks(entries, waits, sizes)
    }

    constructor (sizes: Sizes)
      ensures State() == Empty(sizes)
    {
      this.sizes := sizes;
      entries, waits := [], [];
    }

    /** One pass over the table: the own slot, and which modes others hold. */
    method Survey(txn: int, table: string, key: int) returns (mine: int, otherShared: bool, otherExclusive: bool)
      ensures mine == OwnSlot(entries, txn, table, key)
      ensures otherExclusive <==> OtherHolds(entries, txn, table, key, true)
      ensures otherShared || otherExclusive <==> OtherHolds(entries, txn, table, key, false)
    {
      mine, otherShared, otherExclusive := -1, false, false;
      for i := 0 to |entries|
        invariant mine == OwnSlot(entries[..i], txn, table, key)
        invariant otherExclusive <==> OtherHolds(entries[..i], txn, table, key, true)
        invariant otherShared || otherExclusive <==> OtherHolds(entries[..i], txn, table, key, false)
      {
        var e := entries[i];
        assert entries[..i + 1] == entries[..i] + [e];
        SurveySnoc(entries[..i], e, txn, table, key);
        if e.txn == 0 || !(e.key == key && e.table == table) {
        } else if e.txn == txn {
          mine := i;
        } else if e.mode == Exclusive {
          otherExclusive := true;
        } else {
          otherShared := true;
        }
      }
      assert entries[..|entries|] == entries;
    }

    method FindFree() returns (slot: nat)
      ensures slot == FreeSlot(entries, 0)
    {
      slot := 0;
      while slot < |entries| && entries[slot].txn != 0
        invariant slot <= |entries| && FreeSlot(entries, 0) == FreeSlot(entries, slot)
      {
        slot := slot + 1;
      }
    }

    method AcquireLock(txn: int, table: string, key: int, mode: Mode) returns (granted: bool)
      modifies this
      ensures (State(), granted) == Acquire(old(State()), txn, table, key, mode)
    {
      var mine, otherShared, otherExclusive := Survey(txn, table, key);
      if mine != -1 {
        if mode == Shared || entries[mine].mode == Exclusive {
          return true;
        }
        if otherShared || otherExclusive {
          return false;
        }
        entries := entries[mine := entries[mine].(mode := Exclusive)];
        return true;
      }
      if mode == Exclusive && (otherShared || otherExclusive) {
        return false;
      }
      if mode == Shared && otherExclusive {
        return false;
      }
      var slot := FindFree();
      var e := Claim(txn, Stored(table, sizes.name), key, mode);
      if slot < |entries| {
        entries := entries[slot := e];
      } else {
        if |entries| >= sizes.locks {
          return false;
        }
        entries := entries + [e];
      }
      granted := true;
    }

    method ReleaseLocks(txn: int)
      modifies this
      ensures State() == ReleaseAll(old(State()), txn)
      ensures waits == old(waits) && |entries| == |old(entries)| && forall i | 0 <= i < |entries| ::
                if old(entries)[i].txn == txn then entries[i].txn == 0 else entries[i] == old(entries)[i]
    {
      for i := 0 to |entries|
        invariant |entries| == |old(entries)| && waits == old(waits)
        invariant forall j | 0 <= j < i ::
                    entries[j] == if old(entries)[j].txn == txn then old(entries)[j].(txn := 0) else old(entries)[j]
        invariant forall j | i <= j < |entries| :: entries[j] == old(entries)[j]
      {
        if entries[i].txn == txn {
          entries := entries[i := entries[i].(txn := 0)];
        }
      }
    }

    method FindWait(txn: int) returns (i: nat)
      ensures i == WaitSlot(waits, txn, 0)
    {
      i := 0;
      while i < |waits| && waits[i].txn != txn
        invariant i <= |waits| && WaitSlot(waits, txn, 0) == WaitSlot(waits, txn, i)
      {
        i := i + 1;
      }
    }

    method AddWait(txn: int, table: string, key: int, mode: Mode)
      modifies this
      ensures State() == WaitAdd(old(State()), txn, table, key, mode)
    {
      var w := Claim(txn, Stored(table, sizes.name), key, mode);
      var i := FindWait(txn);
      if i < |waits| {
        waits := waits[i := w];
      } else if |waits| < sizes.waits {
        waits := waits + [w];
      }
    }

    method ClearWait(txn: int)
      modifies this
      ensures State() == WaitClear(old(State()), txn)
    {
      var i := FindWait(txn);
      if i < |waits| {
        waits := waits[i := waits[|waits| - 1]][..|waits| - 1];
      }
    }

    /** wait_targets, with room for every slot of the table. */
    method CollectTargets(txn: int) returns (ts: seq<int>)
      ensures ts == WaitsFor(State(), txn)
    {
      ts := [];
      var i := FindWait(txn);
      if i == |waits| {
        return;
      }
      var w := waits[i];
      for k := 0 to |entries|
        invariant ts == Targets(entries, w, k)
      {
        var e := entries[k];
        if e.txn == 0 || e.txn == w.txn || e.key != w.key || e.table != w.table {
          continue;
        }
        if (w.mode == Exclusive || e.mode == Exclusive) && e.txn !in ts {
          ts := ts + [e.txn];
        }
      }
    }

    /** dfs_cycle over the shared path array: the first `depth` places hold the current path. */
    method Dfs(txn: int, path: array<int>, depth: nat) returns (v: int)
      requires depth <= sizes.waits <= path.Length
      modifies path
      ensures v == Search(State(), txn, old(path[..depth])) && path[..depth] == old(path[..depth])
      decreases sizes.waits - depth
    {
      for i := 0 to depth
        invariant txn !in path[..i]
      {
        if path[i] == txn {
          assert path[..depth][i] == txn;
          return txn;
        }
      }
      if depth >= sizes.waits {
        return 0;
      }
      ghost var before := path[..depth];
      path[depth] := txn;
      assert path[..depth + 1] == before + [txn];
      var ts := CollectTargets(txn);
      for i := 0 to |ts|
        invariant path[..depth + 1] == before + [txn]
        invariant SearchAny(State(), ts[i..], before + [txn]) == Search(State(), txn, before)
      {
        v := Dfs(ts[i], path, depth + 1);
        assert ts[i..][1..] == ts[i + 1..];
        if v != 0 {
          assert path[..depth] == path[..depth + 1][..depth];
          return;
        }
      }
      assert path[..depth] == path[..depth + 1][..depth];
      v := 0;
    }

    method DeadlockVictim() returns (v: int)
      ensures v == Victim(State())
    {
      var path := new int[sizes.waits];
      for i := 0 to |waits|
        invariant VictimFrom(State(), i) == Victim(State())
      {
        assert path[..0] == [];
        v := Dfs(waits[i].txn, path, 0);
        if v != 0 {
          return;
        }
      }
      v := 0;
    }
  }

  lemma SurveySnoc(es: seq<Claim>, e: Claim, txn: int, table: string, key: int)
    ensures var fs := es + [e]; var held := e.txn != 0 && On(e, table, key);
            && (OtherHolds(fs, txn, table, key, true) <==>
                  OtherHolds(es, txn, table, key, true) || (held && e.txn != txn && e.mode == Exclusive))
            && (OtherHolds(fs, txn, table, key, false) <==>
                  OtherHolds(es, txn, table, key, false) || (held && e.txn != txn))
            && OwnSlot(fs, txn, table, key) == if held && e.txn == txn then |es| else OwnSlot(es, txn, table, key)
  {
    var fs := es + [e];
    assert fs[..|es|] == es && fs[|es|] == e;
    assert forall i | 0 <= i < |es| :: fs[i] == es[i];
  }
}
