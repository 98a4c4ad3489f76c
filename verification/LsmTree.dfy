/** The LSM struct of src/lsm.c as an object. */
module LsmTree {
  import opened Wrappers
  import opened Lsm
  import opened LsmRuns

  // ----- binary searches -----

  /** mem_bsearch and mem_bsearch2: the group's position, or where it would be inserted. */
  method Locate(multi: bool, mem: seq<Entry>, g: Group) returns (pos: nat, found: bool)
    requires IsRun(multi, mem)
    ensures Splits(multi, mem, g, pos)
    ensures found <==> pos < |mem| && GroupOf(multi, mem[pos]) == g
  {
    var lo, hi := 0, |mem|;
    while lo < hi
      invariant lo <= hi <= |mem|
      invariant forall i | 0 <= i < lo :: Less(GroupOf(multi, mem[i]), g)
      invariant forall i | hi <= i < |mem| :: Less(g, GroupOf(multi, mem[i]))
    {
      var mid := lo + (hi - lo) / 2;
      var h := GroupOf(multi, mem[mid]);
      if Less(h, g) {
        lo := mid + 1;
      } else if Less(g, h) {
        hi := mid;
      } else {
        return mid, true;
      }
    }
    return lo, false;
  }

  /** sst_get: skip the table when the key is outside its range, else search it. */
  method TableGet(t: Table, key: int) returns (e: Option<Entry>)
    requires IsRun(false, t.run)
    ensures e == Find(false, t.run, Group(key, 0))
  {
    var n := |t.run|;
    if n == 0 || key < t.run[0].key || key > t.run[n - 1].key {
      FindNone(false, t.run, Group(key, 0));
      return None;
    }
    var lo, hi := 0, n - 1;
    while lo <= hi
      invariant 0 <= lo <= n && -1 <= hi < n
      invariant forall i | 0 <= i < lo :: t.run[i].key < key
      invariant forall i | hi < i < n :: key < t.run[i].key
    {
      var mid := lo + (hi - lo) / 2;
      if t.run[mid].key == key {
        FindExact(false, t.run, mid);
        return Some(t.run[mid]);
      }
      if t.run[mid].key < key {
        assert forall i | 0 <= i < mid :: Less(GroupOf(false, t.run[i]), GroupOf(false, t.run[mid]));
        lo := mid + 1;
      } else {
        assert forall i | mid < i < n :: Less(GroupOf(false, t.run[mid]), GroupOf(false, t.run[i]));
        hi := mid - 1;
      }
    }
    FindNone(false, t.run, Group(key, 0));
    return None;
  }

  // ----- collecting and visiting -----

  /** The entries of all tables, each with the number of its table. */
  method CollectTables(ts: seq<Table>) returns (xs: seq<Tagged>)
    ensures xs == Collect(ts)
  {
    xs := [];
    for i := 0 to |ts|
      invariant xs == Collect(ts[..i])
    {
      var run, id := ts[i].run, ts[i].id;
      ghost var was := xs;
      for j := 0 to |run|
        invariant xs == was + Tag(run[..j], id)
      {
        xs := xs + [Tagged(run[j], id)];
        assert Tag(run[..j + 1], id) == Tag(run[..j], id) + [Tagged(run[j], id)];
      }
      assert run[..|run|] == run;
      assert ts[..i + 1][..i] == ts[..i];
    }
    assert ts[..|ts|] == ts;
  }

  /** The live pairs of a run whose key lies in the range. */
  function Pick(es: seq<Entry>, lo: int, hi: int): seq<(int, int)>
    decreases |es|
  {
    if es == [] then []
    else (if lo <= es[0].key <= hi then [(es[0].key, es[0].val)] else []) + Pick(es[1..], lo, hi)
  }

  lemma {:induction false} PickJoin(a: seq<Entry>, b: seq<Entry>, lo: int, hi: int)
    ensures Pick(a + b, lo, hi) == Pick(a, lo, hi) + Pick(b, lo, hi)
  {
    if a == [] {
      assert a + b == b;
    } else {
      assert (a + b)[1..] == a[1..] + b;
      PickJoin(a[1..], b, lo, hi);
    }
  }

  /** Past the older versions of the entry before i. */
  method SkipOlder(multi: bool, xs: seq<Tagged>, i: nat, cur: Tagged) returns (n: nat)
    requires i <= |xs|
    ensures n == GroupEnd(multi, xs, i, cur)
  {
    n := i;
    while n < |xs| && SameGroup(multi, xs[n], cur)
      invariant i <= n <= |xs| && GroupEnd(multi, xs, n, cur) == GroupEnd(multi, xs, i, cur)
    {
      n := n + 1;
    }
  }

  /** What has been visited, with what the rest will add, is everything. */
  ghost predicate Visited(multi: bool, xs: seq<Tagged>, lo: int, hi: int, out: seq<(int, int)>, i: nat) {
    i <= |xs| && out + Pick(Survivors(multi, xs, i), lo, hi) == Pick(Survivors(multi, xs, 0), lo, hi)
  }

  function Shown(e: Entry, lo: int, hi: int): seq<(int, int)> {
    if lo <= e.key <= hi && !e.tomb then [(e.key, e.val)] else []
  }

  lemma VisitStep(multi: bool, xs: seq<Tagged>, lo: int, hi: int, out: seq<(int, int)>, i: nat)
    requires i < |xs| && Visited(multi, xs, lo, hi, out, i)
    ensures Visited(multi, xs, lo, hi, out + Shown(xs[i].entry, lo, hi), GroupEnd(multi, xs, i + 1, xs[i]))
  {
    var e, n := xs[i].entry, GroupEnd(multi, xs, i + 1, xs[i]);
    PickJoin(Live(e), Survivors(multi, xs, n), lo, hi);
    PickLive(e, lo, hi);
    assert out + Pick(Survivors(multi, xs, i), lo, hi) == (out + Shown(e, lo, hi)) + Pick(Survivors(multi, xs, n),
        lo, hi);
  }

  lemma PickLive(e: Entry, lo: int, hi: int)
    ensures Pick(Live(e), lo, hi) == Shown(e, lo, hi)
  {
    assert Pick([], lo, hi) == [];
  }

  lemma VisitStart(multi: bool, xs: seq<Tagged>, lo: int, hi: int)
    ensures Visited(multi, xs, lo, hi, [], 0)
  {
  }

  lemma VisitEnd(multi: bool, xs: seq<Tagged>, lo: int, hi: int, out: seq<(int, int)>)
    requires Visited(multi, xs, lo, hi, out, |xs|)
    ensures out == Pick(Survivors(multi, xs, 0), lo, hi)
  {
  }

  /** The visiting loop of lsm_scan and lsm_find_all. */
  method Visit(multi: bool, xs: seq<Tagged>, lo: int, hi: int) returns (out: seq<(int, int)>)
    ensures out == Pick(Survivors(multi, xs, 0), lo, hi)
  {
    out := [];
    var i := 0;
    VisitStart(multi, xs, lo, hi);
    while i < |xs|
      invariant 0 <= i <= |xs| && Visited(multi, xs, lo, hi, out, i)
      decreases |xs| - i
    {
      var cur := xs[i];
      VisitStep(multi, xs, lo, hi, out, i);
      i := SkipOlder(multi, xs, i + 1, cur);
      ghost var want := out + Shown(cur.entry, lo, hi);
      if lo <= cur.entry.key <= hi && !cur.entry.tomb {
        out := out + [(cur.entry.key, cur.entry.val)];
      }
      assert out == want;
    }
    VisitEnd(multi, xs, lo, hi, out);
  }

  ghost predicate Kept(multi: bool, xs: seq<Tagged>, live: seq<Entry>, i: nat) {
    i <= |xs| && live + Survivors(multi, xs, i) == Survivors(multi, xs, 0)
  }

  lemma KeptStep(multi: bool, xs: seq<Tagged>, live: seq<Entry>, i: nat)
    requires i < |xs| && Kept(multi, xs, live, i)
    ensures Kept(multi, xs, live + Live(xs[i].entry), GroupEnd(multi, xs, i + 1, xs[i]))
  {
    var n := GroupEnd(multi, xs, i + 1, xs[i]);
    assert live + Survivors(multi, xs, i) == live + Live(xs[i].entry) + Survivors(multi, xs, n);
  }

  /** The merging loop of lsm_compact. */
  method KeepNewest(multi: bool, xs: seq<Tagged>) returns (live: seq<Entry>)
    ensures live == Survivors(multi, xs, 0)
  {
    live := [];
    var i := 0;
    while i < |xs|
      invariant 0 <= i <= |xs| && Kept(multi, xs, live, i)
      decreases |xs| - i
    {
      var cur := xs[i];
      KeptStep(multi, xs, live, i);
      if !cur.entry.tomb {
        live := live + [Entry(cur.entry.key, cur.entry.val, false)];
      }
      i := SkipOlder(multi, xs, i + 1, cur);
    }
  }

  // ----- what a scan promises -----

  ghost predicate AscendingPairs(out: seq<(int, int)>) {
    forall i, j | 0 <= i < j < |out| :: out[i].0 < out[j].0 || (out[i].0 == out[j].0 && out[i].1 < out[j].1)
  }

  function PairGroup(multi: bool, p: (int, int)): Group {
    Group(p.0, if multi then p.1 else 0)
  }

  lemma {:induction false} PickHas(es: seq<Entry>, lo: int, hi: int, p: (int, int))
    ensures p in Pick(es, lo, hi) <==> lo <= p.0 <= hi && exists e :: e in es && (e.key, e.val) == p
  {
    if es != [] {
      PickHas(es[1..], lo, hi, p);
      assert es == [es[0]] + es[1..];
    }
  }

  lemma {:induction false} PickAscends(multi: bool, es: seq<Entry>, lo: int, hi: int)
    requires IsRun(multi, es)
    ensures AscendingPairs(Pick(es, lo, hi))
  {
    if es != [] {
      var rest := Pick(es[1..], lo, hi);
      PickAscends(multi, es[1..], lo, hi);
      forall i | 0 <= i < |rest|
        ensures es[0].key < rest[i].0 || (es[0].key == rest[i].0 && es[0].val < rest[i].1)
      {
        PickHas(es[1..], lo, hi, rest[i]);
        var e :| e in es[1..] && (e.key, e.val) == rest[i];
        var k :| 0 <= k < |es[1..]| && es[1..][k] == e;
        assert Less(GroupOf(multi, es[0]), GroupOf(multi, es[k + 1]));
      }
    }
  }

  /** Exactly the pairs that are live in the layered view, each once, in order. */
  ghost predicate ExactScan(s: Store, lo: int, hi: int, out: seq<(int, int)>) {
    && AscendingPairs(out)
    && forall p :: p in out <==> lo <= p.0 <= hi && View(s, PairGroup(s.multi, p)) == Some(p.1)
  }

  lemma LivePair(multi: bool, es: seq<Entry>, p: (int, int))
    requires IsRun(multi, es) && forall i | 0 <= i < |es| :: !es[i].tomb
    ensures (exists e :: e in es && (e.key, e.val) == p) <==> Value(Find(multi, es, PairGroup(multi, p))) == Some(p.1)
  {
    FindSound(multi, es, PairGroup(multi, p));
    if e :| e in es && (e.key, e.val) == p {
      var i :| 0 <= i < |es| && es[i] == e;
      FindExact(multi, es, i);
    }
  }

  lemma {:induction false} SurvivorsLive(multi: bool, xs: seq<Tagged>, i: nat)
    ensures forall k | 0 <= k < |Survivors(multi, xs, i)| :: !Survivors(multi, xs, i)[k].tomb
    decreases |xs| - i
  {
    if i < |xs| { SurvivorsLive(multi, xs, GroupEnd(multi, xs, i + 1, xs[i])); }
  }

  lemma VisitExact(s: Store, xs: seq<Tagged>, lo: int, hi: int)
    requires Valid(s) && Arrangement(s.multi, Layers(s), xs)
    ensures ExactScan(s, lo, hi, Pick(Survivors(s.multi, xs, 0), lo, hi))
  {
    var es := Survivors(s.multi, xs, 0);
    SurvivorsExact(s.multi, Layers(s), xs, Group(0, 0));
    PickAscends(s.multi, es, lo, hi);
    SurvivorsLive(s.multi, xs, 0);
    forall p: (int, int)
      ensures p in Pick(es, lo, hi) <==> lo <= p.0 <= hi && View(s, PairGroup(s.multi, p)) == Some(p.1)
    {
      PickHas(es, lo, hi, p);
      LivePair(s.multi, es, p);
      SurvivorsExact(s.multi, Layers(s), xs, PairGroup(s.multi, p));
    }
  }

  // ----- the tree -----

  /** In `after`, group g reads as v and every other group as in `before`. */
  ghost predicate Sets(before: Store, after: Store, g: Group, v: Option<int>) {
    forall h :: View(after, h) == if h == g then v else View(before, h)
  }

  lemma WrittenViews(s: Store, e: Entry)
    requires Valid(s)
    ensures Sets(s, After(s, Write(e)), GroupOf(s.multi, e), Value(Some(e)))
  {
    forall h
      ensures View(After(s, Write(e)), h) == if h == GroupOf(s.multi, e) then Value(Some(e)) else View(s, h)
    {
      WrittenView(s, e, h);
    }
  }

  class Tree {
    const multi: bool
    const threshold: nat
    var mem: seq<Entry>
    var ssts: seq<Table>
    var next: nat
    var dir: map<nat, File>

    ghost function State(): Store
      reads this
    {
      Store.Store(multi, threshold, mem, ssts, next, dir)
    }

    constructor (multi: bool, threshold: nat, found: array<Table>, dir: map<nat, File>)
      requires Mirrors(found[..], dir) && DistinctIds(found[..])
      modifies found
      ensures State() == Opened(multi, threshold, dir) && (Valid(State()) <==> RunFiles(multi, dir))
    {
      var ts := Listed(found, dir);
      this.multi, this.threshold, this.dir, mem := multi, threshold, dir, [];
      var free := FirstFree(ts);
      ssts, next := ts, free;
      OpenedTables(dir, ts);
      OpenedValid(multi, threshold, dir, ts);
    }

    /** lsm_flush. */
    method WriteOut()
      requires Valid(State())
      modifies this
      ensures Valid(State()) && State() == Flush(old(State()))
    {
      ghost var w := State();
      if mem == [] { return; }
      FlushValid(w);
      var id := next;
      next := next + 1;
      dir := Perform(dir, Start(id));
      dir := Perform(dir, Finish(id, mem));
      PerformTwo(w.dir, Start(id), Finish(id, mem));
      ssts := ssts + [Table(id, mem)];
      mem := [];
    }

    /** mem_upsert and mem_upsert_dup. */
    method Place(e: Entry)
      requires Valid(State())
      modifies this`mem
      ensures State() == Upserted(old(State()), e)
    {
      IdsBelow(State());
      var pos, found := Locate(multi, mem, GroupOf(multi, e));
      UpsertAt(multi, mem, e, pos);
      mem := if found then mem[pos := e] else mem[..pos] + [e] + mem[pos..];
    }

    /** An entry is written, and the memtable flushed when it is full. */
    method WriteEntry(e: Entry)
      requires Valid(State())
      modifies this
      ensures Valid(State()) && State() == After(old(State()), Write(e))
      ensures Sets(old(State()), State(), GroupOf(multi, e), Value(Some(e)))
    {
      UpsertValid(State(), e);
      WrittenViews(State(), e);
      Place(e);
      if |mem| >= threshold {
        WriteOut();
      }
    }

    method Put(key: int, val: int)
      requires Valid(State()) && !multi
      modifies this
      ensures Valid(State()) && State() == After(old(State()), Write(Entry(key, val, false)))
      ensures Sets(old(State()), State(), Group(key, 0), Some(val))
    {
      WriteEntry(Entry(key, val, false));
    }

    method Delete(key: int)
      requires Valid(State()) && !multi
      modifies this
      ensures Valid(State()) && State() == After(old(State()), Write(Entry(key, 0, true)))
      ensures Sets(old(State()), State(), Group(key, 0), None)
    {
      WriteEntry(Entry(key, 0, true));
    }

    method PutDup(key: int, val: int)
      requires Valid(State()) && multi
      modifies this
      ensures Valid(State()) && State() == After(old(State()), Write(Entry(key, val, false)))
      ensures Sets(old(State()), State(), Group(key, val), Some(val))
    {
      WriteEntry(Entry(key, val, false));
    }

    method DeleteVal(key: int, val: int)
      requires Valid(State()) && multi
      modifies this
      ensures Valid(State()) && State() == After(old(State()), Write(Entry(key, val, true)))
      ensures Sets(old(State()), State(), Group(key, val), None)
    {
      WriteEntry(Entry(key, val, true));
    }

    /** lsm_get: the memtable, then the tables from newest to oldest. */
    method Get(key: int) returns (v: Option<int>)
      requires Valid(State()) && !multi
      ensures v == View(State(), Group(key, 0))
    {
      ghost var s, g := State(), Group(key, 0);
      IdsBelow(s);
      NewestSnoc(false, ssts, Table(next, mem), g);
      var pos, found := Locate(false, mem, Group(key, 0));
      if found {
        FindExact(false, mem, pos);
        return if mem[pos].tomb then None else Some(mem[pos].val);
      }
      FindNone(false, mem, g);
      var i := |ssts|;
      assert ssts[..i] == ssts;
      while i > 0
        invariant 0 <= i <= |ssts| && Newest(false, ssts[..i], g) == Newest(false, ssts, g)
      {
        i := i - 1;
        assert ssts[..i + 1][..i] == ssts[..i];
        var e := TableGet(ssts[i], key);
        if e.Some? {
          return if e.value.tomb then None else Some(e.value.val);
        }
      }
      return None;
    }

    /** lsm_scan. */
    method Scan(lo: int, hi: int) returns (out: seq<(int, int)>)
      requires Valid(State())
      ensures ExactScan(State(), lo, hi, out)
    {
      if lo > hi { return []; }
      var xs := CollectAll();
      out := Visit(multi, xs, lo, hi);
      VisitExact(State(), xs, lo, hi);
    }

    /** lsm_find_all: all live values of one key, ascending. */
    method FindAll(key: int) returns (out: seq<(int, int)>)
      requires Valid(State())
      ensures ExactScan(State(), key, key, out)
    {
      var xs := CollectAll();
      out := Visit(multi, xs, key, key);
      VisitExact(State(), xs, key, key);
    }

    /** collect_all: the memtable counts as newer than every table. */
    method CollectAll() returns (xs: seq<Tagged>)
      ensures Arrangement(multi, Layers(State()), xs)
    {
      var ys := CollectTables(ssts);
      ghost var ls := Layers(State());
      assert ls[..|ls| - 1] == ssts;
      assert Collect(ls) == ys + Tag(mem, next);
      xs := Tag(mem, next) + ys;
      ArrangeCollect(multi, ls, xs);
      xs := Arrange(multi, xs);
    }

    /** The merged file is written first; the old files go after it, oldest first. */
    method ReplaceFiles(live: seq<Entry>)
      modifies this`dir
      ensures dir == PerformAll(old(dir), [Start(next), Finish(next, live)] + Unlinks(ssts))
    {
      dir := Perform(dir, Start(next));
      dir := Perform(dir, Finish(next, live));
      ghost var ops := [Start(next), Finish(next, live)] + Unlinks(ssts);
      PerformTwo(old(dir), Start(next), Finish(next, live));
      assert ops[..2] == [Start(next), Finish(next, live)];
      for i := 0 to |ssts|
        invariant dir == PerformAll(old(dir), ops[..i + 2])
      {
        PerformSnoc(old(dir), ops[..i + 2], ops[i + 2]);
        assert ops[..i + 2] + [ops[i + 2]] == ops[..i + 3];
        dir := Perform(dir, Unlink(ssts[i].id));
      }
      assert ops[..|ssts| + 2] == ops;
    }

    /** lsm_compact. */
    method CompactAll()
      requires Valid(State())
      modifies this
      ensures Valid(State()) && State() == Compact(old(State()))
    {
      ghost var after := Compact(State());
      CompactValid(State());
      var xs := CollectTables(ssts);
      if xs == [] { return; }
      var live := KeepNewest(multi, Arrange(multi, xs));
      ReplaceFiles(live);
      ssts := [Table(next, live)];
      next := next + 1;
      assert State() == after;
    }
  }

  /** lsm_open_multi: `found` lists the whole files of the directory in any order. */
  method Open(multi: bool, threshold: nat, found: array<Table>, dir: map<nat, File>) returns (t: Tree?)
    requires Mirrors(found[..], dir) && DistinctIds(found[..])
    modifies found
    ensures t == null <==> threshold == 0
    ensures t != null ==>
              fresh(t) && t.State() == Opened(multi, threshold, dir) && (Valid(t.State()) <==> RunFiles(multi, dir))
  {
    if threshold == 0 { return null; }
    t := new Tree(multi, threshold, found, dir);
  }

  // ----- sorting what readdir found -----

  ghost predicate DistinctIds(ts: seq<Table>) {
    forall i, j | 0 <= i < j < |ts| :: ts[i].id != ts[j].id
  }

  /** Everything before i is in its final place. */
  ghost predicate Placed(ts: seq<Table>, i: nat) {
    forall p, q | 0 <= p < q < |ts| && p < i :: ts[p].id < ts[q].id
  }

  lemma SwapKeeps(s: seq<Table>, t: seq<Table>, i: nat, j: nat)
    requires i < j < |s| && t == s[i := s[j]][j := s[i]]
    ensures multiset(t) == multiset(s)
    ensures DistinctIds(s) ==> DistinctIds(t)
    ensures Placed(s, i) ==> Placed(t, i)
  {
  }

  /** One round of the sort: the smallest number from i on moves to i. */
  method PlaceNext(a: array<Table>, i: nat)
    requires i < a.Length && DistinctIds(a[..]) && Placed(a[..], i)
    modifies a
    ensures DistinctIds(a[..]) && Placed(a[..], i + 1) && multiset(a[..]) == multiset(old(a[..]))
  {
    for j := i + 1 to a.Length
      invariant DistinctIds(a[..]) && Placed(a[..], i) && multiset(a[..]) == multiset(old(a[..]))
      invariant forall q | i < q < j :: a[..][i].id < a[..][q].id
    {
      if a[j].id < a[i].id {
        ghost var was := a[..];
        a[i], a[j] := a[j], a[i];
        SwapKeeps(was, a[..], i, j);
      } else {
        assert a[..][i].id != a[..][j].id;
      }
    }
  }

  /** One past the largest number in use. */
  method FirstFree(ts: seq<Table>) returns (next: nat)
    requires Ascending(ts)
    ensures next == if ts == [] then 1 else ts[|ts| - 1].id + 1
  {
    next := 1;
    for i := 0 to |ts|
      invariant next == if i == 0 then 1 else ts[i - 1].id + 1
    {
      if ts[i].id >= next {
        next := ts[i].id + 1;
      }
    }
  }

  /** The exchange sort that lsm_open_multi runs on what readdir found. */
  method SortTables(a: array<Table>)
    requires DistinctIds(a[..])
    modifies a
    ensures Ascending(a[..]) && multiset(a[..]) == multiset(old(a[..]))
  {
    var i := 0;
    while i + 1 < a.Length
      invariant 0 <= i && (i < a.Length || a.Length == 0)
      invariant DistinctIds(a[..]) && Placed(a[..], i) && multiset(a[..]) == multiset(old(a[..]))
    {
      PlaceNext(a, i);
      i := i + 1;
    }
  }

  /** The open tables in order of their numbers. */
  method Listed(found: array<Table>, ghost dir: map<nat, File>) returns (ts: seq<Table>)
    requires Mirrors(found[..], dir) && DistinctIds(found[..])
    modifies found
    ensures Ascending(ts) && Mirrors(ts, dir)
  {
    ghost var listed := found[..];
    SortTables(found);
    ts := found[..];
    MirrorsSorted(listed, ts, dir);
  }

  lemma MirrorsSorted(a: seq<Table>, b: seq<Table>, dir: map<nat, File>)
    requires Mirrors(a, dir) && multiset(a) == multiset(b)
    ensures Mirrors(b, dir)
  {
    forall t: Table
      ensures t in b <==> t in a
    {
      assert t in b <==> t in multiset(b);
      assert t in a <==> t in multiset(a);
    }
  }
}
