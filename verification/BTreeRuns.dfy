/** Runs of inserts and deletes on the B+Tree of src/btree.c. */
module BTreeRuns {
  import opened Wrappers
  import opened Keys
  import opened BTree
  import opened BTreeFacts
  import opened BTreePages

  // ----- removing one entry of a leaf; the tree is not rebalanced -----

  function Without(es: seq<Entry>, k: nat): seq<Entry>
    requires k < |es|
  {
    es[..k] + es[k + 1..]
  }

  /** Entry k of the leaf on page `pid` is gone. */
  function Drop(t: Tree, pid: nat, k: nat): (r: Tree)
    ensures r.pid == t.pid && r.Leaf? == t.Leaf? && (r.Inner? ==> r.keys == t.keys && |r.kids| == |t.kids|)
  {
    match t
    case Leaf(p, es, next) => if p == pid && k < |es| then t.(entries := Without(es, k)) else t
    case Inner(_, _, kids) => t.(kids := seq(|kids|, i requires 0 <= i < |kids| => Drop(kids[i], pid, k)))
  }

  lemma {:induction false} DropShaped(t: Tree, d: nat, pid: nat, k: nat)
    requires Shaped(t, d)
    ensures Shaped(Drop(t, pid, k), d)
    decreases d
  {
    if t.Inner? {
      forall i | 0 <= i < |t.kids|
        ensures Shaped(Drop(t.kids[i], pid, k), d - 1)
      {
        DropShaped(t.kids[i], d - 1, pid, k);
      }
    }
  }

  lemma WithoutSorted(es: seq<Entry>, k: nat, lo: Option<int>, hi: Option<int>, strict: bool)
    requires k < |es| && SortedEntries(es, strict) && EntriesWithin(es, lo, hi, strict)
    ensures SortedEntries(Without(es, k), strict) && EntriesWithin(Without(es, k), lo, hi, strict)
  {
    var r := Without(es, k);
    assert forall i | 0 <= i < |r| :: r[i] == es[if i < k then i else i + 1];
  }

  /** Separators may become stale, but they still divide. */
  lemma {:induction false} DropOrdered(t: Tree, pid: nat, k: nat, lo: Option<int>, hi: Option<int>, strict: bool)
    requires Ordered(t, lo, hi, strict)
    ensures Ordered(Drop(t, pid, k), lo, hi, strict)
    decreases t
  {
    match t
    case Leaf(p, es, _) => if p == pid && k < |es| { WithoutSorted(es, k, lo, hi, strict); }
    case Inner(_, keys, kids) =>
      forall i | 0 <= i < |kids|
        ensures Ordered(Drop(kids[i], pid, k), LoAt(keys, i, lo), HiAt(keys, i, hi), strict)
      {
        DropOrdered(kids[i], pid, k, LoAt(keys, i, lo), HiAt(keys, i, hi), strict);
      }
  }

  function DropEach(ts: seq<Tree>, pid: nat, k: nat): seq<Tree> {
    seq(|ts|, i requires 0 <= i < |ts| => Drop(ts[i], pid, k))
  }

  lemma DropJoin(a: seq<Tree>, b: seq<Tree>, pid: nat, k: nat)
    ensures DropEach(a + b, pid, k) == DropEach(a, pid, k) + DropEach(b, pid, k)
  {
  }

  lemma {:induction false} DropLeaves(t: Tree, pid: nat, k: nat)
    ensures Leaves(Drop(t, pid, k)) == DropEach(Leaves(t), pid, k)
    decreases t, 1
  {
    if t.Leaf? {
      assert DropEach([t], pid, k) == [Drop(t, pid, k)];
    } else {
      DropKids(t, |t.kids|, pid, k);
      var r := Drop(t, pid, k);
      assert t.kids[..|t.kids|] == t.kids && r.kids[..|t.kids|] == r.kids;
      LeavesInner(t);
      LeavesInner(r);
    }
  }

  lemma {:induction false} DropKids(t: Tree, n: nat, pid: nat, k: nat)
    requires t.Inner? && n <= |t.kids|
    ensures LeavesOfAll(Drop(t, pid, k).kids[..n]) == DropEach(LeavesOfAll(t.kids[..n]), pid, k)
    decreases t, 0, n
  {
    var r := Drop(t, pid, k);
    if n == 0 {
      assert r.kids[..0] == [] && t.kids[..0] == [] && LeavesOfAll([]) == [];
    } else {
      var m := n - 1;
      DropKids(t, m, pid, k);
      DropLeaves(t.kids[m], pid, k);
      assert r.kids[..n] == r.kids[..m] + [r.kids[m]] && t.kids[..n] == t.kids[..m] + [t.kids[m]];
      LeavesJoin(r.kids[..m], [r.kids[m]]);
      LeavesJoin(t.kids[..m], [t.kids[m]]);
      LeavesOne(r.kids[m]);
      LeavesOne(t.kids[m]);
      DropJoin(LeavesOfAll(t.kids[..m]), Leaves(t.kids[m]), pid, k);
    }
  }

  lemma {:induction false} DropChained(ls: seq<Tree>, start: nat, end: nat, pid: nat, k: nat)
    requires Chained(ls, start, end)
    ensures Chained(DropEach(ls, pid, k), start, end)
    decreases |ls|
  {
    if ls != [] {
      DropChained(ls[1..], ls[0].next, end, pid, k);
      assert DropEach(ls, pid, k)[1..] == DropEach(ls[1..], pid, k);
    }
  }

  // ----- leaves are on pages of their own -----

  ghost predicate DistinctPids(ls: seq<Tree>) {
    forall i, j | 0 <= i < j < |ls| :: ls[i].pid != ls[j].pid
  }

  lemma {:induction false} LeafPids(t: Tree)
    requires Apart(t)
    ensures DistinctPids(Leaves(t)) && forall i | 0 <= i < |Leaves(t)| :: Leaves(t)[i].pid in Pids(t)
    decreases t, 1
  {
    if t.Inner? {
      KidLeafPids(t, |t.kids|);
      assert t.kids[..|t.kids|] == t.kids;
      LeavesInner(t);
    }
  }

  ghost predicate InKids(t: Tree, n: nat, p: nat)
    requires t.Inner? && n <= |t.kids|
  {
    exists i :: 0 <= i < n && p in Pids(t.kids[i])
  }

  lemma {:induction false} KidLeafPids(t: Tree, n: nat)
    requires t.Inner? && n <= |t.kids| && Apart(t)
    ensures var ls := LeavesOfAll(t.kids[..n]);
            DistinctPids(ls) && forall i | 0 <= i < |ls| :: InKids(t, n, ls[i].pid)
    decreases t, 0, n
  {
    if n == 0 {
      assert t.kids[..0] == [] && LeavesOfAll([]) == [];
    } else {
      var m := n - 1;
      var a, b := LeavesOfAll(t.kids[..m]), Leaves(t.kids[m]);
      KidLeafPids(t, m);
      LeafPids(t.kids[m]);
      assert t.kids[..n] == t.kids[..m] + [t.kids[m]];
      LeavesJoin(t.kids[..m], [t.kids[m]]);
      LeavesOne(t.kids[m]);
      JoinDistinct(t, m, a, b);
    }
  }

  lemma JoinDistinct(t: Tree, m: nat, a: seq<Tree>, b: seq<Tree>)
    requires t.Inner? && m < |t.kids| && Apart(t) && DistinctPids(a) && DistinctPids(b)
    requires forall i | 0 <= i < |a| :: InKids(t, m, a[i].pid)
    requires forall i | 0 <= i < |b| :: b[i].pid in Pids(t.kids[m])
    ensures DistinctPids(a + b) && forall i | 0 <= i < |a + b| :: InKids(t, m + 1, (a + b)[i].pid)
  {
    forall i | 0 <= i < |a|
      ensures a[i].pid !in Pids(t.kids[m]) && InKids(t, m + 1, a[i].pid)
    {
      var j :| 0 <= j < m && a[i].pid in Pids(t.kids[j]);
      assert Pids(t.kids[j]) !! Pids(t.kids[m]);
    }
    forall i | 0 <= i < |a + b|
      ensures InKids(t, m + 1, (a + b)[i].pid)
    {
      if i >= |a| { assert (a + b)[i] == b[i - |a|]; }
    }
  }

  // ----- deleting -----

  /** The entries with the first e removed. */
  function RemoveFirst(es: seq<Entry>, e: Entry): seq<Entry> {
    if es == [] then [] else if es[0] == e then es[1..] else [es[0]] + RemoveFirst(es[1..], e)
  }

  lemma {:induction false} RemoveAt(es: seq<Entry>, e: Entry, k: nat)
    requires k < |es| && es[k] == e && forall i | 0 <= i < k :: es[i] != e
    ensures RemoveFirst(es, e) == Without(es, k)
  {
    if k == 0 {
      assert es[..0] + es[1..] == es[1..];
    } else {
      RemoveAt(es[1..], e, k - 1);
      assert Without(es, k) == [es[0]] + Without(es[1..], k - 1);
    }
  }

  lemma {:induction false} RemoveNone(es: seq<Entry>, e: Entry)
    requires e !in es
    ensures RemoveFirst(es, e) == es
  {
    if es != [] { RemoveNone(es[1..], e); }
  }

  lemma {:induction false} RemoveMultiset(es: seq<Entry>, e: Entry)
    ensures multiset(RemoveFirst(es, e)) == multiset(es) - multiset{e}
  {
    if es != [] {
      assert es == [es[0]] + es[1..];
      if es[0] != e { RemoveMultiset(es[1..], e); }
    }
  }

  /** Leaf n holds the first entry e of the leaves, at position k. */
  ghost predicate FirstAt(ls: seq<Tree>, e: Entry, n: nat, k: nat) {
    && n < |ls| && ls[n].Leaf? && k < |ls[n].entries| && ls[n].entries[k] == e
    && (forall i | 0 <= i < k :: ls[n].entries[i] != e)
    && e !in EntriesOf(ls[..n])
  }

  lemma DropElsewhere(ls: seq<Tree>, pid: nat, k: nat)
    requires forall i | 0 <= i < |ls| :: ls[i].Leaf? && ls[i].pid != pid
    ensures DropEach(ls, pid, k) == ls
  {
  }

  lemma DropEntries(ls: seq<Tree>, e: Entry, n: nat, k: nat)
    requires FirstAt(ls, e, n, k) && DistinctPids(ls) && forall i | 0 <= i < |ls| :: ls[i].Leaf?
    ensures EntriesOf(DropEach(ls, ls[n].pid, k)) == RemoveFirst(EntriesOf(ls), e)
  {
    var a, l, b := ls[..n], ls[n], ls[n + 1..];
    var x := Drop(l, l.pid, k);
    assert ls == a + [l] + b;
    DropElsewhere(a, l.pid, k);
    DropElsewhere(b, l.pid, k);
    DropJoin(a + [l], b, l.pid, k);
    DropJoin(a, [l], l.pid, k);
    assert DropEach([l], l.pid, k) == [x];
    AroundEntries(a, [l], b);
    AroundEntries(a, [x], b);
    EntriesOne(l);
    EntriesOne(x);
    RemoveAround(EntriesOf(a), l.entries, EntriesOf(b), e, k);
  }

  lemma RemoveAround(a: seq<Entry>, es: seq<Entry>, b: seq<Entry>, e: Entry, k: nat)
    requires k < |es| && es[k] == e && e !in a && forall i | 0 <= i < k :: es[i] != e
    ensures a + Without(es, k) + b == RemoveFirst(a + es + b, e)
  {
    var all := a + es + b;
    assert forall i | 0 <= i < |a| :: all[i] == a[i] && a[i] in a;
    RemoveAt(all, e, |a| + k);
    assert Without(all, |a| + k) == a + Without(es, k) + b;
  }

  // ----- the whole index -----

  datatype Index = Index(tree: Tree, depth: nat, free: nat, pages: map<nat, Node>)

  /** btree_open on a new file: page 0 is the meta page, page 1 an empty root leaf. */
  function Empty(): Index {
    Index(Leaf(1, [], 0), 0, 2, map[1 := LeafNode([], 0)])
  }

  datatype Op = AddDup(entry: Entry) | Put(entry: Entry) | Remove(entry: Entry)

  function IndexIn(es: seq<Entry>, e: Entry): (k: nat)
    requires e in es
    ensures k < |es| && es[k] == e && forall i | 0 <= i < k :: es[i] != e
  {
    if es[0] == e then 0 else
      var k := IndexIn(es[1..], e);
      assert forall i | 0 < i < k + 1 :: es[i] == es[1..][i - 1];
      k + 1
  }

  function LeafWith(ls: seq<Tree>, e: Entry): (n: nat)
    requires e in EntriesOf(ls)
    ensures n < |ls| && ls[n].Leaf? && e in ls[n].entries && e !in EntriesOf(ls[..n])
    decreases |ls|
  {
    if ls[0].Leaf? && e in ls[0].entries then 0
    else
      var n := LeafWith(ls[1..], e);
      assert ls[..n + 1] == [ls[0]] + ls[1..][..n];
      assert ls[..n + 1][1..] == ls[1..][..n];
      n + 1
  }

  function Inserted(x: Index, e: Entry, dup: bool, cap: nat): Index
    requires cap > 0 && Shaped(x.tree, x.depth)
  {
    var (r, f) := InsertRoot(x.tree, x.depth, e, dup, cap, x.free);
    var grew := Insert(x.tree, x.depth, e, dup, cap, x.free).0.Split?;
    Index(r, if grew then x.depth + 1 else x.depth, f, StoredRoot(x.pages, x.tree, x.depth, e, dup, cap, x.free))
  }

  /** Entry k of leaf n removed from the tree and from its page. */
  function Dropped(x: Index, n: nat, k: nat): Index
    requires n < |Leaves(x.tree)| && Leaves(x.tree)[n].Leaf? && k < |Leaves(x.tree)[n].entries|
  {
    var l := Leaves(x.tree)[n];
    x.(tree := Drop(x.tree, l.pid, k), pages := x.pages[l.pid := LeafNode(Without(l.entries, k), l.next)])
  }

  function Removed(x: Index, e: Entry): Index {
    if e !in Entries(x.tree) then x
    else
      var n := LeafWith(Leaves(x.tree), e);
      Dropped(x, n, IndexIn(Leaves(x.tree)[n].entries, e))
  }

  function Do(x: Index, op: Op, cap: nat): Index
    requires cap > 0 && Shaped(x.tree, x.depth)
  {
    match op
    case AddDup(e) => Inserted(x, e, true, cap)
    case Put(e) => Inserted(x, e, false, cap)
    case Remove(e) => Removed(x, e)
  }

  /** All leaves at one depth, entries sorted between the separators, the chain from page 1 through
      exactly the leaves in order, and every node on a page of its own. */
  ghost predicate Good(x: Index, unique: bool) {
    && Shaped(x.tree, x.depth) && Ordered(x.tree, None, None, unique) && Chained(Leaves(x.tree), 1, 0)
    && InStore(x.pages, x.tree, x.free) && 0 !in Pids(x.tree) && 0 < x.free
  }

  lemma InsertedGood(x: Index, e: Entry, dup: bool, cap: nat, unique: bool)
    requires cap > 0 && Good(x, unique) && (unique ==> !dup)
    ensures Good(Inserted(x, e, dup, cap), unique)
    ensures var was, now := Entries(x.tree), Entries(Inserted(x, e, dup, cap).tree);
            && SortedEntries(now, unique)
            && if !dup && Sees(Reached(x.tree, x.depth, e.key), e.key)
               then Replaced(was, now, e) else Added(was, now, e)
  {
    var t, d, f := x.tree, x.depth, x.free;
    var n := Inserted(x, e, dup, cap);
    InsertShaped(t, d, e, dup, cap, f);
    InsertOrdered(t, d, e, dup, cap, f, None, None, unique);
    InsertChained(t, d, e, dup, cap, f, 1, 0);
    RootLeaves(t, d, e, dup, cap, f);
    RootStored(x.pages, t, d, e, dup, cap, f);
    InsertEntries(t, d, e, dup, cap, f);
    RootOrdered(t, d, e, dup, cap, f, unique);
    EntriesGood(n.tree, None, None, unique);
  }

  lemma RootOrdered(t: Tree, d: nat, e: Entry, dup: bool, cap: nat, f: nat, unique: bool)
    requires cap > 0 && Shaped(t, d) && OrderedGrown(Insert(t, d, e, dup, cap, f).0, None, None, unique)
    requires ShapedGrown(Insert(t, d, e, dup, cap, f).0, d)
    ensures var (r, _) := InsertRoot(t, d, e, dup, cap, f);
            Ordered(r, None, None, unique) && Shaped(r, if Insert(t, d, e, dup, cap, f).0.Split? then d + 1 else d)
  {
  }

  lemma {:induction false} DropPids(t: Tree, pid: nat, k: nat)
    ensures Pids(Drop(t, pid, k)) == Pids(t) && (Apart(t) ==> Apart(Drop(t, pid, k)))
    decreases t
  {
    if t.Inner? {
      var r := Drop(t, pid, k);
      forall i | 0 <= i < |t.kids|
        ensures Pids(r.kids[i]) == Pids(t.kids[i]) && (Apart(t.kids[i]) ==> Apart(r.kids[i]))
      {
        DropPids(t.kids[i], pid, k);
      }
      forall p: nat
        ensures p in Pids(r) <==> p in Pids(t)
      {
        PidsAre(r, p);
        PidsAre(t, p);
      }
    }
  }

  lemma {:induction false} DropOther(t: Tree, pid: nat, k: nat)
    requires pid !in Pids(t)
    ensures Drop(t, pid, k) == t
  {
    if t.Inner? {
      forall i | 0 <= i < |t.kids|
        ensures Drop(t.kids[i], pid, k) == t.kids[i]
      {
        KidPids(t, i);
        DropOther(t.kids[i], pid, k);
      }
      assert Drop(t, pid, k).kids == t.kids;
    }
  }

  /** The page of the leaf is rewritten; no other page knows. */
  lemma {:induction false} DropHolds(pages: map<nat, Node>, t: Tree, pid: nat, k: nat)
    requires Holds(pages, t) && Apart(t) && pid in pages && pages[pid].LeafNode? && k < |pages[pid].entries|
    ensures Holds(pages[pid := LeafNode(Without(pages[pid].entries, k), pages[pid].next)], Drop(t, pid, k))
  {
    var b := pages[pid := LeafNode(Without(pages[pid].entries, k), pages[pid].next)];
    if pid !in Pids(t) {
      DropOther(t, pid, k);
      HoldsPids(pages, t);
      HoldsFrame(pages, b, t);
    } else if t.Inner? {
      var r := Drop(t, pid, k);
      assert PidsIn(r.kids) == PidsIn(t.kids);
      forall i | 0 <= i < |t.kids|
        ensures Holds(b, r.kids[i])
      {
        DropHolds(pages, t.kids[i], pid, k);
      }
    }
  }

  lemma NoLeaves()
    ensures LeavesOfAll([]) == []
  {
  }

  lemma {:induction false} LeafHeldAt(pages: map<nat, Node>, t: Tree, n: nat)
    requires Holds(pages, t) && n < |Leaves(t)|
    ensures var l := Leaves(t)[n]; l.Leaf? ==> l.pid in pages && pages[l.pid] == LeafNode(l.entries, l.next)
    decreases t, 1
  {
    if t.Inner? {
      LeavesInner(t);
      assert t.kids[..|t.kids|] == t.kids;
      NoLeaves();
      KidLeafHeld(pages, t, |t.kids|, n);
    }
  }

  lemma {:induction false} KidLeafHeld(pages: map<nat, Node>, t: Tree, m: nat, n: nat)
    requires Holds(pages, t) && t.Inner? && 0 < m <= |t.kids| && n < |LeavesOfAll(t.kids[..m])|
    ensures var l := LeavesOfAll(t.kids[..m])[n]; l.Leaf? ==>
            l.pid in pages
            && pages[l.pid] == LeafNode(l.entries, l.next)
    decreases t, 0, m
  {
    assert t.kids[..m] == t.kids[..m - 1] + [t.kids[m - 1]];
    LeavesJoin(t.kids[..m - 1], [t.kids[m - 1]]);
    LeavesOne(t.kids[m - 1]);
    var before := LeavesOfAll(t.kids[..m - 1]);
    assert t.kids[..0] == [] && LeavesOfAll([]) == [];
    if n < |before| { KidLeafHeld(pages, t, m - 1, n); } else { LeafHeldAt(pages, t.kids[m - 1], n - |before|); }
  }

  lemma DroppedGood(x: Index, n: nat, k: nat, unique: bool)
    requires Good(x, unique) && n < |Leaves(x.tree)| && Leaves(x.tree)[n].Leaf? && k < |Leaves(x.tree)[n].entries|
    ensures Good(Dropped(x, n, k), unique)
  {
    var t, l := x.tree, Leaves(x.tree)[n];
    LeafHeldAt(x.pages, t, n);
    LeafPids(t);
    DropShaped(t, x.depth, l.pid, k);
    DropOrdered(t, l.pid, k, None, None, unique);
    DropLeaves(t, l.pid, k);
    DropChained(Leaves(t), 1, 0, l.pid, k);
    DropPids(t, l.pid, k);
    DropHolds(x.pages, t, l.pid, k);
  }

  lemma {:induction false} ChainLeaves(ls: seq<Tree>, start: nat, end: nat)
    requires Chained(ls, start, end)
    ensures forall i | 0 <= i < |ls| :: ls[i].Leaf?
    decreases |ls|
  {
    if ls != [] { ChainLeaves(ls[1..], ls[0].next, end); }
  }

  lemma DroppedEntries(x: Index, e: Entry, n: nat, k: nat, unique: bool)
    requires Good(x, unique) && FirstAt(Leaves(x.tree), e, n, k)
    ensures Entries(Dropped(x, n, k).tree) == RemoveFirst(Entries(x.tree), e)
  {
    var ls := Leaves(x.tree);
    LeafPids(x.tree);
    ChainLeaves(ls, 1, 0);
    DropLeaves(x.tree, ls[n].pid, k);
    DropEntries(ls, e, n, k);
  }

  /** A delete removes the first such entry and nothing else. */
  lemma RemovedGood(x: Index, e: Entry, unique: bool)
    requires Good(x, unique)
    ensures Good(Removed(x, e), unique) && Entries(Removed(x, e).tree) == RemoveFirst(Entries(x.tree), e)
  {
    if e in Entries(x.tree) {
      var n := LeafWith(Leaves(x.tree), e);
      var k := IndexIn(Leaves(x.tree)[n].entries, e);
      DroppedGood(x, n, k, unique);
      DroppedEntries(x, e, n, k, unique);
    } else {
      RemoveNone(Entries(x.tree), e);
    }
  }

  // ----- runs -----

  lemma EmptyGood(unique: bool)
    ensures Good(Empty(), unique) && Entries(Empty().tree) == []
  {
    var t := Leaf(1, [], 0);
    EntriesOne(t);
    ChainOne(t);
    assert Leaves(t) == [t] && Pids(t) == {1};
    assert Holds(Empty().pages, t);
  }

  /** The structural half of Good, which Do needs. */
  ghost function Run(ops: seq<Op>, cap: nat): (x: Index)
    requires cap > 0
    ensures Shaped(x.tree, x.depth)
    decreases |ops|
  {
    if ops == [] then Empty() else
      var x := Run(ops[..|ops| - 1], cap);
      DoShaped(x, ops[|ops| - 1], cap);
      Do(x, ops[|ops| - 1], cap)
  }

  lemma DoShaped(x: Index, op: Op, cap: nat)
    requires cap > 0 && Shaped(x.tree, x.depth)
    ensures var n := Do(x, op, cap); Shaped(n.tree, n.depth)
  {
    match op
    case Remove(e) =>
      if e in Entries(x.tree) {
        var n := LeafWith(Leaves(x.tree), e);
        DropShaped(x.tree, x.depth, Leaves(x.tree)[n].pid, IndexIn(Leaves(x.tree)[n].entries, e));
      }
    case _ =>
      InsertShaped(x.tree, x.depth, op.entry, op.AddDup?, cap, x.free);
  }

  /** What an operation makes of the entries; `sees` says whether a unique insert came upon its key. */
  ghost predicate Does(was: seq<Entry>, op: Op, now: seq<Entry>, sees: bool) {
    match op
    case Put(e) => if sees then Replaced(was, now, e) else Added(was, now, e)
    case AddDup(e) => Added(was, now, e)
    case Remove(e) => now == RemoveFirst(was, e)
  }

  /** Operation n did what it should: a unique insert replaces one entry of its key if and only if the leaf
      it reaches holds one, and otherwise adds its entry. */
  ghost predicate DidStep(ops: seq<Op>, cap: nat, n: nat)
    requires cap > 0 && n < |ops|
  {
    var x, key := Run(ops[..n], cap), ops[n].entry.key;
    Does(Entries(x.tree), ops[n], Entries(Run(ops[..n + 1], cap).tree), Sees(Reached(x.tree, x.depth, key), key))
  }

  lemma DoGood(x: Index, op: Op, cap: nat)
    requires cap > 0 && Good(x, false)
    ensures var n := Do(x, op, cap);
            && Good(n, false)
            && Does(Entries(x.tree), op, Entries(n.tree), Sees(Reached(x.tree, x.depth, op.entry.key), op.entry.key))
  {
    if op.Remove? { RemovedGood(x, op.entry, false); } else { InsertedGood(x, op.entry, op.AddDup?, cap, false); }
  }

  lemma {:induction false} MixedGood(ops: seq<Op>, cap: nat)
    requires cap > 0
    ensures Good(Run(ops, cap), false)
    decreases |ops|
  {
    if ops == [] {
      EmptyGood(false);
    } else {
      MixedGood(ops[..|ops| - 1], cap);
      DoGood(Run(ops[..|ops| - 1], cap), ops[|ops| - 1], cap);
    }
  }

  /** In any mix of unique inserts, duplicate inserts and deletes the tree is well formed at every moment,
      and every operation changes the entries by its own entry only. */
  lemma MixedRuns(ops: seq<Op>, cap: nat, n: nat)
    requires cap > 0 && n < |ops|
    ensures Good(Run(ops[..n], cap), false) && Good(Run(ops[..n + 1], cap), false) && DidStep(ops, cap, n)
  {
    assert ops[..n + 1][..n] == ops[..n];
    MixedGood(ops[..n], cap);
    DoGood(Run(ops[..n], cap), ops[n], cap);
  }

  /** In a sorted leaf the place an insert looks at is the right one. */
  lemma SeesExact(l: Tree, key: int)
    requires l.Leaf? && SortedEntries(l.entries, false)
    ensures Sees(l, key) <==> exists i :: 0 <= i < |l.entries| && l.entries[i].key == key
  {
  }

  /** The contents a run of duplicate inserts and deletes stands for. */
  function Bag(ops: seq<Op>): multiset<Entry>
    decreases |ops|
  {
    if ops == [] then multiset{} else
      var b, op := Bag(ops[..|ops| - 1]), ops[|ops| - 1];
      if op.Remove? then b - multiset{op.entry} else b + multiset{op.entry}
  }

  /** After any run of duplicate inserts and deletes the tree is well formed and holds exactly the live entries. */
  lemma {:induction false} DuplicateRuns(ops: seq<Op>, cap: nat)
    requires cap > 0 && forall i | 0 <= i < |ops| :: !ops[i].Put?
    ensures Good(Run(ops, cap), false) && multiset(Entries(Run(ops, cap).tree)) == Bag(ops)
    decreases |ops|
  {
    if ops == [] {
      EmptyGood(false);
    } else {
      var n := |ops| - 1;
      DuplicateRuns(ops[..n], cap);
      var x, e := Run(ops[..n], cap), ops[n].entry;
      if ops[n].Remove? {
        RemovedGood(x, e, false);
        RemoveMultiset(Entries(x.tree), e);
      } else {
        InsertedGood(x, e, true, cap, false);
        AddedMultiset(Entries(x.tree), Entries(Inserted(x, e, true, cap).tree), e);
      }
    }
  }

  /** The contents a run of unique inserts and deletes stands for. */
  function Dictionary(ops: seq<Op>): map<int, int>
    decreases |ops|
  {
    if ops == [] then map[] else
      var m, op := Dictionary(ops[..|ops| - 1]), ops[|ops| - 1];
      if !op.Remove? then m[op.entry.key := op.entry.val]
      else if op.entry.key in m && m[op.entry.key] == op.entry.val then m - {op.entry.key} else m
  }

  ghost predicate IsMap(es: seq<Entry>, m: map<int, int>) {
    forall x: Entry :: x in es <==> x.key in m && m[x.key] == x.val
  }

  lemma {:induction false} RemoveUnique(es: seq<Entry>, e: Entry, x: Entry)
    requires SortedEntries(es, true)
    ensures x in RemoveFirst(es, e) <==> x in es && x != e
  {
    if es != [] {
      assert es == [es[0]] + es[1..];
      if es[0] == e {
        assert forall i | 0 < i < |es| :: es[i] != e;
      } else {
        RemoveUnique(es[1..], e, x);
      }
    }
  }

  lemma MapPut(was: seq<Entry>, now: seq<Entry>, e: Entry, m: map<int, int>)
    requires IsMap(was, m) && SortedEntries(now, true) && (Added(was, now, e) || Replaced(was, now, e))
    ensures IsMap(now, m[e.key := e.val])
  {
    forall y: Entry
      ensures y in now <==> y == e || (y.key != e.key && y in was)
    {
      UniqueUpdate(was, now, e, y);
    }
  }

  lemma MapRemove(es: seq<Entry>, e: Entry, m: map<int, int>)
    requires IsMap(es, m) && SortedEntries(es, true)
    ensures IsMap(RemoveFirst(es, e), if e.key in m && m[e.key] == e.val then m - {e.key} else m)
  {
    assert e in es <==> e.key in m && m[e.key] == e.val;
    forall y: Entry
      ensures y in RemoveFirst(es, e) <==> y in es && y != e
    {
      RemoveUnique(es, e, y);
    }
  }

  /** After any run of unique inserts and deletes the keys are distinct and the tree is the map of last values
      written. */
  lemma {:induction false} UniqueRuns(ops: seq<Op>, cap: nat)
    requires cap > 0 && forall i | 0 <= i < |ops| :: !ops[i].AddDup?
    ensures Good(Run(ops, cap), true) && IsMap(Entries(Run(ops, cap).tree), Dictionary(ops))
    decreases |ops|
  {
    if ops == [] {
      EmptyGood(true);
    } else {
      var n := |ops| - 1;
      UniqueRuns(ops[..n], cap);
      UniqueStep(Run(ops[..n], cap), ops[n], cap, Dictionary(ops[..n]));
    }
  }

  lemma UniqueStep(x: Index, op: Op, cap: nat, m: map<int, int>)
    requires cap > 0 && Good(x, true) && IsMap(Entries(x.tree), m) && !op.AddDup?
    ensures Good(Do(x, op, cap), true)
    ensures IsMap(Entries(Do(x, op, cap).tree),
                  if !op.Remove? then m[op.entry.key := op.entry.val]
                  else if op.entry.key in m && m[op.entry.key] == op.entry.val then m - {op.entry.key} else m)
  {
    var e := op.entry;
    if op.Remove? {
      RemovedGood(x, e, true);
      EntriesGood(x.tree, None, None, true);
      MapRemove(Entries(x.tree), e, m);
    } else {
      InsertedGood(x, e, false, cap, true);
      MapPut(Entries(x.tree), Entries(Inserted(x, e, false, cap).tree), e, m);
    }
  }

  // ----- no page overflows -----

  /** Every node fits its page. */
  ghost predicate Capped(t: Tree, cap: nat) {
    match t
    case Leaf(_, es, _) => |es| <= cap
    case Inner(_, keys, kids) => |keys| <= cap && forall i | 0 <= i < |kids| :: Capped(kids[i], cap)
  }

  ghost predicate CappedGrown(g: Grown, cap: nat) {
    match g
    case Fit(t) => Capped(t, cap)
    case Split(l, _, r) => Capped(l, cap) && Capped(r, cap)
  }

  /** A node with one more than fits, over children that fit, is split into two that fit. */
  lemma HalveCapped(t: Tree, cap: nat, f: nat)
    requires cap > 0 && (t.Inner? ==> |t.kids| == |t.keys| + 1)
    requires if t.Leaf? then |t.entries| <= cap + 1
             else |t.keys| <= cap + 1 && forall i | 0 <= i < |t.kids| :: Capped(t.kids[i], cap)
    ensures CappedGrown(Halve(t, cap, f).0, cap)
  {
  }

  lemma GraftCapped(t: Tree, i: nat, g: Grown, cap: nat)
    requires t.Inner? && i < |t.kids| == |t.keys| + 1 && Capped(t, cap) && CappedGrown(g, cap)
    ensures var r := Graft(t, i, g); |r.keys| <= cap + 1 && forall j | 0 <= j < |r.kids| :: Capped(r.kids[j], cap)
  {
  }

  lemma {:induction false} InsertCapped(t: Tree, d: nat, e: Entry, dup: bool, cap: nat, f: nat)
    requires cap > 0 && Shaped(t, d) && Capped(t, cap)
    ensures CappedGrown(Insert(t, d, e, dup, cap, f).0, cap)
    decreases d
  {
    if t.Leaf? {
      HalveCapped(LeafPut(t, e, dup), cap, f);
    } else {
      var i := Route(t.keys, e.key);
      var r := Insert(t.kids[i], d - 1, e, dup, cap, f);
      InsertCapped(t.kids[i], d - 1, e, dup, cap, f);
      GraftCapped(t, i, r.0, cap);
      HalveCapped(Graft(t, i, r.0), cap, r.1);
    }
  }

  lemma {:induction false} DropCapped(t: Tree, pid: nat, k: nat, cap: nat)
    requires Capped(t, cap)
    ensures Capped(Drop(t, pid, k), cap)
  {
    if t.Inner? {
      forall i | 0 <= i < |t.kids|
        ensures Capped(Drop(t.kids[i], pid, k), cap)
      {
        DropCapped(t.kids[i], pid, k, cap);
      }
    }
  }

  lemma DoCapped(x: Index, op: Op, cap: nat)
    requires cap > 0 && Shaped(x.tree, x.depth) && Capped(x.tree, cap)
    ensures Capped(Do(x, op, cap).tree, cap)
  {
    match op
    case Remove(e) =>
      if e in Entries(x.tree) {
        var n := LeafWith(Leaves(x.tree), e);
        DropCapped(x.tree, Leaves(x.tree)[n].pid, IndexIn(Leaves(x.tree)[n].entries, e), cap);
      }
    case _ => InsertCapped(x.tree, x.depth, op.entry, op.AddDup?, cap, x.free);
  }

  /** Over every run, of any mix of inserts and deletes, no node outgrows its page. */
  lemma {:induction false} RunCapped(ops: seq<Op>, cap: nat)
    requires cap > 0
    ensures Capped(Run(ops, cap).tree, cap)
    decreases |ops|
  {
    if ops != [] {
      RunCapped(ops[..|ops| - 1], cap);
      DoCapped(Run(ops[..|ops| - 1], cap), ops[|ops| - 1], cap);
    }
  }
}
