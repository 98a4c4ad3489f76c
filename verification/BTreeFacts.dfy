/** What the tree of src/btree.c keeps: entries in order, the leaf chain, and its pages. */
module BTreeFacts {
  import opened Wrappers
  import opened Keys
  import opened BTree

  // ----- entries -----

  lemma {:induction false} EntriesJoin(a: seq<Tree>, b: seq<Tree>)
    ensures EntriesOf(a + b) == EntriesOf(a) + EntriesOf(b)
    decreases |a|
  {
    if a == [] {
      assert a + b == b;
    } else {
      assert (a + b)[1..] == a[1..] + b;
      EntriesJoin(a[1..], b);
    }
  }

  lemma EntriesOne(l: Tree)
    requires l.Leaf?
    ensures EntriesOf([l]) == l.entries
  {
    assert [l][1..] == [] && l.entries + [] == l.entries;
  }

  /** Everything of a comes before everything of b. */
  ghost predicate Precedes(a: seq<Entry>, b: seq<Entry>, strict: bool) {
    forall i, j | 0 <= i < |a| && 0 <= j < |b| :: a[i].key < b[j].key || (!strict && a[i].key == b[j].key)
  }

  lemma JoinSorted(a: seq<Entry>, b: seq<Entry>, strict: bool)
    requires SortedEntries(a, strict) && SortedEntries(b, strict) && Precedes(a, b, strict)
    ensures SortedEntries(a + b, strict)
  {
  }

  lemma JoinWithin(a: seq<Entry>, b: seq<Entry>, lo: Option<int>, hi: Option<int>, strict: bool)
    requires EntriesWithin(a, lo, hi, strict) && EntriesWithin(b, lo, hi, strict)
    ensures EntriesWithin(a + b, lo, hi, strict)
  {
  }

  lemma Widen(es: seq<Entry>, lo: Option<int>, hi: Option<int>, lo2: Option<int>, hi2: Option<int>, strict: bool)
    requires EntriesWithin(es, lo, hi, strict)
    requires lo2.None? || (lo.Some? && lo2.value <= lo.value)
    requires hi2.None? || (hi.Some? && hi.value <= hi2.value)
    ensures EntriesWithin(es, lo2, hi2, strict)
  {
  }

  lemma Divides(a: seq<Entry>, b: seq<Entry>, s: int, strict: bool)
    requires EntriesWithin(a, None, Some(s), strict) && EntriesWithin(b, Some(s), None, strict)
    ensures Precedes(a, b, strict)
  {
  }

  /** The entries of the first n children. */
  function Upto(t: Tree, n: nat): seq<Entry>
    requires t.Inner? && n <= |t.kids|
  {
    EntriesOf(LeavesOfAll(t.kids[..n]))
  }

  lemma UptoStep(t: Tree, n: nat)
    requires t.Inner? && n < |t.kids|
    ensures Upto(t, n + 1) == Upto(t, n) + Entries(t.kids[n])
  {
    assert t.kids[..n + 1] == t.kids[..n] + [t.kids[n]];
    LeavesJoin(t.kids[..n], [t.kids[n]]);
    LeavesOne(t.kids[n]);
    EntriesJoin(LeavesOfAll(t.kids[..n]), Leaves(t.kids[n]));
  }

  lemma UptoAll(t: Tree)
    requires t.Inner?
    ensures Upto(t, |t.kids|) == Entries(t)
  {
    assert t.kids[..|t.kids|] == t.kids;
    LeavesInner(t);
  }

  ghost predicate GoodEntries(es: seq<Entry>, lo: Option<int>, hi: Option<int>, strict: bool) {
    SortedEntries(es, strict) && EntriesWithin(es, lo, hi, strict)
  }

  lemma BoundsAt(t: Tree, i: nat, lo: Option<int>, hi: Option<int>, strict: bool)
    requires t.Inner? && Ordered(t, lo, hi, strict) && i <= |t.keys|
    ensures var a, b := LoAt(t.keys, i, lo), HiAt(t.keys, i, hi);
            && (lo.Some? ==> a.Some? && lo.value <= a.value) && (hi.Some? ==> b.Some? && b.value <= hi.value)
  {
  }

  lemma GoodJoin(a: seq<Entry>, b: seq<Entry>, lo: Option<int>, s: int, hi: Option<int>, strict: bool)
    requires GoodEntries(a, lo, Some(s), strict) && GoodEntries(b, Some(s), hi, strict)
    requires (lo.None? || lo.value <= s) && (hi.None? || s <= hi.value)
    ensures GoodEntries(a + b, lo, hi, strict)
  {
    Widen(a, lo, Some(s), None, Some(s), strict);
    Widen(b, Some(s), hi, Some(s), None, strict);
    Divides(a, b, s, strict);
    JoinSorted(a, b, strict);
    Widen(a, lo, Some(s), lo, hi, strict);
    Widen(b, Some(s), hi, lo, hi, strict);
    JoinWithin(a, b, lo, hi, strict);
  }

  /** The entries of an ordered tree are sorted and lie between its bounds. */
  lemma {:induction false} EntriesGood(t: Tree, lo: Option<int>, hi: Option<int>, strict: bool)
    requires Ordered(t, lo, hi, strict)
    ensures GoodEntries(Entries(t), lo, hi, strict)
    decreases t, 1
  {
    if t.Leaf? {
      EntriesOne(t);
    } else {
      UptoGood(t, |t.kids|, lo, hi, strict);
      UptoAll(t);
    }
  }

  lemma {:induction false} UptoGood(t: Tree, n: nat, lo: Option<int>, hi: Option<int>, strict: bool)
    requires t.Inner? && Ordered(t, lo, hi, strict) && 0 < n <= |t.kids|
    ensures GoodEntries(Upto(t, n), lo, HiAt(t.keys, n - 1, hi), strict)
    decreases t, 0, n
  {
    var k := n - 1;
    UptoStep(t, k);
    assert Ordered(t.kids[k], LoAt(t.keys, k, lo), HiAt(t.keys, k, hi), strict);
    EntriesGood(t.kids[k], LoAt(t.keys, k, lo), HiAt(t.keys, k, hi), strict);
    if k == 0 {
      assert t.kids[..0] == [] && Upto(t, 0) == [];
    } else {
      UptoGood(t, k, lo, hi, strict);
      BoundsAt(t, k, lo, hi, strict);
      GoodJoin(Upto(t, k), Entries(t.kids[k]), lo, t.keys[k - 1], HiAt(t.keys, k, hi), strict);
    }
  }

  // ----- what an insert does to the entries -----

  lemma HalveEntries(l: Tree, cap: nat, f: nat)
    requires l.Leaf? && cap > 0
    ensures EntriesOf(LeavesGrown(Halve(l, cap, f).0)) == l.entries
  {
    var g := Halve(l, cap, f).0;
    if g.Fit? {
      EntriesOne(l);
    } else {
      EntriesJoin([g.left], [g.right]);
      EntriesOne(g.left);
      EntriesOne(g.right);
    }
  }

  lemma AroundEntries(a: seq<Tree>, m: seq<Tree>, b: seq<Tree>)
    ensures EntriesOf(a + m + b) == EntriesOf(a) + EntriesOf(m) + EntriesOf(b)
  {
    EntriesJoin(a + m, b);
    EntriesJoin(a, m);
  }

  /** The entries before and after an insert: one was added, or one of the same key was replaced. */
  ghost predicate Added(was: seq<Entry>, now: seq<Entry>, e: Entry) {
    exists i :: 0 <= i <= |was| && now == was[..i] + [e] + was[i..]
  }

  ghost predicate Replaced(was: seq<Entry>, now: seq<Entry>, e: Entry) {
    exists i :: 0 <= i < |was| && was[i].key == e.key && now == was[i := e]
  }

  lemma PutAround(a: seq<Entry>, l: Tree, b: seq<Entry>, e: Entry, dup: bool)
    requires l.Leaf?
    ensures var was, now := a + l.entries + b, a + LeafPut(l, e, dup).entries + b;
            if !dup && Sees(l, e.key) then Replaced(was, now, e) else Added(was, now, e)
  {
    var es, i := l.entries, LowerPos(l.entries, e.key);
    var was, now, k := a + es + b, a + LeafPut(l, e, dup).entries + b, |a| + i;
    if !dup && i < |es| && es[i].key == e.key {
      assert was[k].key == e.key && now == was[k := e];
    } else {
      assert was[..k] == a + es[..i] && was[k..] == es[i..] + b;
      assert now == was[..k] + [e] + was[k..];
    }
  }

  lemma InsertEntries(t: Tree, d: nat, e: Entry, dup: bool, cap: nat, f: nat)
    requires cap > 0 && Shaped(t, d)
    ensures var was, now := Entries(t), EntriesOf(LeavesGrown(Insert(t, d, e, dup, cap, f).0));
            if !dup && Sees(Reached(t, d, e.key), e.key) then Replaced(was, now, e) else Added(was, now, e)
  {
    var a, l, b := InsertLeaves(t, d, e, dup, cap, f);
    AroundEntries(a, [l], b);
    AroundEntries(a, LeavesGrown(Halve(LeafPut(l, e, dup), cap, f).0), b);
    EntriesOne(l);
    HalveEntries(LeafPut(l, e, dup), cap, f);
    PutAround(EntriesOf(a), l, EntriesOf(b), e, dup);
  }

  lemma RootLeaves(t: Tree, d: nat, e: Entry, dup: bool, cap: nat, f: nat)
    requires cap > 0 && Shaped(t, d)
    ensures Leaves(InsertRoot(t, d, e, dup, cap, f).0) == LeavesGrown(Insert(t, d, e, dup, cap, f).0)
  {
    var (g, f1) := Insert(t, d, e, dup, cap, f);
    if g.Split? {
      LeavesInner(Inner(f1, [g.sep], [g.left, g.right]));
      LeavesTwo(g.left, g.right);
    }
  }

  /** A duplicate insert adds exactly its entry, wherever the equal keys are. */
  lemma AddedMultiset(was: seq<Entry>, now: seq<Entry>, e: Entry)
    requires Added(was, now, e)
    ensures multiset(now) == multiset(was) + multiset{e}
  {
    var i :| 0 <= i <= |was| && now == was[..i] + [e] + was[i..];
    assert was == was[..i] + was[i..];
  }

  /** With distinct keys, an insert is a map update. */
  lemma UniqueUpdate(was: seq<Entry>, now: seq<Entry>, e: Entry, x: Entry)
    requires SortedEntries(now, true) && (Added(was, now, e) || Replaced(was, now, e))
    ensures x in now <==> x == e || (x.key != e.key && x in was)
  {
    if Added(was, now, e) {
      var i :| 0 <= i <= |was| && now == was[..i] + [e] + was[i..];
      assert was == was[..i] + was[i..] && now[i] == e;
      assert forall j | 0 <= j < |now| && j != i :: now[j].key != e.key;
    } else {
      var i :| 0 <= i < |was| && was[i].key == e.key && now == was[i := e];
      assert now[i] == e;
      assert forall j | 0 <= j < |now| && j != i :: now[j] == was[j] && now[j].key != e.key;
    }
  }

  // ----- the leaf chain -----

  /** From page `start`, each leaf points to the next one and the last to `end`. */
  ghost predicate Chained(ls: seq<Tree>, start: nat, end: nat)
    decreases |ls|
  {
    if ls == [] then start == end else ls[0].Leaf? && ls[0].pid == start && Chained(ls[1..], ls[0].next, end)
  }

  /** The page the chain goes on to after these leaves. */
  function After(ls: seq<Tree>, start: nat): nat
    decreases |ls|
  {
    if ls == [] then start else After(ls[1..], if ls[0].Leaf? then ls[0].next else start)
  }

  lemma {:induction false} ChainJoin(a: seq<Tree>, b: seq<Tree>, start: nat, end: nat)
    ensures Chained(a + b, start, end) <==> Chained(a, start, After(a, start)) && Chained(b, After(a, start), end)
    ensures After(a + b, start) == After(b, After(a, start))
    decreases |a|
  {
    if a == [] {
      assert a + b == b;
    } else {
      assert (a + b)[1..] == a[1..] + b;
      ChainJoin(a[1..], b, if a[0].Leaf? then a[0].next else start, end);
    }
  }

  /** Replacing a leaf by itself with other entries, or by two halves, keeps the chain. */
  lemma ChainKept(a: seq<Tree>, l: Tree, b: seq<Tree>, start: nat, end: nat, m: seq<Tree>)
    requires l.Leaf? && Chained(a + [l] + b, start, end) && Chained(m, l.pid, l.next)
    ensures Chained(a + m + b, start, end)
  {
    ChainOne(l);
    ChainJoin(a + [l], b, start, end);
    ChainJoin(a, [l], start, After(a + [l], start));
    ChainEnds(m, l.pid, l.next);
    ChainJoin(a, m, start, l.next);
    ChainJoin(a + m, b, start, end);
  }

  lemma ChainOne(l: Tree)
    requires l.Leaf?
    ensures Chained([l], l.pid, l.next) && forall start: nat :: After([l], start) == l.next
    ensures forall start: nat, end: nat | Chained([l], start, end) :: start == l.pid && end == l.next
  {
    assert [l][1..] == [];
  }

  lemma {:induction false} ChainEnds(m: seq<Tree>, start: nat, end: nat)
    requires Chained(m, start, end)
    ensures After(m, start) == end
    decreases |m|
  {
    if m != [] { ChainEnds(m[1..], m[0].next, end); }
  }

  lemma HalveChain(l: Tree, cap: nat, f: nat)
    requires l.Leaf? && cap > 0
    ensures Chained(LeavesGrown(Halve(l, cap, f).0), l.pid, l.next)
  {
    var g := Halve(l, cap, f).0;
    if g.Split? {
      ChainOne(g.left);
      ChainOne(g.right);
      ChainJoin([g.left], [g.right], l.pid, l.next);
    } else {
      ChainOne(l);
    }
  }

  /** After an insert the chain is again exactly the leaves from left to right. */
  lemma InsertChained(t: Tree, d: nat, e: Entry, dup: bool, cap: nat, f: nat, start: nat, end: nat)
    requires cap > 0 && Shaped(t, d) && Chained(Leaves(t), start, end)
    ensures Chained(LeavesGrown(Insert(t, d, e, dup, cap, f).0), start, end)
  {
    var a, l, b := InsertLeaves(t, d, e, dup, cap, f);
    HalveChain(LeafPut(l, e, dup), cap, f);
    ChainKept(a, l, b, start, end, LeavesGrown(Halve(LeafPut(l, e, dup), cap, f).0));
  }
}
