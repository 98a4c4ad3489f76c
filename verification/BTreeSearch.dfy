/** Why the descents and leaf walks of src/btree.c find what they look for. */
module BTreeSearch {
  import opened Wrappers
  import opened Keys
  import opened BTree
  import opened BTreeFacts
  import opened BTreePages
  import opened BTreeRuns

  // ----- descents -----

  function Left(t: Tree, i: nat): seq<Tree>
    requires t.Inner? && i < |t.kids|
  {
    LeavesOfAll(t.kids[..i])
  }

  function Right(t: Tree, i: nat): seq<Tree>
    requires t.Inner? && i < |t.kids|
  {
    LeavesOfAll(t.kids[i + 1..])
  }

  lemma {:induction false} FromGood(t: Tree, n: nat, lo: Option<int>, hi: Option<int>, strict: bool)
    requires t.Inner? && Ordered(t, lo, hi, strict) && n < |t.kids|
    ensures GoodEntries(EntriesOf(LeavesOfAll(t.kids[n..])), LoAt(t.keys, n, lo), hi, strict)
    decreases |t.kids| - n
  {
    var a, b := LoAt(t.keys, n, lo), HiAt(t.keys, n, hi);
    assert t.kids[n..] == [t.kids[n]] + t.kids[n + 1..];
    LeavesJoin([t.kids[n]], t.kids[n + 1..]);
    LeavesOne(t.kids[n]);
    EntriesJoin(Leaves(t.kids[n]), LeavesOfAll(t.kids[n + 1..]));
    EntriesGood(t.kids[n], a, b, strict);
    if n + 1 < |t.kids| {
      FromGood(t, n + 1, lo, hi, strict);
      BoundsAt(t, n, lo, hi, strict);
      GoodJoin(Entries(t.kids[n]), EntriesOf(LeavesOfAll(t.kids[n + 1..])), a, t.keys[n], hi, strict);
    } else {
      assert t.kids[n + 1..] == [] && LeavesOfAll([]) == [];
    }
  }

  ghost predicate AllLess(es: seq<Entry>, key: int) {
    forall i | 0 <= i < |es| :: es[i].key < key
  }

  ghost predicate AllMore(es: seq<Entry>, key: int) {
    forall i | 0 <= i < |es| :: es[i].key > key
  }

  /** Left of the child chosen for all duplicates there are only smaller keys. */
  lemma LeftIsLess(t: Tree, key: int, lo: Option<int>, hi: Option<int>, strict: bool)
    requires t.Inner? && Ordered(t, lo, hi, strict)
    ensures AllLess(EntriesOf(Left(t, RouteLeft(t.keys, key))), key)
  {
    var i := RouteLeft(t.keys, key);
    if i == 0 {
      assert t.kids[..0] == [] && LeavesOfAll([]) == [];
    } else {
      UptoGood(t, i, lo, hi, strict);
    }
  }

  /** In a tree without duplicates the key is nowhere but in the child a search descends to. */
  lemma OnlyInChild(t: Tree, key: int, lo: Option<int>, hi: Option<int>, e: Entry)
    requires t.Inner? && Ordered(t, lo, hi, true) && e.key == key
    ensures e in Entries(t) <==> e in Entries(t.kids[Route(t.keys, key)])
  {
    var i := Route(t.keys, key);
    LeavesAround(t, i);
    AroundEntries(Left(t, i), Leaves(t.kids[i]), Right(t, i));
    LeftBelow(t, i, lo, hi, key);
    RightAbove(t, i, lo, hi, key);
  }

  lemma LeftBelow(t: Tree, i: nat, lo: Option<int>, hi: Option<int>, key: int)
    requires t.Inner? && Ordered(t, lo, hi, true) && i < |t.kids| && (i > 0 ==> t.keys[i - 1] <= key)
    ensures AllLess(EntriesOf(Left(t, i)), key)
  {
    if i == 0 {
      assert t.kids[..0] == [] && LeavesOfAll([]) == [];
    } else {
      UptoGood(t, i, lo, hi, true);
    }
  }

  lemma RightAbove(t: Tree, i: nat, lo: Option<int>, hi: Option<int>, key: int)
    requires t.Inner? && Ordered(t, lo, hi, true) && i < |t.kids| && (i < |t.keys| ==> key < t.keys[i])
    ensures AllMore(EntriesOf(Right(t, i)), key)
  {
    if i == |t.keys| {
      assert t.kids[i + 1..] == [] && LeavesOfAll([]) == [];
    } else {
      FromGood(t, i + 1, lo, hi, true);
    }
  }

  // ----- matching entries -----

  /** The values of a key, in order. */
  function Matches(es: seq<Entry>, key: int): seq<int>
    decreases |es|
  {
    if es == [] then [] else (if es[0].key == key then [es[0].val] else []) + Matches(es[1..], key)
  }

  lemma Assoc(a: seq<int>, b: seq<int>, c: seq<int>)
    ensures a + (b + c) == (a + b) + c
  {
  }

  lemma {:induction false} MatchesJoin(a: seq<Entry>, b: seq<Entry>, key: int)
    ensures Matches(a + b, key) == Matches(a, key) + Matches(b, key)
    decreases |a|
  {
    if a == [] {
      assert a + b == b;
    } else {
      var head := if a[0].key == key then [a[0].val] else [];
      MatchesJoin(a[1..], b, key);
      assert (a + b)[1..] == a[1..] + b;
      assert Matches(a + b, key) == head + Matches(a[1..] + b, key);
      assert Matches(a, key) == head + Matches(a[1..], key);
      Assoc(head, Matches(a[1..], key), Matches(b, key));
    }
  }

  lemma {:induction false} MatchesNone(es: seq<Entry>, key: int)
    requires AllLess(es, key) || AllMore(es, key)
    ensures Matches(es, key) == []
    decreases |es|
  {
    if es != [] { MatchesNone(es[1..], key); }
  }

  /** A value is matched as often as its entry is there. */
  lemma {:induction false} MatchesExact(es: seq<Entry>, key: int, v: int)
    ensures multiset(Matches(es, key))[v] == multiset(es)[Entry(key, v)]
    decreases |es|
  {
    if es != [] {
      MatchesExact(es[1..], key, v);
      assert es == [es[0]] + es[1..];
    }
  }

  // ----- walking the chain -----

  /** The walk stands before leaf n, at its page. */
  ghost predicate AtLeaf(t: Tree, n: nat, pid: nat) {
    n <= |Leaves(t)| && Chained(Leaves(t)[n..], pid, 0)
  }

  lemma StartWalk(t: Tree, a: seq<Tree>, l: Tree, b: seq<Tree>)
    requires Chained(Leaves(t), 1, 0) && Leaves(t) == a + [l] + b
    ensures AtLeaf(t, |a|, l.pid)
  {
    var ls := Leaves(t);
    assert ls == ls[..|a|] + ls[|a|..] && ls[|a|..][0] == l;
    ChainJoin(ls[..|a|], ls[|a|..], 1, 0);
  }

  /** What is on the page the walk stands at, and where it goes from there. */
  lemma StepWalk(x: Index, unique: bool, n: nat, pid: nat)
    requires Good(x, unique) && AtLeaf(x.tree, n, pid)
    ensures pid == 0 <==> n == |Leaves(x.tree)|
    ensures n < |Leaves(x.tree)| ==>
              var l := Leaves(x.tree)[n];
              && l.Leaf? && l.pid == pid && pid in x.pages && x.pages[pid] == LeafNode(l.entries, l.next)
              && AtLeaf(x.tree, n + 1, l.next)
  {
    var ls := Leaves(x.tree);
    if n < |ls| {
      assert ls[n..][1..] == ls[n + 1..];
      LeafHeldAt(x.pages, x.tree, n);
      LeafPids(x.tree);
    }
  }

  /** The entries up to leaf n, its own, and those after it. */
  lemma EntriesAt(ls: seq<Tree>, n: nat)
    requires n < |ls| && ls[n].Leaf?
    ensures EntriesOf(ls) == EntriesOf(ls[..n]) + ls[n].entries + EntriesOf(ls[n + 1..])
    ensures EntriesOf(ls[..n + 1]) == EntriesOf(ls[..n]) + ls[n].entries
  {
    assert ls == ls[..n] + [ls[n]] + ls[n + 1..];
    AroundEntries(ls[..n], [ls[n]], ls[n + 1..]);
    EntriesOne(ls[n]);
    assert ls[..n + 1] == ls[..n] + [ls[n]];
    EntriesJoin(ls[..n], [ls[n]]);
  }

  /** Once a larger key is seen, everything after it is larger too. */
  lemma RestIsMore(a: seq<Entry>, es: seq<Entry>, b: seq<Entry>, i: nat, key: int)
    requires SortedEntries(a + es + b, false) && i < |es| && es[i].key > key
    ensures AllMore(es[i..] + b, key)
  {
    var all, k := a + es + b, |a| + i;
    assert all[k] == es[i];
    forall j | 0 <= j < |es[i..] + b|
      ensures (es[i..] + b)[j].key > key
    {
      assert (es[i..] + b)[j] == all[k + j];
    }
  }

  lemma StopMatches(a: seq<Entry>, es: seq<Entry>, b: seq<Entry>, i: nat, key: int)
    requires SortedEntries(a + es + b, false) && i < |es| && es[i].key > key
    ensures Matches(a + es + b, key) == Matches(a, key) + Matches(es[..i], key)
  {
    RestIsMore(a, es, b, i, key);
    MatchesNone(es[i..] + b, key);
    assert a + es + b == a + es[..i] + (es[i..] + b);
    MatchesJoin(a + es[..i], es[i..] + b, key);
    MatchesJoin(a, es[..i], key);
  }

  lemma SortedRelaxed(es: seq<Entry>, unique: bool)
    requires SortedEntries(es, unique)
    ensures SortedEntries(es, false)
  {
  }

  lemma GoodSorted(x: Index, unique: bool)
    requires Good(x, unique)
    ensures SortedEntries(Entries(x.tree), false)
  {
    EntriesGood(x.tree, None, None, unique);
    SortedRelaxed(Entries(x.tree), unique);
  }

  lemma NotAfterStop(a: seq<Entry>, es: seq<Entry>, b: seq<Entry>, i: nat, e: Entry)
    requires SortedEntries(a + es + b, false) && i < |es| && es[i].key > e.key && e !in a && e !in es[..i]
    ensures e !in a + es + b
  {
    RestIsMore(a, es, b, i, e.key);
    assert a + es + b == a + es[..i] + (es[i..] + b);
  }

  /** The place found by the walk is where a delete removes. */
  lemma PlaceIsFirst(ls: seq<Tree>, e: Entry, n: nat, k: nat)
    requires FirstAt(ls, e, n, k)
    ensures e in EntriesOf(ls) && LeafWith(ls, e) == n && IndexIn(ls[n].entries, e) == k
  {
    EntriesAt(ls, n);
    assert ls[n].entries[k] in EntriesOf(ls);
    var m := LeafWith(ls, e);
    if m < n {
      EarlierHas(ls, m, n, e);
    } else if n < m {
      EarlierHas(ls, n, m, e);
    }
  }

  lemma EarlierHas(ls: seq<Tree>, m: nat, n: nat, e: Entry)
    requires m < n <= |ls| && ls[m].Leaf? && e in ls[m].entries
    ensures e in EntriesOf(ls[..n])
  {
    EntriesAt(ls[..n], m);
  }
}
