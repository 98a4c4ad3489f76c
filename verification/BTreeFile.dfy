/** The B+Tree over its page store (src/btree.c): recursive inserts, descents and walks along
    the leaf chain, all reading and writing nodes by page number. */
module BTreeFile {
  import opened Wrappers
  import opened Keys
  import opened BTree
  import opened BTreeFacts
  import opened BTreePages
  import opened BTreeRuns
  import opened BTreeSearch

  // ----- positions inside a node -----

  method FindSlot(es: seq<Entry>, key: int) returns (i: nat)
    ensures i == LowerPos(es, key)
  {
    i := 0;
    while i < |es| && es[i].key < key
      invariant i <= |es| && LowerPos(es, key) == i + LowerPos(es[i..], key)
    {
      assert es[i..][1..] == es[i + 1..];
      i := i + 1;
    }
  }

  method FindChild(keys: seq<int>, key: int) returns (i: nat)
    ensures i == Route(keys, key)
  {
    i := 0;
    while i < |keys| && key >= keys[i]
      invariant i <= |keys| && Route(keys, key) == i + Route(keys[i..], key)
    {
      assert keys[i..][1..] == keys[i + 1..];
      i := i + 1;
    }
  }

  method FindChildLeft(keys: seq<int>, key: int) returns (i: nat)
    ensures i == RouteLeft(keys, key)
  {
    i := 0;
    while i < |keys| && key > keys[i]
      invariant i <= |keys| && RouteLeft(keys, key) == i + RouteLeft(keys[i..], key)
    {
      assert keys[i..][1..] == keys[i + 1..];
      i := i + 1;
    }
  }

  // ----- nodes and pages -----

  lemma GraftNode(t: Tree, i: nat, g: Grown)
    requires t.Inner? && i < |t.kids| == |t.keys| + 1 && TopPid(g) == t.kids[i].pid
    ensures var ch := PidsIn(t.kids);
            NodeOf(Graft(t, i, g)) ==
            if g.Fit? then NodeOf(t)
            else InnerNode(t.keys[..i] + [g.sep] + t.keys[i..], ch[..i + 1] + [g.right.pid] + ch[i + 1..])
  {
    var ch, r := PidsIn(t.kids), Graft(t, i, g);
    if g.Fit? {
      assert PidsIn(r.kids) == ch;
    } else {
      assert PidsIn(r.kids) == ch[..i + 1] + [g.right.pid] + ch[i + 1..];
    }
  }

  lemma HalveNode(t: Tree, cap: nat, f: nat)
    requires t.Inner? && |t.kids| == |t.keys| + 1 && cap > 0 && |t.keys| > cap
    ensures var g, ch, mid := Halve(t, cap, f).0, PidsIn(t.kids), |t.keys| / 2;
            && NodeOf(g.left) == InnerNode(t.keys[..mid], ch[..mid + 1])
            && NodeOf(g.right) == InnerNode(t.keys[mid + 1..], ch[mid + 1..])
  {
    var g, ch, mid := Halve(t, cap, f).0, PidsIn(t.kids), |t.keys| / 2;
    assert PidsIn(g.left.kids) == ch[..mid + 1] && PidsIn(g.right.kids) == ch[mid + 1..];
  }

  lemma ChildInserted(pages: map<nat, Node>, t: Tree, d: nat, e: Entry, dup: bool, cap: nat, f: nat)
    requires cap > 0 && Shaped(t, d) && t.Inner? && InStore(pages, t, f)
    ensures var k := t.kids[Route(t.keys, e.key)]; var b := Stored(pages, k, d - 1, e, dup, cap, f);
            InStore(pages, k, f) && t.pid in b && b[t.pid] == NodeOf(t)
                && TopPid(Insert(k, d - 1, e, dup, cap, f).0) == k.pid
  {
    var i := Route(t.keys, e.key);
    KidInStore(pages, t, f, i);
    assert t.pid in pages && pages[t.pid] == NodeOf(t) && t.pid !in Pids(t.kids[i]) && t.pid < f;
    OutsideKept(pages, t.kids[i], d - 1, e, dup, cap, f, t.pid);
    TopKept(pages, t.kids[i], d - 1, e, dup, cap, f);
  }

  /** An insertion keeps the pages outside its tree. */
  lemma OutsideKept(pages: map<nat, Node>, t: Tree, d: nat, e: Entry, dup: bool, cap: nat, f: nat, p: nat)
    requires cap > 0 && Shaped(t, d) && InStore(pages, t, f) && p in pages && p !in Pids(t) && p < f
    ensures var b := Stored(pages, t, d, e, dup, cap, f);
            p in b && b[p] == pages[p]
  {
    InsertStored(pages, t, d, e, dup, cap, f);
    assert InsertOk(pages, t, d, e, dup, cap, f);
  }

  lemma ChildSplits(pages: map<nat, Node>, t: Tree, d: nat, e: Entry, dup: bool, cap: nat, f: nat)
    requires cap > 0 && Shaped(t, d) && t.Inner?
    ensures var i := Route(t.keys, e.key); var c := Insert(t.kids[i], d - 1, e, dup, cap, f);
            var h := Halve(Graft(t, i, c.0), cap, c.1);
            && Insert(t, d, e, dup, cap, f) == h
            && Stored(pages, t, d, e, dup, cap, f) == WriteGrown(Stored(pages, t.kids[i], d - 1, e, dup, cap, f), h.0)
  {
  }

  /** When the child is not split, the node stays as it is. */
  lemma ChildFits(pages: map<nat, Node>, t: Tree, d: nat, e: Entry, dup: bool, cap: nat, f: nat)
    requires cap > 0 && Shaped(t, d) && t.Inner? && InStore(pages, t, f) && Capped(t, cap)
    requires Insert(t.kids[Route(t.keys, e.key)], d - 1, e, dup, cap, f).0.Fit?
    ensures var k := t.kids[Route(t.keys, e.key)]; var r, c := Insert(t, d, e, dup, cap, f),
            Insert(k, d - 1, e, dup, cap, f);
            r.0.Fit? && r.1 == c.1 && Stored(pages, t, d, e, dup, cap, f) == Stored(pages, k, d - 1, e, dup, cap, f)
  {
    var i := Route(t.keys, e.key);
    var b, c := Stored(pages, t.kids[i], d - 1, e, dup, cap, f), Insert(t.kids[i], d - 1, e, dup, cap, f);
    ChildInserted(pages, t, d, e, dup, cap, f);
    GraftNode(t, i, c.0);
    assert Halve(Graft(t, i, c.0), cap, c.1) == (Fit(Graft(t, i, c.0)), c.1);
    assert b == WriteNode(b, Graft(t, i, c.0));
  }

  class BTreeFile {
    const cap: nat
    var pages: map<nat, Node>
    var root: nat
    var free: nat
    ghost var tree: Tree
    ghost var depth: nat
    ghost var unique: bool

    ghost function Value(): Index
      reads this
    {
      Index(tree, depth, free, pages)
    }

    ghost predicate Valid()
      reads this
    {
      cap > 0 && Good(Value(), unique) && Capped(tree, cap) && root == tree.pid
    }

    constructor (cap: nat)
      requires cap > 0
      ensures Valid() && Value() == Empty() && unique && this.cap == cap
    {
      this.cap := cap;
      pages, root, free := map[1 := LeafNode([], 0)], 1, 2;
      tree, depth, unique := Leaf(1, [], 0), 0, true;
      EmptyGood(true);
    }

    /** node_insert on a leaf. */
    method LeafInsert(pid: nat, e: Entry, dup: bool, ghost t: Tree) returns (split: bool, sep: int, right: nat)
      requires cap > 0 && t.Leaf? && t.pid == pid && InStore(pages, t, free) && Capped(t, cap)
      modifies this`pages, this`free
      ensures var r := Halve(LeafPut(t, e, dup), cap, old(free));
              && free == r.1 && pages == WriteGrown(old(pages), r.0)
              && split == r.0.Split? && (split ==> sep == r.0.sep && right == r.0.right.pid)
    {
      split, sep, right := false, 0, 0;
      var es, next := pages[pid].entries, pages[pid].next;
      var i := FindSlot(es, e.key);
      if !dup && i < |es| && es[i].key == e.key {
        pages := pages[pid := LeafNode(es[i := e], next)];
        return;
      }
      es := es[..i] + [e] + es[i..];
      if |es| <= cap {
        pages := pages[pid := LeafNode(es, next)];
        return;
      }
      var left := |es| / 2;
      right := free;
      free := free + 1;
      pages := pages[pid := LeafNode(es[..left], right)][right := LeafNode(es[left..], next)];
      split, sep := true, es[left].key;
    }

    /** What node_insert does to an inner node whose child i was split. */
    method AddChild(pid: nat, i: nat, s: int, c: nat, ghost t: Tree, ghost g: Grown) returns (split: bool, sep: int,
        right: nat)
      requires cap > 0 && t.Inner? && i < |t.kids| == |t.keys| + 1 && t.pid == pid && pid in pages
               && pages[pid] == NodeOf(t)
      requires g.Split? && g.sep == s && g.right.pid == c && TopPid(g) == t.kids[i].pid
      modifies this`pages, this`free
      ensures var r := Halve(Graft(t, i, g), cap, old(free));
              && free == r.1 && pages == WriteGrown(old(pages), r.0)
              && split == r.0.Split? && (split ==> sep == r.0.sep && right == r.0.right.pid)
    {
      split, sep, right := false, 0, 0;
      GraftNode(t, i, g);
      var keys, ch := pages[pid].keys, pages[pid].children;
      keys := keys[..i] + [s] + keys[i..];
      ch := ch[..i + 1] + [c] + ch[i + 1..];
      if |keys| <= cap {
        pages := pages[pid := InnerNode(keys, ch)];
        return;
      }
      HalveNode(Graft(t, i, g), cap, free);
      var mid := |keys| / 2;
      right := free;
      free := free + 1;
      pages := pages[pid := InnerNode(keys[..mid], ch[..mid + 1])][right := InnerNode(keys[mid + 1..], ch[mid + 1..])];
      split, sep := true, keys[mid];
    }

    /** node_insert. */
    method NodeInsert(pid: nat, e: Entry, dup: bool, ghost t: Tree, ghost d: nat) returns (split: bool, sep: int,
        right: nat)
      requires cap > 0 && Shaped(t, d) && t.pid == pid && InStore(pages, t, free) && Capped(t, cap)
      modifies this`pages, this`free
      ensures var r := Insert(t, d, e, dup, cap, old(free));
              && free == r.1 && pages == Stored(old(pages), t, d, e, dup, cap, old(free))
              && split == r.0.Split? && (split ==> sep == r.0.sep && right == r.0.right.pid)
      decreases d
    {
      match pages[pid]
      case LeafNode(_, _) => split, sep, right := LeafInsert(pid, e, dup, t);
      case InnerNode(keys, children) =>
        var i := FindChild(keys, e.key);
        ChildInserted(pages, t, d, e, dup, cap, free);
        ghost var g := Insert(t.kids[i], d - 1, e, dup, cap, free).0;
        split, sep, right := NodeInsert(children[i], e, dup, t.kids[i], d - 1);
        if !split {
          ChildFits(old(pages), t, d, e, dup, cap, old(free));
          return;
        }
        ChildSplits(old(pages), t, d, e, dup, cap, old(free));
        split, sep, right := AddChild(pid, i, sep, right, t, g);
    }

    /** insert_root: a split root gets a new root above it. */
    method RootInsert(e: Entry, dup: bool, ghost t: Tree, ghost d: nat)
      requires cap > 0 && Shaped(t, d) && t.pid == root && InStore(pages, t, free) && Capped(t, cap)
      modifies this`pages, this`free, this`root
      ensures var r := InsertRoot(t, d, e, dup, cap, old(free));
              free == r.1 && root == r.0.pid && pages == StoredRoot(old(pages), t, d, e, dup, cap, old(free))
    {
      RootNode(pages, t, d, e, dup, cap, free);
      var split, sep, right := NodeInsert(root, e, dup, t, d);
      if split {
        pages := pages[free := InnerNode([sep], [root, right])];
        root := free;
        free := free + 1;
      }
    }

    method InsertAtRoot(e: Entry, dup: bool)
      requires Valid() && (unique ==> !dup)
      modifies this
      ensures Valid() && Value() == Inserted(old(Value()), e, dup, cap) && unique == old(unique)
    {
      ghost var x := Inserted(Value(), e, dup, cap);
      InsertedGood(Value(), e, dup, cap, unique);
      DoCapped(Value(), if dup then AddDup(e) else Put(e), cap);
      RootInsert(e, dup, tree, depth);
      tree, depth := x.tree, x.depth;
      assert Value() == x;
    }

    /** btree_insert: the value of a key already there is replaced. */
    method InsertUnique(e: Entry)
      requires Valid()
      modifies this
      ensures Valid() && Value() == Do(old(Value()), Put(e), cap) && unique == old(unique)
      ensures unique ==> forall x: Entry :: x in Entries(tree) <==>
              x == e
              || (x.key != e.key && x in old(Entries(tree)))
    {
      ghost var was := tree;
      InsertedGood(Value(), e, false, cap, unique);
      InsertAtRoot(e, false);
      if unique {
        forall x: Entry
          ensures x in Entries(tree) <==> x == e || (x.key != e.key && x in Entries(was))
        {
          UniqueUpdate(Entries(was), Entries(tree), e, x);
        }
      }
    }

    /** btree_insert_dup. */
    method InsertDup(e: Entry)
      requires Valid()
      modifies this
      ensures Valid() && Value() == Do(old(Value()), AddDup(e), cap) && !unique
      ensures multiset(Entries(tree)) == old(multiset(Entries(tree))) + multiset{e}
    {
      ghost var was := tree;
      Relax(tree, None, None, unique);
      unique := false;
      InsertedGood(Value(), e, true, cap, false);
      InsertAtRoot(e, true);
      AddedMultiset(Entries(was), Entries(tree), e);
    }

    /** btree_search: the value of the key, in a tree of distinct keys. */
    method Search(key: int) returns (r: Option<int>)
      requires Valid()
      ensures r.Some? ==> Entry(key, r.value) in Entries(tree)
      ensures unique && r.None? ==> forall v :: Entry(key, v) !in Entries(tree)
    {
      var pid := root;
      ghost var cur, d, lo, hi := tree, depth, None, None;
      while pages[pid].InnerNode?
        invariant Shaped(cur, d) && Holds(pages, cur) && pid == cur.pid && Ordered(cur, lo, hi, unique)
        invariant forall e: Entry | e in Entries(cur) :: e in Entries(tree)
        invariant unique ==> forall e: Entry | e.key == key && e in Entries(tree) :: e in Entries(cur)
        decreases d
      {
        var i := FindChild(pages[pid].keys, key);
        Descend(cur, i, key, lo, hi, unique);
        pid := pages[pid].children[i];
        lo, hi := LoAt(cur.keys, i, lo), HiAt(cur.keys, i, hi);
        cur, d := cur.kids[i], d - 1;
      }
      EntriesOne(cur);
      r := FindKey(pages[pid].entries, key);
    }

    /** The lower-bound descent of btree_find_all and btree_delete_val: the leftmost leaf that can hold the key. */
    method LowestLeaf(key: int) returns (pid: nat, ghost n: nat)
      requires Valid()
      ensures AtLeaf(tree, n, pid) && AllLess(EntriesOf(Leaves(tree)[..n]), key)
    {
      pid := root;
      ghost var cur, d, lo, hi := tree, depth, None, None;
      ghost var pre: seq<Tree>, post: seq<Tree> := [], [];
      while pages[pid].InnerNode?
        invariant Shaped(cur, d) && Holds(pages, cur) && pid == cur.pid && Ordered(cur, lo, hi, unique)
        invariant Leaves(tree) == pre + Leaves(cur) + post && AllLess(EntriesOf(pre), key)
        decreases d
      {
        var i := FindChildLeft(pages[pid].keys, key);
        pid := pages[pid].children[i];
        LeavesAround(cur, i);
        LeftIsLess(cur, key, lo, hi, unique);
        EntriesJoin(pre, Left(cur, i));
        Regroup(pre, Left(cur, i), Leaves(cur.kids[i]), Right(cur, i), post);
        pre, post := pre + Left(cur, i), Right(cur, i) + post;
        lo, hi := LoAt(cur.keys, i, lo), HiAt(cur.keys, i, hi);
        cur, d := cur.kids[i], d - 1;
      }
      n := |pre|;
      StartWalk(tree, pre, cur, post);
      assert Leaves(tree)[..n] == pre;
    }

    /** btree_find_all: every value of the key, in order, wherever duplicates straddle leaves. */
    method FindAll(key: int) returns (out: seq<int>)
      requires Valid()
      ensures out == Matches(Entries(tree), key)
    {
      out := [];
      var pid, n := LowestLeaf(key);
      ghost var ls := Leaves(tree);
      GoodSorted(Value(), unique);
      MatchesNone(EntriesOf(ls[..n]), key);
      StepWalk(Value(), unique, n, pid);
      while pid != 0
        invariant AtLeaf(tree, n, pid) && (pid == 0 <==> n == |ls|)
        invariant out == Matches(EntriesOf(ls[..n]), key)
        decreases |ls| - n
      {
        StepWalk(Value(), unique, n, pid);
        var es := pages[pid].entries;
        var more, stop := MatchLeaf(es, key);
        MatchesAt(ls, n, stop, key);
        out := out + more;
        if stop < |es| { return; }
        pid, n := pages[pid].next, n + 1;
        StepWalk(Value(), unique, n, pid);
      }
      assert ls[..n] == ls;
    }

    /** btree_delete_val: remove the first entry with this key and value, if there is one. */
    method DeleteVal(e: Entry) returns (ok: bool)
      requires Valid()
      modifies this
      ensures Valid() && Value() == Do(old(Value()), Remove(e), cap) && unique == old(unique)
      ensures ok <==> e in old(Entries(tree))
    {
      var pid, n := LowestLeaf(e.key);
      ghost var ls := Leaves(tree);
      GoodSorted(Value(), unique);
      StepWalk(Value(), unique, n, pid);
      while pid != 0
        invariant Valid() && Value() == old(Value()) && unique == old(unique)
        invariant AtLeaf(tree, n, pid) && (pid == 0 <==> n == |ls|)
        invariant e !in EntriesOf(ls[..n])
        decreases |ls| - n
      {
        StepWalk(Value(), unique, n, pid);
        EntriesAt(ls, n);
        var es := pages[pid].entries;
        var k, found := FindEntry(es, e);
        if found {
          RemoveHere(pid, e, n, k);
          return true;
        }
        if k < |es| {
          NotAfterStop(EntriesOf(ls[..n]), es, EntriesOf(ls[n + 1..]), k, e);
          return false;
        }
        pid, n := pages[pid].next, n + 1;
        StepWalk(Value(), unique, n, pid);
      }
      assert ls[..n] == ls;
      return false;
    }

    /** Entry k of the leaf on this page goes; the leaf stays in the chain even when empty. */
    method RemoveHere(pid: nat, e: Entry, ghost n: nat, k: nat)
      requires Valid() && FirstAt(Leaves(tree), e, n, k) && Leaves(tree)[n].pid == pid && pid in pages
      requires pages[pid] == LeafNode(Leaves(tree)[n].entries, Leaves(tree)[n].next)
      modifies this
      ensures Valid() && Value() == Removed(old(Value()), e) && unique == old(unique)
      ensures e in old(Entries(tree))
    {
      PlaceIsFirst(Leaves(tree), e, n, k);
      DroppedGood(Value(), n, k, unique);
      DropCapped(tree, pid, k, cap);
      var es, next := pages[pid].entries, pages[pid].next;
      pages := pages[pid := LeafNode(es[..k] + es[k + 1..], next)];
      tree := Drop(tree, pid, k);
    }

    /** btree_scan: every entry, in order. */
    method Scan() returns (out: seq<Entry>)
      requires Valid()
      ensures out == Entries(tree)
    {
      var pid := root;
      ghost var cur, d, post: seq<Tree> := tree, depth, [];
      while pages[pid].InnerNode?
        invariant Shaped(cur, d) && Holds(pages, cur) && pid == cur.pid && Leaves(tree) == Leaves(cur) + post
        decreases d
      {
        pid := pages[pid].children[0];
        LeavesAround(cur, 0);
        assert cur.kids[..0] == [] && LeavesOfAll([]) == [];
        post := Right(cur, 0) + post;
        cur, d := cur.kids[0], d - 1;
      }
      StartWalk(tree, [], cur, post);
      ghost var ls, n := Leaves(tree), 0;
      out := [];
      StepWalk(Value(), unique, 0, pid);
      while pid != 0
        invariant AtLeaf(tree, n, pid) && (pid == 0 <==> n == |ls|) && out == EntriesOf(ls[..n])
        decreases |ls| - n
      {
        StepWalk(Value(), unique, n, pid);
        EntriesAt(ls, n);
        out := out + pages[pid].entries;
        pid, n := pages[pid].next, n + 1;
        StepWalk(Value(), unique, n, pid);
      }
      assert ls[..n] == ls;
    }
  }

  lemma MatchesAt(ls: seq<Tree>, n: nat, stop: nat, key: int)
    requires n < |ls| && ls[n].Leaf? && stop <= |ls[n].entries| && SortedEntries(EntriesOf(ls), false)
    requires stop < |ls[n].entries| ==> ls[n].entries[stop].key > key
    ensures var es := ls[n].entries; var now := Matches(EntriesOf(ls[..n]), key) + Matches(es[..stop], key);
            if stop < |es| then Matches(EntriesOf(ls), key) == now else Matches(EntriesOf(ls[..n + 1]), key) == now
  {
    var es := ls[n].entries;
    EntriesAt(ls, n);
    if stop < |es| {
      StopMatches(EntriesOf(ls[..n]), es, EntriesOf(ls[n + 1..]), stop, key);
    } else {
      MatchesJoin(EntriesOf(ls[..n]), es, key);
      assert es[..stop] == es;
    }
  }

  /** The matching values of one leaf, up to the first larger key. */
  method MatchLeaf(es: seq<Entry>, key: int) returns (out: seq<int>, stop: nat)
    ensures stop <= |es| && out == Matches(es[..stop], key) && (stop < |es| ==> es[stop].key > key)
  {
    out, stop := [], 0;
    while stop < |es|
      invariant stop <= |es| && out == Matches(es[..stop], key)
    {
      if es[stop].key > key { return; }
      assert es[..stop + 1] == es[..stop] + [es[stop]];
      MatchesJoin(es[..stop], [es[stop]], key);
      if es[stop].key == key {
        out := out + [es[stop].val];
      }
      stop := stop + 1;
    }
  }

  /** Where the entry is, or the first larger key, or past the end. */
  method FindEntry(es: seq<Entry>, e: Entry) returns (k: nat, found: bool)
    ensures k <= |es| && e !in es[..k] && (found ==> k < |es| && es[k] == e)
            && (!found && k < |es| ==> es[k].key > e.key)
  {
    k := 0;
    while k < |es|
      invariant k <= |es| && e !in es[..k]
    {
      if es[k].key > e.key { return k, false; }
      if es[k] == e { return k, true; }
      k := k + 1;
    }
    return k, false;
  }

  method FindKey(es: seq<Entry>, key: int) returns (r: Option<int>)
    ensures r.Some? ==> Entry(key, r.value) in es
    ensures r.None? ==> forall v :: Entry(key, v) !in es
  {
    for i := 0 to |es|
      invariant forall j | 0 <= j < i :: es[j].key != key
    {
      if es[i].key == key {
        assert es[i] == Entry(key, es[i].val);
        return Some(es[i].val);
      }
    }
    return None;
  }

  lemma Descend(t: Tree, i: nat, key: int, lo: Option<int>, hi: Option<int>, unique: bool)
    requires t.Inner? && i == Route(t.keys, key) && Ordered(t, lo, hi, unique)
    ensures forall e: Entry | e in Entries(t.kids[i]) :: e in Entries(t)
    ensures unique ==> forall e: Entry | e.key == key && e in Entries(t) :: e in Entries(t.kids[i])
  {
    LeavesAround(t, i);
    AroundEntries(Left(t, i), Leaves(t.kids[i]), Right(t, i));
    if unique {
      forall e: Entry | e.key == key && e in Entries(t)
        ensures e in Entries(t.kids[i])
      {
        OnlyInChild(t, key, lo, hi, e);
      }
    }
  }

  /** A tree without duplicates is one that may have them. */
  lemma {:induction false} Relax(t: Tree, lo: Option<int>, hi: Option<int>, unique: bool)
    requires Ordered(t, lo, hi, unique)
    ensures Ordered(t, lo, hi, false)
  {
    if t.Inner? {
      forall i | 0 <= i < |t.kids|
        ensures Ordered(t.kids[i], LoAt(t.keys, i, lo), HiAt(t.keys, i, hi), false)
      {
        Relax(t.kids[i], LoAt(t.keys, i, lo), HiAt(t.keys, i, hi), unique);
      }
    }
  }

  lemma TopKept(pages: map<nat, Node>, t: Tree, d: nat, e: Entry, dup: bool, cap: nat, f: nat)
    requires cap > 0 && Shaped(t, d) && InStore(pages, t, f)
    ensures TopPid(Insert(t, d, e, dup, cap, f).0) == t.pid
  {
    InsertStored(pages, t, d, e, dup, cap, f);
    assert InsertOk(pages, t, d, e, dup, cap, f);
  }

  lemma RootNode(pages: map<nat, Node>, t: Tree, d: nat, e: Entry, dup: bool, cap: nat, f: nat)
    requires cap > 0 && Shaped(t, d) && InStore(pages, t, f)
    ensures var g := Insert(t, d, e, dup, cap, f).0; var r := InsertRoot(t, d, e, dup, cap, f).0;
            && TopPid(g) == t.pid && (g.Split? ==> NodeOf(r) == InnerNode([g.sep], [t.pid, g.right.pid]))
  {
    TopKept(pages, t, d, e, dup, cap, f);
    var g := Insert(t, d, e, dup, cap, f).0;
    if g.Split? { assert PidsIn([g.left, g.right]) == [g.left.pid, g.right.pid]; }
  }
}
