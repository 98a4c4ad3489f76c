/** The B+Tree of src/btree.c: what an insert, a delete and the searches do to the tree of
    nodes.  `cap` is BT_MAX_KEYS; a node is split when it exceeds it.  Keys may repeat. */
module BTree {
  import opened Wrappers
  import opened Keys

  datatype Entry = Entry(key: int, val: int)

  /** A node with its page number; a leaf also has the page number of the next leaf, or 0. */
  datatype Tree =
    | Leaf(pid: nat, entries: seq<Entry>, next: nat)
    | Inner(pid: nat, keys: seq<int>, kids: seq<Tree>)

  function Flat<T>(ss: seq<seq<T>>): seq<T>
    decreases |ss|
  {
    if ss == [] then [] else ss[0] + Flat(ss[1..])
  }

  /** The leaves from left to right. */
  function Leaves(t: Tree): seq<Tree>
    decreases t, 1
  {
    if t.Leaf? then [t] else Flat(KidLeaves(t))
  }

  function KidLeaves(t: Tree): seq<seq<Tree>>
    requires t.Inner?
    decreases t, 0
  {
    seq(|t.kids|, i requires 0 <= i < |t.kids| => Leaves(t.kids[i]))
  }

  function EntriesOf(ls: seq<Tree>): seq<Entry>
    decreases |ls|
  {
    if ls == [] then []
    else (if ls[0].Leaf? then ls[0].entries else []) + EntriesOf(ls[1..])
  }

  /** All entries in order. */
  function Entries(t: Tree): seq<Entry> {
    EntriesOf(Leaves(t))
  }

  // ----- what every tree keeps -----

  /** All leaves at depth d, and one more child than keys. */
  ghost predicate Shaped(t: Tree, d: nat)
    decreases d
  {
    match t
    case Leaf(_, _, _) => d == 0
    case Inner(_, keys, kids) =>
      d > 0 && |kids| == |keys| + 1 && forall i | 0 <= i < |kids| :: Shaped(kids[i], d - 1)
  }

  predicate Above(lo: Option<int>, k: int) {
    lo.None? || lo.value <= k
  }

  /** Keys left of a separator are at most it; in a tree without duplicates they are below it. */
  predicate Below(k: int, hi: Option<int>, strict: bool) {
    hi.None? || k < hi.value || (!strict && k == hi.value)
  }

  predicate NotAfter(lo: Option<int>, hi: Option<int>) {
    lo.None? || hi.None? || lo.value <= hi.value
  }

  ghost predicate EntriesWithin(es: seq<Entry>, lo: Option<int>, hi: Option<int>, strict: bool) {
    forall i | 0 <= i < |es| :: Above(lo, es[i].key) && Below(es[i].key, hi, strict)
  }

  ghost predicate SortedEntries(es: seq<Entry>, strict: bool) {
    forall i, j | 0 <= i < j < |es| :: es[i].key < es[j].key || (!strict && es[i].key == es[j].key)
  }

  ghost predicate SortedKeys(keys: seq<int>, lo: Option<int>, hi: Option<int>) {
    && (forall i | 0 <= i < |keys| :: Above(lo, keys[i]) && Below(keys[i], hi, false))
    && forall i, j | 0 <= i < j < |keys| :: keys[i] <= keys[j]
  }

  /** Every separator divides what is left of it from what is right of it. */
  ghost predicate Ordered(t: Tree, lo: Option<int>, hi: Option<int>, strict: bool) {
    NotAfter(lo, hi) &&
    match t
    case Leaf(_, es, _) =>
      SortedEntries(es, strict) && EntriesWithin(es, lo, hi, strict)
    case Inner(_, keys, kids) =>
      && |kids| == |keys| + 1 && SortedKeys(keys, lo, hi)
      && forall i | 0 <= i < |kids| :: Ordered(kids[i], LoAt(keys, i, lo), HiAt(keys, i, hi), strict)
  }

  // ----- insertion -----

  /** The first position whose key is not below `key`. */
  function LowerPos(es: seq<Entry>, key: int): (i: nat)
    ensures i <= |es| && (i < |es| ==> es[i].key >= key) && forall j | 0 <= j < i :: es[j].key < key
  {
    if es == [] || es[0].key >= key then 0
    else
      var k := LowerPos(es[1..], key);
      assert forall j | 0 < j < k + 1 :: es[j] == es[1..][j - 1];
      k + 1
  }

  datatype Grown = Fit(tree: Tree) | Split(left: Tree, sep: int, right: Tree)

  /** A node that grew past its capacity gives its upper half to the new page f. */
  function Halve(t: Tree, cap: nat, f: nat): (Grown, nat)
    requires cap > 0 && (t.Inner? ==> |t.kids| == |t.keys| + 1)
  {
    match t
    case Leaf(pid, es, next) =>
      if |es| <= cap then (Fit(t), f)
      else
        var left := |es| / 2;
        (Split(Leaf(pid, es[..left], f), es[left].key, Leaf(f, es[left..], next)), f + 1)
    case Inner(pid, keys, kids) =>
      if |keys| <= cap then (Fit(t), f)
      else
        var mid := |keys| / 2;
        (Split(Inner(pid, keys[..mid], kids[..mid + 1]), keys[mid], Inner(f, keys[mid + 1..], kids[mid + 1..])), f + 1)
  }

  /** Put what became of child i in its place. */
  function Graft(t: Tree, i: nat, g: Grown): (r: Tree)
    requires t.Inner? && i < |t.kids| == |t.keys| + 1
    ensures r.Inner? && r.pid == t.pid && |r.kids| == |r.keys| + 1
  {
    match g
    case Fit(k) => t.(kids := t.kids[i := k])
    case Split(l, s, r) => Inner(t.pid, t.keys[..i] + [s] + t.keys[i..], t.kids[..i] + [l, r] + t.kids[i + 1..])
  }

  function LeafPut(t: Tree, e: Entry, dup: bool): Tree
    requires t.Leaf?
  {
    var i := LowerPos(t.entries, e.key);
    if !dup && i < |t.entries| && t.entries[i].key == e.key then t.(entries := t.entries[i := e])
    else t.(entries := t.entries[..i] + [e] + t.entries[i..])
  }

  /** The leaf holds an entry of the key where an insert looks for it. */
  predicate Sees(t: Tree, key: int)
    requires t.Leaf?
  {
    var i := LowerPos(t.entries, key);
    i < |t.entries| && t.entries[i].key == key
  }

  /** The leaf an insert of the key reaches. */
  function Reached(t: Tree, d: nat, key: int): (l: Tree)
    requires Shaped(t, d)
    ensures l.Leaf?
    decreases d
  {
    if t.Leaf? then t else Reached(t.kids[Route(t.keys, key)], d - 1, key)
  }

  /** node_insert: the subtree after the insert, and the next free page. */
  function Insert(t: Tree, d: nat, e: Entry, dup: bool, cap: nat, f: nat): (Grown, nat)
    requires cap > 0 && Shaped(t, d)
    decreases d
  {
    match t
    case Leaf(_, _, _) => Halve(LeafPut(t, e, dup), cap, f)
    case Inner(_, keys, kids) =>
      var i := Route(keys, e.key);
      var (g, f1) := Insert(kids[i], d - 1, e, dup, cap, f);
      Halve(Graft(t, i, g), cap, f1)
  }

  /** insert_root. */
  function InsertRoot(t: Tree, d: nat, e: Entry, dup: bool, cap: nat, f: nat): (Tree, nat)
    requires cap > 0 && Shaped(t, d)
  {
    var (g, f1) := Insert(t, d, e, dup, cap, f);
    match g
    case Fit(r) => (r, f1)
    case Split(l, s, r) => (Inner(f1, [s], [l, r]), f1 + 1)
  }

  // ----- depth -----

  ghost predicate ShapedGrown(g: Grown, d: nat) {
    match g
    case Fit(t) => Shaped(t, d)
    case Split(l, _, r) => Shaped(l, d) && Shaped(r, d)
  }

  lemma GraftShaped(t: Tree, d: nat, i: nat, g: Grown)
    requires Shaped(t, d) && t.Inner? && i < |t.kids| && ShapedGrown(g, d - 1)
    ensures Shaped(Graft(t, i, g), d)
  {
  }

  lemma HalveShaped(t: Tree, d: nat, cap: nat, f: nat)
    requires Shaped(t, d) && cap > 0
    ensures ShapedGrown(Halve(t, cap, f).0, d)
  {
  }

  lemma {:induction false} InsertShaped(t: Tree, d: nat, e: Entry, dup: bool, cap: nat, f: nat)
    requires cap > 0 && Shaped(t, d)
    ensures ShapedGrown(Insert(t, d, e, dup, cap, f).0, d)
    decreases d
  {
    if t.Inner? {
      var i := Route(t.keys, e.key);
      var (g, f1) := Insert(t.kids[i], d - 1, e, dup, cap, f);
      InsertShaped(t.kids[i], d - 1, e, dup, cap, f);
      GraftShaped(t, d, i, g);
      HalveShaped(Graft(t, i, g), d, cap, f1);
    }
  }

  // ----- order -----

  ghost predicate OrderedGrown(g: Grown, lo: Option<int>, hi: Option<int>, strict: bool) {
    match g
    case Fit(t) => Ordered(t, lo, hi, strict)
    case Split(l, s, r) =>
        Above(lo, s) && Below(s, hi, false) && Ordered(l, lo, Some(s), strict)
        && Ordered(r, Some(s), hi, strict)
  }

  lemma InsertSorted(es: seq<Entry>, i: nat, e: Entry, strict: bool)
    requires SortedEntries(es, strict) && i <= |es|
    requires forall j | 0 <= j < i :: es[j].key < e.key
    requires forall j | i <= j < |es| :: e.key < es[j].key || (!strict && e.key == es[j].key)
    ensures SortedEntries(es[..i] + [e] + es[i..], strict)
  {
    var r := es[..i] + [e] + es[i..];
    assert forall j | 0 <= j < |r| :: r[j] == if j < i then es[j] else if j == i then e else es[j - 1];
  }

  lemma InsertWithin(es: seq<Entry>, i: nat, e: Entry, lo: Option<int>, hi: Option<int>, strict: bool)
    requires EntriesWithin(es, lo, hi, strict) && i <= |es| && Above(lo, e.key) && Below(e.key, hi, strict)
    ensures EntriesWithin(es[..i] + [e] + es[i..], lo, hi, strict)
  {
  }

  lemma PutOrdered(t: Tree, e: Entry, dup: bool, lo: Option<int>, hi: Option<int>, strict: bool)
    requires t.Leaf? && Ordered(t, lo, hi, strict) && Above(lo, e.key) && Below(e.key, hi, strict) && (strict ==> !dup)
    ensures Ordered(LeafPut(t, e, dup), lo, hi, strict)
  {
    var es, i := t.entries, LowerPos(t.entries, e.key);
    if dup || i == |es| || es[i].key != e.key {
      assert forall j | i < j < |es| :: es[i].key < es[j].key || (!strict && es[i].key == es[j].key);
      InsertSorted(es, i, e, strict);
      InsertWithin(es, i, e, lo, hi, strict);
    }
  }

  lemma HalveLeafOrdered(t: Tree, cap: nat, f: nat, lo: Option<int>, hi: Option<int>, strict: bool)
    requires t.Leaf? && Ordered(t, lo, hi, strict) && cap > 0
    ensures OrderedGrown(Halve(t, cap, f).0, lo, hi, strict)
  {
  }

  lemma GraftFitOrdered(t: Tree, i: nat, k: Tree, lo: Option<int>, hi: Option<int>, strict: bool)
    requires t.Inner? && Ordered(t, lo, hi, strict) && i < |t.kids|
    requires Ordered(k, LoAt(t.keys, i, lo), HiAt(t.keys, i, hi), strict)
    ensures Ordered(Graft(t, i, Fit(k)), lo, hi, strict)
  {
  }

  lemma GraftKeys(keys: seq<int>, i: nat, s: int, lo: Option<int>, hi: Option<int>)
    requires SortedKeys(keys, lo, hi) && i <= |keys| && Above(lo, s) && Below(s, hi, false)
    requires Above(LoAt(keys, i, lo), s) && Below(s, HiAt(keys, i, hi), false)
    ensures SortedKeys(keys[..i] + [s] + keys[i..], lo, hi)
  {
    var r := keys[..i] + [s] + keys[i..];
    assert forall j | 0 <= j < |r| :: r[j] == if j < i then keys[j] else if j == i then s else keys[j - 1];
    assert forall j | 0 <= j < i :: keys[j] <= s;
    assert forall j | i <= j < |keys| :: s <= keys[j];
  }

  lemma GraftSplitOrdered(t: Tree, i: nat, g: Grown, lo: Option<int>, hi: Option<int>, strict: bool)
    requires t.Inner? && Ordered(t, lo, hi, strict) && i < |t.kids| && g.Split?
    requires OrderedGrown(g, LoAt(t.keys, i, lo), HiAt(t.keys, i, hi), strict)
    ensures Ordered(Graft(t, i, g), lo, hi, strict)
  {
    var r := Graft(t, i, g);
    GraftKeys(t.keys, i, g.sep, lo, hi);
    forall j | 0 <= j < |r.kids|
      ensures Ordered(r.kids[j], LoAt(r.keys, j, lo), HiAt(r.keys, j, hi), strict)
    {
      if j < i {
        assert r.kids[j] == t.kids[j];
      } else if j > i + 1 {
        assert r.kids[j] == t.kids[j - 1];
      }
    }
  }

  lemma HalveInnerOrdered(t: Tree, cap: nat, f: nat, lo: Option<int>, hi: Option<int>, strict: bool)
    requires t.Inner? && Ordered(t, lo, hi, strict) && cap > 0
    ensures OrderedGrown(Halve(t, cap, f).0, lo, hi, strict)
  {
    if |t.keys| > cap {
      var mid := |t.keys| / 2;
      HalfKeys(t.keys, mid, lo, hi);
      LeftOrdered(t, mid, t.pid, lo, hi, strict);
      RightOrdered(t, mid, f, lo, hi, strict);
    }
  }

  lemma HalfKeys(keys: seq<int>, mid: nat, lo: Option<int>, hi: Option<int>)
    requires SortedKeys(keys, lo, hi) && mid < |keys|
    ensures SortedKeys(keys[..mid], lo, Some(keys[mid])) && SortedKeys(keys[mid + 1..], Some(keys[mid]), hi)
    ensures Above(lo, keys[mid]) && Below(keys[mid], hi, false)
  {
  }

  lemma LeftOrdered(t: Tree, mid: nat, pid: nat, lo: Option<int>, hi: Option<int>, strict: bool)
    requires t.Inner? && Ordered(t, lo, hi, strict) && mid < |t.keys|
    ensures Ordered(Inner(pid, t.keys[..mid], t.kids[..mid + 1]), lo, Some(t.keys[mid]), strict)
  {
    HalfKeys(t.keys, mid, lo, hi);
    forall j | 0 <= j <= mid
      ensures Ordered(t.kids[j], LoAt(t.keys[..mid], j, lo), HiAt(t.keys[..mid], j, Some(t.keys[mid])), strict)
    {
      assert HiAt(t.keys[..mid], j, Some(t.keys[mid])) == HiAt(t.keys, j, hi);
    }
  }

  lemma RightOrdered(t: Tree, mid: nat, pid: nat, lo: Option<int>, hi: Option<int>, strict: bool)
    requires t.Inner? && Ordered(t, lo, hi, strict) && mid < |t.keys|
    ensures Ordered(Inner(pid, t.keys[mid + 1..], t.kids[mid + 1..]), Some(t.keys[mid]), hi, strict)
  {
    HalfKeys(t.keys, mid, lo, hi);
    var keys, kids := t.keys[mid + 1..], t.kids[mid + 1..];
    forall j | 0 <= j < |kids|
      ensures Ordered(kids[j], LoAt(keys, j, Some(t.keys[mid])), HiAt(keys, j, hi), strict)
    {
      assert kids[j] == t.kids[mid + 1 + j];
      assert LoAt(keys, j, Some(t.keys[mid])) == LoAt(t.keys, mid + 1 + j, lo);
    }
  }

  /** An insert keeps the separators right; a tree without duplicates stays one under unique inserts. */
  lemma {:induction false} InsertOrdered(
    t: Tree, d: nat, e: Entry, dup: bool, cap: nat, f: nat, lo: Option<int>, hi: Option<int>, strict: bool)
    requires cap > 0 && Shaped(t, d) && Ordered(t, lo, hi, strict) && (strict ==> !dup)
    requires Above(lo, e.key) && Below(e.key, hi, strict)
    ensures OrderedGrown(Insert(t, d, e, dup, cap, f).0, lo, hi, strict)
    decreases d
  {
    if t.Leaf? {
      PutOrdered(t, e, dup, lo, hi, strict);
      HalveLeafOrdered(LeafPut(t, e, dup), cap, f, lo, hi, strict);
    } else {
      var i := Route(t.keys, e.key);
      var (g, f1) := Insert(t.kids[i], d - 1, e, dup, cap, f);
      InsertOrdered(t.kids[i], d - 1, e, dup, cap, f, LoAt(t.keys, i, lo), HiAt(t.keys, i, hi), strict);
      if g.Fit? { GraftFitOrdered(t, i, g.tree, lo, hi, strict); } else { GraftSplitOrdered(t, i, g, lo, hi, strict); }
      HalveInnerOrdered(Graft(t, i, g), cap, f1, lo, hi, strict);
    }
  }

  // ----- leaves -----

  lemma {:induction false} FlatJoin<T>(a: seq<seq<T>>, b: seq<seq<T>>)
    ensures Flat(a + b) == Flat(a) + Flat(b)
    decreases |a|
  {
    if a == [] {
      assert a + b == b;
    } else {
      assert (a + b)[1..] == a[1..] + b;
      FlatJoin(a[1..], b);
    }
  }

  function EachLeaves(kids: seq<Tree>): seq<seq<Tree>> {
    seq(|kids|, i requires 0 <= i < |kids| => Leaves(kids[i]))
  }

  function LeavesOfAll(kids: seq<Tree>): seq<Tree> {
    Flat(EachLeaves(kids))
  }

  lemma LeavesJoin(a: seq<Tree>, b: seq<Tree>)
    ensures LeavesOfAll(a + b) == LeavesOfAll(a) + LeavesOfAll(b)
  {
    assert EachLeaves(a + b) == EachLeaves(a) + EachLeaves(b);
    FlatJoin(EachLeaves(a), EachLeaves(b));
  }

  lemma LeavesOne(t: Tree)
    ensures LeavesOfAll([t]) == Leaves(t)
  {
    var x := EachLeaves([t]);
    assert x[0] == Leaves(t) && x[1..] == [];
    assert Flat(x) == x[0] + Flat(x[1..]);
  }

  lemma LeavesInner(t: Tree)
    requires t.Inner?
    ensures Leaves(t) == LeavesOfAll(t.kids)
  {
    assert KidLeaves(t) == EachLeaves(t.kids);
  }

  function LeavesGrown(g: Grown): seq<Tree> {
    match g
    case Fit(t) => Leaves(t)
    case Split(l, _, r) => Leaves(l) + Leaves(r)
  }

  /** The leaves of an inner node around its child i. */
  lemma LeavesAround(t: Tree, i: nat)
    requires t.Inner? && i < |t.kids|
    ensures Leaves(t) == LeavesOfAll(t.kids[..i]) + Leaves(t.kids[i]) + LeavesOfAll(t.kids[i + 1..])
  {
    LeavesInner(t);
    assert t.kids == t.kids[..i] + [t.kids[i]] + t.kids[i + 1..];
    LeavesJoin(t.kids[..i] + [t.kids[i]], t.kids[i + 1..]);
    LeavesJoin(t.kids[..i], [t.kids[i]]);
    LeavesOne(t.kids[i]);
  }

  lemma LeavesTwo(a: Tree, b: Tree)
    ensures LeavesOfAll([a, b]) == Leaves(a) + Leaves(b)
  {
    LeavesJoin([a], [b]);
    LeavesOne(a);
    LeavesOne(b);
    assert [a] + [b] == [a, b];
  }

  lemma GraftLeaves(t: Tree, i: nat, g: Grown)
    requires t.Inner? && i < |t.kids| == |t.keys| + 1
    ensures Leaves(Graft(t, i, g)) == LeavesOfAll(t.kids[..i]) + LeavesGrown(g) + LeavesOfAll(t.kids[i + 1..])
  {
    var r := Graft(t, i, g);
    LeavesInner(r);
    var mid := if g.Fit? then [g.tree] else [g.left, g.right];
    assert r.kids == t.kids[..i] + mid + t.kids[i + 1..];
    LeavesJoin(t.kids[..i] + mid, t.kids[i + 1..]);
    LeavesJoin(t.kids[..i], mid);
    if g.Fit? { LeavesOne(g.tree); } else { LeavesTwo(g.left, g.right); }
  }

  lemma HalveInnerLeaves(t: Tree, cap: nat, f: nat)
    requires t.Inner? && |t.kids| == |t.keys| + 1 && cap > 0
    ensures LeavesGrown(Halve(t, cap, f).0) == Leaves(t)
  {
    if |t.keys| > cap {
      var mid := |t.keys| / 2;
      var g := Halve(t, cap, f).0;
      LeavesInner(t);
      LeavesInner(g.left);
      LeavesInner(g.right);
      assert t.kids == t.kids[..mid + 1] + t.kids[mid + 1..];
      LeavesJoin(t.kids[..mid + 1], t.kids[mid + 1..]);
    }
  }

  /** An insert touches one leaf: it is replaced by itself with the entry, or by the two halves of that. */
  lemma {:induction false} InsertLeaves(t: Tree, d: nat, e: Entry, dup: bool, cap: nat, f: nat)
    returns (a: seq<Tree>, l: Tree, b: seq<Tree>)
    requires cap > 0 && Shaped(t, d)
    ensures l == Reached(t, d, e.key) && Leaves(t) == a + [l] + b
    ensures LeavesGrown(Insert(t, d, e, dup, cap, f).0) == a + LeavesGrown(Halve(LeafPut(l, e, dup), cap, f).0) + b
    decreases d
  {
    if t.Leaf? {
      a, l, b := [], t, [];
    } else {
      var i := Route(t.keys, e.key);
      var (g, f1) := Insert(t.kids[i], d - 1, e, dup, cap, f);
      var x, y := LeavesOfAll(t.kids[..i]), LeavesOfAll(t.kids[i + 1..]);
      var a1, l1, b1 := InsertLeaves(t.kids[i], d - 1, e, dup, cap, f);
      a, l, b := x + a1, l1, b1 + y;
      LeavesAround(t, i);
      GraftLeaves(t, i, g);
      HalveInnerLeaves(Graft(t, i, g), cap, f1);
      Regroup(x, a1, [l1], b1, y);
      Regroup(x, a1, LeavesGrown(Halve(LeafPut(l, e, dup), cap, f).0), b1, y);
    }
  }

  lemma Regroup<T>(x: seq<T>, a: seq<T>, m: seq<T>, b: seq<T>, y: seq<T>)
    ensures x + (a + m + b) + y == (x + a) + m + (b + y)
  {
  }
}
