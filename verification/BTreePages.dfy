/** The pages that hold the tree of src/btree.c. */
module BTreePages {
  import opened Keys
  import opened BTree

  datatype Node = LeafNode(entries: seq<Entry>, next: nat) | InnerNode(keys: seq<int>, children: seq<nat>)

  function NodeOf(t: Tree): Node {
    match t
    case Leaf(_, es, next) => LeafNode(es, next)
    case Inner(_, keys, kids) => InnerNode(keys, PidsIn(kids))
  }

  function PidsIn(kids: seq<Tree>): seq<nat> {
    seq(|kids|, i requires 0 <= i < |kids| => kids[i].pid)
  }

  /** The store holds every node of the tree. */
  ghost predicate Holds(pages: map<nat, Node>, t: Tree) {
    && t.pid in pages && pages[t.pid] == NodeOf(t)
    && (t.Inner? ==> forall i | 0 <= i < |t.kids| :: Holds(pages, t.kids[i]))
  }

  ghost function Pids(t: Tree): set<nat> {
    {t.pid} + if t.Inner? then (set i, p | 0 <= i < |t.kids| && p in Pids(t.kids[i]) :: p) else {}
  }

  ghost predicate Apart(t: Tree) {
    t.Inner? ==>
      && (forall i | 0 <= i < |t.kids| :: t.pid !in Pids(t.kids[i]) && Apart(t.kids[i]))
      && forall i, j | 0 <= i < j < |t.kids| :: Pids(t.kids[i]) !! Pids(t.kids[j])
  }

  ghost predicate PidsBelow(t: Tree, f: nat) {
    forall p | p in Pids(t) :: p < f
  }

  lemma KidPids(t: Tree, i: nat)
    requires t.Inner? && i < |t.kids|
    ensures Pids(t.kids[i]) <= Pids(t)
  {
  }

  /** Other pages may change. */
  lemma {:induction false} HoldsFrame(a: map<nat, Node>, b: map<nat, Node>, t: Tree)
    requires Holds(a, t) && forall p | p in Pids(t) :: p in b && p in a && b[p] == a[p]
    ensures Holds(b, t)
  {
    if t.Inner? {
      forall i | 0 <= i < |t.kids|
        ensures Holds(b, t.kids[i])
      {
        KidPids(t, i);
        HoldsFrame(a, b, t.kids[i]);
      }
    }
  }

  // ----- the pages of a node and its children -----

  /** All children are in the store, on pages of their own, apart from the node itself and from page f on. */
  ghost predicate KidsHeld(pages: map<nat, Node>, t: Tree, f: nat) {
    t.pid < f &&
    (t.Inner? ==>
       && (forall i | 0 <= i < |t.kids| ::
           Holds(pages, t.kids[i]) && Apart(t.kids[i]) && PidsBelow(t.kids[i], f)
           && t.pid !in Pids(t.kids[i]))
       && forall i, j | 0 <= i < j < |t.kids| :: Pids(t.kids[i]) !! Pids(t.kids[j]))
  }

  function WriteNode(pages: map<nat, Node>, t: Tree): map<nat, Node> {
    pages[t.pid := NodeOf(t)]
  }

  function WriteGrown(pages: map<nat, Node>, g: Grown): map<nat, Node> {
    match g
    case Fit(t) => WriteNode(pages, t)
    case Split(l, _, r) => WriteNode(WriteNode(pages, l), r)
  }

  ghost predicate HoldsGrown(pages: map<nat, Node>, g: Grown) {
    match g
    case Fit(t) => Holds(pages, t)
    case Split(l, _, r) => Holds(pages, l) && Holds(pages, r)
  }

  ghost predicate ApartGrown(g: Grown) {
    match g
    case Fit(t) => Apart(t)
    case Split(l, _, r) => Apart(l) && Apart(r) && Pids(l) !! Pids(r)
  }

  ghost function PidsGrown(g: Grown): set<nat> {
    match g
    case Fit(t) => Pids(t)
    case Split(l, _, r) => Pids(l) + Pids(r)
  }

  /** Only pages allocated meanwhile are new. */
  ghost predicate NewPids(now: set<nat>, was: set<nat>, f: nat, f1: nat) {
    f <= f1 && forall p | p in now :: p < f1 && (p in was || f <= p)
  }

  lemma WriteHolds(pages: map<nat, Node>, t: Tree, f: nat)
    requires KidsHeld(pages, t, f)
    ensures Holds(WriteNode(pages, t), t) && Apart(t) && PidsBelow(t, f)
  {
    if t.Inner? {
      forall i | 0 <= i < |t.kids|
        ensures Holds(WriteNode(pages, t), t.kids[i])
      {
        HoldsPids(pages, t.kids[i]);
        HoldsFrame(pages, WriteNode(pages, t), t.kids[i]);
      }
    }
  }

  lemma {:induction false} HoldsPids(pages: map<nat, Node>, t: Tree)
    requires Holds(pages, t)
    ensures forall p | p in Pids(t) :: p in pages
  {
    if t.Inner? {
      forall i | 0 <= i < |t.kids|
        ensures forall p | p in Pids(t.kids[i]) :: p in pages
      {
        HoldsPids(pages, t.kids[i]);
      }
    }
  }

  /** The pages of a node: its own and those of its children. */
  lemma PidsAre(t: Tree, p: nat)
    requires t.Inner?
    ensures p in Pids(t) <==> p == t.pid || exists i :: 0 <= i < |t.kids| && p in Pids(t.kids[i])
  {
  }

  /** Some of the children of a node that has all of them. */
  lemma SomeKids(pages: map<nat, Node>, t: Tree, r: Tree, from: nat, f: nat, f1: nat)
    requires KidsHeld(pages, t, f) && t.Inner? && r.Inner? && f <= f1 && r.pid < f1
    requires from + |r.kids| <= |t.kids| && r.kids == t.kids[from..from + |r.kids|] && (r.pid == t.pid || r.pid == f)
    ensures KidsHeld(pages, r, f1) && forall p | p in Pids(r) :: p == r.pid || p in Pids(t)
  {
    assert forall i | 0 <= i < |r.kids| :: r.kids[i] == t.kids[from + i];
    forall p | p in Pids(r) && p != r.pid
      ensures p in Pids(t)
    {
      PidsAre(r, p);
      PidsAre(t, p);
    }
  }

  lemma HalvesApart(pages: map<nat, Node>, t: Tree, cap: nat, f: nat)
    requires KidsHeld(pages, t, f) && cap > 0 && t.Inner? && |t.kids| == |t.keys| + 1 && Halve(t, cap, f).0.Split?
    ensures var g := Halve(t, cap, f).0; Pids(g.left) !! Pids(g.right)
  {
    var g, mid := Halve(t, cap, f).0, |t.keys| / 2;
    assert forall i | 0 <= i < |g.left.kids| :: g.left.kids[i] == t.kids[i];
    assert forall i | 0 <= i < |g.right.kids| :: g.right.kids[i] == t.kids[mid + 1 + i];
    forall p | p in Pids(g.left)
      ensures p !in Pids(g.right)
    {
      PidsAre(g.left, p);
      PidsAre(g.right, p);
    }
  }

  lemma HalveKids(pages: map<nat, Node>, t: Tree, cap: nat, f: nat)
    requires KidsHeld(pages, t, f) && cap > 0 && (t.Inner? ==> |t.kids| == |t.keys| + 1)
    requires Halve(t, cap, f).0.Split?
    ensures var g := Halve(t, cap, f).0;
            && KidsHeld(pages, g.left, f) && KidsHeld(pages, g.right, f + 1)
            && Pids(g.left) !! Pids(g.right) && PidsGrown(g) <= Pids(t) + {f}
  {
    var g := Halve(t, cap, f).0;
    if t.Inner? {
      var mid := |t.keys| / 2;
      SomeKids(pages, t, g.left, 0, f, f);
      SomeKids(pages, t, g.right, mid + 1, f, f + 1);
      HalvesApart(pages, t, cap, f);
      assert t.pid in Pids(t);
    }
  }

  /** Writing a node, split or not, leaves the store holding the result. */
  lemma HalveHolds(pages: map<nat, Node>, t: Tree, cap: nat, f: nat)
    requires KidsHeld(pages, t, f) && cap > 0 && (t.Inner? ==> |t.kids| == |t.keys| + 1)
    ensures var (g, f1) := Halve(t, cap, f);
            && f <= f1 && HoldsGrown(WriteGrown(pages, g), g) && ApartGrown(g)
            && NewPids(PidsGrown(g), Pids(t), f, f1)
  {
    var (g, f1) := Halve(t, cap, f);
    WriteHolds(pages, t, f);
    if g.Split? {
      HalveKids(pages, t, cap, f);
      WriteHolds(pages, g.left, f);
      KidsWritten(pages, g.left, g.right, f + 1);
      WriteHolds(WriteNode(pages, g.left), g.right, f + 1);
      HoldsPids(WriteNode(pages, g.left), g.left);
      HoldsFrame(WriteNode(pages, g.left), WriteGrown(pages, g), g.left);
    }
  }

  lemma KidsWritten(pages: map<nat, Node>, l: Tree, r: Tree, f: nat)
    requires KidsHeld(pages, r, f) && l.pid !in Pids(r)
    ensures KidsHeld(WriteNode(pages, l), r, f)
  {
    if r.Inner? {
      forall i | 0 <= i < |r.kids|
        ensures Holds(WriteNode(pages, l), r.kids[i])
      {
        KidPids(r, i);
        HoldsPids(pages, r.kids[i]);
        HoldsFrame(pages, WriteNode(pages, l), r.kids[i]);
      }
    }
  }

  // ----- after a child has changed -----

  /** Pages outside the child are as before. */
  ghost predicate SameOutside(a: map<nat, Node>, b: map<nat, Node>, t: Tree) {
    forall p | p in a && p !in Pids(t) :: p in b && b[p] == a[p]
  }

  lemma SiblingHeld(a: map<nat, Node>, b: map<nat, Node>, t: Tree, i: nat, j: nat)
    requires Holds(a, t) && Apart(t) && t.Inner? && i < |t.kids| && j < |t.kids| && i != j
             && SameOutside(a, b, t.kids[i])
    ensures Holds(b, t.kids[j])
  {
    HoldsPids(a, t.kids[j]);
    assert Pids(t.kids[i]) !! Pids(t.kids[j]);
    HoldsFrame(a, b, t.kids[j]);
  }

  /** What the children of a node with grafted child are: old siblings, and the parts of the child. */
  ghost function Parts(g: Grown): seq<Tree> {
    if g.Fit? then [g.tree] else [g.left, g.right]
  }

  lemma PartsHeld(b: map<nat, Node>, g: Grown, k: nat)
    requires HoldsGrown(b, g) && ApartGrown(g) && k < |Parts(g)|
    ensures Holds(b, Parts(g)[k]) && Apart(Parts(g)[k]) && Pids(Parts(g)[k]) <= PidsGrown(g)
  {
  }

  lemma GraftIs(t: Tree, i: nat, g: Grown, j: nat) returns (k: nat, part: bool)
    requires t.Inner? && i < |t.kids| == |t.keys| + 1 && j < |Graft(t, i, g).kids|
    ensures if part then k < |Parts(g)| && j == i + k && Graft(t, i, g).kids[j] == Parts(g)[k]
            else
              && k < |t.kids| && k != i && Graft(t, i, g).kids[j] == t.kids[k]
              && j == (if k < i then k else k + |Parts(g)| - 1)
  {
    var n := |Parts(g)|;
    if j < i {
      k, part := j, false;
    } else if j < i + n {
      k, part := j - i, true;
    } else {
      k, part := j - n + 1, false;
    }
  }

  ghost predicate GraftReady(a: map<nat, Node>, b: map<nat, Node>, t: Tree, i: nat, g: Grown, f: nat, f1: nat) {
    && Holds(a, t) && Apart(t) && PidsBelow(t, f) && t.Inner? && i < |t.kids| == |t.keys| + 1
    && SameOutside(a, b, t.kids[i]) && HoldsGrown(b, g) && ApartGrown(g)
        && NewPids(PidsGrown(g), Pids(t.kids[i]), f, f1)
  }

  lemma GraftKid(a: map<nat, Node>, b: map<nat, Node>, t: Tree, i: nat, g: Grown, f: nat, f1: nat, j: nat)
    requires GraftReady(a, b, t, i, g, f, f1) && j < |Graft(t, i, g).kids|
    ensures var k := Graft(t, i, g).kids[j];
            Holds(b, k) && Apart(k) && PidsBelow(k, f1) && t.pid !in Pids(k) && NewPids(Pids(k), Pids(t), f, f1)
  {
    var k, part := GraftIs(t, i, g, j);
    KidPids(t, i);
    if part {
      PartsHeld(b, g, k);
    } else {
      KidPids(t, k);
      SiblingHeld(a, b, t, i, k);
    }
  }

  lemma GraftApart(a: map<nat, Node>, b: map<nat, Node>, t: Tree, i: nat, g: Grown, f: nat, f1: nat, j: nat, l: nat)
    requires GraftReady(a, b, t, i, g, f, f1) && j < l < |Graft(t, i, g).kids|
    ensures Pids(Graft(t, i, g).kids[j]) !! Pids(Graft(t, i, g).kids[l])
  {
    var k, part := GraftIs(t, i, g, j);
    var m, other := GraftIs(t, i, g, l);
    if part { PartsHeld(b, g, k); } else { KidPids(t, k); }
    if other { PartsHeld(b, g, m); } else { KidPids(t, m); }
    if part && !other {
      assert Pids(t.kids[i]) !! Pids(t.kids[m]);
    } else if other && !part {
      assert Pids(t.kids[k]) !! Pids(t.kids[i]);
    }
  }

  lemma GraftHeld(a: map<nat, Node>, b: map<nat, Node>, t: Tree, i: nat, g: Grown, f: nat, f1: nat)
    requires GraftReady(a, b, t, i, g, f, f1)
    ensures KidsHeld(b, Graft(t, i, g), f1) && NewPids(Pids(Graft(t, i, g)), Pids(t), f, f1)
  {
    var r := Graft(t, i, g);
    forall j | 0 <= j < |r.kids|
      ensures Holds(b, r.kids[j]) && Apart(r.kids[j]) && PidsBelow(r.kids[j], f1) && r.pid !in Pids(r.kids[j])
      ensures NewPids(Pids(r.kids[j]), Pids(t), f, f1)
    {
      GraftKid(a, b, t, i, g, f, f1, j);
    }
    forall j, l | 0 <= j < l < |r.kids|
      ensures Pids(r.kids[j]) !! Pids(r.kids[l])
    {
      GraftApart(a, b, t, i, g, f, f1, j, l);
    }
    assert t.pid in Pids(t);
    forall p | p in Pids(r)
      ensures p < f1 && (p in Pids(t) || f <= p)
    {
      PidsAre(r, p);
    }
  }

  // ----- the pages an insert writes -----

  function Stored(pages: map<nat, Node>, t: Tree, d: nat, e: Entry, dup: bool, cap: nat, f: nat): map<nat, Node>
    requires cap > 0 && Shaped(t, d)
    decreases d
  {
    if t.Leaf? then WriteGrown(pages, Halve(LeafPut(t, e, dup), cap, f).0)
    else
      var i := Route(t.keys, e.key);
      var (g, f1) := Insert(t.kids[i], d - 1, e, dup, cap, f);
      WriteGrown(Stored(pages, t.kids[i], d - 1, e, dup, cap, f), Halve(Graft(t, i, g), cap, f1).0)
  }

  ghost predicate AllBelow(pages: map<nat, Node>, f: nat) {
    forall p | p in pages :: p < f
  }

  /** A tree in the store, every node on its own page. */
  ghost predicate InStore(pages: map<nat, Node>, t: Tree, f: nat) {
    Holds(pages, t) && Apart(t) && PidsBelow(t, f) && AllBelow(pages, f)
  }

  function TopPid(g: Grown): nat {
    match g
    case Fit(t) => t.pid
    case Split(l, _, _) => l.pid
  }

  lemma LeafHeld(pages: map<nat, Node>, t: Tree, f: nat)
    requires t.Leaf? && t.pid < f
    ensures KidsHeld(pages, t, f) && Pids(t) == {t.pid}
  {
  }

  lemma WriteOutside(pages: map<nat, Node>, t: Tree, cap: nat, f: nat)
    requires cap > 0 && (t.Inner? ==> |t.kids| == |t.keys| + 1) && AllBelow(pages, f) && t.pid < f
    ensures var (g, f1) := Halve(t, cap, f); var b := WriteGrown(pages, g);
            && TopPid(g) == t.pid && AllBelow(b, f1)
            && forall p | p in pages && p != t.pid :: p in b && b[p] == pages[p]
  {
  }

  /** Everything an insert leaves is in the store, and no page outside the subtree changes. */
  ghost predicate StoredOk(a: map<nat, Node>, b: map<nat, Node>, t: Tree, g: Grown, f: nat, f1: nat) {
    && HoldsGrown(b, g) && ApartGrown(g) && NewPids(PidsGrown(g), Pids(t), f, f1) && SameOutside(a, b, t)
        && AllBelow(b, f1)
    && TopPid(g) == t.pid
  }

  lemma StoredTop(a: map<nat, Node>, b: map<nat, Node>, t: Tree, r: Tree, cap: nat, f: nat, f1: nat)
    requires cap > 0 && (r.Inner? ==> |r.kids| == |r.keys| + 1) && r.pid == t.pid
    requires KidsHeld(b, r, f1) && NewPids(Pids(r), Pids(t), f, f1) && AllBelow(b, f1) && SameOutside(a, b, t)
    ensures var (g, f2) := Halve(r, cap, f1); StoredOk(a, WriteGrown(b, g), t, g, f, f2)
  {
    HalveHolds(b, r, cap, f1);
    WriteOutside(b, r, cap, f1);
    assert t.pid in Pids(t);
  }

  lemma StoredInner(a: map<nat, Node>, b: map<nat, Node>, t: Tree, i: nat, g: Grown, cap: nat, f: nat, f1: nat)
    requires cap > 0 && t.Inner? && i < |t.kids| == |t.keys| + 1 && InStore(a, t, f)
             && StoredOk(a, b, t.kids[i], g, f, f1)
    ensures var (h, f2) := Halve(Graft(t, i, g), cap, f1); StoredOk(a, WriteGrown(b, h), t, h, f, f2)
  {
    KidPids(t, i);
    GraftHeld(a, b, t, i, g, f, f1);
    StoredTop(a, b, t, Graft(t, i, g), cap, f, f1);
  }

  lemma StoredLeaf(a: map<nat, Node>, t: Tree, e: Entry, dup: bool, cap: nat, f: nat)
    requires cap > 0 && t.Leaf? && InStore(a, t, f)
    ensures var (g, f1) := Halve(LeafPut(t, e, dup), cap, f); StoredOk(a, WriteGrown(a, g), t, g, f, f1)
  {
    var l := LeafPut(t, e, dup);
    assert t.pid in Pids(t);
    LeafHeld(a, l, f);
    StoredTop(a, a, t, l, cap, f, f);
  }

  lemma KidInStore(a: map<nat, Node>, t: Tree, f: nat, i: nat)
    requires InStore(a, t, f) && t.Inner? && i < |t.kids|
    ensures InStore(a, t.kids[i], f)
  {
    KidPids(t, i);
  }

  ghost predicate InsertOk(pages: map<nat, Node>, t: Tree, d: nat, e: Entry, dup: bool, cap: nat, f: nat)
    requires cap > 0 && Shaped(t, d)
  {
    var r := Insert(t, d, e, dup, cap, f);
    StoredOk(pages, Stored(pages, t, d, e, dup, cap, f), t, r.0, f, r.1)
  }

  /** The same, for use as one fact. */
  ghost predicate InsertDone(pages: map<nat, Node>, t: Tree, d: nat, e: Entry, dup: bool, cap: nat, f: nat)
    requires cap > 0 && Shaped(t, d)
  {
    forall z: nat | z == f :: InsertOk(pages, t, d, e, dup, cap, z)
  }

  lemma InsertInner(pages: map<nat, Node>, t: Tree, d: nat, e: Entry, dup: bool, cap: nat, f: nat)
    requires cap > 0 && t.Inner? && Shaped(t, d) && InStore(pages, t, f)
    requires InsertDone(pages, t.kids[Route(t.keys, e.key)], d - 1, e, dup, cap, f)
    ensures InsertOk(pages, t, d, e, dup, cap, f)
  {
    var i := Route(t.keys, e.key);
    var r := Insert(t.kids[i], d - 1, e, dup, cap, f);
    assert InsertOk(pages, t.kids[i], d - 1, e, dup, cap, f);
    InsertUp(pages, Stored(pages, t.kids[i], d - 1, e, dup, cap, f), t, i, r.0, cap, f, r.1);
    InsertIs(pages, t, d, e, dup, cap, f);
  }

  lemma InsertUp(a: map<nat, Node>, b: map<nat, Node>, t: Tree, i: nat, g: Grown, cap: nat, f: nat, f1: nat)
    requires cap > 0 && t.Inner? && i < |t.kids| == |t.keys| + 1 && InStore(a, t, f)
             && StoredOk(a, b, t.kids[i], g, f, f1)
    ensures StoredOk(a, WriteGrown(b, Halve(Graft(t, i, g), cap, f1).0), t, Halve(Graft(t, i, g), cap, f1).0, f,
                     Halve(Graft(t, i, g), cap, f1).1)
  {
    StoredInner(a, b, t, i, g, cap, f, f1);
  }

  lemma InsertIs(pages: map<nat, Node>, t: Tree, d: nat, e: Entry, dup: bool, cap: nat, f: nat)
    requires cap > 0 && t.Inner? && Shaped(t, d)
    ensures var i := Route(t.keys, e.key); var r := Insert(t.kids[i], d - 1, e, dup, cap, f);
            && Insert(t, d, e, dup, cap, f) == Halve(Graft(t, i, r.0), cap, r.1)
            && Stored(pages, t, d, e, dup, cap, f) ==
               WriteGrown(Stored(pages, t.kids[i], d - 1, e, dup, cap, f), Halve(Graft(t, i, r.0), cap, r.1).0)
  {
  }

  lemma {:induction false} InsertStored(pages: map<nat, Node>, t: Tree, d: nat, e: Entry, dup: bool, cap: nat, f: nat)
    requires cap > 0 && Shaped(t, d) && InStore(pages, t, f)
    ensures InsertDone(pages, t, d, e, dup, cap, f)
    decreases d
  {
    if t.Leaf? {
      StoredLeaf(pages, t, e, dup, cap, f);
    } else {
      KidInStore(pages, t, f, Route(t.keys, e.key));
      InsertStored(pages, t.kids[Route(t.keys, e.key)], d - 1, e, dup, cap, f);
      InsertInner(pages, t, d, e, dup, cap, f);
    }
  }

  function StoredRoot(pages: map<nat, Node>, t: Tree, d: nat, e: Entry, dup: bool, cap: nat, f: nat): map<nat, Node>
    requires cap > 0 && Shaped(t, d)
  {
    var b := Stored(pages, t, d, e, dup, cap, f);
    if Insert(t, d, e, dup, cap, f).0.Split? then WriteNode(b, InsertRoot(t, d, e, dup, cap, f).0) else b
  }

  function RootOf(g: Grown, f: nat): Tree {
    if g.Fit? then g.tree else Inner(f, [g.sep], [g.left, g.right])
  }

  lemma RootFits(a: map<nat, Node>, b: map<nat, Node>, t: Tree, g: Grown, f: nat, f1: nat)
    requires StoredOk(a, b, t, g, f, f1) && 0 < f && 0 !in Pids(t) && g.Fit?
    ensures 0 < f1 && 0 !in Pids(g.tree) && InStore(b, g.tree, f1)
  {
  }

  lemma RootSplits(a: map<nat, Node>, b: map<nat, Node>, t: Tree, g: Grown, f: nat, f1: nat)
    requires StoredOk(a, b, t, g, f, f1) && 0 < f && 0 !in Pids(t) && g.Split?
    ensures 0 !in Pids(RootOf(g, f1)) && InStore(WriteNode(b, RootOf(g, f1)), RootOf(g, f1), f1 + 1)
  {
    var r := RootOf(g, f1);
    WriteHolds(b, r, f1 + 1);
    PidsAre(r, 0);
  }

  lemma RootStored(pages: map<nat, Node>, t: Tree, d: nat, e: Entry, dup: bool, cap: nat, f: nat)
    requires cap > 0 && Shaped(t, d) && InStore(pages, t, f) && 0 < f && 0 !in Pids(t)
    ensures var r := InsertRoot(t, d, e, dup, cap, f);
            0 < r.1 && 0 !in Pids(r.0) && InStore(StoredRoot(pages, t, d, e, dup, cap, f), r.0, r.1)
  {
    InsertStored(pages, t, d, e, dup, cap, f);
    assert InsertOk(pages, t, d, e, dup, cap, f);
    var r := Insert(t, d, e, dup, cap, f);
    if r.0.Fit? {
      RootFits(pages, Stored(pages, t, d, e, dup, cap, f), t, r.0, f, r.1);
    } else {
      RootSplits(pages, Stored(pages, t, d, e, dup, cap, f), t, r.0, f, r.1);
    }
  }
}
