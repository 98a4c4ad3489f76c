/** What each change of a node keeps in the heap of src/cbtree.c. */
module CbHeap {
  import opened Wrappers
  import opened Keys
  import opened CbTree

  // ----- ranges -----

  lemma SlotRange(n: Node, i: nat, k: int)
    requires NodeOk(n) && n.level > 0 && i <= |n.keys| && AtLeast(LoAt(n.keys, i, n.lo), k)
    requires Under(k, HiAt(n.keys, i, n.hi))
    ensures InRange(n, k)
  {
  }

  /** The slot a key routes to is the one whose range holds it. */
  lemma RouteSlot(n: Node, k: int)
    requires NodeOk(n) && InRange(n, k)
    ensures var i := Route(n.keys, k); AtLeast(LoAt(n.keys, i, n.lo), k) && Under(k, HiAt(n.keys, i, n.hi))
  {
  }

  lemma SlotsApart(n: Node, i: nat, j: nat, k: int)
    requires NodeOk(n) && n.level > 0 && i <= |n.keys| && j <= |n.keys|
    requires AtLeast(LoAt(n.keys, i, n.lo), k) && Under(k, HiAt(n.keys, i, n.hi))
    requires AtLeast(LoAt(n.keys, j, n.lo), k) && Under(k, HiAt(n.keys, j, n.hi))
    ensures i == j
  {
  }

  /** A child, even one just split, lies inside its slot. */
  lemma ChildInSlot(s: State, c: nat, level: nat, lo: Option<int>, hi: Option<int>, k: int)
    requires Covers(s, c, level, lo, hi) && InRange(s.nodes[c], k)
    requires c in s.splits ==> NodeOk(s.nodes[s.splits[c]])
    ensures AtLeast(lo, k) && Under(k, hi)
  {
    if c in s.splits {
      var x :| InRange(s.nodes[s.splits[c]], x);
    }
  }

  lemma KidRange(s: State, p: nat, i: nat, k: int)
    requires AllGood(s) && p in s.nodes && s.nodes[p].level > 0 && i < |s.nodes[p].kids|
             && s.nodes[p].kids[i] in s.nodes
    requires InRange(s.nodes[s.nodes[p].kids[i]], k)
    ensures i <= |s.nodes[p].keys| && AtLeast(LoAt(s.nodes[p].keys, i, s.nodes[p].lo), k)
            && Under(k, HiAt(s.nodes[p].keys, i, s.nodes[p].hi))
            && InRange(s.nodes[p], k)
  {
    var n := s.nodes[p];
    assert Good(s, p) && KidOk(s, p, i);
    if n.kids[i] in s.splits { assert Good(s, s.splits[n.kids[i]]); }
    ChildInSlot(s, n.kids[i], n.level - 1, LoAt(n.keys, i, n.lo), HiAt(n.keys, i, n.hi), k);
    SlotRange(n, i, k);
  }

  /** A node is the child of one slot only. */
  lemma OneParent(s: State, p: nat, i: nat, q: nat, j: nat)
    requires AllGood(s) && AllApart(s) && p in s.nodes && q in s.nodes && s.nodes[p].level > 0 && s.nodes[q].level > 0
    requires i < |s.nodes[p].kids| && j < |s.nodes[q].kids| && s.nodes[p].kids[i] == s.nodes[q].kids[j]
    ensures p == q && i == j
  {
    var c := s.nodes[p].kids[i];
    assert Good(s, p) && Good(s, q) && KidOk(s, p, i) && KidOk(s, q, j);
    assert Good(s, c);
    var k :| InRange(s.nodes[c], k);
    KidRange(s, p, i, k);
    KidRange(s, q, j, k);
    assert p != q ==> Apart(s.nodes[p], s.nodes[q]);
    if p == q { SlotsApart(s.nodes[p], i, j, k); }
  }

  lemma RootNotChild(s: State, p: nat)
    requires HeapOk(s) && p in s.nodes
    ensures s.root !in s.nodes[p].kids
  {
    var n := s.nodes[p];
    assert Good(s, p);
    forall i | 0 <= i < |n.kids|
      ensures n.kids[i] != s.root
    {
      assert KidOk(s, p, i);
    }
  }

  // ----- changing a node without changing its range -----

  /** Node c gets other contents on the same range. */
  ghost predicate Refilled(s: State, c: nat, n: Node) {
    && c in s.nodes && NodeOk(n) && n.level == s.nodes[c].level && n.lo == s.nodes[c].lo && n.hi == s.nodes[c].hi
  }

  lemma CoversKept(s: State, s2: State, c: nat, level: nat, lo: Option<int>, hi: Option<int>)
    requires Covers(s, c, level, lo, hi)
    requires forall n | n in s.nodes ::
             n in s2.nodes && s2.nodes[n].level == s.nodes[n].level
             && s2.nodes[n].lo == s.nodes[n].lo && s2.nodes[n].hi == s.nodes[n].hi
    requires (c in s2.splits <==> c in s.splits) && (c in s.splits ==> s2.splits[c] == s.splits[c])
    ensures Covers(s2, c, level, lo, hi)
  {
  }

  /** Children keep covering their slots when ranges and unfinished splits stay. */
  lemma GoodKept(s: State, s2: State, p: nat)
    requires p in s.nodes && p in s2.nodes && s2.nodes[p] == s.nodes[p] && Good(s, p)
    requires forall n | n in s.nodes ::
             n in s2.nodes && s2.nodes[n].level == s.nodes[n].level
             && s2.nodes[n].lo == s.nodes[n].lo && s2.nodes[n].hi == s.nodes[n].hi
    requires forall c | c in s.nodes[p].kids ::
             (c in s2.splits <==> c in s.splits)
             && (c in s.splits ==> s2.splits[c] == s.splits[c])
    ensures Good(s2, p)
  {
    var n := s.nodes[p];
    if n.level > 0 {
      forall i: nat | i < |n.kids|
        ensures KidOk(s2, p, i)
      {
        assert KidOk(s, p, i);
        CoversKept(s, s2, n.kids[i], n.level - 1, LoAt(n.keys, i, n.lo), HiAt(n.keys, i, n.hi));
      }
    }
  }

  lemma HeapRefill(s: State, c: nat, n: Node)
    requires HeapOk(s) && Refilled(s, c, n) && n.level == 0
    ensures HeapOk(s.(nodes := s.nodes[c := n]))
  {
    var s2 := s.(nodes := s.nodes[c := n]);
    forall p: nat | p in s2.nodes
      ensures Good(s2, p)
    {
      assert Good(s, p);
      if p != c { GoodKept(s, s2, p); }
    }
    CoversKept(s, s2, s.root, s.nodes[s.root].level, None, None);
    RefillApart(s, c, n);
  }

  lemma RefillApart(s: State, c: nat, n: Node)
    requires AllApart(s) && Refilled(s, c, n)
    ensures AllApart(s.(nodes := s.nodes[c := n]))
  {
    var s2 := s.(nodes := s.nodes[c := n]);
    forall a: nat, b: nat | a in s2.nodes && b in s2.nodes && a != b
      ensures Apart(s2.nodes[a], s2.nodes[b])
    {
      assert Apart(s.nodes[a], s.nodes[b]);
    }
  }

  /** A key inserted at its place in ascending keys. */
  lemma InsertUp(keys: seq<int>, i: nat, k: int)
    requires StrictlyUp(keys) && i <= |keys| && (i > 0 ==> keys[i - 1] < k) && (i < |keys| ==> k < keys[i])
    ensures StrictlyUp(keys[..i] + [k] + keys[i..])
  {
    var r := keys[..i] + [k] + keys[i..];
    assert forall j | 0 <= j < |r| :: r[j] == if j < i then keys[j] else if j == i then k else keys[j - 1];
  }

  ghost predicate KeysInside(n: Node, keys: seq<int>) {
    forall i | 0 <= i < |keys| :: InRange(n, keys[i]) && (n.level > 0 && n.lo.Some? ==> n.lo.value < keys[i])
  }

  lemma InsertInside(n: Node, keys: seq<int>, i: nat, k: int)
    requires KeysInside(n, keys) && i <= |keys| && InRange(n, k) && (n.level > 0 && n.lo.Some? ==> n.lo.value < k)
    ensures KeysInside(n, keys[..i] + [k] + keys[i..])
  {
  }

  /** Other keys on the same range. */
  lemma RekeyOk(n: Node, m: Node)
    requires NodeOk(n) && Shaped(m) && m.level == n.level && m.lo == n.lo && m.hi == n.hi && StrictlyUp(m.keys)
             && KeysInside(n, m.keys)
    ensures NodeOk(m)
  {
    var k :| InRange(n, k);
    assert InRange(m, k);
  }

  lemma PutOk(n: Node, key: int, val: int)
    requires NodeOk(n) && n.level == 0 && InRange(n, key)
    ensures var m := PutLeaf(n, key, val);
            NodeOk(m) && m.level == 0 && m.lo == n.lo && m.hi == n.hi
            && |m.keys| <= |n.keys| + 1
  {
    var i := RouteLeft(n.keys, key);
    assert KeysInside(n, n.keys);
    if !(i < |n.keys| && n.keys[i] == key) {
      InsertUp(n.keys, i, key);
      InsertInside(n, n.keys, i, key);
    }
    RekeyOk(n, PutLeaf(n, key, val));
  }

  // ----- splitting a node -----

  lemma LeafHalves(n: Node)
    requires NodeOk(n) && n.level == 0 && |n.keys| > 1
    ensures NodeOk(LeftHalf(n)) && NodeOk(RightHalf(n))
  {
    var m, l, r := |n.keys| / 2, LeftHalf(n), RightHalf(n);
    assert InRange(n, n.keys[0]) && InRange(n, n.keys[m]);
    assert InRange(l, n.keys[0]) && InRange(r, n.keys[m]);
    assert forall i | 0 <= i < |r.keys| :: r.keys[i] == n.keys[m + i];
  }

  lemma InnerHalves(n: Node)
    requires NodeOk(n) && n.level > 0 && |n.keys| > 1
    ensures NodeOk(LeftHalf(n)) && NodeOk(RightHalf(n))
  {
    var m, l, r := |n.keys| / 2, LeftHalf(n), RightHalf(n);
    assert InRange(n, n.keys[0]) && InRange(n, n.keys[m]);
    assert InRange(l, n.keys[0]) && InRange(r, n.keys[m]);
    assert forall i | 0 <= i < |r.keys| :: r.keys[i] == n.keys[m + 1 + i];
  }

  /** The halves divide the range of the node at the middle key. */
  lemma HalfRanges(n: Node, k: int)
    requires NodeOk(n) && |n.keys| > 1
    ensures InRange(n, MidKey(n))
    ensures InRange(LeftHalf(n), k) <==> InRange(n, k) && k < MidKey(n)
    ensures InRange(RightHalf(n), k) <==> InRange(n, k) && MidKey(n) <= k
  {
  }

  /** Nodes as they may be when one of them is split: not half of another unfinished split. */
  ghost predicate Splittable(s: State, c: nat) {
    && c in s.nodes && |s.nodes[c].keys| > 1 && c !in s.splits && forall x | x in s.splits :: s.splits[x] != c
  }

  lemma CoversSplit(s: State, c: nat, x: nat, level: nat, lo: Option<int>, hi: Option<int>)
    requires Splittable(s, c) && Shaped(s.nodes[c]) && s.next !in s.nodes && Covers(s, x, level, lo, hi)
    ensures Covers(SplitNode(s, c), x, level, lo, hi)
  {
  }

  /** The children of a half are children of the whole, in the same slots. */
  lemma HalfSlots(n: Node, right: bool, i: nat)
    requires NodeOk(n) && n.level > 0 && |n.keys| > 1
    requires i < |(if right then RightHalf(n) else LeftHalf(n)).kids|
    ensures var b := if right then RightHalf(n) else LeftHalf(n); var o := if right then |n.keys| / 2 + 1 + i else i;
            i <= |b.keys| && o < |n.kids| && b.kids[i] == n.kids[o] && LoAt(b.keys, i, b.lo) == LoAt(n.keys, o, n.lo)
                && HiAt(b.keys, i, b.hi) == HiAt(n.keys, o, n.hi)
  {
  }

  lemma HalfKids(s: State, c: nat, right: bool)
    requires Splittable(s, c) && s.next !in s.nodes && Good(s, c)
    ensures var s2 := SplitNode(s, c); var p := if right then s.next else c; Good(s2, p)
  {
    var s2, n, p := SplitNode(s, c), s.nodes[c], if right then s.next else c;
    var b := if right then RightHalf(n) else LeftHalf(n);
    assert s2.nodes[p] == b;
    if n.level == 0 {
      LeafHalves(n);
    } else {
      InnerHalves(n);
      forall i: nat | i < |b.kids|
        ensures KidOk(s2, p, i)
      {
        HalfSlots(n, right, i);
        var o := if right then |n.keys| / 2 + 1 + i else i;
        assert KidOk(s, c, o);
        CoversSplit(s, c, n.kids[o], n.level - 1, LoAt(n.keys, o, n.lo), HiAt(n.keys, o, n.hi));
      }
    }
  }

  lemma SplitKids(s: State, c: nat, p: nat)
    requires Splittable(s, c) && Shaped(s.nodes[c]) && s.next !in s.nodes && p in s.nodes && p != c && Good(s, p)
    ensures var s2 := SplitNode(s, c); p in s2.nodes && Good(s2, p)
  {
    var s2, n := SplitNode(s, c), s.nodes[p];
    if n.level > 0 {
      forall i: nat | i < |n.kids|
        ensures KidOk(s2, p, i)
      {
        assert KidOk(s, p, i);
        CoversSplit(s, c, n.kids[i], n.level - 1, LoAt(n.keys, i, n.lo), HiAt(n.keys, i, n.hi));
      }
    }
  }

  lemma SplitApart(s: State, c: nat, a: nat, b: nat)
    requires AllApart(s) && Splittable(s, c) && NodeOk(s.nodes[c]) && s.next !in s.nodes
    requires a in SplitNode(s, c).nodes && b in SplitNode(s, c).nodes && a != b
    ensures Apart(SplitNode(s, c).nodes[a], SplitNode(s, c).nodes[b])
  {
    var s2, n := SplitNode(s, c), s.nodes[c];
    var x, y := if a == s.next then c else a, if b == s.next then c else b;
    assert x != y ==> Apart(s.nodes[x], s.nodes[y]);
    forall k: int
      ensures InRange(s2.nodes[a], k) ==> InRange(s.nodes[x], k)
      ensures InRange(s2.nodes[b], k) ==> InRange(s.nodes[y], k)
      ensures x == y ==> !(InRange(s2.nodes[a], k) && InRange(s2.nodes[b], k))
    {
      HalfRanges(n, k);
    }
  }

  lemma SplitGood(s: State, c: nat)
    requires AllGood(s) && Splittable(s, c) && s.next !in s.nodes
    ensures Shaped(s.nodes[c]) && AllGood(SplitNode(s, c))
  {
    assert Good(s, c);
    var s2 := SplitNode(s, c);
    forall p: nat | p in s2.nodes
      ensures Good(s2, p)
    {
      if p == c || p == s.next {
        HalfKids(s, c, p == s.next);
      } else {
        assert Good(s, p);
        SplitKids(s, c, p);
      }
    }
  }

  lemma HeapSplit(s: State, c: nat)
    requires HeapOk(s) && Splittable(s, c)
    ensures Shaped(s.nodes[c]) && HeapOk(SplitNode(s, c))
  {
    assert Good(s, c);
    var s2 := SplitNode(s, c);
    SplitGood(s, c);
    forall a: nat, b: nat | a in s2.nodes && b in s2.nodes && a != b
      ensures Apart(s2.nodes[a], s2.nodes[b])
    {
      SplitApart(s, c, a, b);
    }
    CoversSplit(s, c, s.root, s.nodes[s.root].level, None, None);
  }

  // ----- telling the parent -----

  /** Child i of p was split at `sep`, and the right half is known to nobody. */
  ghost predicate Raisable(s: State, p: nat, i: nat, sep: int, right: nat) {
    && p in s.nodes && s.nodes[p].level > 0 && i < |s.nodes[p].kids| && s.nodes[p].kids[i] in s.splits
    && var c := s.nodes[p].kids[i];
       s.splits[c] == right && right !in s.splits && c in s.nodes && s.nodes[c].hi == Some(sep)
  }

  function Raised(s: State, p: nat, c: nat, sep: int, right: nat): State
    requires p in s.nodes && |s.nodes[p].kids| == |s.nodes[p].keys| + 1
  {
    s.(nodes := s.nodes[p := AddKid(s.nodes[p], sep, right)], splits := s.splits - {c})
  }

  /** The separator belongs right after the child that was split. */
  lemma SepSlot(s: State, p: nat, i: nat, sep: int, right: nat)
    requires AllGood(s) && Raisable(s, p, i, sep, right)
    ensures var n := s.nodes[p];
            Shaped(n) && RouteLeft(n.keys, sep) == i && InRange(n, sep)
            && (n.lo.Some? ==> n.lo.value < sep)
    ensures var n := s.nodes[p]; (i > 0 ==> n.keys[i - 1] < sep) && (i < |n.keys| ==> sep < n.keys[i])
  {
    var n, c := s.nodes[p], s.nodes[p].kids[i];
    assert Good(s, p) && KidOk(s, p, i) && Good(s, c) && Good(s, right);
    var k :| InRange(s.nodes[c], k);
    var m :| InRange(s.nodes[right], m);
    KidRange(s, p, i, k);
    assert InRange(s.nodes[right], sep);
    SlotRange(n, i, sep);
  }

  lemma AddedOk(n: Node, i: nat, sep: int, right: nat)
    requires NodeOk(n) && n.level > 0 && RouteLeft(n.keys, sep) == i && InRange(n, sep)
    requires (n.lo.Some? ==> n.lo.value < sep)
    requires (i > 0 ==> n.keys[i - 1] < sep) && (i < |n.keys| ==> sep < n.keys[i])
    ensures NodeOk(AddKid(n, sep, right))
  {
    assert KeysInside(n, n.keys);
    InsertUp(n.keys, i, sep);
    InsertInside(n, n.keys, i, sep);
    RekeyOk(n, AddKid(n, sep, right));
  }

  /** The slots of the parent after it was told: the old ones, with slot i cut at the separator. */
  lemma AddedSlots(n: Node, i: nat, sep: int, right: nat, j: nat)
    requires Shaped(n) && n.level > 0 && i < |n.kids| && RouteLeft(n.keys, sep) == i && j < |AddKid(n, sep, right).kids|
    ensures var m := AddKid(n, sep, right); var o := if j <= i then j else j - 1;
            && j <= |m.keys| && o < |n.kids| && m.kids[j] == (if j == i + 1 then right else n.kids[o])
            && LoAt(m.keys, j, m.lo) == (if j == i + 1 then Some(sep) else LoAt(n.keys, o, n.lo))
            && HiAt(m.keys, j, m.hi) == (if j == i then Some(sep) else HiAt(n.keys, o, n.hi))
  {
    var m := AddKid(n, sep, right);
    if j < |m.keys| { assert m.keys[j] == if j < i then n.keys[j] else if j == i then sep else n.keys[j - 1]; }
    if 0 < j { assert m.keys[j - 1] == if j - 1 < i then n.keys[j - 1] else if j - 1 == i then sep else n.keys[j - 2]; }
  }

  lemma AddedKid(s: State, p: nat, i: nat, sep: int, right: nat, j: nat)
    requires AllGood(s) && AllApart(s) && Raisable(s, p, i, sep, right) && Shaped(s.nodes[p])
             && RouteLeft(s.nodes[p].keys, sep) == i
    requires j < |AddKid(s.nodes[p], sep, right).kids| && j <= |AddKid(s.nodes[p], sep, right).keys|
    ensures KidOk(Raised(s, p, s.nodes[p].kids[i], sep, right), p, j)
  {
    var n, c := s.nodes[p], s.nodes[p].kids[i];
    var s2, o := Raised(s, p, c, sep, right), if j <= i then j else j - 1;
    AddedSlots(n, i, sep, right, j);
    assert Good(s, p) && KidOk(s, p, i) && KidOk(s, p, o);
    if o != i {
      if n.kids[o] == c { OneParent(s, p, o, p, i); }
      CoversKept(s, s2, n.kids[o], n.level - 1, LoAt(n.keys, o, n.lo), HiAt(n.keys, o, n.hi));
    }
  }

  lemma AddedGood(s: State, p: nat, i: nat, sep: int, right: nat)
    requires AllGood(s) && AllApart(s) && Raisable(s, p, i, sep, right)
    ensures Shaped(s.nodes[p]) && Good(Raised(s, p, s.nodes[p].kids[i], sep, right), p)
  {
    assert Good(s, p);
    SepSlot(s, p, i, sep, right);
    AddedOk(s.nodes[p], i, sep, right);
    forall j: nat | j < |AddKid(s.nodes[p], sep, right).kids|
      ensures KidOk(Raised(s, p, s.nodes[p].kids[i], sep, right), p, j)
    {
      AddedKid(s, p, i, sep, right, j);
    }
  }

  lemma OtherKids(s: State, p: nat, i: nat, sep: int, right: nat, q: nat)
    requires AllGood(s) && AllApart(s) && Raisable(s, p, i, sep, right) && Shaped(s.nodes[p]) && q in s.nodes && q != p
    ensures Good(Raised(s, p, s.nodes[p].kids[i], sep, right), q)
  {
    var n, c := s.nodes[q], s.nodes[p].kids[i];
    assert Good(s, q);
    forall j | 0 <= j < |n.kids|
      ensures n.kids[j] != c
    {
      if n.kids[j] == c { OneParent(s, q, j, p, i); }
    }
    GoodKept(s, Raised(s, p, c, sep, right), q);
  }

  lemma RaisedApart(s: State, p: nat, i: nat, sep: int, right: nat)
    requires AllApart(s) && p in s.nodes && Shaped(s.nodes[p]) && s.nodes[p].level > 0 && i < |s.nodes[p].kids|
    ensures AllApart(Raised(s, p, s.nodes[p].kids[i], sep, right))
  {
    var s2 := Raised(s, p, s.nodes[p].kids[i], sep, right);
    forall a: nat, b: nat | a in s2.nodes && b in s2.nodes && a != b
      ensures Apart(s2.nodes[a], s2.nodes[b])
    {
      assert Apart(s.nodes[a], s.nodes[b]);
    }
  }

  lemma RaisedGood(s: State, p: nat, i: nat, sep: int, right: nat)
    requires AllGood(s) && AllApart(s) && Raisable(s, p, i, sep, right)
    ensures Shaped(s.nodes[p]) && AllGood(Raised(s, p, s.nodes[p].kids[i], sep, right))
  {
    AddedGood(s, p, i, sep, right);
    var s2 := Raised(s, p, s.nodes[p].kids[i], sep, right);
    forall q: nat | q in s2.nodes
      ensures Good(s2, q)
    {
      if q != p { OtherKids(s, p, i, sep, right, q); }
    }
  }

  lemma HeapRaise(s: State, p: nat, i: nat, sep: int, right: nat)
    requires HeapOk(s) && Raisable(s, p, i, sep, right)
    ensures Shaped(s.nodes[p]) && HeapOk(Raised(s, p, s.nodes[p].kids[i], sep, right))
  {
    RaisedGood(s, p, i, sep, right);
    RaisedApart(s, p, i, sep, right);
    RootNotChild(s, p);
    CoversKept(s, Raised(s, p, s.nodes[p].kids[i], sep, right), s.root, s.nodes[s.root].level, None, None);
  }

  // ----- a new root -----

  function NewRoot(s: State, sep: int, right: nat): State
    requires s.root in s.nodes
  {
    s.(nodes := s.nodes[s.next := Node(s.nodes[s.root].level + 1, None, None, [sep], [], [s.root, right])],
       root := s.next, next := s.next + 1, splits := s.splits - {s.root})
  }

  ghost predicate Growable(s: State, sep: int, right: nat) {
    s.root in s.splits && s.root in s.nodes && s.splits[s.root] == right && right !in s.splits
        && s.nodes[s.root].hi == Some(sep)
  }

  lemma TopGood(s: State, sep: int, right: nat)
    requires Numbered(s) && RootOk(s) && Growable(s, sep, right)
    ensures Good(NewRoot(s, sep, right), s.next)
  {
    var s2 := NewRoot(s, sep, right);
    var top := s2.nodes[s.next];
    assert InRange(top, 0) && NodeOk(top);
    assert KidOk(s2, s.next, 0) && KidOk(s2, s.next, 1);
  }

  lemma HeapGrow(s: State, sep: int, right: nat)
    requires HeapOk(s) && Growable(s, sep, right)
    ensures HeapOk(NewRoot(s, sep, right))
  {
    var s2 := NewRoot(s, sep, right);
    forall q: nat | q in s2.nodes
      ensures Good(s2, q)
    {
      if q == s.next {
        TopGood(s, sep, right);
      } else {
        assert Good(s, q);
        RootNotChild(s, q);
        GoodKept(s, s2, q);
      }
    }
    forall a: nat, b: nat | a in s2.nodes && b in s2.nodes && a != b
      ensures Apart(s2.nodes[a], s2.nodes[b])
    {
      if a != s.next && b != s.next { assert Apart(s.nodes[a], s.nodes[b]); }
    }
  }
}
