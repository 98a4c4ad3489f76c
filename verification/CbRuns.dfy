/** Latch crabbing over every interleaving (src/cbtree.c). */
module CbRuns {
  import opened Wrappers
  import opened Keys
  import opened CbTree
  import opened CbHeap

  // ----- the invariant as one fact -----

  ghost predicate Asked(s: State, z: int) {
    true
  }

  ghost predicate Sound(s: State) {
    forall z: int {:trigger Asked(s, z)} :: Asked(s, z) ==> Inv(s)
  }

  lemma Unfold(s: State)
    requires Sound(s)
    ensures Inv(s)
  {
    assert Asked(s, 0);
  }

  lemma Fold(s: State)
    requires Inv(s)
    ensures Sound(s)
  {
  }

  lemma TheThread(s: State, t: nat)
    requires Sound(s) && t in s.threads
    ensures ThreadOk(s, s.threads[t])
  {
    Unfold(s);
  }

  lemma TheSizes(s: State)
    requires Sound(s)
    ensures s.order > 0 && (forall n | n in s.nodes :: |s.nodes[n].keys| <= s.order && n < s.next) && 0 !in s.nodes
  {
    Unfold(s);
  }

  // ----- threads that are not moving -----

  ghost predicate Holds(th: Thread, n: nat) {
    n in WriteHeld(th) || n in ReadHeld(th)
  }

  /** Nothing this thread holds has changed. */
  ghost predicate Untouched(s: State, s2: State, th: Thread) {
    && s2.order == s.order && (0 in WriteHeld(th) ==> s2.root == s.root)
    && (forall n | n in s.nodes && Holds(th, n) :: n in s2.nodes && s2.nodes[n] == s.nodes[n])
    && forall n | n in s.splits && Holds(th, n) :: n in s2.splits && s2.splits[n] == s.splits[n]
  }

  lemma KeepPath(s: State, s2: State, th: Thread, key: int, stack: seq<nat>, n: nat)
    requires Untouched(s, s2, th) && WriteHeld(th) == stack && PathOk(s, key, stack, n)
    ensures PathOk(s2, key, stack, n)
  {
    assert forall j | 0 <= j < n :: Holds(th, stack[j]);
  }

  lemma KeepThread(s: State, s2: State, th: Thread)
    requires ThreadOk(s, th) && Untouched(s, s2, th)
    ensures ThreadOk(s2, th)
  {
    match th
    case Reader(key, held) => assert forall j | 0 <= j < |held| :: Holds(th, held[j]);
    case Writer(key, _, stack, drop) =>
      KeepPath(s, s2, th, key, stack, |stack|);
      assert forall j | 0 <= j < |stack| :: Holds(th, stack[j]);
    case Raising(key, stack, at, _, _) =>
      KeepPath(s, s2, th, key, stack, at);
      assert Holds(th, stack[at]) && Holds(th, stack[at - 1]) && Holds(th, stack[0]);
    case _ =>
  }

  // ----- a step that changes one thread only -----

  lemma HeapSame(s: State, t: nat, th: Thread)
    requires HeapOk(s)
    ensures HeapOk(SetThread(s, t, th))
  {
    var s2 := SetThread(s, t, th);
    forall p: nat | p in s2.nodes
      ensures Good(s2, p)
    {
      assert Good(s, p);
      GoodKept(s, s2, p);
    }
    forall a: nat, b: nat | a in s2.nodes && b in s2.nodes && a != b
      ensures Apart(s2.nodes[a], s2.nodes[b])
    {
      assert Apart(s.nodes[a], s.nodes[b]);
    }
    CoversKept(s, s2, s.root, s.nodes[s.root].level, None, None);
  }

  function ThreadAt(s: State, t: nat): Thread {
    if t in s.threads then s.threads[t] else Idle
  }

  /** What t holds after the step it held before, or nobody stood in its way. */
  ghost predicate MayHold(s: State, t: nat, th: Thread) {
    && (forall n | n in WriteHeld(th) :: n in WriteHeld(ThreadAt(s, t)) || (NoHolder(s, n) && n < s.next))
    && (forall n | n in ReadHeld(th) :: n in ReadHeld(ThreadAt(s, t)) || (NoWriter(s, n) && n < s.next))
  }

  lemma ExclusiveKept(s: State, t: nat, th: Thread)
    requires Exclusive(s) && MayHold(s, t, th)
    ensures Exclusive(SetThread(s, t, th))
  {
  }

  /** Newly held nodes are not right halves of unfinished splits, and no split loses its owner. */
  ghost predicate KeepsSplits(s: State, t: nat, th: Thread) {
    && (forall n | Holds(th, n) && !Holds(ThreadAt(s, t), n) :: forall c | c in s.splits :: s.splits[c] != n)
    && forall c | c in s.splits && Owns(ThreadAt(s, t), c) :: Owns(th, c)
  }

  lemma SplitsKept(s: State, t: nat, th: Thread)
    requires SplitsOk(s) && KeepsSplits(s, t, th)
    ensures SplitsOk(SetThread(s, t, th))
  {
    var s2 := SetThread(s, t, th);
    forall c | c in s2.splits
      ensures Owned(s2, c) && Hidden(s2, s2.splits[c])
    {
      assert Owned(s, c) && Hidden(s, s.splits[c]);
      var u :| u in s.threads && Owns(s.threads[u], c);
      assert u in s2.threads && Owns(s2.threads[u], c);
      HiddenKept(s, t, th, s.splits[c]);
    }
  }

  lemma HiddenKept(s: State, t: nat, th: Thread, r: nat)
    requires Hidden(s, r) && (Holds(th, r) ==> Holds(ThreadAt(s, t), r))
    ensures Hidden(SetThread(s, t, th), r)
  {
    assert forall u | u in s.threads :: r !in WriteHeld(s.threads[u]) && r !in ReadHeld(s.threads[u]);
  }

  lemma ThreadsKept(s: State, t: nat, th: Thread)
    requires (forall u | u in s.threads :: ThreadOk(s, s.threads[u])) && ThreadOk(s, th)
    ensures forall u | u in SetThread(s, t, th).threads :: ThreadOk(SetThread(s, t, th), SetThread(s, t, th).threads[u])
  {
    var s2 := SetThread(s, t, th);
    forall u | u in s2.threads
      ensures ThreadOk(s2, s2.threads[u])
    {
      var x := if u == t then th else s.threads[u];
      KeepThread(s, s2, x);
    }
  }

  lemma KeepSetThread(s: State, t: nat, th: Thread)
    requires Sound(s) && ThreadOk(s, th) && MayHold(s, t, th) && KeepsSplits(s, t, th)
    ensures Sound(SetThread(s, t, th))
  {
    Unfold(s);
    HeapSame(s, t, th);
    ExclusiveKept(s, t, th);
    SplitsKept(s, t, th);
    ThreadsKept(s, t, th);
    Fold(SetThread(s, t, th));
  }

  // ----- descending -----

  /** A child that nobody write-latches is not being split, so it answers for its whole slot. */
  lemma ChildReached(s: State, p: nat, key: int)
    requires Sound(s) && p in s.nodes && s.nodes[p].level > 0 && InRange(s.nodes[p], key)
    requires Shaped(s.nodes[p]) && NoWriter(s, s.nodes[p].kids[Route(s.nodes[p].keys, key)])
    ensures var c := s.nodes[p].kids[Route(s.nodes[p].keys, key)];
            c in s.nodes && c != 0 && InRange(s.nodes[c], key) && forall x | x in s.splits :: s.splits[x] != c
  {
    Unfold(s);
    var i := Route(s.nodes[p].keys, key);
    var c := s.nodes[p].kids[i];
    assert Good(s, p) && KidOk(s, p, i);
    NotSplit(s, c);
    RouteSlot(s.nodes[p], key);
    forall x | x in s.splits
      ensures s.splits[x] != c
    {
      assert Hidden(s, s.splits[x]);
    }
  }

  lemma NotSplit(s: State, c: nat)
    requires SplitsOk(s) && NoWriter(s, c)
    ensures c !in s.splits
  {
    assert c in s.splits ==> Owned(s, c);
  }

  lemma RootReached(s: State, key: int)
    requires Sound(s) && NoWriter(s, s.root)
    ensures s.root in s.nodes && s.root != 0 && InRange(s.nodes[s.root], key)
            && forall x | x in s.splits :: s.splits[x] != s.root
  {
    Unfold(s);
    NotSplit(s, s.root);
    forall x | x in s.splits
      ensures s.splits[x] != s.root
    {
      assert Hidden(s, s.splits[x]);
    }
  }

  lemma NoHolderNoWriter(s: State, n: nat)
    requires NoHolder(s, n)
    ensures NoWriter(s, n)
  {
  }

  lemma HeaderNotHidden(s: State)
    requires Numbered(s)
    ensures forall c | c in s.splits :: s.splits[c] != 0
  {
  }

  lemma KeepReader(s: State, t: nat)
    requires Sound(s) && t in s.threads && s.threads[t].Reader?
    ensures Sound(Next(s, Go(t)))
  {
    Unfold(s);
    var key, held := s.threads[t].key, s.threads[t].held;
    assert ThreadOk(s, s.threads[t]);
    HeaderNotHidden(s);
    if held == [] {
      if NoWriter(s, 0) { KeepSetThread(s, t, Reader(key, [0])); }
    } else if |held| > 1 {
      KeepSetThread(s, t, Reader(key, held[1..]));
    } else if held[0] == 0 {
      if NoWriter(s, s.root) {
        RootReached(s, key);
        KeepSetThread(s, t, Reader(key, [0, s.root]));
      }
    } else {
      KeepReaderAt(s, t, key, held[0]);
    }
  }

  lemma KeepReaderAt(s: State, t: nat, key: int, p: nat)
    requires Sound(s) && t in s.threads && s.threads[t] == Reader(key, [p]) && p != 0
    ensures Sound(ReaderStep(s, t, key, [p]))
  {
    Unfold(s);
    assert ThreadOk(s, s.threads[t]);
    assert [p][0] == p && p in s.nodes;
    assert Good(s, p);
    var n := s.nodes[p];
    if n.level == 0 {
      KeepSetThread(s, t, Found(key, Lookup(n, key)));
    } else {
      var c := n.kids[Route(n.keys, key)];
      if NoWriter(s, c) {
        ChildReached(s, p, key);
        KeepSetThread(s, t, Reader(key, [p, c]));
      }
    }
  }

  // ----- write paths -----

  lemma PathSnoc(s: State, key: int, stack: seq<nat>, c: nat)
    requires PathOk(s, key, stack, |stack|) && c in s.nodes && c != 0 && InRange(s.nodes[c], key)
    requires stack != [] ==> IsChild(s, Last(stack), c)
    ensures PathOk(s, key, stack + [c], |stack| + 1)
  {
    var more := stack + [c];
    assert forall j | 0 <= j < |stack| :: more[j] == stack[j];
  }

  lemma PathTail(s: State, key: int, stack: seq<nat>)
    requires PathOk(s, key, stack, |stack|) && stack != []
    ensures PathOk(s, key, stack[1..], |stack| - 1)
  {
    assert forall j | 0 <= j < |stack| - 1 :: stack[1..][j] == stack[j + 1];
  }

  /** Levels go down along a path, so its nodes are all different. */
  lemma {:induction false} PathDown(s: State, key: int, stack: seq<nat>, n: nat, i: nat, j: nat)
    requires AllGood(s) && PathOk(s, key, stack, n) && 0 < i <= j < n
    ensures stack[i] in s.nodes && stack[j] in s.nodes && s.nodes[stack[j]].level + (j - i) == s.nodes[stack[i]].level
    decreases j
  {
    if i < j {
      PathDown(s, key, stack, n, i, j - 1);
      ChildLevel(s, stack[j - 1], stack[j]);
    }
  }

  lemma ChildLevel(s: State, p: nat, c: nat)
    requires AllGood(s) && p in s.nodes && p != 0 && IsChild(s, p, c)
    ensures c in s.nodes && s.nodes[c].level + 1 == s.nodes[p].level
  {
    assert Good(s, p);
    var i: nat :| i < |s.nodes[p].kids| && s.nodes[p].kids[i] == c;
    assert KidOk(s, p, i);
  }

  /** No node occurs twice. */
  lemma PathDistinct(s: State, key: int, stack: seq<nat>, n: nat, i: nat, j: nat)
    requires Numbered(s) && AllGood(s) && PathOk(s, key, stack, n) && i < j < n
    ensures stack[i] != stack[j]
  {
    if stack[i] != 0 {
      if i == 0 {
        ChildLevel(s, stack[0], stack[1]);
        if 1 < j { PathDown(s, key, stack, n, 1, j); }
      } else {
        PathDown(s, key, stack, n, i, j);
      }
    }
  }

  lemma KeepDrop(s: State, t: nat)
    requires Sound(s) && t in s.threads && s.threads[t].Writer? && s.threads[t].stack != [] && s.threads[t].drop > 0
    ensures Sound(Next(s, Go(t)))
  {
    Unfold(s);
    var th := s.threads[t];
    assert ThreadOk(s, th);
    PathTail(s, th.key, th.stack);
    KeepSetThread(s, t, Writer(th.key, th.val, th.stack[1..], th.drop - 1));
  }

  lemma KeepTakeRoot(s: State, t: nat, key: int, val: int, stack: seq<nat>)
    requires Sound(s) && t in s.threads && s.threads[t] == Writer(key, val, stack, 0) && stack != [] && Last(stack) == 0
    ensures Sound(WriterStep(s, t, key, val, stack, 0))
  {
    Unfold(s);
    assert ThreadOk(s, s.threads[t]);
    if NoHolder(s, s.root) {
      NoHolderNoWriter(s, s.root);
      RootReached(s, key);
      PathSnoc(s, key, stack, s.root);
      KeepSetThread(s, t, Writer(key, val, stack + [s.root], 0));
    }
  }

  lemma KeepTakeHeader(s: State, t: nat)
    requires Sound(s) && t in s.threads && s.threads[t].Writer? && s.threads[t].stack == []
    ensures Sound(Next(s, Go(t)))
  {
    Unfold(s);
    HeaderNotHidden(s);
    if NoHolder(s, 0) { KeepSetThread(s, t, Writer(s.threads[t].key, s.threads[t].val, [0], 0)); }
  }

  lemma KeepDescend(s: State, t: nat, key: int, val: int, stack: seq<nat>)
    requires Sound(s) && t in s.threads && s.threads[t] == Writer(key, val, stack, 0) && stack != []
    requires Last(stack) != 0 && Last(stack) in s.nodes && s.nodes[Last(stack)].level > 0
    ensures Sound(WriterStep(s, t, key, val, stack, 0))
  {
    Unfold(s);
    assert ThreadOk(s, s.threads[t]);
    var p := Last(stack);
    assert Good(s, p);
    var c := s.nodes[p].kids[Route(s.nodes[p].keys, key)];
    if NoHolder(s, c) {
      NoHolderNoWriter(s, c);
      ChildReached(s, p, key);
      PathSnoc(s, key, stack, c);
      KeepSetThread(s, t, Writer(key, val, stack + [c], if |s.nodes[c].keys| < s.order then |stack| else 0));
    }
  }

  // ----- changing nodes -----

  /** Only what thread t has write-latched, and new nodes, differ. */
  ghost predicate ChangedBy(s: State, h: State, held: seq<nat>) {
    && h.order == s.order && h.threads == s.threads && s.next <= h.next && (h.root == s.root || 0 in held)
    && (forall n | n in s.nodes && n !in held :: n in h.nodes && h.nodes[n] == s.nodes[n])
    && forall n | n in s.splits && n !in held :: n in h.splits && h.splits[n] == s.splits[n]
  }

  lemma OthersKept(s: State, h: State, t: nat, u: nat)
    requires Exclusive(s) && t in s.threads && u in s.threads && u != t && ThreadOk(s, s.threads[u])
    requires ChangedBy(s, h, WriteHeld(s.threads[t]))
    ensures ThreadOk(h, s.threads[u])
  {
    var th := s.threads[u];
    assert forall n | Holds(th, n) :: n !in WriteHeld(s.threads[t]);
    KeepThread(s, h, th);
  }

  lemma ThreadAfter(s: State, h: State, t: nat, th: Thread, u: nat)
    requires Sound(s) && t in s.threads && ChangedBy(s, h, WriteHeld(s.threads[t])) && ThreadOk(h, th)
    requires u in SetThread(h, t, th).threads
    ensures ThreadOk(SetThread(h, t, th), SetThread(h, t, th).threads[u])
  {
    if u != t {
      Unfold(s);
      OthersKept(s, h, t, u);
    }
    KeepThread(h, SetThread(h, t, th), SetThread(h, t, th).threads[u]);
  }

  ghost predicate SameHolds(a: Thread, b: Thread) {
    WriteHeld(a) == WriteHeld(b) && ReadHeld(a) == ReadHeld(b)
  }

  lemma LatchesAfter(s: State, h: State, t: nat, th: Thread)
    requires Sound(s) && t in s.threads && h.threads == s.threads && s.next <= h.next && SameHolds(th, s.threads[t])
    ensures Exclusive(SetThread(h, t, th)) && Known(SetThread(h, t, th))
  {
    Unfold(s);
  }

  lemma KeepChange(s: State, h: State, t: nat, th: Thread)
    requires Sound(s) && t in s.threads && ChangedBy(s, h, WriteHeld(s.threads[t]))
    requires HeapOk(h) && (forall n | n in h.nodes :: |h.nodes[n].keys| <= h.order)
    requires SameHolds(th, s.threads[t]) && ThreadOk(h, th) && SplitsOk(SetThread(h, t, th))
    ensures Sound(SetThread(h, t, th))
  {
    HeapSame(h, t, th);
    LatchesAfter(s, h, t, th);
    forall u | u in SetThread(h, t, th).threads
      ensures ThreadOk(SetThread(h, t, th), SetThread(h, t, th).threads[u])
    {
      ThreadAfter(s, h, t, th, u);
    }
    Fold(SetThread(h, t, th));
  }

  // ----- the leaf -----

  lemma HeldDistinct(s: State, t: nat, c: nat)
    requires SplitsOk(s) && Exclusive(s) && t in s.threads && c in WriteHeld(s.threads[t]) && !Owns(s.threads[t], c)
    ensures c !in s.splits && forall x | x in s.splits :: s.splits[x] != c
  {
    assert c in s.splits ==> Owned(s, c);
    forall x | x in s.splits
      ensures s.splits[x] != c
    {
      assert Hidden(s, s.splits[x]);
    }
  }

  /** Kids of any node are nodes, so a new number is nobody's child. */
  lemma KidsKnown(s: State, p: nat, c: nat)
    requires AllGood(s) && p in s.nodes && c in s.nodes[p].kids
    ensures c in s.nodes
  {
    assert Good(s, p);
    var i: nat :| i < |s.nodes[p].kids| && s.nodes[p].kids[i] == c;
    assert KidOk(s, p, i);
  }

  // ----- unfinished splits after a change -----

  ghost predicate WasKid(s: State, k: nat) {
    exists q :: q in s.nodes && k in s.nodes[q].kids
  }

  /** The only new child is the right half that is being linked. */
  ghost predicate KidsFrom(s: State, h: State, linked: Option<nat>) {
    forall p, k | p in h.nodes && k in h.nodes[p].kids :: WasKid(s, k) || k == s.root || linked == Some(k)
  }

  /** An old unfinished split of another thread, or the new one of this thread. */
  ghost predicate SplitFrom(s: State, h: State, was: Thread, th: Thread, linked: Option<nat>, x: nat)
    requires x in h.splits
  {
    if x in s.splits && h.splits[x] == s.splits[x] then !Owns(was, x) && linked != Some(s.splits[x])
    else Owns(th, x) && h.splits[x] == s.next && h.root == s.root
  }

  lemma HiddenAfter(s: State, h: State, t: nat, th: Thread, linked: Option<nat>, r: nat)
    requires t in s.threads && h.threads == s.threads && WriteHeld(th) == WriteHeld(s.threads[t])
             && ReadHeld(th) == ReadHeld(s.threads[t])
    requires KidsFrom(s, h, linked) && Hidden(s, r) && linked != Some(r) && r != h.root
    ensures Hidden(SetThread(h, t, th), r)
  {
    var s2 := SetThread(h, t, th);
    assert forall u | u in s.threads :: r !in WriteHeld(s.threads[u]) && r !in ReadHeld(s.threads[u]);
    forall p | p in s2.nodes
      ensures r !in s2.nodes[p].kids
    {
      assert !WasKid(s, r);
    }
  }

  lemma NewHidden(s: State)
    requires Numbered(s) && AllGood(s) && Known(s)
    ensures Hidden(s, s.next)
  {
    forall p | p in s.nodes
      ensures s.next !in s.nodes[p].kids
    {
      if s.next in s.nodes[p].kids { KidsKnown(s, p, s.next); }
    }
  }

  lemma SplitAfter(s: State, h: State, t: nat, th: Thread, linked: Option<nat>, x: nat)
    requires Numbered(s) && SplitsOk(s) && Hidden(s, s.next) && t in s.threads && h.threads == s.threads
             && KidsFrom(s, h, linked)
    requires SameHolds(th, s.threads[t]) && (h.root == s.root || h.root == s.next)
             && (linked.Some? ==> linked.value in s.nodes)
    requires x in h.splits && SplitFrom(s, h, s.threads[t], th, linked, x)
    ensures Owned(SetThread(h, t, th), x) && Hidden(SetThread(h, t, th), h.splits[x])
  {
    var s2 := SetThread(h, t, th);
    if x in s.splits && h.splits[x] == s.splits[x] {
      assert Owned(s, x) && Hidden(s, s.splits[x]);
      var u :| u in s.threads && Owns(s.threads[u], x);
      assert s2.threads[u] == s.threads[u];
    } else {
      assert Owns(s2.threads[t], x);
    }
    HiddenAfter(s, h, t, th, linked, h.splits[x]);
  }

  lemma SplitsAfter(s: State, h: State, t: nat, th: Thread, linked: Option<nat>)
    requires Sound(s) && t in s.threads && h.threads == s.threads && KidsFrom(s, h, linked)
    requires SameHolds(th, s.threads[t]) && (h.root == s.root || h.root == s.next)
             && (linked.Some? ==> linked.value in s.nodes)
    requires forall x | x in h.splits :: SplitFrom(s, h, s.threads[t], th, linked, x)
    ensures SplitsOk(SetThread(h, t, th))
  {
    var s2 := SetThread(h, t, th);
    Unfold(s);
    NewHidden(s);
    forall x | x in s2.splits
      ensures Owned(s2, x) && Hidden(s2, s2.splits[x])
    {
      SplitAfter(s, h, t, th, linked, x);
    }
    SplitsInjective(s, h, s.threads[t], th, linked);
  }

  lemma SplitsInjective(s: State, h: State, was: Thread, th: Thread, linked: Option<nat>)
    requires Numbered(s) && SplitsOk(s) && forall x | x in h.splits :: SplitFrom(s, h, was, th, linked, x)
    ensures forall a, b | a in h.splits && b in h.splits && a != b :: h.splits[a] != h.splits[b]
  {
    forall a, b | a in h.splits && b in h.splits && a != b
      ensures h.splits[a] != h.splits[b]
    {
      assert SplitFrom(s, h, was, th, linked, a) && SplitFrom(s, h, was, th, linked, b);
    }
  }

  // ----- the leaf step -----

  lemma PutKids(s: State, c: nat, n: Node)
    requires c in s.nodes && n.kids == s.nodes[c].kids
    ensures KidsFrom(s, s.(nodes := s.nodes[c := n]), None)
  {
    var h := s.(nodes := s.nodes[c := n]);
    forall p, k | p in h.nodes && k in h.nodes[p].kids
      ensures WasKid(s, k)
    {
      assert k in s.nodes[p].kids;
    }
  }

  /** Splitting a node hands its children on. */
  lemma SplitKidsFrom(s: State, h: State, c: nat, linked: Option<nat>)
    requires KidsFrom(s, h, linked) && c in h.nodes && Shaped(h.nodes[c]) && |h.nodes[c].keys| > 1
    ensures KidsFrom(s, SplitNode(h, c), linked)
  {
    var h2, n := SplitNode(h, c), h.nodes[c];
    forall p, k | p in h2.nodes && k in h2.nodes[p].kids
      ensures WasKid(s, k) || k == s.root || linked == Some(k)
    {
      if p == c || p == h.next { assert k in n.kids; } else { assert k in h.nodes[p].kids; }
    }
  }

  lemma SplitSizes(s: State, c: nat)
    requires c in s.nodes && Shaped(s.nodes[c]) && s.order + 1 == |s.nodes[c].keys| && s.order > 0
    requires forall n | n in s.nodes && n != c :: |s.nodes[n].keys| <= s.order
    ensures forall n | n in SplitNode(s, c).nodes :: |SplitNode(s, c).nodes[n].keys| <= s.order
  {
  }

  /** The leaf takes the pair, and is split when it is full; its parent is then still write-latched. */
  lemma KeepLeafStep(s: State, t: nat, key: int, val: int, stack: seq<nat>)
    requires Sound(s) && t in s.threads && s.threads[t] == Writer(key, val, stack, 0) && stack != []
    requires Last(stack) != 0 && Last(stack) in s.nodes && s.nodes[Last(stack)].level == 0
    ensures Sound(WriterStep(s, t, key, val, stack, 0))
  {
    Unfold(s);
    var c := Last(stack);
    assert Good(s, c) && ThreadOk(s, s.threads[t]);
    var n := PutLeaf(s.nodes[c], key, val);
    PutOk(s.nodes[c], key, val);
    HeapRefill(s, c, n);
    PutKids(s, c, n);
    HeldDistinct(s, t, c);
    if |n.keys| <= s.order { LeafFits(s, t, key, val, stack, n); } else { LeafSplits(s, t, key, val, stack, n); }
  }

  ghost predicate LeafReady(s: State, t: nat, key: int, val: int, stack: seq<nat>, n: Node) {
    && Sound(s) && t in s.threads && s.threads[t] == Writer(key, val, stack, 0) && stack != [] && Last(stack) in s.nodes
    && var c := Last(stack); var h := s.(nodes := s.nodes[c := n]);
       && c != 0 && HeapOk(h) && KidsFrom(s, h, None) && Shaped(n) && |n.keys| <= |s.nodes[c].keys| + 1
       && c !in s.splits && forall x | x in s.splits :: s.splits[x] != c
  }

  lemma LeafFits(s: State, t: nat, key: int, val: int, stack: seq<nat>, n: Node)
    requires LeafReady(s, t, key, val, stack, n) && |n.keys| <= s.order
    ensures Sound(SetThread(s.(nodes := s.nodes[Last(stack) := n]), t, Releasing(key, stack)))
  {
    var h := s.(nodes := s.nodes[Last(stack) := n]);
    TheSizes(s);
    SplitsAfter(s, h, t, Releasing(key, stack), None);
    KeepChange(s, h, t, Releasing(key, stack));
  }

  /** Any node that thread t holds, refilled past its capacity and split. */
  ghost predicate SplitReady(s: State, h: State, c: nat, linked: Option<nat>) {
    && HeapOk(h) && h.order == s.order && h.next == s.next && h.root == s.root && h.threads == s.threads
    && c in h.nodes && Shaped(h.nodes[c]) && |h.nodes[c].keys| == h.order + 1
    && (forall n | n in h.nodes && n != c :: |h.nodes[n].keys| <= h.order)
    && KidsFrom(s, h, linked) && c !in h.splits && (forall x | x in h.splits :: h.splits[x] != c)
  }

  lemma SplitHeap(s: State, h: State, c: nat, linked: Option<nat>)
    requires SplitReady(s, h, c, linked)
    ensures var h2 := SplitNode(h, c);
            HeapOk(h2) && KidsFrom(s, h2, linked) && forall n | n in h2.nodes :: |h2.nodes[n].keys| <= h2.order
  {
    HeapSplit(h, c);
    SplitKidsFrom(s, h, c, linked);
    SplitSizes(h, c);
  }

  /** Old unfinished splits of others, and the new one. */
  lemma SplitOwners(s: State, h: State, c: nat, was: Thread, th: Thread, linked: Option<nat>)
    requires SplitReady(s, h, c, linked) && Owns(th, c) && c !in s.splits
    requires forall x | x in h.splits ::
             x in s.splits && h.splits[x] == s.splits[x] && !Owns(was, x)
             && linked != Some(s.splits[x])
    ensures forall x | x in SplitNode(h, c).splits :: SplitFrom(s, SplitNode(h, c), was, th, linked, x)
  {
  }

  lemma SplitTouches(s: State, h: State, c: nat, held: seq<nat>)
    requires ChangedBy(s, h, held) && c in held && c in h.nodes && Shaped(h.nodes[c]) && |h.nodes[c].keys| > 1
    requires forall n | n in s.nodes :: n < h.next
    ensures ChangedBy(s, SplitNode(h, c), held)
  {
  }

  lemma SplitChange(s: State, h: State, t: nat, c: nat, th: Thread, linked: Option<nat>)
    requires Sound(s) && t in s.threads && SplitReady(s, h, c, linked) && ChangedBy(s, h, WriteHeld(s.threads[t]))
    requires Owns(th, c) && c !in s.splits && c in WriteHeld(s.threads[t]) && SameHolds(th, s.threads[t])
    requires forall x | x in h.splits ::
             x in s.splits && h.splits[x] == s.splits[x] && !Owns(s.threads[t], x)
             && linked != Some(s.splits[x])
    requires (linked.Some? ==> linked.value in s.nodes) && ThreadOk(SplitNode(h, c), th)
    ensures Sound(SetThread(SplitNode(h, c), t, th))
  {
    var h2 := SplitNode(h, c);
    SplitHeap(s, h, c, linked);
    SplitOwners(s, h, c, s.threads[t], th, linked);
    SplitsAfter(s, h2, t, th, linked);
    TheSizes(s);
    SplitTouches(s, h, c, WriteHeld(s.threads[t]));
    KeepChange(s, h2, t, th);
  }

  lemma LeafSplits(s: State, t: nat, key: int, val: int, stack: seq<nat>, n: Node)
    requires LeafReady(s, t, key, val, stack, n) && |n.keys| > s.order
    ensures var c := Last(stack); var h := s.(nodes := s.nodes[c := n]);
            |n.keys| >= 2 && Sound(SetThread(SplitNode(h, c), t, Raising(key, stack, |stack| - 1, MidKey(n), s.next)))
  {
    var c := Last(stack);
    var h := s.(nodes := s.nodes[c := n]);
    TheSizes(s);
    LeafRaises(s, t, key, val, stack, n);
    SplitChange(s, h, t, c, Raising(key, stack, |stack| - 1, MidKey(n), s.next), None);
  }

  lemma LeafRaises(s: State, t: nat, key: int, val: int, stack: seq<nat>, n: Node)
    requires LeafReady(s, t, key, val, stack, n) && |n.keys| > s.order && |n.keys| >= 2
    ensures var c := Last(stack); var h := s.(nodes := s.nodes[c := n]);
            ThreadOk(SplitNode(h, c), Raising(key, stack, |stack| - 1, MidKey(n), s.next))
  {
    var c, at := Last(stack), |stack| - 1;
    var h2 := SplitNode(s.(nodes := s.nodes[c := n]), c);
    Unfold(s);
    assert ThreadOk(s, s.threads[t]);
    forall j | 0 <= j < at
      ensures stack[j] != c
    {
      PathDistinct(s, key, stack, |stack|, j, at);
    }
    PathPrefix(s, h2, key, stack, |stack|, at);
  }

  /** The path above the changed node stays. */
  lemma PathPrefix(s: State, h: State, key: int, stack: seq<nat>, n: nat, at: nat)
    requires PathOk(s, key, stack, n) && at < n && h.root == s.root
    requires forall j | 0 <= j < at && stack[j] in s.nodes ::
             stack[j] in h.nodes
             && h.nodes[stack[j]] == s.nodes[stack[j]]
    ensures PathOk(h, key, stack, at)
    ensures at > 0 ==> IsChild(h, stack[at - 1], stack[at])
  {
  }

  // ----- telling the parent -----

  /** The facts of a thread that has split stack[at] and holds its parent p. */
  lemma RaiseFacts(s: State, t: nat) returns (i: nat)
    requires Sound(s) && t in s.threads && s.threads[t].Raising? && 0 < s.threads[t].at < |s.threads[t].stack|
    requires s.threads[t].stack[s.threads[t].at - 1] != 0
    ensures var th := s.threads[t]; var p := th.stack[th.at - 1];
            && 0 < th.at < |th.stack| && p in s.nodes && i < |s.nodes[p].kids| && s.nodes[p].kids[i] == th.stack[th.at]
            && Raisable(s, p, i, th.sep, th.right) && p !in s.splits && (forall x | x in s.splits :: s.splits[x] != p)
  {
    Unfold(s);
    var th := s.threads[t];
    assert ThreadOk(s, th);
    var p, c := th.stack[th.at - 1], th.stack[th.at];
    assert Good(s, p);
    i :| 0 <= i < |s.nodes[p].kids| && s.nodes[p].kids[i] == c;
    assert Hidden(s, th.right);
    assert th.right in s.splits ==> Owned(s, th.right);
    ChildLevel(s, p, c);
    HeldDistinct(s, t, p);
  }

  lemma RaisedKids(s: State, p: nat, c: nat, sep: int, right: nat)
    requires p in s.nodes && Shaped(s.nodes[p]) && s.nodes[p].level > 0
    ensures KidsFrom(s, Raised(s, p, c, sep, right), Some(right))
  {
    var h := Raised(s, p, c, sep, right);
    forall q, k | q in h.nodes && k in h.nodes[q].kids
      ensures WasKid(s, k) || k == right
    {
      if k != right { assert k in s.nodes[q].kids; }
    }
  }

  lemma KeepRaise(s: State, t: nat)
    requires Sound(s) && t in s.threads && s.threads[t].Raising? && 0 < s.threads[t].at < |s.threads[t].stack|
    requires s.threads[t].stack[s.threads[t].at - 1] != 0
    ensures Sound(Next(s, Go(t)))
  {
    var th := s.threads[t];
    var i := RaiseFacts(s, t);
    var p := th.stack[th.at - 1];
    RaiseHeap(s, t, i);
    TheSizes(s);
    RaiseNext(s, t);
    if |s.nodes[p].keys| < s.order { RaiseFits(s, t, i); } else { RaiseSplits(s, t, i); }
  }

  lemma RaiseHeap(s: State, t: nat, i: nat)
    requires Sound(s) && t in s.threads && s.threads[t].Raising? && 0 < s.threads[t].at < |s.threads[t].stack|
    requires var th := s.threads[t]; var p := th.stack[th.at - 1];
             p != 0 && Raisable(s, p, i, th.sep, th.right) && s.nodes[p].kids[i] == th.stack[th.at]
    ensures var th := s.threads[t]; var p := th.stack[th.at - 1];
            && Shaped(s.nodes[p]) && HeapOk(Raised(s, p, th.stack[th.at], th.sep, th.right))
            && KidsFrom(s, Raised(s, p, th.stack[th.at], th.sep, th.right), Some(th.right))
  {
    var th := s.threads[t];
    Unfold(s);
    HeapRaise(s, th.stack[th.at - 1], i, th.sep, th.right);
    RaisedKids(s, th.stack[th.at - 1], th.stack[th.at], th.sep, th.right);
  }

  ghost predicate RaiseReady(s: State, t: nat, i: nat) {
    && Sound(s) && t in s.threads && s.threads[t].Raising? && 0 < s.threads[t].at < |s.threads[t].stack|
    && var th := s.threads[t]; var p := th.stack[th.at - 1];
       && p != 0 && p in s.nodes && Shaped(s.nodes[p]) && i < |s.nodes[p].kids| && s.nodes[p].kids[i] == th.stack[th.at]
       && Raisable(s, p, i, th.sep, th.right) && p !in s.splits && (forall x | x in s.splits :: s.splits[x] != p)
       && HeapOk(Raised(s, p, th.stack[th.at], th.sep, th.right))
           && KidsFrom(s, Raised(s, p, th.stack[th.at], th.sep, th.right), Some(th.right))
  }

  lemma OwnSplit(s: State, t: nat)
    requires Sound(s) && t in s.threads && s.threads[t].Raising?
    ensures var th := s.threads[t];
            && 0 < th.at < |th.stack| && th.stack[th.at] in s.splits && s.splits[th.stack[th.at]] == th.right
                && th.right in s.nodes
            && forall x | x in s.splits && x != th.stack[th.at] :: !Owns(th, x) && s.splits[x] != th.right
  {
    Unfold(s);
    assert ThreadOk(s, s.threads[t]);
  }

  /** The state a thread leaves once it has told the parent. */
  function Told(s: State, th: Thread): State
    requires th.Raising? && 0 < th.at < |th.stack| && th.stack[th.at - 1] in s.nodes
             && Shaped(s.nodes[th.stack[th.at - 1]])
    requires s.nodes[th.stack[th.at - 1]].level > 0
  {
    Raised(s, th.stack[th.at - 1], th.stack[th.at], th.sep, th.right)
  }

  ghost predicate Telling(s: State, th: Thread) {
    && th.Raising? && 0 < th.at < |th.stack| && th.stack[th.at - 1] != 0 && th.stack[th.at - 1] in s.nodes
    && Shaped(s.nodes[th.stack[th.at - 1]]) && s.nodes[th.stack[th.at - 1]].level > 0 && s.order > 0
  }

  lemma RaiseNext(s: State, t: nat)
    requires t in s.threads && Telling(s, s.threads[t])
    ensures var th := s.threads[t]; var p := th.stack[th.at - 1]; var h := Told(s, th);
            Next(s, Go(t)) ==
            if |s.nodes[p].keys| < s.order then SetThread(h, t, Releasing(th.key, th.stack))
            else SetThread(SplitNode(h, p), t, Raising(th.key, th.stack, th.at - 1, MidKey(h.nodes[p]), s.next))
  {
  }

  lemma RaiseChanged(s: State, t: nat)
    requires Sound(s) && t in s.threads && Telling(s, s.threads[t])
    ensures var th := s.threads[t]; var h := Told(s, th);
            && ChangedBy(s, h, th.stack) && th.right in s.nodes
            && (forall x | x in h.splits ::
                x in s.splits && h.splits[x] == s.splits[x] && !Owns(th, x)
                && Some(th.right) != Some(s.splits[x]))
  {
    OwnSplit(s, t);
  }

  lemma ToldSizes(s: State, t: nat)
    requires Sound(s) && t in s.threads && Telling(s, s.threads[t])
    ensures var th := s.threads[t]; var h, p := Told(s, th), th.stack[th.at - 1];
            && |h.nodes[p].keys| == |s.nodes[p].keys| + 1 && Shaped(h.nodes[p])
            && forall n | n in h.nodes && n != p :: |h.nodes[n].keys| <= h.order
  {
    TheSizes(s);
  }

  lemma RaiseFits(s: State, t: nat, i: nat)
    requires RaiseReady(s, t, i) && Telling(s, s.threads[t])
             && |s.nodes[s.threads[t].stack[s.threads[t].at - 1]].keys| < s.order
    ensures var th := s.threads[t]; Sound(SetThread(Told(s, th), t, Releasing(th.key, th.stack)))
  {
    var th := s.threads[t];
    RaiseChanged(s, t);
    ToldSizes(s, t);
    SplitsAfter(s, Told(s, th), t, Releasing(th.key, th.stack), Some(th.right));
    KeepChange(s, Told(s, th), t, Releasing(th.key, th.stack));
  }

  /** A full parent is split in turn; it is not the topmost latched node, so its own parent is latched too. */
  lemma RaiseSplits(s: State, t: nat, i: nat)
    requires RaiseReady(s, t, i) && Telling(s, s.threads[t])
             && |s.nodes[s.threads[t].stack[s.threads[t].at - 1]].keys| >= s.order
    ensures var th := s.threads[t]; var h, p := Told(s, th), th.stack[th.at - 1];
            && |h.nodes[p].keys| > 1 && Shaped(h.nodes[p])
            && Sound(SetThread(SplitNode(h, p), t, Raising(th.key, th.stack, th.at - 1, MidKey(h.nodes[p]), s.next)))
  {
    var th := s.threads[t];
    var p := th.stack[th.at - 1];
    RaiseChanged(s, t);
    ToldSizes(s, t);
    TheSizes(s);
    RaiseAgain(s, t, i);
    SplitChange(s, Told(s, th), t, p, Raising(th.key, th.stack, th.at - 1, MidKey(Told(s, th).nodes[p]), s.next),
        Some(th.right));
  }

  lemma RaiseAgain(s: State, t: nat, i: nat)
    requires RaiseReady(s, t, i) && |s.nodes[s.threads[t].stack[s.threads[t].at - 1]].keys| >= s.order > 0
    ensures var th := s.threads[t]; var p := th.stack[th.at - 1]; var h := Raised(s, p, th.stack[th.at], th.sep,
            th.right);
            && |h.nodes[p].keys| > 1 && Shaped(h.nodes[p])
            && ThreadOk(SplitNode(h, p), Raising(th.key, th.stack, th.at - 1, MidKey(h.nodes[p]), s.next))
  {
    var th := s.threads[t];
    var p, at := th.stack[th.at - 1], th.at - 1;
    var h := Raised(s, p, th.stack[th.at], th.sep, th.right);
    TheThread(s, t);
    TheSizes(s);
    AboveDiffers(s, t);
    PathPrefix(s, SplitNode(h, p), th.key, th.stack, th.at, at);
  }

  /** The node being told is not among those above it. */
  lemma AboveDiffers(s: State, t: nat)
    requires Sound(s) && t in s.threads && s.threads[t].Raising? && 0 < s.threads[t].at < |s.threads[t].stack|
    ensures var th := s.threads[t]; forall j | 0 <= j < th.at - 1 :: th.stack[j] != th.stack[th.at - 1]
  {
    var th := s.threads[t];
    Unfold(s);
    assert ThreadOk(s, th);
    forall j | 0 <= j < th.at - 1
      ensures th.stack[j] != th.stack[th.at - 1]
    {
      PathDistinct(s, th.key, th.stack, th.at, j, th.at - 1);
    }
  }

  lemma GrowFacts(s: State, t: nat)
    requires Sound(s) && t in s.threads && s.threads[t].Raising? && 0 < s.threads[t].at < |s.threads[t].stack|
             && s.threads[t].stack[s.threads[t].at - 1] == 0
    ensures var th := s.threads[t]; th.stack[th.at] == s.root && Growable(s, th.sep, th.right) && HeapOk(s)
  {
    Unfold(s);
    var th := s.threads[t];
    assert ThreadOk(s, th);
    assert Hidden(s, th.right);
    assert th.right in s.splits ==> Owned(s, th.right);
  }

  /** The root was split: the header, still latched, gets a new root. */
  lemma KeepGrow(s: State, t: nat)
    requires Sound(s) && t in s.threads && s.threads[t].Raising? && 0 < s.threads[t].at < |s.threads[t].stack|
             && s.threads[t].stack[s.threads[t].at - 1] == 0
    ensures Sound(Next(s, Go(t)))
  {
    var th := s.threads[t];
    GrowFacts(s, t);
    TheSizes(s);
    OwnSplit(s, t);
    var h := NewRoot(s, th.sep, th.right);
    HeapGrow(s, th.sep, th.right);
    GrowKidsFrom(s, th.sep, th.right);
    SplitsAfter(s, h, t, Releasing(th.key, th.stack), Some(th.right));
    KeepChange(s, h, t, Releasing(th.key, th.stack));
  }

  lemma GrowKidsFrom(s: State, sep: int, right: nat)
    requires s.root in s.nodes
    ensures KidsFrom(s, NewRoot(s, sep, right), Some(right))
  {
    var h := NewRoot(s, sep, right);
    forall q, k | q in h.nodes && k in h.nodes[q].kids
      ensures WasKid(s, k) || k == s.root || k == right
    {
      if q != s.next { assert k in s.nodes[q].kids; }
    }
  }
}
