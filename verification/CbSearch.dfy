/** What searches and inserts of src/cbtree.c mean for each other, over every interleaving. */
module CbSearch {
  import opened Wrappers
  import opened Keys
  import opened CbTree
  import opened CbHeap
  import opened CbRuns

  // ----- one leaf -----

  lemma LookupExact(n: Node, key: int, v: int)
    requires NodeOk(n) && n.level == 0
    ensures Lookup(n, key) == Some(v) <==> LeafHas(n, key, v)
  {
    var i := RouteLeft(n.keys, key);
    if LeafHas(n, key, v) {
      var j :| 0 <= j < |n.keys| && n.keys[j] == key && n.vals[j] == v;
      SlotFinds(n.keys, key, j);
    }
  }

  lemma SlotFinds(keys: seq<int>, key: int, j: nat)
    requires StrictlyUp(keys) && j < |keys| && keys[j] == key
    ensures RouteLeft(keys, key) == j
  {
  }

  lemma InsertedAt<T>(a: seq<T>, i: nat, x: T, j: nat)
    requires i <= |a| && j <= |a|
    ensures (a[..i] + [x] + a[i..])[j] == if j < i then a[j] else if j == i then x else a[j - 1]
  {
  }

  lemma InsertHas(n: Node, m: Node, i: nat, key: int, val: int, j: nat)
    requires |n.vals| == |n.keys| && i <= |n.keys| && j < |n.keys| && m.level == 0
    requires m.keys == n.keys[..i] + [key] + n.keys[i..] && m.vals == n.vals[..i] + [val] + n.vals[i..]
    ensures LeafHas(m, n.keys[j], n.vals[j])
  {
    var o := if j < i then j else j + 1;
    InsertedAt(n.keys, i, key, o);
    InsertedAt(n.vals, i, val, o);
    assert m.keys[o] == n.keys[j] && m.vals[o] == n.vals[j];
  }

  lemma PutKeeps(n: Node, key: int, val: int, k: int, v: int)
    requires NodeOk(n) && n.level == 0 && k != key && LeafHas(n, k, v)
    ensures LeafHas(PutLeaf(n, key, val), k, v)
  {
    var m, i := PutLeaf(n, key, val), RouteLeft(n.keys, key);
    var j :| 0 <= j < |n.keys| && n.keys[j] == k && n.vals[j] == v;
    if i < |n.keys| && n.keys[i] == key {
      assert m.keys[j] == k && m.vals[j] == v;
    } else {
      InsertHas(n, m, i, key, val, j);
    }
  }

  lemma PutFrom(n: Node, key: int, val: int, k: int, v: int)
    requires NodeOk(n) && n.level == 0 && LeafHas(PutLeaf(n, key, val), k, v)
    ensures if k == key then v == val else LeafHas(n, k, v)
  {
    var m, i := PutLeaf(n, key, val), RouteLeft(n.keys, key);
    var j :| 0 <= j < |m.keys| && m.keys[j] == k && m.vals[j] == v;
    if !(i < |n.keys| && n.keys[i] == key) {
      InsertedAt(n.keys, i, key, j);
      InsertedAt(n.vals, i, val, j);
    }
  }

  lemma PutHas(n: Node, key: int, val: int)
    requires NodeOk(n) && n.level == 0
    ensures LeafHas(PutLeaf(n, key, val), key, val)
  {
    var m, i := PutLeaf(n, key, val), RouteLeft(n.keys, key);
    assert m.keys[i] == key && m.vals[i] == val;
  }

  lemma HalvesHave(n: Node, k: int, v: int)
    requires NodeOk(n) && |n.keys| > 1
    ensures LeafHas(n, k, v) <==> LeafHas(LeftHalf(n), k, v) || LeafHas(RightHalf(n), k, v)
  {
    if n.level == 0 {
      var m, l, r := |n.keys| / 2, LeftHalf(n), RightHalf(n);
      if LeafHas(n, k, v) {
        var j :| 0 <= j < |n.keys| && n.keys[j] == k && n.vals[j] == v;
        if j < m { assert l.keys[j] == k && l.vals[j] == v; } else { assert r.keys[j - m] == k && r.vals[j - m] == v; }
      }
      if LeafHas(r, k, v) {
        var j :| 0 <= j < |r.keys| && r.keys[j] == k && r.vals[j] == v;
        assert n.keys[m + j] == k && n.vals[m + j] == v;
      }
    }
  }

  // ----- the whole tree -----

  lemma HasInRange(n: Node, k: int, v: int)
    requires NodeOk(n) && LeafHas(n, k, v)
    ensures InRange(n, k)
  {
  }

  /** A key lives in the one leaf whose range holds it. */
  lemma OneLeaf(s: State, c: nat, k: int, v: int)
    requires HeapOk(s) && c in s.nodes && s.nodes[c].level == 0 && InRange(s.nodes[c], k)
    ensures Contains(s, k, v) <==> LeafHas(s.nodes[c], k, v)
  {
    if Contains(s, k, v) {
      var n :| n in s.nodes && LeafHas(s.nodes[n], k, v);
      assert Good(s, n);
      HasInRange(s.nodes[n], k, v);
      assert n != c ==> Apart(s.nodes[n], s.nodes[c]);
    }
  }

  lemma PutContains(s: State, c: nat, key: int, val: int, k: int, v: int)
    requires HeapOk(s) && c in s.nodes && s.nodes[c].level == 0 && InRange(s.nodes[c], key) && Shaped(s.nodes[c])
    ensures var h := s.(nodes := s.nodes[c := PutLeaf(s.nodes[c], key, val)]);
            Contains(h, k, v) <==> if k == key then v == val else Contains(s, k, v)
  {
    var n := PutLeaf(s.nodes[c], key, val);
    var h := s.(nodes := s.nodes[c := n]);
    assert Good(s, c);
    PutOk(s.nodes[c], key, val);
    HeapRefill(s, c, n);
    if k == key {
      PutHas(s.nodes[c], key, val);
      OneLeaf(h, c, k, v);
      if LeafHas(n, k, v) { PutFrom(s.nodes[c], key, val, k, v); }
    } else {
      if Contains(s, k, v) {
        var x :| x in s.nodes && LeafHas(s.nodes[x], k, v);
        if x == c { PutKeeps(s.nodes[c], key, val, k, v); }
        assert LeafHas(h.nodes[x], k, v);
      }
      if Contains(h, k, v) {
        var x :| x in h.nodes && LeafHas(h.nodes[x], k, v);
        if x == c { PutFrom(s.nodes[c], key, val, k, v); }
        assert LeafHas(s.nodes[x], k, v);
      }
    }
  }

  lemma SplitContains(s: State, c: nat, k: int, v: int)
    requires c in s.nodes && NodeOk(s.nodes[c]) && |s.nodes[c].keys| > 1 && s.next !in s.nodes
    ensures Contains(SplitNode(s, c), k, v) <==> Contains(s, k, v)
  {
    var h := SplitNode(s, c);
    HalvesHave(s.nodes[c], k, v);
    if Contains(s, k, v) {
      var x :| x in s.nodes && LeafHas(s.nodes[x], k, v);
      assert LeafHas(h.nodes[x], k, v) || LeafHas(h.nodes[s.next], k, v);
    }
    if Contains(h, k, v) {
      var x :| x in h.nodes && LeafHas(h.nodes[x], k, v);
      assert LeafHas(s.nodes[if x == s.next then c else x], k, v);
    }
  }

  /** Changes to inner nodes do not touch the contents. */
  lemma InnerContains(s: State, h: State, k: int, v: int)
    requires forall n | n in s.nodes ::
             n in h.nodes && (h.nodes[n] == s.nodes[n]
             || (s.nodes[n].level > 0 && h.nodes[n].level > 0))
    requires forall n | n in h.nodes && n !in s.nodes :: h.nodes[n].level > 0
    ensures Contains(h, k, v) <==> Contains(s, k, v)
  {
    if Contains(s, k, v) {
      var x :| x in s.nodes && LeafHas(s.nodes[x], k, v);
      assert LeafHas(h.nodes[x], k, v);
    }
    if Contains(h, k, v) {
      var x :| x in h.nodes && LeafHas(h.nodes[x], k, v);
      assert LeafHas(s.nodes[x], k, v);
    }
  }

  // ----- every step -----

  lemma KeepBegin(s: State, t: nat, th: Thread)
    requires Sound(s) && (t !in s.threads || s.threads[t].Idle? || s.threads[t].Found?) && WriteHeld(th) == []
             && ReadHeld(th) == []
    requires th.Reader? || (th.Writer? && th.drop == 0)
    ensures Sound(SetThread(s, t, th))
  {
    KeepSetThread(s, t, th);
  }

  lemma KeepRelease(s: State, t: nat)
    requires Sound(s) && t in s.threads && s.threads[t].Releasing?
    ensures Sound(Next(s, Go(t)))
  {
    var key, stack := s.threads[t].key, s.threads[t].stack;
    KeepSetThread(s, t, if |stack| <= 1 then Idle else Releasing(key, stack[1..]));
  }

  lemma KeepWriter(s: State, t: nat)
    requires Sound(s) && t in s.threads && s.threads[t].Writer?
    ensures Sound(Next(s, Go(t)))
  {
    var th := s.threads[t];
    TheThread(s, t);
    if th.stack == [] {
      KeepTakeHeader(s, t);
    } else if th.drop > 0 {
      KeepDrop(s, t);
    } else if Last(th.stack) == 0 {
      KeepTakeRoot(s, t, th.key, th.val, th.stack);
    } else if s.nodes[Last(th.stack)].level > 0 {
      KeepDescend(s, t, th.key, th.val, th.stack);
    } else {
      KeepLeafStep(s, t, th.key, th.val, th.stack);
    }
  }

  lemma KeepStep(s: State, a: Step)
    requires Sound(s)
    ensures Sound(Next(s, a))
  {
    match a
    case BeginSearch(t, key) =>
      if t !in s.threads || s.threads[t].Idle? || s.threads[t].Found? { KeepBegin(s, t, Reader(key, [])); }
    case BeginInsert(t, key, val) =>
      if t !in s.threads || s.threads[t].Idle? || s.threads[t].Found? { KeepBegin(s, t, Writer(key, val, [], 0)); }
    case Go(t) =>
      if t in s.threads {
        TheThread(s, t);
        match s.threads[t]
        case Reader(_, _) => KeepReader(s, t);
        case Writer(_, _, _, _) => KeepWriter(s, t);
        case Raising(_, stack, at, _, _) => if stack[at - 1] == 0 { KeepGrow(s, t); } else { KeepRaise(s, t); }
        case Releasing(_, _) => KeepRelease(s, t);
        case _ =>
      }
  }

  lemma FreshSound(order: nat)
    requires order > 0
    ensures Sound(Fresh(order))
  {
    var s := Fresh(order);
    assert InRange(s.nodes[1], 0);
    assert Good(s, 1);
    Fold(s);
  }

  lemma {:induction false} RunSound(order: nat, xs: seq<Step>)
    requires order > 0
    ensures Sound(Run(Fresh(order), xs))
    decreases |xs|
  {
    if xs == [] {
      FreshSound(order);
    } else {
      RunSound(order, xs[..|xs| - 1]);
      KeepStep(Run(Fresh(order), xs[..|xs| - 1]), xs[|xs| - 1]);
    }
  }

  // ----- what each step does to the contents -----

  /** The step in which the thread's pair enters its leaf. */
  predicate Puts(s: State, a: Step, t: nat) {
    && a == Go(t) && t in s.threads && s.threads[t].Writer? && s.threads[t].drop == 0 && s.threads[t].stack != []
    && Last(s.threads[t].stack) in s.nodes && Last(s.threads[t].stack) != 0
        && s.nodes[Last(s.threads[t].stack)].level == 0
  }

  lemma PutStep(s: State, t: nat, k: int, v: int)
    requires Sound(s) && Puts(s, Go(t), t)
    ensures var th := s.threads[t];
            Contains(Next(s, Go(t)), k, v) <==> if k == th.key then v == th.val else Contains(s, k, v)
  {
    var th := s.threads[t];
    var c := Last(th.stack);
    Unfold(s);
    assert ThreadOk(s, th) && Good(s, c);
    var n := PutLeaf(s.nodes[c], th.key, th.val);
    var h := s.(nodes := s.nodes[c := n]);
    PutOk(s.nodes[c], th.key, th.val);
    PutContains(s, c, th.key, th.val, k, v);
    if |n.keys| > s.order { SplitContains(h, c, k, v); }
  }

  lemma RaiseStepContents(s: State, t: nat, k: int, v: int)
    requires Sound(s) && t in s.threads && s.threads[t].Raising?
    ensures Contains(Next(s, Go(t)), k, v) <==> Contains(s, k, v)
  {
    var th := s.threads[t];
    TheThread(s, t);
    TheSizes(s);
    if th.stack[th.at - 1] == 0 {
      InnerContains(s, Next(s, Go(t)), k, v);
    } else {
      var p := th.stack[th.at - 1];
      var i := RaiseFacts(s, t);
      RaiseHeap(s, t, i);
      RaiseNext(s, t);
      var h := Told(s, th);
      InnerContains(s, h, k, v);
      if |s.nodes[p].keys| >= s.order {
        assert Good(h, p);
        SplitContains(h, p, k, v);
      }
    }
  }

  /** Contents change only when a writer reaches its leaf, and then by exactly its pair: every other
      step of any thread - latching, releasing, linking a right half, growing the root - leaves them. */
  lemma StepContents(s: State, a: Step, k: int, v: int)
    requires Sound(s)
    ensures Contains(Next(s, a), k, v) <==>
            if a.Go? && Puts(s, a, a.tid) && k == s.threads[a.tid].key then v == s.threads[a.tid].val
                else Contains(s, k, v)
  {
    if a.Go? && a.tid in s.threads && s.threads[a.tid].Raising? {
      RaiseStepContents(s, a.tid, k, v);
    } else if a.Go? && Puts(s, a, a.tid) {
      PutStep(s, a.tid, k, v);
    } else {
      StillContents(s, a, k, v);
    }
  }

  lemma StillContents(s: State, a: Step, k: int, v: int)
    requires Sound(s) && !(a.Go? && Puts(s, a, a.tid)) && !(a.Go? && a.tid in s.threads && s.threads[a.tid].Raising?)
    ensures Contains(Next(s, a), k, v) <==> Contains(s, k, v)
  {
    if a.Go? && a.tid in s.threads { TheThread(s, a.tid); }
    assert Next(s, a).nodes == s.nodes;
  }

  // ----- over every run -----

  /** In every reachable state the key a thread seeks lies in the range of each node it is using. */
  lemma SoughtInRange(order: nat, xs: seq<Step>, t: nat, n: nat)
    requires order > 0
    requires var s := Run(Fresh(order), xs);
             t in s.threads && n != 0 && (s.threads[t].Reader? || s.threads[t].Writer?) && Holds(s.threads[t], n)
    ensures var s := Run(Fresh(order), xs); n in s.nodes && InRange(s.nodes[n], s.threads[t].key)
  {
    RunSound(order, xs);
    TheThread(Run(Fresh(order), xs), t);
  }

  /** In every reachable state a node that was split and whose parent does not know it yet is
      write-latched together with that parent, by one thread and no other. */
  lemma SplitUnderLatch(order: nat, xs: seq<Step>, c: nat) returns (t: nat, p: nat)
    requires order > 0 && c in Run(Fresh(order), xs).splits
    ensures var s := Run(Fresh(order), xs);
            && t in s.threads && c in WriteHeld(s.threads[t]) && p in WriteHeld(s.threads[t]) && IsChild(s, p, c)
            && forall u | u in s.threads && u != t :: !Holds(s.threads[u], c) && !Holds(s.threads[u], p)
  {
    RunSound(order, xs);
    t, p := SplitOwner(Run(Fresh(order), xs), c);
    OthersOut(Run(Fresh(order), xs), t, c);
    OthersOut(Run(Fresh(order), xs), t, p);
  }

  lemma SplitOwner(s: State, c: nat) returns (t: nat, p: nat)
    requires Sound(s) && c in s.splits
    ensures t in s.threads && c in WriteHeld(s.threads[t]) && p in WriteHeld(s.threads[t]) && IsChild(s, p, c)
  {
    Unfold(s);
    assert Owned(s, c);
    t :| t in s.threads && Owns(s.threads[t], c);
    TheThread(s, t);
    p := s.threads[t].stack[s.threads[t].at - 1];
  }

  lemma OthersOut(s: State, t: nat, n: nat)
    requires Sound(s) && t in s.threads && n in WriteHeld(s.threads[t])
    ensures forall u | u in s.threads && u != t :: !Holds(s.threads[u], n)
  {
    Unfold(s);
  }

  /** A search returns what the tree contains at the moment it reads the leaf, whatever other threads are doing. */
  lemma SearchIsCurrent(order: nat, xs: seq<Step>, t: nat, v: int)
    requires order > 0
    requires var s := Run(Fresh(order), xs); t in s.threads && s.threads[t].Reader? && Next(s, Go(t)).threads[t].Found?
    ensures var s := Run(Fresh(order), xs); var r := Next(s, Go(t)).threads[t].result;
            r == Some(v) <==> Contains(s, s.threads[t].key, v)
  {
    RunSound(order, xs);
    ReadExact(Run(Fresh(order), xs), t, v);
  }

  lemma ReadExact(s: State, t: nat, v: int)
    requires Sound(s) && t in s.threads && s.threads[t].Reader? && Next(s, Go(t)).threads[t].Found?
    ensures Next(s, Go(t)).threads[t] == Found(s.threads[t].key, Next(s, Go(t)).threads[t].result)
    ensures Next(s, Go(t)).threads[t].result == Some(v) <==> Contains(s, s.threads[t].key, v)
  {
    var th := s.threads[t];
    Unfold(s);
    assert ThreadOk(s, th);
    var c := th.held[0];
    assert Good(s, c);
    LookupExact(s.nodes[c], th.key, v);
    OneLeaf(s, c, th.key, v);
  }
}
