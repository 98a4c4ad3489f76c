/** The concurrent B+Tree of src/cbtree.c: latch crabbing as an interleaving of the steps of
    any number of threads.

    One step takes one latch, releases one latch, or makes the changes a thread makes to one
    node it has latched for writing.  Who holds a latch is recorded with the thread.  Beside
    what the C node stores, a node here records its level and the part [lo, hi) of the key
    space it is responsible for; `splits` records the right halves not yet known to the parent. */
module CbTree {
  import opened Wrappers
  import opened Keys

  /** A leaf is at level 0 and has values; an inner node has one more child than keys. */
  datatype Node = Node(level: nat, lo: Option<int>, hi: Option<int>, keys: seq<int>, vals: seq<int>, kids: seq<nat>)

  datatype Thread =
    | Idle
    | Reader(key: int, held: seq<nat>)
    | Found(key: int, result: Option<int>)
    | Writer(key: int, val: int, stack: seq<nat>, drop: nat)
    | Raising(key: int, stack: seq<nat>, at: nat, sep: int, right: nat)
    | Releasing(key: int, stack: seq<nat>)

  /** Node 0 is the header; its only content is the root. */
  datatype State = State(order: nat, nodes: map<nat, Node>, root: nat, next: nat, threads: map<nat, Thread>,
      splits: map<nat, nat>)

  datatype Step = BeginSearch(tid: nat, key: int) | BeginInsert(tid: nat, key: int, val: int) | Go(tid: nat)

  // ----- latches -----

  function WriteHeld(t: Thread): seq<nat> {
    match t
    case Writer(_, _, stack, _) => stack
    case Raising(_, stack, _, _, _) => stack
    case Releasing(_, stack) => stack
    case _ => []
  }

  function ReadHeld(t: Thread): seq<nat> {
    if t.Reader? then t.held else []
  }

  predicate NoWriter(s: State, n: nat) {
    forall u | u in s.threads :: n !in WriteHeld(s.threads[u])
  }

  predicate NoHolder(s: State, n: nat) {
    forall u | u in s.threads :: n !in WriteHeld(s.threads[u]) && n !in ReadHeld(s.threads[u])
  }

  // ----- one node -----

  function Lookup(n: Node, key: int): Option<int>
    requires |n.vals| == |n.keys|
  {
    var i := RouteLeft(n.keys, key);
    if i < |n.keys| && n.keys[i] == key then Some(n.vals[i]) else None
  }

  function PutLeaf(n: Node, key: int, val: int): Node
    requires |n.vals| == |n.keys|
  {
    var i := RouteLeft(n.keys, key);
    if i < |n.keys| && n.keys[i] == key then n.(vals := n.vals[i := val])
    else n.(keys := n.keys[..i] + [key] + n.keys[i..], vals := n.vals[..i] + [val] + n.vals[i..])
  }

  /** The separator a full node is split at. */
  function MidKey(n: Node): int
    requires |n.keys| > 1
  {
    n.keys[|n.keys| / 2]
  }

  function LeftHalf(n: Node): Node
    requires |n.keys| > 1 && (if n.level == 0 then |n.vals| == |n.keys| else |n.kids| == |n.keys| + 1)
  {
    var m := |n.keys| / 2;
    if n.level == 0 then n.(hi := Some(n.keys[m]), keys := n.keys[..m], vals := n.vals[..m])
    else n.(hi := Some(n.keys[m]), keys := n.keys[..m], kids := n.kids[..m + 1])
  }

  function RightHalf(n: Node): Node
    requires |n.keys| > 1 && (if n.level == 0 then |n.vals| == |n.keys| else |n.kids| == |n.keys| + 1)
  {
    var m := |n.keys| / 2;
    if n.level == 0 then n.(lo := Some(n.keys[m]), keys := n.keys[m..], vals := n.vals[m..])
    else n.(lo := Some(n.keys[m]), keys := n.keys[m + 1..], kids := n.kids[m + 1..])
  }

  function AddKid(n: Node, sep: int, right: nat): Node
    requires |n.kids| == |n.keys| + 1
  {
    var i := RouteLeft(n.keys, sep);
    n.(keys := n.keys[..i] + [sep] + n.keys[i..], kids := n.kids[..i + 1] + [right] + n.kids[i + 1..])
  }

  // ----- steps -----

  predicate Shaped(n: Node) {
    if n.level == 0 then |n.vals| == |n.keys| && n.kids == [] else |n.kids| == |n.keys| + 1
  }

  function SetThread(s: State, t: nat, th: Thread): State {
    s.(threads := s.threads[t := th])
  }

  function ReaderStep(s: State, t: nat, key: int, held: seq<nat>): State {
    if held == [] then
      if NoWriter(s, 0) then SetThread(s, t, Reader(key, [0])) else s
    else if |held| > 1 then SetThread(s, t, Reader(key, held[1..]))
    else if held[0] == 0 then
      if NoWriter(s, s.root) then SetThread(s, t, Reader(key, [0, s.root])) else s
    else if held[0] !in s.nodes || !Shaped(s.nodes[held[0]]) then s
    else
      var n := s.nodes[held[0]];
      if n.level == 0 then SetThread(s, t, Found(key, Lookup(n, key)))
      else
        var c := n.kids[Route(n.keys, key)];
        if NoWriter(s, c) then SetThread(s, t, Reader(key, [held[0], c])) else s
  }

  function Last(stack: seq<nat>): nat
    requires stack != []
  {
    stack[|stack| - 1]
  }

  function WriterStep(s: State, t: nat, key: int, val: int, stack: seq<nat>, drop: nat): State {
    if stack == [] then
      if NoHolder(s, 0) then SetThread(s, t, Writer(key, val, [0], 0)) else s
    else if drop > 0 then SetThread(s, t, Writer(key, val, stack[1..], drop - 1))
    else if Last(stack) == 0 then
      if NoHolder(s, s.root) then SetThread(s, t, Writer(key, val, stack + [s.root], 0)) else s
    else if Last(stack) !in s.nodes || !Shaped(s.nodes[Last(stack)]) then s
    else
      var n := s.nodes[Last(stack)];
      if n.level > 0 then
        var c := n.kids[Route(n.keys, key)];
        if !NoHolder(s, c) || c !in s.nodes then s
        else SetThread(s, t, Writer(key, val, stack + [c], if |s.nodes[c].keys| < s.order then |stack| else 0))
      else ChangeNode(s, t, key, stack, |stack| - 1, PutLeaf(n, key, val))
  }

  /** Node c gives its upper half to a new node that its parent does not know yet. */
  function SplitNode(s: State, c: nat): State
    requires c in s.nodes && Shaped(s.nodes[c]) && |s.nodes[c].keys| > 1
  {
    s.(nodes := s.nodes[c := LeftHalf(s.nodes[c])][s.next := RightHalf(s.nodes[c])], next := s.next + 1,
       splits := s.splits[c := s.next])
  }

  /** The node at stack[at] becomes n; a node that outgrew its page is split in the same step. */
  function ChangeNode(s: State, t: nat, key: int, stack: seq<nat>, at: nat, n: Node): State
    requires at < |stack|
  {
    var s1 := s.(nodes := s.nodes[stack[at] := n]);
    if |n.keys| <= s.order || |n.keys| < 2 || !Shaped(n) then SetThread(s1, t, Releasing(key, stack))
    else SetThread(SplitNode(s1, stack[at]), t, Raising(key, stack, at, MidKey(n), s.next))
  }

  function RaiseStep(s: State, t: nat, th: Thread): State
    requires th.Raising?
  {
    if !(0 < th.at < |th.stack|) then s
    else
      var p, c := th.stack[th.at - 1], th.stack[th.at];
      var s1 := s.(splits := s.splits - {c});
      if p == 0 then
        if c !in s.nodes then s
        else
          SetThread(s1.(nodes := s.nodes[s.next := Node(s.nodes[c].level + 1, None, None, [th.sep], [],
              [s.root, th.right])],
                        root := s.next, next := s.next + 1),
                    t, Releasing(th.key, th.stack))
      else if p !in s.nodes || |s.nodes[p].kids| != |s.nodes[p].keys| + 1 then s
      else ChangeNode(s1, t, th.key, th.stack, th.at - 1, AddKid(s.nodes[p], th.sep, th.right))
  }

  function Next(s: State, a: Step): State {
    match a
    case BeginSearch(t, key) =>
      if t !in s.threads || s.threads[t].Idle? || s.threads[t].Found? then SetThread(s, t, Reader(key, [])) else s
    case BeginInsert(t, key, val) =>
      if t !in s.threads || s.threads[t].Idle? || s.threads[t].Found? then SetThread(s, t, Writer(key, val, [], 0))
          else s
    case Go(t) =>
      if t !in s.threads then s
      else
        match s.threads[t]
        case Reader(key, held) => ReaderStep(s, t, key, held)
        case Writer(key, val, stack, drop) => WriterStep(s, t, key, val, stack, drop)
        case Raising(_, _, _, _, _) => RaiseStep(s, t, s.threads[t])
        case Releasing(key, stack) => SetThread(s, t, if |stack| <= 1 then Idle else Releasing(key, stack[1..]))
        case _ => s
  }

  function Run(s: State, xs: seq<Step>): State
    decreases |xs|
  {
    if xs == [] then s else Next(Run(s, xs[..|xs| - 1]), xs[|xs| - 1])
  }

  /** cbtree_create: the header over an empty leaf. */
  function Fresh(order: nat): State {
    State(order, map[1 := Node(0, None, None, [], [], [])], 1, 2, map[], map[])
  }

  // ----- contents -----

  ghost predicate LeafHas(n: Node, k: int, v: int) {
    n.level == 0 && exists i :: 0 <= i < |n.keys| && i < |n.vals| && n.keys[i] == k && n.vals[i] == v
  }

  /** Some leaf holds the pair. */
  ghost predicate Contains(s: State, k: int, v: int) {
    exists n :: n in s.nodes && LeafHas(s.nodes[n], k, v)
  }

  // ----- the invariant -----

  predicate AtLeast(lo: Option<int>, k: int) {
    lo.None? || lo.value <= k
  }

  predicate Under(k: int, hi: Option<int>) {
    hi.None? || k < hi.value
  }

  predicate InRange(n: Node, k: int) {
    AtLeast(n.lo, k) && Under(k, n.hi)
  }

  ghost predicate StrictlyUp(keys: seq<int>) {
    forall i, j | 0 <= i < j < |keys| :: keys[i] < keys[j]
  }

  /** A node by itself: a nonempty range, and sorted keys inside it; separators do not touch its ends. */
  ghost predicate NodeOk(n: Node) {
    && Shaped(n) && StrictlyUp(n.keys) && (exists k :: InRange(n, k))
    && forall i | 0 <= i < |n.keys| :: InRange(n, n.keys[i]) && (n.level > 0 && n.lo.Some? ==> n.lo.value < n.keys[i])
  }

  /** Child c answers for [lo, hi), alone or with the right half that was just split off it. */
  ghost predicate Covers(s: State, c: nat, level: nat, lo: Option<int>, hi: Option<int>) {
    && c in s.nodes && s.nodes[c].level == level && s.nodes[c].lo == lo
    && if c in s.splits
       then s.splits[c] in s.nodes && s.nodes[s.splits[c]].level == level && s.nodes[s.splits[c]].hi == hi
            && s.nodes[c].hi.Some? && s.nodes[s.splits[c]].lo == s.nodes[c].hi
       else s.nodes[c].hi == hi
  }

  ghost predicate KidOk(s: State, p: nat, i: nat)
    requires p in s.nodes && i <= |s.nodes[p].keys| && i < |s.nodes[p].kids| && s.nodes[p].level > 0
  {
    var n := s.nodes[p];
    Covers(s, n.kids[i], n.level - 1, LoAt(n.keys, i, n.lo), HiAt(n.keys, i, n.hi))
  }

  ghost predicate KidsOk(s: State, p: nat)
    requires p in s.nodes && Shaped(s.nodes[p])
  {
    s.nodes[p].level > 0 ==> forall i: nat {:trigger KidOk(s, p, i)} | i < |s.nodes[p].kids| :: KidOk(s, p, i)
  }

  ghost predicate Good(s: State, p: nat)
    requires p in s.nodes
  {
    NodeOk(s.nodes[p]) && KidsOk(s, p)
  }

  ghost predicate AllGood(s: State) {
    forall n: nat {:trigger Good(s, n)} | n in s.nodes :: Good(s, n)
  }

  ghost predicate AllApart(s: State) {
    forall a: nat, b: nat {:trigger Apart(s.nodes[a], s.nodes[b])} | a in s.nodes && b in s.nodes
        && a != b :: Apart(s.nodes[a], s.nodes[b])
  }

  ghost predicate Apart(a: Node, b: Node) {
    a.level == b.level ==> forall k :: !(InRange(a, k) && InRange(b, k))
  }

  /** Node numbers in use; node 0 is the header. */
  ghost predicate Numbered(s: State) {
    && s.order > 0 && 0 !in s.nodes && 0 < s.next && s.root in s.nodes && (forall n | n in s.nodes :: n < s.next)
    && (forall c | c in s.splits :: c in s.nodes && s.splits[c] in s.nodes)
  }

  ghost predicate RootOk(s: State)
    requires s.root in s.nodes
  {
    && Covers(s, s.root, s.nodes[s.root].level, None, None)
    && (forall n | n in s.nodes :: s.nodes[n].level <= s.nodes[s.root].level)
  }

  /** The heap: good nodes, children that cover their slots, and disjoint ranges on every level. */
  ghost predicate HeapOk(s: State) {
    Numbered(s) && AllGood(s) && AllApart(s) && RootOk(s)
  }

  ghost predicate IsChild(s: State, p: nat, c: nat) {
    if p == 0 then s.root == c else p in s.nodes && c in s.nodes[p].kids
  }

  /** A write-latched path from ancestor to descendant, all on the way to the key. */
  ghost predicate PathOk(s: State, key: int, stack: seq<nat>, n: nat) {
    && n <= |stack|
    && (forall j | 0 <= j < n && stack[j] != 0 :: stack[j] in s.nodes && InRange(s.nodes[stack[j]], key))
    && (forall j | 0 < j < n :: stack[j] != 0 && IsChild(s, stack[j - 1], stack[j]))
  }

  /** Splits stop at the first latched node: it is the header or has room. */
  ghost predicate TopOk(s: State, stack: seq<nat>) {
    stack != [] ==> stack[0] == 0 || (stack[0] in s.nodes && |s.nodes[stack[0]].keys| < s.order)
  }

  ghost predicate ThreadOk(s: State, th: Thread) {
    match th
    case Reader(key, held) => forall j | 0 <= j < |held| && held[j] != 0 ::
        held[j] in s.nodes
        && InRange(s.nodes[held[j]], key)
    case Writer(key, _, stack, drop) =>
      && PathOk(s, key, stack, |stack|)
      && (if drop == 0 then TopOk(s, stack)
          else drop == |stack| - 1 && Last(stack) in s.nodes && |s.nodes[Last(stack)].keys| < s.order)
    case Raising(key, stack, at, sep, right) =>
      && 0 < at < |stack| && PathOk(s, key, stack, at) && TopOk(s, stack)
      && stack[at] != 0 && IsChild(s, stack[at - 1], stack[at])
      && stack[at] in s.splits && s.splits[stack[at]] == right && stack[at] in s.nodes
          && s.nodes[stack[at]].hi == Some(sep)
    case _ => true
  }

  /** A write latch excludes every other thread. */
  ghost predicate Exclusive(s: State) {
    forall t, u, n | t in s.threads && u in s.threads && t != u && n in WriteHeld(s.threads[t]) ::
      n !in WriteHeld(s.threads[u]) && n !in ReadHeld(s.threads[u])
  }

  /** Every unfinished split belongs to a thread that still holds the node and its parent. */
  ghost predicate Owned(s: State, c: nat) {
    exists t :: t in s.threads && Owns(s.threads[t], c)
  }

  predicate Owns(th: Thread, c: nat) {
    th.Raising? && th.at < |th.stack| && th.stack[th.at] == c
  }

  ghost predicate Held(s: State, n: nat) {
    exists t :: t in s.threads && (n in WriteHeld(s.threads[t]) || n in ReadHeld(s.threads[t]))
  }

  /** The right half of an unfinished split is out of reach. */
  ghost predicate Hidden(s: State, r: nat) {
    r != s.root && !Held(s, r) && forall p | p in s.nodes :: r !in s.nodes[p].kids
  }

  ghost predicate SplitsOk(s: State) {
    && (forall c | c in s.splits :: Owned(s, c) && Hidden(s, s.splits[c]))
    && forall a, b | a in s.splits && b in s.splits && a != b :: s.splits[a] != s.splits[b]
  }

  /** Latched nodes exist. */
  ghost predicate Known(s: State) {
    forall t, n | t in s.threads && (n in WriteHeld(s.threads[t]) || n in ReadHeld(s.threads[t])) :: n < s.next
  }

  ghost predicate Inv(s: State) {
    && HeapOk(s) && Exclusive(s) && SplitsOk(s) && Known(s)
    && (forall n | n in s.nodes :: |s.nodes[n].keys| <= s.order)
    && (forall t | t in s.threads :: ThreadOk(s, s.threads[t]))
  }
}
