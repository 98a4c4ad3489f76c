/** Latch crabbing never deadlocks (src/cbtree.c): latches are only ever waited for downwards. */
module CbProgress {
  import opened Wrappers
  import opened Keys
  import opened CbTree
  import opened CbRuns
  import opened CbSearch

  /** In the middle of a search or an insert. */
  predicate Busy(th: Thread) {
    !th.Idle? && !th.Found?
  }

  /** The latch the thread's next step has to take, if it takes one. */
  function Wanted(s: State, th: Thread): Option<nat> {
    match th
    case Reader(key, held) => if |held| > 1 then None else WantedBelow(s, key, held)
    case Writer(key, _, stack, drop) => if drop > 0 then None else WantedBelow(s, key, stack)
    case _ => None
  }

  function WantedBelow(s: State, key: int, held: seq<nat>): Option<nat> {
    if held == [] then Some(0)
    else if Last(held) == 0 then Some(s.root)
    else if Last(held) in s.nodes && Shaped(s.nodes[Last(held)]) && s.nodes[Last(held)].level > 0
    then Some(s.nodes[Last(held)].kids[Route(s.nodes[Last(held)].keys, key)])
    else None
  }

  /** Levels count upwards from the leaves; the header is above the root. */
  function LevelOf(s: State, n: nat): nat {
    if n in s.nodes then s.nodes[n].level else if s.root in s.nodes then s.nodes[s.root].level + 1 else 0
  }

  ghost predicate Moves(s: State, t: nat) {
    Next(s, Go(t)) != s
  }

  /** What a thread that took a step left of itself is different. */
  lemma MovedOn(s: State, t: nat)
    requires t in s.threads && t in Next(s, Go(t)).threads && Next(s, Go(t)).threads[t] != s.threads[t]
    ensures Moves(s, t)
  {
  }

  lemma ReaderMoves(s: State, t: nat)
    requires Inv(s) && t in s.threads && s.threads[t].Reader? && !Moves(s, t)
    ensures var w := Wanted(s, s.threads[t]); w.Some? && !NoWriter(s, w.value)
  {
    assert ThreadOk(s, s.threads[t]);
    var held := s.threads[t].held;
    if |held| == 1 && held[0] != 0 { assert Good(s, held[0]); }
    var w := Wanted(s, s.threads[t]);
    if w.None? || NoWriter(s, w.value) { MovedOn(s, t); }
  }

  lemma WriterMoves(s: State, t: nat)
    requires Inv(s) && t in s.threads && s.threads[t].Writer? && !Moves(s, t)
    ensures var w := Wanted(s, s.threads[t]); w.Some? && !NoHolder(s, w.value)
  {
    assert ThreadOk(s, s.threads[t]);
    var stack := s.threads[t].stack;
    if stack != [] && Last(stack) != 0 {
      assert Good(s, Last(stack));
    }
    var w := Wanted(s, s.threads[t]);
    if w.None? || NoHolder(s, w.value) {
      WantedExists(s, s.threads[t]);
      MovedOn(s, t);
    }
  }

  /** After a change the thread releases its latches or has a split at that place to tell the parent of. */
  lemma Changed(s: State, t: nat, key: int, stack: seq<nat>, at: nat, n: Node)
    requires at < |stack|
    ensures var s2 := ChangeNode(s, t, key, stack, at, n);
            t in s2.threads && (s2.threads[t].Releasing? || (s2.threads[t].Raising? && s2.threads[t].at == at))
  {
  }

  ghost predicate CanRaise(s: State, th: Thread) {
    && th.Raising? && 0 < th.at < |th.stack| && th.stack[th.at] in s.nodes
    && var p := th.stack[th.at - 1]; p != 0 ==> p in s.nodes && |s.nodes[p].kids| == |s.nodes[p].keys| + 1
  }

  lemma RaiserReady(s: State, t: nat)
    requires Inv(s) && t in s.threads && s.threads[t].Raising?
    ensures CanRaise(s, s.threads[t])
  {
    assert ThreadOk(s, s.threads[t]);
    var p := s.threads[t].stack[s.threads[t].at - 1];
    if p != 0 {
      assert IsChild(s, p, s.threads[t].stack[s.threads[t].at]);
      assert Good(s, p);
    }
  }

  lemma RaiserMoves(s: State, t: nat)
    requires t in s.threads && CanRaise(s, s.threads[t])
    ensures Moves(s, t)
  {
    var th := s.threads[t];
    var p, c := th.stack[th.at - 1], th.stack[th.at];
    if p != 0 {
      Changed(s.(splits := s.splits - {c}), t, th.key, th.stack, th.at - 1, AddKid(s.nodes[p], th.sep, th.right));
    }
    RaiseStepMoves(s, t);
  }

  lemma RaiseStepMoves(s: State, t: nat)
    requires t in s.threads && s.threads[t].Raising?
    requires var th := s.threads[t]; 0 < th.at < |th.stack| && th.stack[th.at] in s.nodes
    requires var th := s.threads[t]; var p, c := th.stack[th.at - 1], th.stack[th.at];
             p != 0 ==>
               && p in s.nodes && |s.nodes[p].kids| == |s.nodes[p].keys| + 1
               && var s2 := ChangeNode(s.(splits := s.splits - {c}), t, th.key, th.stack, th.at - 1,
                                       AddKid(s.nodes[p], th.sep, th.right));
                  t in s2.threads && s2.threads[t] != th
    ensures Moves(s, t)
  {
    MovedOn(s, t);
  }

  lemma ReleaserMoves(s: State, t: nat)
    requires t in s.threads && s.threads[t].Releasing?
    ensures Moves(s, t)
  {
    MovedOn(s, t);
  }

  /** The wanted latch is the header's or a node's, right below the last one held. */
  lemma WantedExists(s: State, th: Thread)
    requires Inv(s) && ThreadOk(s, th) && Wanted(s, th).Some?
    ensures var w := Wanted(s, th).value; w == 0 || w in s.nodes
    ensures var held := if th.Reader? then th.held else th.stack;
            held != [] ==> LevelOf(s, Wanted(s, th).value) + 1 == LevelOf(s, Last(held))
  {
    var held := if th.Reader? then th.held else th.stack;
    if held != [] && Last(held) != 0 {
      var n := s.nodes[Last(held)];
      assert IsChild(s, Last(held), n.kids[Route(n.keys, th.key)]);
      ChildLevel(s, Last(held), n.kids[Route(n.keys, th.key)]);
    }
  }

  /** A write-latched path goes down. */
  lemma {:induction false} PathDown(s: State, key: int, stack: seq<nat>, i: nat)
    requires Inv(s) && PathOk(s, key, stack, |stack|) && i < |stack|
    ensures LevelOf(s, Last(stack)) <= LevelOf(s, stack[i])
    decreases |stack| - i
  {
    if i + 1 < |stack| {
      assert IsChild(s, stack[i], stack[i + 1]);
      if stack[i] != 0 { ChildLevel(s, stack[i], stack[i + 1]); }
      PathDown(s, key, stack, i + 1);
    }
  }

  /** A thread that holds n and waits, waits for a latch below n. */
  lemma WaitsBelow(s: State, th: Thread, n: nat)
    requires Inv(s) && ThreadOk(s, th) && Wanted(s, th).Some? && Holds(th, n)
    ensures LevelOf(s, Wanted(s, th).value) < LevelOf(s, n)
  {
    WantedExists(s, th);
    if th.Writer? {
      var i :| 0 <= i < |th.stack| && th.stack[i] == n;
      PathDown(s, th.key, th.stack, i);
    }
  }

  /** A thread that cannot go on waits for a latch another one holds. */
  lemma Blocked(s: State, t: nat) returns (u: nat)
    requires Inv(s) && t in s.threads && Busy(s.threads[t]) && !Moves(s, t)
    ensures Wanted(s, s.threads[t]).Some? && u in s.threads && Holds(s.threads[u], Wanted(s, s.threads[t]).value)
  {
    if s.threads[t].Raising? {
      RaiserReady(s, t);
      RaiserMoves(s, t);
    }
    if s.threads[t].Releasing? { ReleaserMoves(s, t); }
    if s.threads[t].Reader? { ReaderMoves(s, t); }
    if s.threads[t].Writer? { WriterMoves(s, t); }
    u :| u in s.threads && Holds(s.threads[u], Wanted(s, s.threads[t]).value);
  }

  /** Follow the threads that are waited for, downwards, to one that can go on. */
  lemma {:induction false} SomeoneMoves(s: State, t: nat)
    requires Inv(s) && t in s.threads && Busy(s.threads[t])
    ensures exists u :: u in s.threads && Moves(s, u)
    decreases var w := Wanted(s, s.threads[t]); if w.Some? then LevelOf(s, w.value) + 1 else 0
  {
    if !Moves(s, t) {
      var u := Blocked(s, t);
      assert ThreadOk(s, s.threads[u]);
      if Wanted(s, s.threads[u]).Some? { WaitsBelow(s, s.threads[u], Wanted(s, s.threads[t]).value); }
      SomeoneMoves(s, u);
    }
  }

  /** Whatever searches and inserts have been begun, and wherever they are, some thread can go on
      as long as one of them is not finished. */
  lemma NeverStuck(order: nat, xs: seq<Step>, t: nat)
    requires order > 0
    requires var s := Run(Fresh(order), xs); t in s.threads && Busy(s.threads[t])
    ensures var s := Run(Fresh(order), xs); exists u :: u in s.threads && Moves(s, u)
  {
    RunSound(order, xs);
    Unfold(Run(Fresh(order), xs));
    SomeoneMoves(Run(Fresh(order), xs), t);
  }
}
