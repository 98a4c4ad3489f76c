/** Searches and inserts of the concurrent B+Tree (src/cbtree.c) are linearizable: each takes effect
    in one step between its begin and its end, and in the order of those steps the tree is a map. */
module CbLinear {
  import opened Wrappers
  import opened CbTree
  import opened CbRuns
  import opened CbSearch

  /** The state after the first i steps. */
  function At(order: nat, xs: seq<Step>, i: nat): State
    requires i <= |xs|
  {
    Run(Fresh(order), xs[..i])
  }

  lemma AtNext(order: nat, xs: seq<Step>, i: nat)
    requires i < |xs|
    ensures At(order, xs, i + 1) == Next(At(order, xs, i), xs[i])
  {
    assert xs[..i + 1][..i] == xs[..i];
  }

  /** Step i puts a pair with key k into its leaf. */
  predicate PutsAt(order: nat, xs: seq<Step>, i: nat, k: int)
    requires i < |xs|
  {
    var s, a := At(order, xs, i), xs[i];
    a.Go? && Puts(s, a, a.tid) && s.threads[a.tid].key == k
  }

  function PutValue(order: nat, xs: seq<Step>, i: nat, k: int): int
    requires i < |xs| && PutsAt(order, xs, i, k)
  {
    At(order, xs, i).threads[xs[i].tid].val
  }

  /** The value of the last pair with key k put before step i. */
  function Latest(order: nat, xs: seq<Step>, i: nat, k: int): Option<int>
    requires i <= |xs|
    decreases i
  {
    if i == 0 then None
    else if PutsAt(order, xs, i - 1, k) then Some(PutValue(order, xs, i - 1, k))
    else Latest(order, xs, i - 1, k)
  }

  /** At every moment the tree contains, for each key, exactly the pair put last. */
  lemma {:induction false} ContentsAreLatest(order: nat, xs: seq<Step>, i: nat, k: int, v: int)
    requires order > 0 && i <= |xs|
    ensures Contains(At(order, xs, i), k, v) <==> Latest(order, xs, i, k) == Some(v)
    decreases i
  {
    if i > 0 {
      ContentsAreLatest(order, xs, i - 1, k, v);
      RunSound(order, xs[..i - 1]);
      StepContents(At(order, xs, i - 1), xs[i - 1], k, v);
      AtNext(order, xs, i - 1);
    }
  }

  // ----- one operation -----

  ghost predicate Free(s: State, t: nat) {
    t !in s.threads || s.threads[t].Idle? || s.threads[t].Found?
  }

  /** Thread t begins nothing new in steps i to j. */
  ghost predicate GoesOn(xs: seq<Step>, t: nat, i: nat, j: nat) {
    forall m | i <= m < j <= |xs| :: xs[m].tid == t ==> xs[m].Go?
  }

  lemma OthersKeep(s: State, a: Step, t: nat)
    requires a.tid != t && t in s.threads
    ensures t in Next(s, a).threads && Next(s, a).threads[t] == s.threads[t]
  {
  }

  ghost predicate Begun(order: nat, xs: seq<Step>, i: nat, j: nat, a: Step) {
    i < j <= |xs| && xs[i] == a && Free(At(order, xs, i), a.tid) && GoesOn(xs, a.tid, i + 1, j)
  }

  lemma ReaderGoes(s: State, t: nat)
    requires t in s.threads && s.threads[t].Reader?
    ensures var n := Next(s, Go(t));
            t in n.threads && (n.threads[t].Reader? || n.threads[t].Found?) && n.threads[t].key == s.threads[t].key
  {
  }

  /** A search that ended returned, for some moment between its begin and its end, what was put last. */
  lemma {:induction false} SearchLinearizes(order: nat, xs: seq<Step>, i: nat, j: nat, t: nat, k: int) returns (m: nat)
    requires order > 0 && Begun(order, xs, i, j, BeginSearch(t, k))
    ensures var s := At(order, xs, j);
            && t in s.threads && (s.threads[t].Reader? || s.threads[t].Found?) && s.threads[t].key == k
            && (s.threads[t].Found? ==> i < m < j && xs[m] == Go(t) && s.threads[t].result == Latest(order, xs, m, k))
    decreases j
  {
    m := i + 1;
    AtNext(order, xs, j - 1);
    if j > i + 1 {
      m := SearchLinearizes(order, xs, i, j - 1, t, k);
      var s, a := At(order, xs, j - 1), xs[j - 1];
      if a.tid != t {
        OthersKeep(s, a, t);
      } else if s.threads[t].Reader? {
        ReaderGoes(s, t);
        if Next(s, a).threads[t].Found? {
          m := j - 1;
          ReadLatest(order, xs, m, t);
        }
      }
    }
  }

  lemma ReadLatest(order: nat, xs: seq<Step>, m: nat, t: nat)
    requires order > 0 && m < |xs|
    requires var s := At(order, xs, m); t in s.threads && s.threads[t].Reader? && Next(s, Go(t)).threads[t].Found?
    ensures var s := At(order, xs, m); Next(s, Go(t)).threads[t].result == Latest(order, xs, m, s.threads[t].key)
  {
    var s := At(order, xs, m);
    var k, r := s.threads[t].key, Next(s, Go(t)).threads[t].result;
    RunSound(order, xs[..m]);
    if r.Some? {
      ReadExact(s, t, r.value);
      ContentsAreLatest(order, xs, m, k, r.value);
    }
    if Latest(order, xs, m, k).Some? {
      ReadExact(s, t, Latest(order, xs, m, k).value);
      ContentsAreLatest(order, xs, m, k, Latest(order, xs, m, k).value);
    }
  }

  /** Step m is a put by thread t. */
  predicate PutsBy(order: nat, xs: seq<Step>, m: nat, t: nat)
    requires m < |xs|
  {
    Puts(At(order, xs, m), xs[m], t)
  }

  lemma WriterGoes(s: State, t: nat)
    requires Sound(s) && t in s.threads && s.threads[t].Writer?
    ensures var n := Next(s, Go(t)); t in n.threads
    ensures var th := Next(s, Go(t)).threads[t];
            if Puts(s, Go(t), t) then th.Raising? || th.Releasing?
            else th.Writer? && th.key == s.threads[t].key && th.val == s.threads[t].val
  {
    TheThread(s, t);
    Unfold(s);
    if Puts(s, Go(t), t) { assert Good(s, Last(s.threads[t].stack)); }
  }

  lemma FinisherGoes(s: State, t: nat)
    requires t in s.threads && (s.threads[t].Raising? || s.threads[t].Releasing? || s.threads[t].Idle?)
    ensures var n := Next(s, Go(t));
            t in n.threads && (n.threads[t].Raising? || n.threads[t].Releasing? || n.threads[t].Idle?)
            && !Puts(s, Go(t), t)
  {
  }

  /** The insert still has its pair to put, or it put it in exactly one step so far. */
  ghost predicate PutOnce(order: nat, xs: seq<Step>, i: nat, j: nat, t: nat, k: int, v: int, m: nat)
    requires j <= |xs|
  {
    && i < m < j && PutsBy(order, xs, m, t) && PutsAt(order, xs, m, k) && PutValue(order, xs, m, k) == v
    && forall x | i < x < j && PutsBy(order, xs, x, t) :: x == m
  }

  /** An insert that ended put its pair in exactly one step between its begin and its end. */
  lemma {:induction false} InsertLinearizes(order: nat, xs: seq<Step>, i: nat, j: nat, t: nat, k: int, v: int)
    returns (m: nat)
    requires order > 0 && Begun(order, xs, i, j, BeginInsert(t, k, v))
    ensures var s := At(order, xs, j); t in s.threads
    ensures var th := At(order, xs, j).threads[t];
            if th.Writer? then th.key == k && th.val == v && forall x | i < x < j :: !PutsBy(order, xs, x, t)
            else (th.Raising? || th.Releasing? || th.Idle?) && PutOnce(order, xs, i, j, t, k, v, m)
    decreases j
  {
    m := i + 1;
    AtNext(order, xs, j - 1);
    if j > i + 1 {
      m := InsertLinearizes(order, xs, i, j - 1, t, k, v);
      var s, a := At(order, xs, j - 1), xs[j - 1];
      RunSound(order, xs[..j - 1]);
      if a.tid != t {
        OthersKeep(s, a, t);
      } else if s.threads[t].Writer? {
        WriterGoes(s, t);
        if Puts(s, a, t) { m := j - 1; }
      } else {
        FinisherGoes(s, t);
      }
    }
  }

  // ----- a search after an insert -----

  /** What is read after a put of k is the value of that put or of a later one. */
  lemma {:induction false} LatestSince(order: nat, xs: seq<Step>, q: nat, m: nat, k: int) returns (p: nat)
    requires q < m <= |xs| && PutsAt(order, xs, q, k)
    ensures q <= p < m && PutsAt(order, xs, p, k) && Latest(order, xs, m, k) == Some(PutValue(order, xs, p, k))
    decreases m
  {
    p := m - 1;
    if !PutsAt(order, xs, m - 1, k) { p := LatestSince(order, xs, q, m - 1, k); }
  }

  /** A search never misses a key whose insert completed before the search began: it returns the value that
      insert put, or one put for the same key at or after it and before the search ended. */
  lemma NeverMisses(order: nat, xs: seq<Step>, i: nat, j: nat, u: nat, x: nat, y: nat, t: nat, k: int, v: int)
    returns (q: nat, p: nat)
    requires order > 0 && Begun(order, xs, i, j, BeginInsert(u, k, v)) && Begun(order, xs, x, y, BeginSearch(t, k))
    requires j <= x && u in At(order, xs, j).threads && At(order, xs, j).threads[u].Idle?
    requires t in At(order, xs, y).threads && At(order, xs, y).threads[t].Found?
    ensures PutOnce(order, xs, i, j, u, k, v, q) && q <= p < y && PutsAt(order, xs, p, k)
    ensures At(order, xs, y).threads[t] == Found(k, Some(PutValue(order, xs, p, k)))
  {
    q := InsertLinearizes(order, xs, i, j, u, k, v);
    var m := SearchLinearizes(order, xs, x, y, t, k);
    p := LatestSince(order, xs, q, m, k);
  }
}
