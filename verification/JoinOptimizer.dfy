/** joinopt_optimize and joinopt_naive_cost (src/joinopt.c): the subset table, its
    backtracking, and the optimality of what they return. */
module JoinOptimizer {
  import opened Wrappers
  import opened Bits
  import opened JoinOrder

  /** One column of the dp_* tables. */
  datatype Cell = Unreached | Cell(cost: real, rows: real, last: nat, prev: nat, meth: Method, cross: bool)

  /** The plan of subset p extended by relation r. */
  function Candidate(g: Graph, c: Cell, p: nat, r: nat): Cell
    requires Shaped(g) && r < |g.card| && c.Cell?
  {
    var connected := Connected(g, p, r, |g.card|);
    var (add, meth) := StepCost(g, r, c.rows, connected);
    Cell(c.cost + add, NextRows(g, c.rows, p, r), r, p, meth, c.cross || !connected)
  }

  function Base(g: Graph, i: nat): Cell
    requires i < |g.card|
  {
    Cell(g.card[i], g.card[i], i, 0, Scan, false)
  }

  predicate Better(a: Cell, b: Cell)
    requires a.Cell?
  {
    b.Unreached? || a.cost < b.cost
  }

  /** A reached cell is a single relation, or the extension of a settled cell by a relation that may follow. */
  ghost predicate CellOk(g: Graph, t: seq<Cell>, m: nat, settled: nat)
    requires Shaped(g) && m < |t|
  {
    var c := t[m];
    c.Cell? ==>
      && c.last < |g.card|
      && if c.prev == 0 then m == Pow2(c.last) && c == Base(g, c.last)
         else c.prev < m && c.prev <= settled && t[c.prev].Cell? && MayFollow(g, c.prev, c.last)
              && m == c.prev + Pow2(c.last) && c == Candidate(g, t[c.prev], c.prev, c.last)
  }

  ghost predicate TableOk(g: Graph, t: seq<Cell>, settled: nat)
    requires Shaped(g)
  {
    && |t| == Pow2(|g.card|) && t[0].Unreached?
    && forall m: nat | m < |t| :: CellOk(g, t, m, settled)
  }

  ghost predicate BasesIn(g: Graph, t: seq<Cell>)
    requires Shaped(g) && |t| == Pow2(|g.card|)
  {
    forall i: nat | i < |g.card| :: Pow2(i) < |t| && t[Pow2(i)].Cell? && t[Pow2(i)].cost <= g.card[i]
  }

  /** The extension of subset p by r has been offered to the table. */
  ghost predicate Offered(g: Graph, t: seq<Cell>, p: nat, r: nat)
    requires Shaped(g) && p < |t|
  {
    t[p].Cell? && MayFollow(g, p, r) ==>
      p + Pow2(r) < |t| && t[p + Pow2(r)].Cell? && t[p + Pow2(r)].cost <= Candidate(g, t[p], p, r).cost
  }

  ghost predicate AllOffered(g: Graph, t: seq<Cell>, mask: nat)
    requires Shaped(g) && mask <= |t|
  {
    forall p: nat, r: nat | p < mask && r < |g.card| :: Offered(g, t, p, r)
  }

  function Offer(g: Graph, t: seq<Cell>, p: nat, r: nat): (u: seq<Cell>)
    requires Shaped(g) && r < |g.card| && p < |t| && t[p].Cell? && p + Pow2(r) < |t|
    ensures |u| == |t|
  {
    var c := Candidate(g, t[p], p, r);
    if Better(c, t[p + Pow2(r)]) then t[p + Pow2(r) := c] else t
  }

  // ----- offering keeps the table -----

  lemma OfferKeeps(g: Graph, t: seq<Cell>, p: nat, r: nat)
    requires Shaped(g) && TableOk(g, t, p) && BasesIn(g, t) && p < |t| && t[p].Cell? && MayFollow(g, p, r)
    ensures p + Pow2(r) < |t| && TableOk(g, Offer(g, t, p, r), p) && BasesIn(g, Offer(g, t, p, r))
    ensures Offered(g, Offer(g, t, p, r), p, r)
    ensures forall q: nat | q <= p :: Offer(g, t, p, r)[q] == t[q]
  {
    AddBitBound(p, r, |g.card|);
    var u, m := Offer(g, t, p, r), p + Pow2(r);
    forall q: nat | q < |u|
      ensures CellOk(g, u, q, p)
    {
      assert CellOk(g, t, q, p);
    }
  }

  /** Extensions already offered stay offered: their source is settled and targets only get cheaper. */
  lemma OfferStays(g: Graph, t: seq<Cell>, p: nat, r: nat, q: nat, x: nat)
    requires Shaped(g) && p < |t| && t[p].Cell? && r < |g.card| && p + Pow2(r) < |t|
    requires q <= p && Offered(g, t, q, x)
    ensures Offered(g, Offer(g, t, p, r), q, x)
  {
  }

  lemma OfferStaysAll(g: Graph, t: seq<Cell>, p: nat, r: nat)
    requires Shaped(g) && p < |t| && t[p].Cell? && r < |g.card| && p + Pow2(r) < |t| && AllOffered(g, t, p)
    ensures AllOffered(g, Offer(g, t, p, r), p)
  {
    forall q: nat, x: nat | q < p && x < |g.card|
      ensures Offered(g, Offer(g, t, p, r), q, x)
    {
      OfferStays(g, t, p, r, q, x);
    }
  }

  /** Extensions of p by relations below k with the wanted connectivity are offered. */
  ghost predicate PassDone(g: Graph, t: seq<Cell>, p: nat, want: bool, k: nat)
    requires Shaped(g) && p < |t|
  {
    forall x: nat | x < k && x < |g.card| && Connected(g, p, x, |g.card|) == want :: Offered(g, t, p, x)
  }

  lemma PassStays(g: Graph, t: seq<Cell>, p: nat, r: nat, want: bool, k: nat)
    requires Shaped(g) && p < |t| && t[p].Cell? && r < |g.card| && p + Pow2(r) < |t| && PassDone(g, t, p, want, k)
    ensures PassDone(g, Offer(g, t, p, r), p, want, k)
  {
    forall x: nat | x < k && x < |g.card| && Connected(g, p, x, |g.card|) == want
      ensures Offered(g, Offer(g, t, p, r), p, x)
    {
      OfferStays(g, t, p, r, p, x);
    }
  }

  /** No relation outside p shares a predicate with it. */
  ghost predicate Isolated(g: Graph, p: nat)
    requires Shaped(g)
  {
    forall x: nat | x < |g.card| && !Has(p, x) :: !Connected(g, p, x, |g.card|)
  }

  lemma BothPasses(g: Graph, t: seq<Cell>, p: nat, any: bool)
    requires Shaped(g) && p < |t| && AllOffered(g, t, p) && PassDone(g, t, p, true, |g.card|)
    requires if any then !Isolated(g, p) else PassDone(g, t, p, false, |g.card|)
    ensures AllOffered(g, t, p + 1)
  {
    forall q: nat, r: nat | q < p + 1 && r < |g.card|
      ensures Offered(g, t, q, r)
    {
      if q == p && MayFollow(g, p, r) && !Connected(g, p, r, |g.card|) { assert Isolated(g, p); }
    }
  }

  // ----- the loops -----

  /** combined_sel. */
  method CombineSel(g: Graph, mask: nat, r: nat) returns (s: real, connected: bool)
    requires Shaped(g) && r < |g.card|
    ensures s == Combined(g, mask, r, |g.card|) && connected == Connected(g, mask, r, |g.card|)
  {
    s, connected := 1.0, false;
    for x := 0 to |g.card|
      invariant s == Combined(g, mask, r, x) && connected == Connected(g, mask, r, x)
    {
      if Has(mask, x) && g.sel[r][x] < 1.0 {
        s := s * g.sel[r][x];
        connected := true;
      }
    }
  }

  /** One extension: cost it and keep it if it is cheaper. */
  method TryExtension(g: Graph, t: array<Cell>, mask: nat, r: nat, s: real, connected: bool)
    requires Shaped(g) && r < |g.card| && mask + Pow2(r) < t.Length && t[mask].Cell?
    requires s == Combined(g, mask, r, |g.card|) && connected == Connected(g, mask, r, |g.card|)
    modifies t
    ensures t[..] == Offer(g, old(t[..]), mask, r)
  {
    var (add, meth) := StepCost(g, r, t[mask].rows, connected);
    var rows := t[mask].rows * g.card[r] * s;
    var cost := t[mask].cost + add;
    var m := mask + Pow2(r);
    ghost var c := Candidate(g, t[mask], mask, r);
    assert rows == NextRows(g, t[mask].rows, mask, r);
    if t[m].Unreached? || cost < t[m].cost {
      var cell := Cell(cost, rows, r, mask, meth, t[mask].cross || !connected);
      assert cell == c;
      t[m] := cell;
      assert t[..] == old(t[..])[m := c];
    }
  }

  /** Everything the loops know while subset `mask` is being expanded. */
  ghost predicate Expanding(g: Graph, t: seq<Cell>, mask: nat)
    requires Shaped(g)
  {
    TableOk(g, t, mask) && mask < |t| && BasesIn(g, t) && AllOffered(g, t, mask) && t[mask].Cell?
  }

  /** One extension inside a pass; what earlier extensions achieved stays. */
  lemma PassStep(g: Graph, t: seq<Cell>, mask: nat, want: bool, r: nat)
    requires Shaped(g) && Expanding(g, t, mask) && MayFollow(g, mask, r) && PassDone(g, t, mask, want, r)
    ensures mask + Pow2(r) < |t|
    ensures var u := Offer(g, t, mask, r);
            && Expanding(g, u, mask) && PassDone(g, u, mask, want, r + 1)
            && (PassDone(g, t, mask, true, |g.card|) ==> PassDone(g, u, mask, true, |g.card|))
  {
    OfferKeeps(g, t, mask, r);
    OfferStaysAll(g, t, mask, r);
    PassStays(g, t, mask, r, want, r);
    if PassDone(g, t, mask, true, |g.card|) { PassStays(g, t, mask, r, true, |g.card|); }
  }

  /** One pass over the relations: only the connected ones, or only the others. */
  method Pass(g: Graph, t: array<Cell>, mask: nat, want: bool) returns (any: bool)
    requires Shaped(g) && Expanding(g, t[..], mask)
    requires want || (Isolated(g, mask) && PassDone(g, t[..], mask, true, |g.card|))
    modifies t
    ensures Expanding(g, t[..], mask) && PassDone(g, t[..], mask, want, |g.card|)
    ensures !want ==> PassDone(g, t[..], mask, true, |g.card|)
    ensures want ==> (any <==> !Isolated(g, mask))
  {
    any := false;
    for r := 0 to |g.card|
      invariant Expanding(g, t[..], mask) && PassDone(g, t[..], mask, want, r)
      invariant !want ==> PassDone(g, t[..], mask, true, |g.card|)
      invariant want && !any ==> forall x: nat | x < r && !Has(mask, x) :: !Connected(g, mask, x, |g.card|)
      invariant want && any ==> !Isolated(g, mask)
    {
      if !Has(mask, r) {
        var s, connected := CombineSel(g, mask, r);
        if connected == want {
          any := true;
          PassStep(g, t[..], mask, want, r);
          TryExtension(g, t, mask, r, s, connected);
        }
      }
    }
  }

  /** The transitions out of one subset. */
  method Expand(g: Graph, t: array<Cell>, mask: nat)
    requires Shaped(g) && TableOk(g, t[..], mask) && mask < t.Length && BasesIn(g, t[..]) && AllOffered(g, t[..], mask)
    modifies t
    ensures TableOk(g, t[..], mask) && BasesIn(g, t[..]) && AllOffered(g, t[..], mask + 1)
  {
    if t[mask].Unreached? {
      assert forall r: nat | r < |g.card| :: Offered(g, t[..], mask, r);
      return;
    }
    var any := Pass(g, t, mask, true);
    if !any {
      var _ := Pass(g, t, mask, false);
    }
    BothPasses(g, t[..], mask, any);
  }

  lemma Settle(g: Graph, t: seq<Cell>, a: nat, b: nat)
    requires Shaped(g) && TableOk(g, t, a) && a <= b
    ensures TableOk(g, t, b)
  {
    forall m: nat | m < |t|
      ensures CellOk(g, t, m, b)
    {
      assert CellOk(g, t, m, a);
    }
  }

  lemma {:induction false} PowerBelow(i: nat, n: nat)
    requires i < n
    ensures Pow2(i) < Pow2(n)
    decreases n
  {
    if i < n - 1 { PowerBelow(i, n - 1); }
  }

  /** The table after the first k relations have been scanned. */
  ghost predicate BasesUpTo(g: Graph, t: seq<Cell>, k: nat)
    requires Shaped(g) && k <= |g.card|
  {
    && |t| == Pow2(|g.card|) && t[0].Unreached?
    && (forall i: nat | i < k :: Pow2(i) < |t| && t[Pow2(i)] == Base(g, i))
    && forall m: nat | m < |t| && t[m].Cell? :: t[m].last < |g.card| && m == Pow2(t[m].last)
        && t[m] == Base(g, t[m].last)
  }

  lemma BaseStep(g: Graph, t: seq<Cell>, k: nat)
    requires Shaped(g) && k < |g.card| && BasesUpTo(g, t, k)
    ensures Pow2(k) < |t| && BasesUpTo(g, t[Pow2(k) := Base(g, k)], k + 1)
  {
    PowerBelow(k, |g.card|);
    forall i: nat | i < k
      ensures Pow2(i) < Pow2(k)
    {
      PowerBelow(i, k);
    }
  }

  lemma BasesAreTable(g: Graph, t: seq<Cell>)
    requires Shaped(g) && BasesUpTo(g, t, |g.card|)
    ensures TableOk(g, t, 0) && BasesIn(g, t)
  {
  }

  method Bases(g: Graph, t: array<Cell>)
    requires Shaped(g) && BasesUpTo(g, t[..], 0)
    modifies t
    ensures TableOk(g, t[..], 0) && BasesIn(g, t[..])
  {
    for i := 0 to |g.card|
      invariant BasesUpTo(g, t[..], i)
    {
      BaseStep(g, t[..], i);
      ghost var u := t[..][Pow2(i) := Base(g, i)];
      t[Pow2(i)] := Cell(g.card[i], g.card[i], i, 0, Scan, false);
      assert t[..] == u;
    }
    BasesAreTable(g, t[..]);
  }

  /** The whole table: every subset expanded, in increasing order of its mask. */
  method Fill(g: Graph) returns (t: array<Cell>)
    requires Valid(g)
    ensures fresh(t) && t.Length == Pow2(|g.card|) && TableOk(g, t[..], t.Length) && BasesIn(g, t[..])
    ensures AllOffered(g, t[..], t.Length)
  {
    t := new Cell[Pow2(|g.card|)](_ => Unreached);
    Bases(g, t);
    assert AllOffered(g, t[..], 1);
    var mask := 1;
    Settle(g, t[..], 0, 1);
    while mask < t.Length
      invariant mask <= t.Length && TableOk(g, t[..], mask) && BasesIn(g, t[..]) && AllOffered(g, t[..], mask)
    {
      Expand(g, t, mask);
      Settle(g, t[..], mask, mask + 1);
      mask := mask + 1;
    }
  }

  // ----- what the finished table holds -----

  ghost predicate Filled(g: Graph, t: seq<Cell>) {
    Valid(g) && TableOk(g, t, |t|) && BasesIn(g, t) && AllOffered(g, t, |t|)
  }

  /** The order recorded for subset m, read off by following prev. */
  ghost function OrderOf(g: Graph, t: seq<Cell>, m: nat): (o: seq<nat>)
    requires Shaped(g) && TableOk(g, t, |t|) && m < |t| && t[m].Cell?
    ensures o != []
    decreases m
  {
    assert CellOk(g, t, m, |t|);
    if t[m].prev == 0 then [t[m].last] else OrderOf(g, t, t[m].prev) + [t[m].last]
  }

  ghost function MethodsOf(g: Graph, t: seq<Cell>, m: nat): seq<Method>
    requires Shaped(g) && TableOk(g, t, |t|) && m < |t| && t[m].Cell?
    decreases m
  {
    assert CellOk(g, t, m, |t|);
    if t[m].prev == 0 then [t[m].meth] else MethodsOf(g, t, t[m].prev) + [t[m].meth]
  }

  /** The order recorded for a subset is admissible, joins exactly that subset, and costs what its cell says. */
  lemma {:induction false} RecordedOrder(g: Graph, t: seq<Cell>, m: nat)
    requires Shaped(g) && TableOk(g, t, |t|) && m < |t| && t[m].Cell?
    ensures var o := OrderOf(g, t, m);
            && Admissible(g, o) && MaskOf(o) == m
            && Evaluate(g, o) == Plan(o, MethodsOf(g, t, m), t[m].cost, t[m].rows, t[m].cross)
    decreases m
  {
    assert CellOk(g, t, m, |t|);
    var p, x := t[m].prev, t[m].last;
    if p == 0 {
      assert [x][..0] == [];
    } else {
      RecordedOrder(g, t, p);
      EvaluateSnoc(g, OrderOf(g, t, p), x);
      ExtendCell(g, t[p], p, x, OrderOf(g, t, p), MethodsOf(g, t, p));
    }
  }

  lemma EvaluateSnoc(g: Graph, o: seq<nat>, x: nat)
    requires Shaped(g) && Admissible(g, o) && x < |g.card| && MayFollow(g, MaskOf(o), x)
    ensures Admissible(g, o + [x]) && MaskOf(o + [x]) == MaskOf(o) + Pow2(x)
    ensures Evaluate(g, o + [x]) == Extend(g, Evaluate(g, o), MaskOf(o), x)
  {
    assert (o + [x])[..|o|] == o;
  }

  lemma ExtendCell(g: Graph, c: Cell, mask: nat, x: nat, o: seq<nat>, ms: seq<Method>)
    requires Shaped(g) && c.Cell? && x < |g.card|
    ensures var d := Candidate(g, c, mask, x);
            Extend(g, Plan(o, ms, c.cost, c.rows, c.cross), mask, x) ==
            Plan(o + [x], ms + [d.meth], d.cost, d.rows, d.cross)
  {
  }

  /** The rows of a cell are those of every order of its subset. */
  lemma CellRows(g: Graph, t: seq<Cell>, m: nat, o: seq<nat>)
    requires Shaped(g) && Symmetric(g) && TableOk(g, t, |t|) && m < |t| && t[m].Cell?
    requires Admissible(g, o) && MaskOf(o) == m
    ensures t[m].rows == Evaluate(g, o).rows
  {
    RecordedOrder(g, t, m);
    AdmissibleDistinct(g, OrderOf(g, t, m));
    RowsDependOnSet(g, OrderOf(g, t, m));
    AdmissibleDistinct(g, o);
    RowsDependOnSet(g, o);
  }

  /** No admissible order of a subset is cheaper than its cell. */
  lemma {:induction false} CellIsCheapest(g: Graph, t: seq<Cell>, o: seq<nat>)
    requires Filled(g, t) && Symmetric(g) && Admissible(g, o)
    ensures var m := MaskOf(o); m < |t| && t[m].Cell? && t[m].cost <= Evaluate(g, o).cost
    decreases |o|
  {
    var n := |o| - 1;
    var p := MaskOf(o[..n]);
    if n == 0 {
      assert o[..n] == [];
    } else {
      CellIsCheapest(g, t, o[..n]);
      CellRows(g, t, p, o[..n]);
      assert Offered(g, t, p, o[n]);
    }
  }

  /** Something may always follow a subset that is not full. */
  lemma SomethingFollows(g: Graph, m: nat) returns (r: nat)
    requires Shaped(g) && m < Pow2(|g.card|) - 1
    ensures MayFollow(g, m, r)
  {
    if Isolated(g, m) {
      if forall i: nat | i < |g.card| :: Has(m, i) { AllBits(m, |g.card|); }
      r :| r < |g.card| && !Has(m, r);
    } else {
      r :| r < |g.card| && !Has(m, r) && Connected(g, m, r, |g.card|);
    }
  }

  lemma {:induction false} FullReachedFrom(g: Graph, t: seq<Cell>, m: nat)
    requires Filled(g, t) && m < |t| && t[m].Cell?
    ensures t[|t| - 1].Cell?
    decreases |t| - m
  {
    if m < |t| - 1 {
      var r := SomethingFollows(g, m);
      assert Offered(g, t, m, r);
      FullReachedFrom(g, t, m + Pow2(r));
    }
  }

  // ----- full orders are permutations -----

  ghost function Below(n: nat): (s: set<nat>)
    ensures |s| == n && forall x: nat :: x in s <==> x < n
  {
    if n == 0 then {} else Below(n - 1) + {n - 1}
  }

  ghost function Elements(o: seq<nat>): (s: set<nat>)
    ensures forall x: nat :: x in s <==> x in o
    ensures Distinct(o) ==> |s| == |o|
    decreases |o|
  {
    if o == [] then {} else
      var n := |o| - 1;
      assert o == o[..n] + [o[n]];
      Elements(o[..n]) + {o[n]}
  }

  /** A permutation of the relations. */
  ghost predicate Complete(g: Graph, o: seq<nat>) {
    |o| == |g.card| && InRange(g, o) && Distinct(o)
  }

  lemma SubsetOfSameSize(a: set<nat>, b: set<nat>)
    requires a <= b && |a| == |b|
    ensures a == b
  {
    assert b == a + (b - a);
    assert |b| == |a| + |b - a|;
  }

  lemma CompleteIsFull(g: Graph, o: seq<nat>)
    requires Shaped(g) && Complete(g, o)
    ensures MaskOf(o) == Pow2(|g.card|) - 1
  {
    var n := |g.card|;
    MaskBound(o, n);
    SubsetOfSameSize(Elements(o), Below(n));
    forall i: nat | i < n
      ensures Has(MaskOf(o), i)
    {
      assert i in Below(n);
      MaskHas(o, i);
    }
    AllBits(MaskOf(o), n);
  }

  lemma FullIsComplete(g: Graph, o: seq<nat>)
    requires Shaped(g) && InRange(g, o) && Distinct(o) && MaskOf(o) == Pow2(|g.card|) - 1
    ensures Complete(g, o)
  {
    var n := |g.card|;
    forall i: nat | i < n
      ensures i in o
    {
      FullHasAll(n, i);
      MaskHas(o, i);
    }
    assert Elements(o) == Below(n);
  }

  // ----- optimality -----

  /** The plan is that of a permutation of the allowed kind, and no permutation of that kind is cheaper. */
  ghost predicate Optimal(g: Graph, p: Plan)
    requires Shaped(g)
  {
    && Complete(g, p.order) && Admissible(g, p.order) && p == Evaluate(g, p.order)
    && (Symmetric(g) ==> forall o | Complete(g, o) && Admissible(g, o) :: p.cost <= Evaluate(g, o).cost)
  }

  ghost function FullPlan(g: Graph, t: seq<Cell>): Plan
    requires Filled(g, t) && t[|t| - 1].Cell?
  {
    var c := t[|t| - 1];
    Plan(OrderOf(g, t, |t| - 1), MethodsOf(g, t, |t| - 1), c.cost, c.rows, c.cross)
  }

  lemma FullPlanOptimal(g: Graph, t: seq<Cell>)
    requires Filled(g, t)
    ensures t[|t| - 1].Cell? && Optimal(g, FullPlan(g, t))
  {
    assert t[Pow2(0)].Cell?;
    FullReachedFrom(g, t, Pow2(0));
    RecordedOrder(g, t, |t| - 1);
    var best := OrderOf(g, t, |t| - 1);
    AdmissibleDistinct(g, best);
    FullIsComplete(g, best);
    if Symmetric(g) {
      forall o | Complete(g, o) && Admissible(g, o)
        ensures t[|t| - 1].cost <= Evaluate(g, o).cost
      {
        CompleteIsFull(g, o);
        CellIsCheapest(g, t, o);
      }
    }
  }

  /** What the backtracking loop has restored once it stands at subset m with `pos` places left. */
  ghost predicate Restored(g: Graph, t: seq<Cell>, m: nat, pos: nat, order: seq<nat>, methods: seq<Method>)
    requires Filled(g, t) && t[|t| - 1].Cell?
  {
    var best := FullPlan(g, t);
    && |best.order| == |best.methods| == |order| == |methods| && pos <= |order|
    && order[pos..] == best.order[pos..] && methods[pos..] == best.methods[pos..]
    && (if pos == 0 then m == 0
        else && m < |t| && t[m].Cell? && OrderOf(g, t, m) == best.order[..pos]
             && MethodsOf(g, t, m) == best.methods[..pos])
  }

  /** The cell of m ends its order; what comes before it is the order of its prev. */
  lemma LastOfOrder(g: Graph, t: seq<Cell>, m: nat)
    requires Shaped(g) && TableOk(g, t, |t|) && m < |t| && t[m].Cell?
    ensures var o, ms := OrderOf(g, t, m), MethodsOf(g, t, m); var n, prev := |o| - 1, t[m].prev;
            && |ms| == |o| && o[n] == t[m].last && ms[n] == t[m].meth
            && if n == 0 then prev == 0
               else prev < |t| && t[prev].Cell? && OrderOf(g, t, prev) == o[..n] && MethodsOf(g, t, prev) == ms[..n]
  {
    assert CellOk(g, t, m, |t|);
    RecordedOrder(g, t, m);
    MethodsLength(g, OrderOf(g, t, m));
    if t[m].prev != 0 {
      RecordedOrder(g, t, t[m].prev);
      MethodsLength(g, OrderOf(g, t, t[m].prev));
    }
  }

  lemma RestoreOne(g: Graph, t: seq<Cell>, m: nat, pos: nat, order: seq<nat>, methods: seq<Method>)
    requires Filled(g, t) && t[|t| - 1].Cell? && pos > 0 && Restored(g, t, m, pos, order, methods)
    ensures m < |t| && t[m].Cell?
    ensures Restored(g, t, t[m].prev, pos - 1, order[pos - 1 := t[m].last], methods[pos - 1 := t[m].meth])
  {
    var best := FullPlan(g, t);
    LastOfOrder(g, t, m);
    Slices(best.order, pos);
    Slices(best.methods, pos);
  }

  lemma Slices<T>(s: seq<T>, n: nat)
    requires 0 < n <= |s|
    ensures s[..n][n - 1] == s[n - 1] && s[..n][..n - 1] == s[..n - 1] && s[n - 1..] == [s[n - 1]] + s[n..]
  {
  }

  /** joinopt_optimize. */
  method Optimize(g: Graph, maxRel: nat) returns (p: Option<Plan>)
    requires Shaped(g)
    ensures p.Some? <==> Valid(g) && |g.card| <= maxRel
    ensures p.Some? ==> Optimal(g, p.value)
  {
    var ok := Usable(g);
    if !ok || |g.card| > maxRel {
      return None;
    }
    var t := Fill(g);
    FullPlanOptimal(g, t[..]);
    var c := t[t.Length - 1];
    var order, methods := Backtrack(g, t);
    return Some(Plan(order, methods, c.cost, c.rows, c.cross));
  }

  /** valid_graph. */
  method Usable(g: Graph) returns (ok: bool)
    requires Shaped(g)
    ensures ok <==> Valid(g)
  {
    if |g.card| < 1 { return false; }
    for i := 0 to |g.card|
      invariant forall j | 0 <= j < i :: g.card[j] >= 0.0
    {
      if g.card[i] < 0.0 { return false; }
    }
    return true;
  }

  lemma PlanLengths(g: Graph, t: seq<Cell>)
    requires Filled(g, t) && t[|t| - 1].Cell?
    ensures |FullPlan(g, t).order| == |FullPlan(g, t).methods| == |g.card|
  {
    FullPlanOptimal(g, t);
    MethodsLength(g, FullPlan(g, t).order);
  }

  lemma {:induction false} MethodsLength(g: Graph, o: seq<nat>)
    requires Shaped(g) && o != [] && InRange(g, o)
    ensures |Evaluate(g, o).methods| == |o|
    decreases |o|
  {
    if |o| > 1 { MethodsLength(g, o[..|o| - 1]); }
  }

  /** The order and methods of the full subset, restored from the back. */
  method Backtrack(g: Graph, t: array<Cell>) returns (order: seq<nat>, methods: seq<Method>)
    requires Filled(g, t[..]) && t[t.Length - 1].Cell?
    ensures order == FullPlan(g, t[..]).order && methods == FullPlan(g, t[..]).methods
  {
    var n := |g.card|;
    PlanLengths(g, t[..]);
    var os, ms := new nat[n], new Method[n](_ => Scan);
    var m: nat, pos: nat := t.Length - 1, n;
    while pos > 0
      invariant Restored(g, t[..], m, pos, os[..], ms[..])
    {
      RestoreOne(g, t[..], m, pos, os[..], ms[..]);
      ghost var o: seq<nat>, k := os[..][pos - 1 := t[m].last], ms[..][pos - 1 := t[m].meth];
      pos := pos - 1;
      os[pos] := t[m].last;
      ms[pos] := t[m].meth;
      assert os[..] == o && ms[..] == k;
      m := t[m].prev;
    }
    return os[..], ms[..];
  }

  // ----- the order as written -----

  function Written(n: nat): (o: seq<nat>)
    ensures |o| == n && Distinct(o)
  {
    seq(n, i requires 0 <= i => i)
  }

  lemma WrittenStep(g: Graph, k: nat)
    requires Shaped(g) && 1 <= k < |g.card|
    ensures Evaluate(g, Written(k + 1)) == Extend(g, Evaluate(g, Written(k)), MaskOf(Written(k)), k)
    ensures MaskOf(Written(k + 1)) == MaskOf(Written(k)) + Pow2(k)
  {
    assert Written(k + 1)[..k] == Written(k);
  }

  /** Joins one more relation to a running plan. */
  method AddRelation(g: Graph, p: Plan, mask: nat, r: nat) returns (q: Plan)
    requires Shaped(g) && r < |g.card|
    ensures q == Extend(g, p, mask, r)
  {
    var s, connected := CombineSel(g, mask, r);
    var (add, meth) := StepCost(g, r, p.rows, connected);
    var rows := p.rows * (g.card[r] * s);
    assert rows == NextRows(g, p.rows, mask, r);
    q := Plan(p.order + [r], p.methods + [meth], p.cost + add, rows, p.cross || !connected);
  }

  /** joinopt_naive_cost. */
  method NaiveCost(g: Graph, maxRel: nat) returns (p: Option<Plan>)
    requires Shaped(g)
    ensures p.Some? <==> Valid(g) && |g.card| <= maxRel
    ensures p.Some? ==> p.value == Evaluate(g, Written(|g.card|))
  {
    var ok := Usable(g);
    if !ok || |g.card| > maxRel { return None; }
    var q, mask := Plan([0], [Scan], g.card[0], g.card[0], false), 1;
    assert Written(1) == [0] && Written(1)[..0] == [];
    for k := 1 to |g.card|
      invariant mask == MaskOf(Written(k)) && q == Evaluate(g, Written(k))
    {
      WrittenStep(g, k);
      q := AddRelation(g, q, mask, k);
      mask := mask + Pow2(k);
    }
    return Some(q);
  }

  /** The optimizer's plan never costs more than the order as written, when that order is of the allowed kind. */
  method CompareToNaive(g: Graph, maxRel: nat) returns (best: Option<Plan>, naive: Option<Plan>)
    requires Shaped(g)
    ensures best.Some? <==> naive.Some?
    ensures best.Some? ==> Optimal(g, best.value) && naive.value.order == Written(|g.card|)
    ensures best.Some? && Symmetric(g) && Admissible(g, naive.value.order) ==> best.value.cost <= naive.value.cost
  {
    best := Optimize(g, maxRel);
    naive := NaiveCost(g, maxRel);
    if best.Some? {
      EvaluateOrder(g, Written(|g.card|));
      assert Complete(g, Written(|g.card|));
    }
  }

  lemma {:induction false} EvaluateOrder(g: Graph, o: seq<nat>)
    requires Shaped(g) && o != [] && InRange(g, o)
    ensures Evaluate(g, o).order == o
    decreases |o|
  {
    if |o| > 1 {
      EvaluateOrder(g, o[..|o| - 1]);
      assert o[..|o| - 1] + [o[|o| - 1]] == o;
    }
  }

  /** Two one-row relations, both joined only with a third of a thousand rows. */
  function Star(): (g: Graph)
    ensures Valid(g) && |g.card| == 3 && Symmetric(g)
  {
    Graph([1.0, 1.0, 1000.0], [[1.0, 1.0, 0.5], [1.0, 1.0, 0.5], [0.5, 0.5, 1.0]], [false, false, false])
  }

  lemma StarWritten()
    ensures Evaluate(Star(), Written(3)).cost == 1002.0
  {
    StarTwo();
    WrittenStep(Star(), 2);
    assert Connected(Star(), 3, 2, 3);
  }

  lemma StarTwo()
    ensures var p := Evaluate(Star(), Written(2)); p.cost == 2.0 && p.rows == 1.0 && MaskOf(Written(2)) == 3
  {
    var g := Star();
    assert Written(1) == [0] && Written(1)[..0] == [];
    assert Evaluate(g, Written(1)).rows == 1.0 && MaskOf(Written(1)) == 1;
    WrittenStep(g, 1);
    assert !Connected(g, 1, 1, 3) && Combined(g, 1, 1, 3) == 1.0;
  }

  /** The edges of the star, seen from a mask. */
  lemma StarEdges(a: nat, b: nat)
    requires a < 3 && b < 3 && a != b
    ensures Connected(Star(), Pow2(a), b, 3) <==> a == 2 || b == 2
    ensures Combined(Star(), Pow2(a), b, 3) == if a == 2 || b == 2 then 0.5 else 1.0
  {
    assert Pow2(a) == if a == 0 then 1 else if a == 1 then 2 else 4;
    assert forall i: nat | i < 3 :: Has(Pow2(a), i) <==> i == a;
  }

  lemma StarSecond(a: nat, b: nat)
    requires a < 3 && b < 3 && a != b && MayFollow(Star(), Pow2(a), b)
    ensures (a == 2 || b == 2) && Evaluate(Star(), [a, b]).cost >= 1001.0 && Evaluate(Star(), [a, b]).rows == 500.0
  {
    var g := Star();
    assert [a, b][..1] == [a] && [a][..0] == [];
    assert MaskOf([a]) == Pow2(a);
    StarEdges(a, b);
    if a != 2 {
      StarEdges(a, 2);
      ZeroHasNone(2);
      assert Pow2(2) == 4 && !Has(Pow2(a), 2);
    }
  }

  /** Every admissible order of the star joins the big relation early and pays for it again. */
  lemma StarAdmissible(o: seq<nat>)
    requires Complete(Star(), o) && Admissible(Star(), o)
    ensures Evaluate(Star(), o).cost > 1002.0
  {
    var g := Star();
    var a, b, c := o[0], o[1], o[2];
    assert o[..2] == [a, b] && [a, b][..1] == [a] && [a][..0] == [];
    assert MaskOf([a]) == Pow2(a);
    StarSecond(a, b);
    var rows := Evaluate(g, [a, b]).rows;
    assert rows * g.card[c] == 500.0;
  }

  /** A cross product between small relations can beat every order the optimizer considers. */
  lemma CrossProductCanWin(p: Plan)
    requires Optimal(Star(), p)
    ensures !Admissible(Star(), Written(3)) && Evaluate(Star(), Written(3)).cost < p.cost
  {
    StarWritten();
    StarAdmissible(p.order);
    if Admissible(Star(), Written(3)) { StarAdmissible(Written(3)); }
  }
}
