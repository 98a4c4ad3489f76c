/** The join-order optimizer of src/joinopt.c: Selinger dynamic programming over subsets.

    Costs are exact reals and an unreached subset has no cost (in C it holds 1e300).
    Subsets are the bit masks of the C code; `Has` is the bit test. */
module JoinOrder {
  import opened Bits

  datatype Method = Scan | Hash | Index

  datatype Graph = Graph(card: seq<real>, sel: seq<seq<real>>, indexed: seq<bool>)

  /** What the C struct gives for free: all tables are as large as the number of relations. */
  predicate Shaped(g: Graph) {
    && |g.sel| == |g.card| == |g.indexed| && forall i | 0 <= i < |g.sel| :: |g.sel[i]| == |g.card|
  }

  /** valid_graph without the upper bound on the number of relations. */
  predicate Valid(g: Graph) {
    Shaped(g) && |g.card| >= 1 && forall i | 0 <= i < |g.card| :: g.card[i] >= 0.0
  }

  ghost predicate Symmetric(g: Graph)
    requires Shaped(g)
  {
    forall i, j | 0 <= i < |g.card| && 0 <= j < |g.card| :: g.sel[i][j] == g.sel[j][i]
  }

  // ----- masks -----

  predicate Has(mask: nat, i: nat)
    decreases i
  {
    if i == 0 then mask % 2 == 1 else Has(mask / 2, i - 1)
  }

  lemma {:induction false} AddBit(mask: nat, r: nat, i: nat)
    requires !Has(mask, r)
    ensures Has(mask + Pow2(r), i) <==> i == r || Has(mask, i)
    decreases i, r
  {
    if r == 0 {
      assert (mask + 1) / 2 == mask / 2;
    } else {
      assert (mask + 2 * Pow2(r - 1)) / 2 == mask / 2 + Pow2(r - 1);
      if i > 0 { AddBit(mask / 2, r - 1, i - 1); }
    }
  }

  lemma {:induction false} AddBitBound(mask: nat, r: nat, n: nat)
    requires mask < Pow2(n) && r < n && !Has(mask, r)
    ensures mask + Pow2(r) < Pow2(n)
    decreases n
  {
    var half, top := mask / 2, Pow2(n - 1);
    assert Pow2(n) == 2 * top && half < top;
    if r > 0 {
      AddBitBound(half, r - 1, n - 1);
      assert Pow2(r) == 2 * Pow2(r - 1);
    }
  }

  lemma {:induction false} ZeroHasNone(i: nat)
    ensures !Has(0, i)
    decreases i
  {
    if i > 0 { ZeroHasNone(i - 1); }
  }

  /** A mask with all n bits set is the full mask. */
  lemma {:induction false} AllBits(mask: nat, n: nat)
    requires mask < Pow2(n) && forall i: nat | i < n :: Has(mask, i)
    ensures mask == Pow2(n) - 1
    decreases n
  {
    if n > 0 {
      assert Has(mask, 0);
      forall i: nat | i < n - 1
        ensures Has(mask / 2, i)
      {
        assert Has(mask, i + 1);
      }
      AllBits(mask / 2, n - 1);
    }
  }

  lemma {:induction false} FullHasAll(n: nat, i: nat)
    requires i < n
    ensures Has(Pow2(n) - 1, i)
    decreases n
  {
    assert (Pow2(n) - 1) / 2 == Pow2(n - 1) - 1;
    if i > 0 { FullHasAll(n - 1, i - 1); }
  }

  // ----- the cost model -----

  function Weight(g: Graph, r: nat, x: nat): real
    requires Shaped(g) && r < |g.card| && x < |g.card|
  {
    if g.sel[r][x] < 1.0 then g.sel[r][x] else 1.0
  }

  /** combined_sel: the product of the edge selectivities between r and the relations below k in mask. */
  function Combined(g: Graph, mask: nat, r: nat, k: nat): real
    requires Shaped(g) && r < |g.card| && k <= |g.card|
    decreases k
  {
    if k == 0 then 1.0
    else if Has(mask, k - 1) then Combined(g, mask, r, k - 1) * Weight(g, r, k - 1)
    else Combined(g, mask, r, k - 1)
  }

  /** Some relation below k in mask shares a join predicate with r. */
  predicate Connected(g: Graph, mask: nat, r: nat, k: nat)
    requires Shaped(g) && r < |g.card| && k <= |g.card|
    decreases k
  {
    k > 0 && ((Has(mask, k - 1) && g.sel[r][k - 1] < 1.0) || Connected(g, mask, r, k - 1))
  }

  function StepCost(g: Graph, r: nat, rows: real, connected: bool): (real, Method)
    requires Shaped(g) && r < |g.card|
  {
    var nested := rows * g.card[r];
    if !connected then (nested, Scan)
    else
      var hash := g.card[r] + rows;
      var (best, meth) := if g.indexed[r] && rows < hash then (rows, Index) else (hash, Hash);
      if nested < best then (nested, Scan) else (best, meth)
  }

  /** A left-deep plan: its order, the method of each join, cost, result rows, and whether it has a cross product. */
  datatype Plan = Plan(order: seq<nat>, methods: seq<Method>, cost: real, rows: real, cross: bool)

  function NextRows(g: Graph, rows: real, mask: nat, r: nat): real
    requires Shaped(g) && r < |g.card|
  {
    rows * g.card[r] * Combined(g, mask, r, |g.card|)
  }

  function Extend(g: Graph, p: Plan, mask: nat, r: nat): Plan
    requires Shaped(g) && r < |g.card|
  {
    var connected := Connected(g, mask, r, |g.card|);
    var (add, meth) := StepCost(g, r, p.rows, connected);
    Plan(p.order + [r], p.methods + [meth], p.cost + add, NextRows(g, p.rows, mask, r), p.cross || !connected)
  }

  function MaskOf(order: seq<nat>): nat
    decreases |order|
  {
    if order == [] then 0 else MaskOf(order[..|order| - 1]) + Pow2(order[|order| - 1])
  }

  predicate InRange(g: Graph, order: seq<nat>) {
    forall i | 0 <= i < |order| :: order[i] < |g.card|
  }

  /** The plan that joins the relations in this order. */
  function Evaluate(g: Graph, order: seq<nat>): Plan
    requires Shaped(g) && order != [] && InRange(g, order)
    decreases |order|
  {
    var n := |order| - 1;
    if n == 0 then Plan(order, [Scan], g.card[order[0]], g.card[order[0]], false)
    else Extend(g, Evaluate(g, order[..n]), MaskOf(order[..n]), order[n])
  }

  ghost predicate Distinct(order: seq<nat>) {
    forall i, j | 0 <= i < j < |order| :: order[i] != order[j]
  }

  /** Relation r may be joined next: it shares a predicate, or no remaining relation does. */
  ghost predicate MayFollow(g: Graph, mask: nat, r: nat)
    requires Shaped(g)
  {
    && r < |g.card| && !Has(mask, r)
    && (Connected(g, mask, r, |g.card|)
        || forall x: nat | x < |g.card| && !Has(mask, x) :: !Connected(g, mask, x, |g.card|))
  }

  /** Left-deep orders that take a cross product only when no connected relation is left. */
  ghost predicate Admissible(g: Graph, order: seq<nat>)
    requires Shaped(g)
    decreases |order|
  {
    && order != [] && InRange(g, order)
    && (|order| > 1 ==>
          var n := |order| - 1;
          Admissible(g, order[..n]) && MayFollow(g, MaskOf(order[..n]), order[n]))
  }

  lemma {:induction false} MaskHas(order: seq<nat>, i: nat)
    requires Distinct(order)
    ensures Has(MaskOf(order), i) <==> i in order
    decreases |order|
  {
    if order == [] {
      ZeroHasNone(i);
    } else {
      var n := |order| - 1;
      MaskHas(order[..n], i);
      MaskHas(order[..n], order[n]);
      AddBit(MaskOf(order[..n]), order[n], i);
    }
  }

  lemma {:induction false} MaskBound(order: seq<nat>, n: nat)
    requires Distinct(order) && forall i | 0 <= i < |order| :: order[i] < n
    ensures MaskOf(order) < Pow2(n)
    decreases |order|
  {
    if order != [] {
      var k := |order| - 1;
      MaskBound(order[..k], n);
      MaskHas(order[..k], order[k]);
      AddBitBound(MaskOf(order[..k]), order[k], n);
    }
  }

  lemma {:induction false} AdmissibleDistinct(g: Graph, order: seq<nat>)
    requires Shaped(g) && Admissible(g, order)
    ensures Distinct(order)
    decreases |order|
  {
    if |order| > 1 {
      var n := |order| - 1;
      AdmissibleDistinct(g, order[..n]);
      MaskHas(order[..n], order[n]);
      forall i | 0 <= i < n
        ensures order[i] != order[n]
      {
        assert order[..n][i] == order[i];
      }
    }
  }

  // ----- the rows of a subset do not depend on the order -----

  /** The product of the cardinalities in mask, of relations below k. */
  function Cards(g: Graph, mask: nat, k: nat): real
    requires k <= |g.card|
    decreases k
  {
    if k == 0 then 1.0
    else if Has(mask, k - 1) then Cards(g, mask, k - 1) * g.card[k - 1] else Cards(g, mask, k - 1)
  }

  /** The product of the edge selectivities inside mask, of relations below k. */
  function Inner(g: Graph, mask: nat, k: nat): real
    requires Shaped(g) && k <= |g.card|
    decreases k
  {
    if k == 0 then 1.0
    else if Has(mask, k - 1) then Inner(g, mask, k - 1) * Combined(g, mask, k - 1, k - 1) else Inner(g, mask, k - 1)
  }

  function RowsOf(g: Graph, mask: nat): real
    requires Shaped(g)
  {
    Cards(g, mask, |g.card|) * Inner(g, mask, |g.card|)
  }

  /** `more` is the mask with relation r added to it. */
  ghost predicate Adds(mask: nat, more: nat, r: nat) {
    !Has(mask, r) && forall i: nat :: Has(more, i) <==> i == r || Has(mask, i)
  }

  /** A bit at or above k does not matter to the products below k. */
  lemma {:induction false} ProductsSame(g: Graph, mask: nat, more: nat, r: nat, x: nat, k: nat)
    requires Shaped(g) && k <= r < |g.card| && x < |g.card| && Adds(mask, more, r)
    ensures Cards(g, more, k) == Cards(g, mask, k) && Combined(g, more, x, k) == Combined(g, mask, x, k)
    decreases k
  {
    if k > 0 { ProductsSame(g, mask, more, r, x, k - 1); }
  }

  lemma {:induction false} CardsAdd(g: Graph, mask: nat, more: nat, r: nat, k: nat)
    requires Shaped(g) && r < k <= |g.card| && Adds(mask, more, r)
    ensures Cards(g, more, k) == Cards(g, mask, k) * g.card[r]
    decreases k
  {
    var j := k - 1;
    if r == j {
      ProductsSame(g, mask, more, r, r, r);
    } else {
      CardsAdd(g, mask, more, r, j);
      if Has(mask, j) { Move(Cards(g, mask, j), g.card[r], g.card[j], Cards(g, more, j), Cards(g, mask, k)); }
    }
  }

  lemma Move(a: real, b: real, c: real, ab: real, ac: real)
    requires ab == a * b && ac == a * c
    ensures ab * c == ac * b
  {
  }

  /** Adding r to a mask multiplies the selectivities against x by the weight of the edge to r. */
  lemma {:induction false} CombinedAdd(g: Graph, mask: nat, more: nat, r: nat, x: nat, k: nat)
    requires Shaped(g) && r < k <= |g.card| && x < |g.card| && Adds(mask, more, r)
    ensures Combined(g, more, x, k) == Combined(g, mask, x, k) * Weight(g, x, r)
    decreases k
  {
    var j := k - 1;
    if r == j {
      ProductsSame(g, mask, more, r, x, r);
    } else {
      CombinedAdd(g, mask, more, r, x, j);
      if Has(mask, j) {
        Move(Combined(g, mask, x, j), Weight(g, x, r), Weight(g, x, j),
             Combined(g, more, x, j), Combined(g, mask, x, k));
      }
    }
  }

  lemma SymmetricWeight(g: Graph, r: nat, x: nat)
    requires Shaped(g) && Symmetric(g) && r < |g.card| && x < |g.card|
    ensures Weight(g, r, x) == Weight(g, x, r)
  {
  }

  lemma {:induction false} InnerSame(g: Graph, mask: nat, more: nat, r: nat, k: nat)
    requires Shaped(g) && k <= r < |g.card| && Adds(mask, more, r)
    ensures Inner(g, more, k) == Inner(g, mask, k)
    decreases k
  {
    if k > 0 {
      InnerSame(g, mask, more, r, k - 1);
      ProductsSame(g, mask, more, r, k - 1, k - 1);
    }
  }

  ghost predicate Asked(z: int) {
    true
  }

  /** Adding r multiplies the selectivities inside the mask, below k, by those against r. */
  ghost predicate InnerGrows(g: Graph, mask: nat, more: nat, r: nat, k: nat)
    requires Shaped(g) && r < |g.card| && k <= |g.card|
  {
    forall z: int {:trigger Asked(z)} :: Asked(z) ==> Inner(g, more, k) == Inner(g, mask, k) * Combined(g, mask, r, k)
  }

  lemma {:induction false} InnerAdd(g: Graph, mask: nat, more: nat, r: nat, k: nat)
    requires Shaped(g) && Symmetric(g) && r < k <= |g.card| && Adds(mask, more, r)
    ensures InnerGrows(g, mask, more, r, k)
    decreases k
  {
    var j := k - 1;
    if r == j {
      InnerAt(g, mask, more, r);
    } else {
      InnerAdd(g, mask, more, r, j);
      if Has(mask, j) { InnerWith(g, mask, more, r, j); } else { InnerWithout(g, mask, more, r, j); }
    }
  }

  lemma InnerAt(g: Graph, mask: nat, more: nat, r: nat)
    requires Shaped(g) && r < |g.card| && Adds(mask, more, r)
    ensures InnerGrows(g, mask, more, r, r + 1)
  {
    InnerSame(g, mask, more, r, r);
    ProductsSame(g, mask, more, r, r, r);
    assert Has(more, r);
    assert Inner(g, more, r + 1) == Inner(g, more, r) * Combined(g, more, r, r);
  }

  lemma InnerWithout(g: Graph, mask: nat, more: nat, r: nat, j: nat)
    requires Shaped(g) && r < j < |g.card| && Adds(mask, more, r) && !Has(mask, j) && InnerGrows(g, mask, more, r, j)
    ensures InnerGrows(g, mask, more, r, j + 1)
  {
    assert Asked(0);
    assert !Has(more, j);
    assert Inner(g, more, j + 1) == Inner(g, more, j);
  }

  /** Both products take in relation j. */
  lemma InnerWith(g: Graph, mask: nat, more: nat, r: nat, j: nat)
    requires Shaped(g) && Symmetric(g) && r < j < |g.card| && Adds(mask, more, r) && Has(mask, j)
    requires InnerGrows(g, mask, more, r, j)
    ensures InnerGrows(g, mask, more, r, j + 1)
  {
    assert Asked(0);
    CombinedAdd(g, mask, more, r, j, j);
    SymmetricWeight(g, r, j);
    Regroup(Inner(g, mask, j), Combined(g, mask, r, j), Combined(g, mask, j, j), Weight(g, j, r),
            Inner(g, more, j), Combined(g, more, j, j), Inner(g, mask, j + 1), Combined(g, mask, r, j + 1));
  }

  lemma Regroup(a: real, b: real, c: real, d: real, ab: real, cd: real, ac: real, bd: real)
    requires ab == a * b && cd == c * d && ac == a * c && bd == b * d
    ensures ab * cd == ac * bd
  {
  }

  lemma Spread(a: real, b: real, c: real, d: real, ab: real, cd: real, ac: real)
    requires ab == a * b && cd == c * d && ac == a * c
    ensures ab * cd == ac * b * d
  {
    Regroup(a, b, c, d, ab, cd, ac, b * d);
  }

  lemma RowsMore(g: Graph, mask: nat, more: nat, r: nat)
    requires Shaped(g) && Symmetric(g) && r < |g.card| && Adds(mask, more, r)
    ensures RowsOf(g, more) == NextRows(g, RowsOf(g, mask), mask, r)
  {
    var n := |g.card|;
    CardsAdd(g, mask, more, r, n);
    InnerAdd(g, mask, more, r, n);
    assert Asked(0);
    Spread(Cards(g, mask, n), g.card[r], Inner(g, mask, n), Combined(g, mask, r, n),
           Cards(g, more, n), Inner(g, more, n), RowsOf(g, mask));
  }

  lemma RowsAdd(g: Graph, mask: nat, r: nat)
    requires Shaped(g) && Symmetric(g) && r < |g.card| && !Has(mask, r)
    ensures RowsOf(g, mask + Pow2(r)) == NextRows(g, RowsOf(g, mask), mask, r)
  {
    forall i: nat
      ensures Has(mask + Pow2(r), i) <==> i == r || Has(mask, i)
    {
      AddBit(mask, r, i);
    }
    RowsMore(g, mask, mask + Pow2(r), r);
  }

  lemma {:induction false} EmptyProducts(g: Graph, k: nat)
    requires Shaped(g) && k <= |g.card|
    ensures Cards(g, 0, k) == 1.0 && Inner(g, 0, k) == 1.0 && forall r: nat | r < |g.card| ::
            Combined(g, 0, r, k) == 1.0
    decreases k
  {
    if k > 0 {
      EmptyProducts(g, k - 1);
      ZeroHasNone(k - 1);
    }
  }

  lemma SingleRows(g: Graph, i: nat)
    requires Shaped(g) && Symmetric(g) && i < |g.card|
    ensures RowsOf(g, Pow2(i)) == g.card[i]
  {
    ZeroHasNone(i);
    RowsAdd(g, 0, i);
    EmptyProducts(g, |g.card|);
    assert RowsOf(g, 0) == 1.0;
  }

  /** The rows of the plan that joins the relations in this order. */
  function RowsAlong(g: Graph, order: seq<nat>): real
    requires Shaped(g) && order != [] && InRange(g, order)
    decreases |order|
  {
    var n := |order| - 1;
    if n == 0 then g.card[order[0]] else NextRows(g, RowsAlong(g, order[..n]), MaskOf(order[..n]), order[n])
  }

  lemma {:induction false} EvaluateRows(g: Graph, order: seq<nat>)
    requires Shaped(g) && order != [] && InRange(g, order)
    ensures Evaluate(g, order).rows == RowsAlong(g, order)
    decreases |order|
  {
    if |order| > 1 { EvaluateRows(g, order[..|order| - 1]); }
  }

  lemma {:induction false} RowsAlongSet(g: Graph, order: seq<nat>)
    requires Shaped(g) && Symmetric(g) && order != [] && InRange(g, order) && Distinct(order)
    ensures RowsAlong(g, order) == RowsOf(g, MaskOf(order))
    decreases |order|
  {
    var n := |order| - 1;
    if n == 0 {
      assert order[..n] == [];
      SingleRows(g, order[0]);
    } else {
      RowsAlongSet(g, order[..n]);
      MaskHas(order[..n], order[n]);
      RowsAdd(g, MaskOf(order[..n]), order[n]);
    }
  }

  /** The rows of a left-deep plan depend only on the set of relations joined. */
  lemma RowsDependOnSet(g: Graph, order: seq<nat>)
    requires Shaped(g) && Symmetric(g) && order != [] && InRange(g, order) && Distinct(order)
    ensures Evaluate(g, order).rows == RowsOf(g, MaskOf(order))
  {
    EvaluateRows(g, order);
    RowsAlongSet(g, order);
  }
}
