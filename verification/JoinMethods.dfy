/** The optimizer's plan against every order of the allowed kind with every choice of join methods. */
module JoinMethods {
  import opened JoinOrder
  import opened JoinOptimizer

  /** What one join costs by each method: scan r for every row, build a hash table of r and probe it with every
      row, look every row up in r's index. */
  function MethodCost(g: Graph, r: nat, rows: real, meth: Method): real
    requires r < |g.card|
  {
    match meth
    case Scan => rows * g.card[r]
    case Hash => g.card[r] + rows
    case Index => rows
  }

  /** Some relation of `joined` has a join predicate with r. */
  ghost predicate Shares(g: Graph, joined: seq<nat>, r: nat)
    requires Shaped(g) && InRange(g, joined) && r < |g.card|
  {
    exists i :: 0 <= i < |joined| && g.sel[r][joined[i]] < 1.0
  }

  /** Hash and index joins need an equality to look for, an index join an index. */
  predicate Applicable(g: Graph, r: nat, shares: bool, meth: Method)
    requires Shaped(g) && r < |g.card|
  {
    match meth
    case Scan => true
    case Hash => shares
    case Index => shares && g.indexed[r]
  }

  /** join_step_cost names an applicable method, charges its cost, and no applicable method is cheaper. */
  lemma StepCostIsBest(g: Graph, r: nat, rows: real, shares: bool)
    requires Shaped(g) && r < |g.card|
    ensures var (cost, meth) := StepCost(g, r, rows, shares);
            && Applicable(g, r, shares, meth) && cost == MethodCost(g, r, rows, meth)
            && forall x | Applicable(g, r, shares, x) :: cost <= MethodCost(g, r, rows, x)
  {
    var (cost, meth) := StepCost(g, r, rows, shares);
    forall x | Applicable(g, r, shares, x)
      ensures cost <= MethodCost(g, r, rows, x)
    {
      match x
      case Scan =>
      case Hash =>
      case Index =>
    }
  }

  lemma {:induction false} ConnectedBelow(g: Graph, mask: nat, r: nat, k: nat)
    requires Shaped(g) && r < |g.card| && k <= |g.card|
    ensures Connected(g, mask, r, k) <==> exists x: nat :: x < k && Has(mask, x) && g.sel[r][x] < 1.0
    decreases k
  {
    if k > 0 {
      ConnectedBelow(g, mask, r, k - 1);
      if Connected(g, mask, r, k - 1) {
        var x: nat :| x < k - 1 && Has(mask, x) && g.sel[r][x] < 1.0;
        assert x < k && Has(mask, x) && g.sel[r][x] < 1.0;
      }
    }
  }

  /** The connection test on masks is the one on relations. */
  lemma ConnectedIsShares(g: Graph, joined: seq<nat>, r: nat)
    requires Shaped(g) && InRange(g, joined) && Distinct(joined) && r < |g.card|
    ensures Connected(g, MaskOf(joined), r, |g.card|) <==> Shares(g, joined, r)
  {
    ConnectedBelow(g, MaskOf(joined), r, |g.card|);
    forall x: nat | x < |g.card|
      ensures Has(MaskOf(joined), x) <==> x in joined
    {
      MaskHas(joined, x);
    }
    if Shares(g, joined, r) {
      var i :| 0 <= i < |joined| && g.sel[r][joined[i]] < 1.0;
      assert Has(MaskOf(joined), joined[i]);
    }
  }

  /** The selectivity of the join predicate between two relations; without one every pair of rows matches. */
  function Edge(g: Graph, r: nat, x: nat): real
    requires Shaped(g) && r < |g.card| && x < |g.card|
  {
    if g.sel[r][x] < 1.0 then g.sel[r][x] else 1.0
  }

  /** All predicates between r and the relations joined. */
  function Edges(g: Graph, joined: seq<nat>, r: nat): real
    requires Shaped(g) && InRange(g, joined) && r < |g.card|
    decreases |joined|
  {
    if joined == [] then 1.0
    else Edges(g, joined[..|joined| - 1], r) * Edge(g, r, joined[|joined| - 1])
  }

  lemma {:induction false} CombinedIsEdges(g: Graph, joined: seq<nat>, r: nat)
    requires Shaped(g) && InRange(g, joined) && Distinct(joined) && r < |g.card|
    ensures Combined(g, MaskOf(joined), r, |g.card|) == Edges(g, joined, r)
    decreases |joined|
  {
    if joined == [] {
      EmptyProducts(g, |g.card|);
    } else {
      var n := |joined| - 1;
      var front, x := joined[..n], joined[n];
      CombinedIsEdges(g, front, r);
      MaskHas(front, x);
      forall i: nat
        ensures Has(MaskOf(joined), i) <==> i == x || Has(MaskOf(front), i)
      {
        AddBit(MaskOf(front), x, i);
      }
      CombinedAdd(g, MaskOf(front), MaskOf(joined), x, r, |g.card|);
    }
  }

  /** The rows of the joins in this order: all pairs, thinned by every predicate between them. */
  function Rows(g: Graph, order: seq<nat>): real
    requires Shaped(g) && order != [] && InRange(g, order)
    decreases |order|
  {
    var n := |order| - 1;
    if n == 0 then g.card[order[0]]
    else Rows(g, order[..n]) * g.card[order[n]] * Edges(g, order[..n], order[n])
  }

  lemma {:induction false} RowsAlongOrder(g: Graph, order: seq<nat>)
    requires Shaped(g) && order != [] && InRange(g, order) && Distinct(order)
    ensures RowsAlong(g, order) == Rows(g, order)
    decreases |order|
  {
    var n := |order| - 1;
    if n > 0 {
      RowsAlongOrder(g, order[..n]);
      CombinedIsEdges(g, order[..n], order[n]);
    }
  }

  lemma EvaluatedRows(g: Graph, order: seq<nat>)
    requires Shaped(g) && order != [] && InRange(g, order) && Distinct(order)
    ensures Evaluate(g, order).rows == Rows(g, order)
  {
    EvaluateRows(g, order);
    RowsAlongOrder(g, order);
  }

  /** A method for every relation of the order: the first is scanned. */
  ghost predicate Usable(g: Graph, order: seq<nat>, methods: seq<Method>)
    requires Shaped(g) && InRange(g, order)
  {
    && |methods| == |order|
    && forall k | 0 <= k < |order| ::
         if k == 0 then methods[0] == Scan else Applicable(g, order[k], Shares(g, order[..k], order[k]), methods[k])
  }

  /** The cost of joining in this order by these methods. */
  function Price(g: Graph, order: seq<nat>, methods: seq<Method>): real
    requires Shaped(g) && order != [] && InRange(g, order) && |methods| == |order|
    decreases |order|
  {
    var n := |order| - 1;
    if n == 0 then g.card[order[0]]
    else Price(g, order[..n], methods[..n]) + MethodCost(g, order[n], Rows(g, order[..n]), methods[n])
  }

  lemma UsablePrefix(g: Graph, order: seq<nat>, methods: seq<Method>, n: nat)
    requires Shaped(g) && InRange(g, order) && n <= |order| && Usable(g, order, methods)
    ensures Usable(g, order[..n], methods[..n])
  {
    forall k | 0 < k < n
      ensures Applicable(g, order[..n][k], Shares(g, order[..n][..k], order[..n][k]), methods[..n][k])
    {
      assert order[..n][..k] == order[..k];
    }
  }

  /** No choice of methods is cheaper than the evaluated plan. */
  lemma {:induction false} CheapestMethods(g: Graph, order: seq<nat>, methods: seq<Method>)
    requires Shaped(g) && order != [] && InRange(g, order) && Distinct(order) && Usable(g, order, methods)
    ensures Evaluate(g, order).cost <= Price(g, order, methods)
    decreases |order|
  {
    var n := |order| - 1;
    if n > 0 {
      UsablePrefix(g, order, methods, n);
      CheapestMethods(g, order[..n], methods[..n]);
      EvaluatedRows(g, order[..n]);
      ConnectedIsShares(g, order[..n], order[n]);
      StepCostIsBest(g, order[n], Rows(g, order[..n]), Shares(g, order[..n], order[n]));
    }
  }

  lemma UsableSnoc(g: Graph, order: seq<nat>, methods: seq<Method>, r: nat, meth: Method)
    requires Shaped(g) && InRange(g, order) && order != [] && r < |g.card| && Usable(g, order, methods)
    requires Applicable(g, r, Shares(g, order, r), meth)
    ensures InRange(g, order + [r]) && Usable(g, order + [r], methods + [meth])
  {
    var os, ms := order + [r], methods + [meth];
    forall k | 0 < k < |os|
      ensures Applicable(g, os[k], Shares(g, os[..k], os[k]), ms[k])
    {
      assert os[..k] == if k < |order| then order[..k] else order;
    }
  }

  lemma PriceSnoc(g: Graph, order: seq<nat>, methods: seq<Method>, r: nat, meth: Method)
    requires Shaped(g) && order != [] && InRange(g, order) && |methods| == |order| && r < |g.card|
    ensures InRange(g, order + [r])
    ensures Price(g, order + [r], methods + [meth]) ==
            Price(g, order, methods) + MethodCost(g, r, Rows(g, order), meth)
  {
    assert (order + [r])[..|order|] == order && (methods + [meth])[..|order|] == methods;
  }

  lemma ExtendMethods(g: Graph, front: seq<nat>, p: Plan, r: nat)
    requires Shaped(g) && front != [] && InRange(g, front) && Distinct(front) && r < |g.card|
    requires Usable(g, front, p.methods) && Price(g, front, p.methods) == p.cost && p.rows == Rows(g, front)
    ensures var q := Extend(g, p, MaskOf(front), r); var order := front + [r];
            && InRange(g, order) && Usable(g, order, q.methods) && Price(g, order, q.methods) == q.cost
  {
    ConnectedIsShares(g, front, r);
    StepCostIsBest(g, r, p.rows, Shares(g, front, r));
    var meth := StepCost(g, r, p.rows, Shares(g, front, r)).1;
    UsableSnoc(g, front, p.methods, r, meth);
    PriceSnoc(g, front, p.methods, r, meth);
  }

  /** The methods of the evaluated plan are usable, and its cost is theirs. */
  lemma {:induction false} EvaluatedMethods(g: Graph, order: seq<nat>)
    requires Shaped(g) && order != [] && InRange(g, order) && Distinct(order)
    ensures var p := Evaluate(g, order); Usable(g, order, p.methods) && Price(g, order, p.methods) == p.cost
    decreases |order|
  {
    var n := |order| - 1;
    if n > 0 {
      EvaluatedMethods(g, order[..n]);
      EvaluatedRows(g, order[..n]);
      ExtendMethods(g, order[..n], Evaluate(g, order[..n]), order[n]);
      assert order[..n] + [order[n]] == order;
    }
  }

  /** Some relation is joined without a predicate. */
  ghost predicate Unshared(g: Graph, order: seq<nat>)
    requires Shaped(g) && InRange(g, order)
  {
    exists k :: 0 < k < |order| && !Shares(g, order[..k], order[k])
  }

  lemma UnsharedSnoc(g: Graph, order: seq<nat>, n: nat)
    requires Shaped(g) && InRange(g, order) && 0 < n == |order| - 1
    ensures Unshared(g, order) <==> Unshared(g, order[..n]) || !Shares(g, order[..n], order[n])
  {
    var front := order[..n];
    if Unshared(g, order) {
      var k :| 0 < k < |order| && !Shares(g, order[..k], order[k]);
      assert k < n ==> front[..k] == order[..k] && front[k] == order[k];
    }
    if Unshared(g, front) {
      var k :| 0 < k < |front| && !Shares(g, front[..k], front[k]);
      assert front[..k] == order[..k] && front[k] == order[k];
    }
  }

  /** A plan is marked as a cross product exactly when some relation was joined without a predicate. */
  lemma {:induction false} CrossIsUnshared(g: Graph, order: seq<nat>)
    requires Shaped(g) && order != [] && InRange(g, order) && Distinct(order)
    ensures Evaluate(g, order).cross <==> Unshared(g, order)
    decreases |order|
  {
    var n := |order| - 1;
    if n > 0 {
      CrossIsUnshared(g, order[..n]);
      ConnectedIsShares(g, order[..n], order[n]);
      UnsharedSnoc(g, order, n);
    }
  }

  /** The optimizer's plan is the cheapest of all: no order of the allowed kind, by no usable choice of
      methods, costs less, and its own methods are usable at exactly its cost. */
  lemma CheapestOfAll(g: Graph, p: Plan)
    requires Shaped(g) && Optimal(g, p)
    ensures InRange(g, p.order) && Usable(g, p.order, p.methods) && p.order != []
    ensures p.cost == Price(g, p.order, p.methods) && p.rows == Rows(g, p.order)
    ensures p.cross <==> Unshared(g, p.order)
    ensures Symmetric(g) ==> forall o, ms | Complete(g, o) && Admissible(g, o) && Usable(g, o, ms) ::
              p.cost <= Price(g, o, ms)
  {
    AdmissibleDistinct(g, p.order);
    EvaluatedMethods(g, p.order);
    EvaluatedRows(g, p.order);
    CrossIsUnshared(g, p.order);
    if Symmetric(g) {
      forall o, ms | Complete(g, o) && Admissible(g, o) && Usable(g, o, ms)
        ensures p.cost <= Price(g, o, ms)
      {
        AdmissibleDistinct(g, o);
        CheapestMethods(g, o, ms);
      }
    }
  }
}
