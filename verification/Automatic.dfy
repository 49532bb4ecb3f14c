/** The edges Build adds for automatic resources: between conflicting systems of a phase, always
    forward in the order that the explicit edges gave. */
module Automatic {
  import opened Graphs
  import opened Orders
  import opened Systems

  ghost predicate KahnOrders(g: Graph, orders: seq<seq<nat>>)
    requires g.WellFormed()
  {
    |orders| == PHASE_COUNT && forall ph :: 0 <= ph < PHASE_COUNT ==> g.IsKahn(ph, orders[ph])
  }

  lemma KahnOrdersUnique(g: Graph, o1: seq<seq<nat>>, o2: seq<seq<nat>>)
    requires g.WellFormed() && KahnOrders(g, o1) && KahnOrders(g, o2)
    ensures o1 == o2
  {
    forall ph | 0 <= ph < PHASE_COUNT ensures o1[ph] == o2[ph] {
      KahnUnique(g, ph, o1[ph], o2[ph]);
    }
  }

  predicate AutoConflict(s: seq<SystemDesc>, automatic: set<nat>, a: nat, b: nat)
  {
    a < |s| && b < |s| && ConflictsAutomatically(s[a], s[b], automatic)
  }

  /** The systems of `order` before position n that b conflicts with automatically. */
  ghost function AutoBefore(s: seq<SystemDesc>, automatic: set<nat>, order: seq<nat>, b: nat, n: nat): (r: seq<nat>)
    requires n <= |order|
    ensures forall a: nat :: a in r <==> a in order[..n] && AutoConflict(s, automatic, a, b)
  {
    if n == 0 then []
    else
      assert order[..n] == order[..n - 1] + [order[n - 1]];
      AutoBefore(s, automatic, order, b, n - 1)
      + (if AutoConflict(s, automatic, order[n - 1], b) then [order[n - 1]] else [])
  }

  ghost predicate ForwardAuto(s: seq<SystemDesc>, automatic: set<nat>, orders: seq<seq<nat>>, a: nat, b: nat)
  {
    AutoConflict(s, automatic, a, b) && exists ph :: 0 <= ph < |orders| && Precedes(orders[ph], a, b)
  }

  /** h has the edges of g and all the forward automatic pairs: what the documentation of
      automatically ordered resources describes, without the economy Build applies. */
  ghost predicate IsFull(g: Graph, h: Graph, s: seq<SystemDesc>, automatic: set<nat>, orders: seq<seq<nat>>)
    requires g.WellFormed() && h.WellFormed()
  {
    && h.phase == g.phase && h.included == g.included
    && forall a: nat, b: nat :: h.Edge(a, b) <==> g.Edge(a, b) || ForwardAuto(s, automatic, orders, a, b)
  }

  /** h lies between g and the full graph. */
  ghost predicate Grown(g: Graph, h: Graph, s: seq<SystemDesc>, automatic: set<nat>, orders: seq<seq<nat>>)
    requires g.WellFormed() && h.WellFormed()
  {
    && h.phase == g.phase && h.included == g.included
    && (forall a: nat, b: nat :: g.Edge(a, b) ==> h.Edge(a, b))
    && (forall a: nat, b: nat :: h.Edge(a, b) ==> g.Edge(a, b) || ForwardAuto(s, automatic, orders, a, b))
  }

  /** The added edges never create a cycle and never disturb the order. */
  lemma GrownKeepsOrders(g: Graph, h: Graph, s: seq<SystemDesc>, automatic: set<nat>, orders: seq<seq<nat>>)
    requires g.WellFormed() && h.WellFormed() && KahnOrders(g, orders)
    requires Grown(g, h, s, automatic, orders)
    ensures KahnOrders(h, orders)
    ensures forall ph :: 0 <= ph < PHASE_COUNT ==> h.Linear(ph, orders[ph])
    ensures !h.Cyclic()
  {
    forall ph | 0 <= ph < PHASE_COUNT ensures h.IsKahn(ph, orders[ph]) && h.Linear(ph, orders[ph]) {
      forall a: nat, b: nat | h.Edge(a, b) && h.InPhase(ph, b) && !g.Edge(a, b)
        ensures Precedes(orders[ph], a, b)
      {
        var p :| 0 <= p < |orders| && Precedes(orders[p], a, b);
        var i, j :| 0 <= i < j < |orders[p]| && orders[p][i] == a && orders[p][j] == b;
        GreedyDistinct(g, p, orders[p]);
      }
      ForwardKeepsKahn(g, h, ph, orders[ph]);
      KahnIsLinear(h, ph, orders[ph]);
    }
    LinearAcyclic(h, orders);
  }

  /** Two systems of one phase that are ordered by position. */
  lemma ForwardInPhase(g: Graph, orders: seq<seq<nat>>, ph: nat, i: nat, j: nat)
    requires g.WellFormed() && KahnOrders(g, orders) && ph < PHASE_COUNT && i < j < |orders[ph]|
    ensures Precedes(orders[ph], orders[ph][i], orders[ph][j])
    ensures g.InPhase(ph, orders[ph][i]) && g.InPhase(ph, orders[ph][j]) && orders[ph][i] != orders[ph][j]
    ensures g.ValidEdge(orders[ph][i], orders[ph][j])
  {
    GreedyDistinct(g, ph, orders[ph]);
  }

  lemma GrownStep(g: Graph, h: Graph, s: seq<SystemDesc>, automatic: set<nat>, orders: seq<seq<nat>>,
                  ph: nat, a: nat, b: nat)
    requires g.WellFormed() && h.WellFormed() && Grown(g, h, s, automatic, orders)
    requires h.ValidEdge(a, b) && h.included[a] && h.included[b]
    requires ph < |orders| && Precedes(orders[ph], a, b) && AutoConflict(s, automatic, a, b)
    ensures h.AddEdge(a, b).WellFormed()
    ensures Grown(g, h.AddEdge(a, b), s, automatic, orders)
  {
    h.AddEdgeEdges(a, b);
  }

  /** h orders every forward automatic pair. */
  ghost predicate CoversAuto(h: Graph, s: seq<SystemDesc>, automatic: set<nat>, orders: seq<seq<nat>>)
    requires h.WellFormed()
  {
    forall a: nat, b: nat :: ForwardAuto(s, automatic, orders, a, b) ==> h.Reaches(a, b)
  }

  /** The chain of edges Build keeps orders exactly what the full set of edges would. */
  lemma GrownClosure(g: Graph, h: Graph, full: Graph, s: seq<SystemDesc>, automatic: set<nat>,
                     orders: seq<seq<nat>>, a: nat, b: nat)
    requires g.WellFormed() && h.WellFormed() && full.WellFormed()
    requires Grown(g, h, s, automatic, orders) && CoversAuto(h, s, automatic, orders)
    requires IsFull(g, full, s, automatic, orders)
    ensures h.Reaches(a, b) <==> full.Reaches(a, b)
  {
    forall x: nat, y: nat | h.Edge(x, y) ensures full.Reaches(x, y) { full.ReachesByEdge(x, y); }
    forall x: nat, y: nat | full.Edge(x, y) ensures h.Reaches(x, y) {
      if g.Edge(x, y) { h.ReachesByEdge(x, y); }
    }
    if h.Reaches(a, b) {
      var k: nat :| h.ReachIn(k, a, b);
      h.ReachesMonotone(full, k, a, b);
    }
    if full.Reaches(a, b) {
      var k: nat :| full.ReachIn(k, a, b);
      full.ReachesMonotone(h, k, a, b);
    }
  }

  ghost function FullPreds(g: Graph, s: seq<SystemDesc>, automatic: set<nat>, orders: seq<seq<nat>>, b: nat): seq<nat>
    requires g.WellFormed() && KahnOrders(g, orders) && b < |g.phase|
  {
    var order := orders[g.phase[b]];
    if g.included[b]
    then g.preds[b] + AutoBefore(s, automatic, order, b, PositionOf(order, b, |order|))
    else g.preds[b]
  }

  /** The position of b among the first n entries, or n. */
  ghost function PositionOf(order: seq<nat>, b: nat, n: nat): (p: nat)
    requires n <= |order|
    ensures p <= n
    ensures forall i :: 0 <= i < p ==> order[i] != b
    ensures p < n ==> order[p] == b
  {
    if n == 0 then 0
    else
      var p := PositionOf(order, b, n - 1);
      if p < n - 1 then p else if order[n - 1] == b then n - 1 else n
  }

  ghost function FullGraph(g: Graph, s: seq<SystemDesc>, automatic: set<nat>, orders: seq<seq<nat>>): Graph
    requires g.WellFormed() && KahnOrders(g, orders)
  {
    g.(preds := seq(|g.phase|, b requires 0 <= b < |g.phase| => FullPreds(g, s, automatic, orders, b)))
  }

  lemma FullPredsValid(g: Graph, s: seq<SystemDesc>, automatic: set<nat>, orders: seq<seq<nat>>, b: nat)
    requires g.WellFormed() && KahnOrders(g, orders) && b < |g.phase|
    ensures forall i :: 0 <= i < |FullPreds(g, s, automatic, orders, b)| ==>
      g.ValidEdge(FullPreds(g, s, automatic, orders, b)[i], b)
    ensures g.included[b] ==> forall a: nat :: a in FullPreds(g, s, automatic, orders, b) <==>
      a in g.preds[b] || (AutoConflict(s, automatic, a, b) && Precedes(orders[g.phase[b]], a, b))
    ensures !g.included[b] ==> FullPreds(g, s, automatic, orders, b) == g.preds[b]
  {
    var ph := g.phase[b];
    var order := orders[ph];
    if g.included[b] {
      GreedyDistinct(g, ph, order);
      var n := PositionOf(order, b, |order|);
      assert b in order;
      forall a: nat ensures a in order[..n] <==> Precedes(order, a, b) {
        if a in order[..n] {
          var i :| 0 <= i < n && order[..n][i] == a;
          assert 0 <= i < n < |order| && order[i] == a && order[n] == b;
        }
        if Precedes(order, a, b) {
          var i, j :| 0 <= i < j < |order| && order[i] == a && order[j] == b;
          assert order[..n][i] == a;
        }
      }
      var preds := FullPreds(g, s, automatic, orders, b);
      forall i | 0 <= i < |preds| ensures g.ValidEdge(preds[i], b) {
        if i < |g.preds[b]| {
          assert preds[i] == g.preds[b][i];
        } else {
          assert preds[i] == AutoBefore(s, automatic, order, b, n)[i - |g.preds[b]|];
          assert preds[i] in order[..n];
        }
      }
    }
  }

  lemma FullGraphIsFull(g: Graph, s: seq<SystemDesc>, automatic: set<nat>, orders: seq<seq<nat>>)
    requires g.WellFormed() && KahnOrders(g, orders)
    ensures FullGraph(g, s, automatic, orders).WellFormed()
    ensures IsFull(g, FullGraph(g, s, automatic, orders), s, automatic, orders)
  {
    var h := FullGraph(g, s, automatic, orders);
    forall b, i | 0 <= b < |h.preds| && 0 <= i < |h.preds[b]| ensures h.ValidEdge(h.preds[b][i], b) {
      FullPredsValid(g, s, automatic, orders, b);
      assert g.ValidEdge(FullPreds(g, s, automatic, orders, b)[i], b);
    }
    forall a: nat, b: nat ensures h.Edge(a, b) <==> g.Edge(a, b) || ForwardAuto(s, automatic, orders, a, b) {
      FullEdge(g, s, automatic, orders, a, b);
    }
  }

  lemma FullEdge(g: Graph, s: seq<SystemDesc>, automatic: set<nat>, orders: seq<seq<nat>>, a: nat, b: nat)
    requires g.WellFormed() && KahnOrders(g, orders)
    requires FullGraph(g, s, automatic, orders).WellFormed()
    ensures FullGraph(g, s, automatic, orders).Edge(a, b) <==>
            g.Edge(a, b) || ForwardAuto(s, automatic, orders, a, b)
  {
    forall ph | 0 <= ph < PHASE_COUNT && Precedes(orders[ph], a, b)
      ensures g.InPhase(ph, a) && g.InPhase(ph, b)
    {
      GreedyDistinct(g, ph, orders[ph]);
    }
    if a < |g.phase| && b < |g.phase| {
      FullPredsValid(g, s, automatic, orders, b);
    }
  }

  /** The forward automatic pairs (x, y) of one phase that are ordered in h once the loops of Build
      stand at position j and, within it, have come down to position i. */
  ghost predicate PairsDone(h: Graph, s: seq<SystemDesc>, automatic: set<nat>, order: seq<nat>, j: nat, i: nat)
    requires h.WellFormed()
  {
    forall x, y :: 0 <= x < y < |order| && (y < j || (y == j && x >= i)) && AutoConflict(s, automatic, order[x], order[y])
      ==> h.Reaches(order[x], order[y])
  }

  ghost predicate PhasesDone(h: Graph, s: seq<SystemDesc>, automatic: set<nat>, orders: seq<seq<nat>>, n: nat)
    requires h.WellFormed() && n <= |orders|
  {
    forall ph :: 0 <= ph < n ==> PairsDone(h, s, automatic, orders[ph], |orders[ph]|, 0)
  }

  lemma PhasesDoneCover(h: Graph, s: seq<SystemDesc>, automatic: set<nat>, orders: seq<seq<nat>>)
    requires h.WellFormed() && PhasesDone(h, s, automatic, orders, |orders|)
    ensures CoversAuto(h, s, automatic, orders)
  {
    forall a: nat, b: nat | ForwardAuto(s, automatic, orders, a, b) ensures h.Reaches(a, b) {
      var ph :| 0 <= ph < |orders| && Precedes(orders[ph], a, b);
      var x, y :| 0 <= x < y < |orders[ph]| && orders[ph][x] == a && orders[ph][y] == b;
      assert PairsDone(h, s, automatic, orders[ph], |orders[ph]|, 0);
    }
  }

  ghost predicate ReachesMore(g: Graph, h: Graph)
    requires g.WellFormed() && h.WellFormed()
  {
    forall a: nat, b: nat :: g.Reaches(a, b) ==> h.Reaches(a, b)
  }

  lemma AddEdgeReachesMore(g: Graph, a: nat, b: nat)
    requires g.WellFormed() && g.ValidEdge(a, b) && g.included[a] && g.included[b]
    ensures g.AddEdge(a, b).WellFormed() && ReachesMore(g, g.AddEdge(a, b)) && g.AddEdge(a, b).Reaches(a, b)
  {
    g.AddEdgeEdges(a, b);
    forall t: nat, u: nat | g.Reaches(t, u) ensures g.AddEdge(a, b).Reaches(t, u) {
      g.AddEdgeReaches(a, b, t, u);
    }
    g.AddEdge(a, b).ReachesByEdge(a, b);
  }

  lemma GrownReflexive(g: Graph, s: seq<SystemDesc>, automatic: set<nat>, orders: seq<seq<nat>>)
    requires g.WellFormed()
    ensures Grown(g, g, s, automatic, orders)
  {}
}
