/** Ordering graphs over the systems of a schedule: edges, transitive closure, cycles, and the
    order that always takes the lowest ready system. */
module Graphs {

  const PHASE_COUNT := 8

  /** `preds[s]` lists the systems that must finish before `s` starts, repetitions included;
      a system that is not included in the world takes no part in the order. */
  datatype Graph = Graph(phase: seq<nat>, included: seq<bool>, preds: seq<seq<nat>>)
  {
    predicate WellFormed()
    {
      && |phase| == |included| == |preds|
      && (forall s :: 0 <= s < |phase| ==> phase[s] < PHASE_COUNT)
      && (forall b, i :: 0 <= b < |preds| && 0 <= i < |preds[b]| ==> ValidEdge(preds[b][i], b))
    }

    /** What AddOrder accepts: two distinct registered systems of one phase. */
    predicate ValidEdge(a: nat, b: nat)
    {
      a < |phase| && b < |phase| && a != b && phase[a] == phase[b]
    }

    predicate InPhase(ph: nat, s: nat)
      requires |phase| == |included|
    {
      s < |phase| && phase[s] == ph && included[s]
    }

    predicate Edge(a: nat, b: nat)
      requires WellFormed()
    {
      a < |phase| && b < |phase| && a in preds[b] && included[a] && included[b]
    }

    function AddEdge(a: nat, b: nat): Graph
      requires WellFormed() && ValidEdge(a, b)
    {
      this.(preds := preds[b := preds[b] + [a]])
    }

    /** A walk of k + 1 edges from a to b. */
    ghost predicate ReachIn(k: nat, a: nat, b: nat)
      requires WellFormed()
      decreases k
    {
      if k == 0 then Edge(a, b) else exists c: nat :: ReachIn(k - 1, a, c) && Edge(c, b)
    }

    ghost predicate Reaches(a: nat, b: nat)
      requires WellFormed()
    {
      exists k: nat :: ReachIn(k, a, b)
    }

    ghost predicate Cyclic()
      requires WellFormed()
    {
      exists a: nat :: Reaches(a, a)
    }

    /** s may come next in its phase once the systems of `done` have been placed. */
    predicate Ready(ph: nat, done: seq<nat>, s: nat)
      requires WellFormed()
    {
      && InPhase(ph, s)
      && s !in done
      && (forall i :: 0 <= i < |preds[s]| ==> included[preds[s][i]] ==> preds[s][i] in done)
    }

    ghost predicate Lowest(ph: nat, done: seq<nat>, s: nat)
      requires WellFormed()
    {
      Ready(ph, done, s) && forall r: nat :: Ready(ph, done, r) ==> s <= r
    }

    /** Every position holds the lowest system that was ready there. */
    ghost predicate Greedy(ph: nat, order: seq<nat>)
      requires WellFormed()
    {
      forall i :: 0 <= i < |order| ==> Lowest(ph, order[..i], order[i])
    }

    predicate Covers(ph: nat, order: seq<nat>)
      requires WellFormed()
    {
      forall s :: 0 <= s < |phase| ==> (InPhase(ph, s) <==> s in order)
    }

    /** The order the schedule promises for a phase. */
    ghost predicate IsKahn(ph: nat, order: seq<nat>)
      requires WellFormed()
    {
      Greedy(ph, order) && Covers(ph, order)
    }

    /** A repetition-free order of a phase in which every edge points forward. */
    predicate Linear(ph: nat, order: seq<nat>)
      requires WellFormed()
    {
      && (forall i, j :: 0 <= i < j < |order| ==> order[i] != order[j])
      && (forall i :: 0 <= i < |order| ==> InPhase(ph, order[i]))
      && Covers(ph, order)
      && (forall i, j :: 0 <= i < |order| && 0 <= j < |order| && Edge(order[i], order[j]) ==> i < j)
    }

    // --- closure --------------------------------------------------------------------------------

    lemma ReachesByEdge(a: nat, b: nat)
      requires WellFormed() && Edge(a, b)
      ensures Reaches(a, b)
    {
      assert ReachIn(0, a, b);
    }

    lemma ReachesStep(a: nat, c: nat, b: nat)
      requires WellFormed() && Reaches(a, c) && Edge(c, b)
      ensures Reaches(a, b)
    {
      var k: nat :| ReachIn(k, a, c);
      assert ReachIn(k + 1, a, b);
    }

    /** Every walk ends in an edge. */
    lemma LastEdge(a: nat, b: nat) returns (c: nat)
      requires WellFormed() && Reaches(a, b)
      ensures Edge(c, b) && (a == c || Reaches(a, c))
    {
      var k: nat :| ReachIn(k, a, b);
      if k == 0 {
        c := a;
      } else {
        c :| ReachIn(k - 1, a, c) && Edge(c, b);
      }
    }

    lemma {:induction false} ReachesTransitive(a: nat, b: nat, c: nat)
      requires WellFormed() && Reaches(a, b) && Reaches(b, c)
      ensures Reaches(a, c)
    {
      var k: nat :| ReachIn(k, b, c);
      ReachesTransitiveIn(k, a, b, c);
    }

    lemma {:induction false} ReachesTransitiveIn(k: nat, a: nat, b: nat, c: nat)
      requires WellFormed() && Reaches(a, b) && ReachIn(k, b, c)
      ensures Reaches(a, c)
      decreases k
    {
      if k == 0 {
        ReachesStep(a, b, c);
      } else {
        var d: nat :| ReachIn(k - 1, b, d) && Edge(d, c);
        ReachesTransitiveIn(k - 1, a, b, d);
        ReachesStep(a, d, c);
      }
    }

    /** Walks stay in one phase and touch only included systems. */
    lemma {:induction false} ReachesInPhase(k: nat, a: nat, b: nat)
      requires WellFormed() && ReachIn(k, a, b)
      ensures a < |phase| && b < |phase| && phase[a] == phase[b] && included[a] && included[b]
      decreases k
    {
      if k > 0 {
        var c: nat :| ReachIn(k - 1, a, c) && Edge(c, b);
        ReachesInPhase(k - 1, a, c);
      }
    }

    /** A graph with more edges reaches more. */
    lemma {:induction false} ReachesMonotone(h: Graph, k: nat, a: nat, b: nat)
      requires WellFormed() && h.WellFormed() && ReachIn(k, a, b)
      requires forall x: nat, y: nat :: Edge(x, y) ==> h.Reaches(x, y)
      ensures h.Reaches(a, b)
      decreases k
    {
      if k > 0 {
        var c: nat :| ReachIn(k - 1, a, c) && Edge(c, b);
        ReachesMonotone(h, k - 1, a, c);
        h.ReachesTransitive(a, c, b);
      }
    }

    // --- one more edge --------------------------------------------------------------------------

    lemma AddEdgeEdges(a: nat, b: nat)
      requires WellFormed() && ValidEdge(a, b) && included[a] && included[b]
      ensures AddEdge(a, b).WellFormed()
      ensures forall x: nat, y: nat :: AddEdge(a, b).Edge(x, y) <==> Edge(x, y) || (x == a && y == b)
    {
      var h := AddEdge(a, b);
      forall s, i | 0 <= s < |h.preds| && 0 <= i < |h.preds[s]| ensures h.ValidEdge(h.preds[s][i], s) {
        if s == b && i == |preds[b]| {
        } else {
          assert h.preds[s][i] == preds[s][i];
        }
      }
      assert a in h.preds[b] by { assert h.preds[b][|preds[b]|] == a; }
    }

    /** The update Build makes to its matrix when it adds an edge: what reached a now reaches b
        and everything b reaches. */
    lemma AddEdgeReaches(a: nat, b: nat, t: nat, u: nat)
      requires WellFormed() && ValidEdge(a, b) && included[a] && included[b]
      ensures AddEdge(a, b).WellFormed()
      ensures AddEdge(a, b).Reaches(t, u) <==>
              Reaches(t, u) || ((t == a || Reaches(t, a)) && (u == b || Reaches(b, u)))
    {
      AddEdgeEdges(a, b);
      var h := AddEdge(a, b);
      if h.Reaches(t, u) {
        var k: nat :| h.ReachIn(k, t, u);
        AddEdgeSplit(a, b, k, t, u);
      }
      forall x: nat, y: nat | Edge(x, y) ensures h.Reaches(x, y) { h.ReachesByEdge(x, y); }
      if Reaches(t, u) {
        var k: nat :| ReachIn(k, t, u);
        ReachesMonotone(h, k, t, u);
      }
      if (t == a || Reaches(t, a)) && (u == b || Reaches(b, u)) {
        if t != a {
          var k: nat :| ReachIn(k, t, a);
          ReachesMonotone(h, k, t, a);
          h.ReachesStep(t, a, b);
        } else {
          h.ReachesByEdge(a, b);
        }
        if u != b {
          var k: nat :| ReachIn(k, b, u);
          ReachesMonotone(h, k, b, u);
          h.ReachesTransitive(t, b, u);
        }
      }
    }

    lemma {:induction false} AddEdgeSplit(a: nat, b: nat, k: nat, t: nat, u: nat)
      requires WellFormed() && ValidEdge(a, b) && included[a] && included[b]
      requires AddEdge(a, b).WellFormed() && AddEdge(a, b).ReachIn(k, t, u)
      ensures Reaches(t, u) || ((t == a || Reaches(t, a)) && (u == b || Reaches(b, u)))
      decreases k
    {
      AddEdgeEdges(a, b);
      var h := AddEdge(a, b);
      if k == 0 {
        if Edge(t, u) { ReachesByEdge(t, u); }
      } else {
        var c: nat :| h.ReachIn(k - 1, t, c) && h.Edge(c, u);
        AddEdgeSplit(a, b, k - 1, t, c);
        if Edge(c, u) {
          ReachesByEdge(c, u);
          if Reaches(t, c) {
            ReachesStep(t, c, u);
          } else if c != b {
            ReachesStep(b, c, u);
          }
        }
      }
    }
  }
}
