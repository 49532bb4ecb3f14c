/** What Kahn's algorithm with the registration-order tie-break promises about one phase: the
    order is unique, topological, lexicographically least, exists exactly when the phase has no
    cycle, and is not disturbed by further edges that point forward. */
module Orders {
  import opened Graphs
  import opened Lists

  ghost predicate Precedes(order: seq<nat>, a: nat, b: nat)
  {
    exists i, j :: 0 <= i < j < |order| && order[i] == a && order[j] == b
  }

  // --- the greedy order ---------------------------------------------------------------------------

  lemma GreedyExtend(g: Graph, ph: nat, order: seq<nat>, s: nat)
    requires g.WellFormed() && g.Greedy(ph, order) && g.Lowest(ph, order, s)
    ensures g.Greedy(ph, order + [s])
  {
    var longer := order + [s];
    forall i | 0 <= i < |longer| ensures g.Lowest(ph, longer[..i], longer[i]) {
      if i < |order| {
        assert longer[..i] == order[..i];
      } else {
        assert longer[..i] == order;
      }
    }
  }

  lemma GreedyDistinct(g: Graph, ph: nat, order: seq<nat>)
    requires g.WellFormed() && g.Greedy(ph, order)
    ensures forall i, j :: 0 <= i < j < |order| ==> order[i] != order[j]
    ensures forall i :: 0 <= i < |order| ==> g.InPhase(ph, order[i])
  {
    forall i, j | 0 <= i < j < |order| ensures order[i] != order[j] {
      assert g.Lowest(ph, order[..j], order[j]);
      assert order[..j][i] == order[i];
    }
    forall i | 0 <= i < |order| ensures g.InPhase(ph, order[i]) {
      assert g.Lowest(ph, order[..i], order[i]);
    }
  }

  /** Every edge between placed systems points forward. */
  lemma KahnIsLinear(g: Graph, ph: nat, order: seq<nat>)
    requires g.WellFormed() && g.IsKahn(ph, order)
    ensures g.Linear(ph, order)
  {
    GreedyDistinct(g, ph, order);
    forall i, j | 0 <= i < |order| && 0 <= j < |order| && g.Edge(order[i], order[j]) ensures i < j {
      assert g.Lowest(ph, order[..j], order[j]);
      assert order[i] in order[..j];
      var k :| 0 <= k < j && order[..j][k] == order[i];
      assert order[k] == order[i];
    }
  }

  lemma {:induction false} KahnPrefixes(g: Graph, ph: nat, o1: seq<nat>, o2: seq<nat>, k: nat)
    requires g.WellFormed() && g.IsKahn(ph, o1) && g.IsKahn(ph, o2)
    requires k <= |o1| && k <= |o2|
    ensures o1[..k] == o2[..k]
  {
    if k > 0 {
      KahnPrefixes(g, ph, o1, o2, k - 1);
      assert g.Lowest(ph, o1[..k - 1], o1[k - 1]);
      assert g.Lowest(ph, o2[..k - 1], o2[k - 1]);
      assert o1[..k] == o1[..k - 1] + [o1[k - 1]];
      assert o2[..k] == o2[..k - 1] + [o2[k - 1]];
    }
  }

  /** The order of a phase is determined by its edges. */
  lemma KahnUnique(g: Graph, ph: nat, o1: seq<nat>, o2: seq<nat>)
    requires g.WellFormed() && g.IsKahn(ph, o1) && g.IsKahn(ph, o2)
    ensures o1 == o2
  {
    KahnIsLinear(g, ph, o1);
    KahnIsLinear(g, ph, o2);
    if |o1| <= |o2| {
      KahnPrefixes(g, ph, o1, o2, |o1|);
      LinearSameLength(g, ph, o1, o2);
    } else {
      KahnPrefixes(g, ph, o1, o2, |o2|);
      LinearSameLength(g, ph, o2, o1);
    }
  }

  lemma PrefixMisses(longer: seq<nat>, n: nat)
    requires n < |longer| && forall i, j :: 0 <= i < j < |longer| ==> longer[i] != longer[j]
    ensures longer[n] !in longer[..n]
  {}

  /** Two linear orders of a phase are permutations of one another, so a common prefix that
      exhausts one exhausts the other. */
  lemma LinearSameLength(g: Graph, ph: nat, o1: seq<nat>, o2: seq<nat>)
    requires g.WellFormed() && g.Linear(ph, o1) && g.Linear(ph, o2)
    requires |o1| <= |o2| && o1 == o2[..|o1|]
    ensures o1 == o2
  {
    if |o1| < |o2| {
      PrefixMisses(o2, |o1|);
      assert false;
    }
  }

  lemma {:induction false} CommonPrefix(o1: seq<nat>, o2: seq<nat>, k: nat)
    requires k <= |o1| && k <= |o2| && o1[..k] == o2[..k]
    ensures (o1 <= o2 || o2 <= o1) ||
            exists i :: 0 <= i < |o1| && i < |o2| && o1[..i] == o2[..i] && o1[i] != o2[i]
    decreases |o1| - k
  {
    if k < |o1| && k < |o2| && o1[k] == o2[k] {
      assert o1[..k + 1] == o1[..k] + [o1[k]];
      assert o2[..k + 1] == o2[..k] + [o2[k]];
      CommonPrefix(o1, o2, k + 1);
    } else if k == |o1| {
      assert o1[..k] == o1;
      assert o1 <= o2;
    } else if k == |o2| {
      assert o2[..k] == o2;
      assert o2 <= o1;
    }
  }

  /** Registration order breaks ties: no linear order of the phase is lexicographically smaller. */
  lemma LexLeast(g: Graph, ph: nat, kahn: seq<nat>, other: seq<nat>)
    requires g.WellFormed() && g.IsKahn(ph, kahn) && g.Linear(ph, other)
    ensures kahn == other ||
            exists i :: 0 <= i < |kahn| && i < |other| && kahn[..i] == other[..i] && kahn[i] < other[i]
  {
    KahnIsLinear(g, ph, kahn);
    CommonPrefix(kahn, other, 0);
    if kahn <= other {
      assert kahn == other[..|kahn|];
      LinearSameLength(g, ph, kahn, other);
    } else if other <= kahn {
      assert other == kahn[..|other|];
      LinearSameLength(g, ph, other, kahn);
    } else {
      var i :| 0 <= i < |kahn| && i < |other| && kahn[..i] == other[..i] && kahn[i] != other[i];
      LinearReady(g, ph, other, i);
      assert g.Lowest(ph, kahn[..i], kahn[i]);
    }
  }

  lemma LinearReady(g: Graph, ph: nat, order: seq<nat>, i: nat)
    requires g.WellFormed() && g.Linear(ph, order) && i < |order|
    ensures g.Ready(ph, order[..i], order[i])
  {
    var s := order[i];
    forall k | 0 <= k < |g.preds[s]| && g.included[g.preds[s][k]] ensures g.preds[s][k] in order[..i] {
      var p := g.preds[s][k];
      assert g.ValidEdge(p, s);
      assert g.Edge(p, s);
      assert g.InPhase(ph, p);
      var j :| 0 <= j < |order| && order[j] == p;
      assert order[..i][j] == p;
    }
  }

  // --- closure and cycles -------------------------------------------------------------------------

  lemma {:induction false} ReachesPrecedes(g: Graph, ph: nat, order: seq<nat>, k: nat, a: nat, b: nat)
    requires g.WellFormed() && g.Linear(ph, order) && g.InPhase(ph, b) && g.ReachIn(k, a, b)
    ensures Precedes(order, a, b)
    decreases k
  {
    g.ReachesInPhase(k, a, b);
    assert a in order && b in order;
    var j :| 0 <= j < |order| && order[j] == b;
    if k == 0 {
      var i :| 0 <= i < |order| && order[i] == a;
      assert g.Edge(order[i], order[j]);
    } else {
      var c: nat :| g.ReachIn(k - 1, a, c) && g.Edge(c, b);
      ReachesPrecedes(g, ph, order, k - 1, a, c);
      var i, m :| 0 <= i < m < |order| && order[i] == a && order[m] == c;
      assert g.Edge(order[m], order[j]);
      assert 0 <= i < j < |order| && order[i] == a && order[j] == b;
    }
  }

  lemma LinearNotMutual(g: Graph, ph: nat, order: seq<nat>, i: nat, j: nat)
    requires g.WellFormed() && g.Linear(ph, order) && i <= j < |order|
    ensures !g.Reaches(order[j], order[i])
  {
    if g.Reaches(order[j], order[i]) {
      var k: nat :| g.ReachIn(k, order[j], order[i]);
      ReachesPrecedes(g, ph, order, k, order[j], order[i]);
    }
  }

  /** A schedule whose phases all have a linear order has no cycle. */
  lemma LinearAcyclic(g: Graph, orders: seq<seq<nat>>)
    requires g.WellFormed() && |orders| == PHASE_COUNT
    requires forall ph :: 0 <= ph < PHASE_COUNT ==> g.Linear(ph, orders[ph])
    ensures !g.Cyclic()
  {
    if g.Cyclic() {
      var a: nat :| g.Reaches(a, a);
      var k: nat :| g.ReachIn(k, a, a);
      g.ReachesInPhase(k, a, a);
      var ph := g.phase[a];
      assert a in orders[ph];
      var i :| 0 <= i < |orders[ph]| && orders[ph][i] == a;
      LinearNotMutual(g, ph, orders[ph], i, i);
    }
  }

  ghost predicate HasPredecessor(g: Graph, r: set<nat>, s: nat)
    requires g.WellFormed()
  {
    exists q: nat :: q in r && g.Edge(q, s)
  }

  /** A repetition-free backward walk inside r: its first system reaches all the others. */
  ghost predicate Trail(g: Graph, r: set<nat>, p: seq<nat>)
    requires g.WellFormed()
  {
    && |p| > 0
    && (forall i, j :: 0 <= i < j < |p| ==> p[i] != p[j])
    && (forall i :: 0 <= i < |p| ==> p[i] in r)
    && (forall i :: 0 < i < |p| ==> g.Reaches(p[0], p[i]))
  }

  lemma TrailExtend(g: Graph, r: set<nat>, p: seq<nat>, q: nat)
    requires g.WellFormed() && Trail(g, r, p) && q in r && q !in p && g.Edge(q, p[0])
    ensures Trail(g, r, [q] + p)
  {
    g.ReachesByEdge(q, p[0]);
    var longer := [q] + p;
    forall i | 0 < i < |longer| ensures g.Reaches(q, longer[i]) {
      if i > 1 {
        assert g.Reaches(p[0], p[i - 1]);
        g.ReachesTransitive(q, p[0], p[i - 1]);
      }
    }
  }

  lemma TrailCloses(g: Graph, r: set<nat>, p: seq<nat>, q: nat)
    requires g.WellFormed() && Trail(g, r, p) && q in p && g.Edge(q, p[0])
    ensures g.Reaches(q, q)
  {
    g.ReachesByEdge(q, p[0]);
    var i :| 0 <= i < |p| && p[i] == q;
    if i > 0 {
      g.ReachesTransitive(q, p[0], q);
    }
  }

  /** Walking backwards for ever inside a finite set closes a cycle. */
  lemma {:induction false} WalkBack(g: Graph, r: set<nat>, p: seq<nat>)
    requires g.WellFormed() && Trail(g, r, p)
    requires forall s {:trigger HasPredecessor(g, r, s)} :: s in r ==> HasPredecessor(g, r, s)
    ensures g.Cyclic()
    decreases |r| - |p|
  {
    assert HasPredecessor(g, r, p[0]);
    var q: nat :| q in r && g.Edge(q, p[0]);
    if q in p {
      TrailCloses(g, r, p, q);
    } else {
      TrailExtend(g, r, p, q);
      DistinctBounded([q] + p, r);
      WalkBack(g, r, [q] + p);
    }
  }

  /** Kahn's algorithm that runs out of ready systems early has found a cycle. */
  lemma StuckIsCyclic(g: Graph, ph: nat, order: seq<nat>)
    requires g.WellFormed() && !g.Covers(ph, order)
    requires forall i :: 0 <= i < |order| ==> g.InPhase(ph, order[i])
    requires forall s :: 0 <= s < |g.phase| ==> !g.Ready(ph, order, s)
    ensures g.Cyclic()
  {
    var r := set s: nat | s < |g.phase| && g.InPhase(ph, s) && s !in order;
    forall s | s in r ensures HasPredecessor(g, r, s) {
      assert !g.Ready(ph, order, s);
      var i :| 0 <= i < |g.preds[s]| && g.included[g.preds[s][i]] && g.preds[s][i] !in order;
      var q := g.preds[s][i];
      assert g.ValidEdge(q, s);
      assert q in r && g.Edge(q, s);
    }
    var s: nat :| s < |g.phase| && !(g.InPhase(ph, s) <==> s in order);
    assert Trail(g, r, [s]);
    WalkBack(g, r, [s]);
  }

  // --- forward edges ------------------------------------------------------------------------------

  /** h keeps every edge of g between the systems of a phase and adds only edges that point
      forward in `order`. */
  ghost predicate ForwardExtension(g: Graph, h: Graph, ph: nat, order: seq<nat>)
    requires g.WellFormed() && h.WellFormed()
  {
    && g.phase == h.phase && g.included == h.included
    && (forall a: nat, b: nat :: g.Edge(a, b) ==> h.Edge(a, b))
    && (forall a: nat, b: nat :: h.Edge(a, b) && h.InPhase(ph, b) ==> g.Edge(a, b) || Precedes(order, a, b))
  }

  /** Deriving the order again after adding forward edges changes nothing. */
  lemma ForwardKeepsKahn(g: Graph, h: Graph, ph: nat, order: seq<nat>)
    requires g.WellFormed() && h.WellFormed() && g.IsKahn(ph, order)
    requires ForwardExtension(g, h, ph, order)
    ensures h.IsKahn(ph, order)
  {
    KahnIsLinear(g, ph, order);
    forall i | 0 <= i < |order| ensures h.Lowest(ph, order[..i], order[i]) {
      var s := order[i];
      assert g.Lowest(ph, order[..i], s);
      forall k | 0 <= k < |h.preds[s]| && h.included[h.preds[s][k]] ensures h.preds[s][k] in order[..i] {
        var p := h.preds[s][k];
        assert h.ValidEdge(p, s);
        assert h.Edge(p, s);
        if Precedes(order, p, s) {
          var x, y :| 0 <= x < y < |order| && order[x] == p && order[y] == s;
          assert y == i;
          assert order[..i][x] == p;
        } else {
          assert g.Edge(p, s);
        }
      }
      forall r: nat | h.Ready(ph, order[..i], r) ensures s <= r {
        ReadyShrinks(g, h, ph, order[..i], r);
      }
    }
  }

  lemma ReadyShrinks(g: Graph, h: Graph, ph: nat, done: seq<nat>, r: nat)
    requires g.WellFormed() && h.WellFormed()
    requires g.phase == h.phase && g.included == h.included
    requires forall a: nat, b: nat :: g.Edge(a, b) ==> h.Edge(a, b)
    requires h.Ready(ph, done, r)
    ensures g.Ready(ph, done, r)
  {
    forall k | 0 <= k < |g.preds[r]| && g.included[g.preds[r][k]] ensures g.preds[r][k] in done {
      var p := g.preds[r][k];
      assert g.ValidEdge(p, r);
      assert g.Edge(p, r);
      assert h.Edge(p, r);
      var m :| 0 <= m < |h.preds[r]| && h.preds[r][m] == p;
    }
  }
}
