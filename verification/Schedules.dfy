/** Schedule: registration, the per-phase order, the automatic edges and the conflict check. */
module Schedules {
  import opened Graphs
  import opened Orders
  import opened Results
  import opened Systems
  import opened Sorting
  import opened Automatic

  /** Two systems of one phase that conflict. */
  predicate ConflictPair(g: Graph, descs: seq<SystemDesc>, a: nat, b: nat)
    requires g.WellFormed() && |descs| == |g.phase|
  {
    && g.ValidEdge(a, b) && g.included[a] && g.included[b]
    && Conflicts(descs[a], descs[b])
  }

  /** Every conflicting pair is ordered one way or the other. */
  ghost predicate AllOrdered(g: Graph, h: Graph, descs: seq<SystemDesc>)
    requires g.WellFormed() && h.WellFormed() && |descs| == |g.phase|
  {
    forall a: nat, b: nat :: ConflictPair(g, descs, a, b) ==> h.Reaches(a, b) || h.Reaches(b, a)
  }

  /** What Build accepts, told without its algorithm: the explicit edges have no cycle, and every
      conflicting pair of a phase is ordered by the explicit edges together with all automatic
      pairs taken in the order the explicit edges give. */
  ghost predicate Buildable(g: Graph, descs: seq<SystemDesc>, automatic: set<nat>)
    requires g.WellFormed() && |descs| == |g.phase|
  {
    !g.Cyclic() && exists orders, full: Graph :: IsFullOrder(g, full, descs, automatic, orders) && AllOrdered(g, full, descs)
  }

  ghost predicate IsFullOrder(g: Graph, full: Graph, descs: seq<SystemDesc>, automatic: set<nat>, orders: seq<seq<nat>>)
    requires g.WellFormed()
  {
    full.WellFormed() && KahnOrders(g, orders) && IsFull(g, full, descs, automatic, orders)
  }

  /** The chain of edges Build adds decides the same pairs. */
  lemma BuildableByChain(g: Graph, h: Graph, descs: seq<SystemDesc>, automatic: set<nat>, orders: seq<seq<nat>>)
    requires g.WellFormed() && h.WellFormed() && |descs| == |g.phase| && KahnOrders(g, orders) && !g.Cyclic()
    requires Grown(g, h, descs, automatic, orders) && CoversAuto(h, descs, automatic, orders)
    ensures Buildable(g, descs, automatic) <==> AllOrdered(h, h, descs)
  {
    if Buildable(g, descs, automatic) {
      var os, full: Graph :| IsFullOrder(g, full, descs, automatic, os) && AllOrdered(g, full, descs);
      KahnOrdersUnique(g, os, orders);
      forall a: nat, b: nat | ConflictPair(h, descs, a, b) ensures h.Reaches(a, b) || h.Reaches(b, a) {
        assert ConflictPair(g, descs, a, b);
        GrownClosure(g, h, full, descs, automatic, orders, a, b);
        GrownClosure(g, h, full, descs, automatic, orders, b, a);
      }
    }
    if AllOrdered(h, h, descs) {
      FullGraphIsFull(g, descs, automatic, orders);
      var full := FullGraph(g, descs, automatic, orders);
      forall a: nat, b: nat | ConflictPair(g, descs, a, b) ensures full.Reaches(a, b) || full.Reaches(b, a) {
        assert ConflictPair(h, descs, a, b);
        GrownClosure(g, h, full, descs, automatic, orders, a, b);
        GrownClosure(g, h, full, descs, automatic, orders, b, a);
      }
      assert IsFullOrder(g, full, descs, automatic, orders);
    }
  }

  // --- what the automatic edges come to -----------------------------------------------------------

  predicate SamePhase(g: Graph, a: nat, b: nat)
    requires g.WellFormed()
  {
    a < |g.phase| && b < |g.phase| && a != b && g.phase[a] == g.phase[b] && g.included[a] && g.included[b]
  }

  /** Two included systems of a phase that meet on an automatic resource are ordered one way or the other. */
  ghost predicate MeetingsOrdered(h: Graph, descs: seq<SystemDesc>, automatic: set<nat>)
    requires h.WellFormed() && |descs| == |h.phase|
  {
    forall a: nat, b: nat :: SamePhase(h, a, b) && Meet(descs[a], descs[b], automatic) ==> h.Reaches(a, b) || h.Reaches(b, a)
  }

  /** No explicit edge is lost, and every other edge joins two such systems. */
  ghost predicate GainedMeetings(g: Graph, h: Graph, descs: seq<SystemDesc>, automatic: set<nat>)
    requires g.WellFormed() && h.WellFormed() && |descs| == |g.phase|
  {
    && (forall a: nat, b: nat :: g.Edge(a, b) ==> h.Edge(a, b))
    && (forall a: nat, b: nat :: h.Edge(a, b) && !g.Edge(a, b) ==> SamePhase(g, a, b) && Meet(descs[a], descs[b], automatic))
  }

  lemma OrderedAndGained(g: Graph, h: Graph, descs: seq<SystemDesc>, automatic: set<nat>, orders: seq<seq<nat>>)
    requires g.WellFormed() && h.WellFormed() && |descs| == |g.phase| && KahnOrders(g, orders)
    requires Grown(g, h, descs, automatic, orders) && CoversAuto(h, descs, automatic, orders)
    ensures MeetingsOrdered(h, descs, automatic) && GainedMeetings(g, h, descs, automatic)
  {
    forall a: nat, b: nat | SamePhase(h, a, b) && Meet(descs[a], descs[b], automatic) ensures h.Reaches(a, b) || h.Reaches(b, a) {
      MeetingPlaced(g, descs, automatic, orders, a, b);
    }
    forall a: nat, b: nat | h.Edge(a, b) && !g.Edge(a, b) ensures SamePhase(g, a, b) && Meet(descs[a], descs[b], automatic) {
      var ph :| 0 <= ph < |orders| && Precedes(orders[ph], a, b);
      GreedyDistinct(g, ph, orders[ph]);
      AutomaticIsMeeting(descs[a], descs[b], automatic);
    }
  }

  /** They stand in the order of their phase, one before the other. */
  lemma MeetingPlaced(g: Graph, descs: seq<SystemDesc>, automatic: set<nat>, orders: seq<seq<nat>>, a: nat, b: nat)
    requires g.WellFormed() && |descs| == |g.phase| && KahnOrders(g, orders)
    requires SamePhase(g, a, b) && Meet(descs[a], descs[b], automatic)
    ensures ForwardAuto(descs, automatic, orders, a, b) || ForwardAuto(descs, automatic, orders, b, a)
  {
    AutomaticIsMeeting(descs[a], descs[b], automatic);
    var r: nat :| MeetAt(descs[a], descs[b], automatic, r);
    assert MeetAt(descs[b], descs[a], automatic, r);
    AutomaticIsMeeting(descs[b], descs[a], automatic);
    var order := orders[g.phase[a]];
    assert g.InPhase(g.phase[a], a) && g.InPhase(g.phase[a], b);
    var i, j :| 0 <= i < |order| && 0 <= j < |order| && order[i] == a && order[j] == b;
    assert i < j ==> Precedes(order, a, b);
    assert j < i ==> Precedes(order, b, a);
  }

  /** Every conflicting pair is ordered by the explicit edges or meets on an automatic resource. */
  ghost predicate ConflictsCovered(g: Graph, descs: seq<SystemDesc>, automatic: set<nat>)
    requires g.WellFormed() && |descs| == |g.phase|
  {
    forall a: nat, b: nat :: ConflictPair(g, descs, a, b) ==>
      g.Reaches(a, b) || g.Reaches(b, a) || Meet(descs[a], descs[b], automatic)
  }

  /** Then Build accepts, unless the explicit edges have a cycle. */
  lemma CoveredIsBuildable(g: Graph, h: Graph, descs: seq<SystemDesc>, automatic: set<nat>, orders: seq<seq<nat>>)
    requires g.WellFormed() && h.WellFormed() && |descs| == |g.phase| && KahnOrders(g, orders) && !g.Cyclic()
    requires Grown(g, h, descs, automatic, orders) && CoversAuto(h, descs, automatic, orders)
    requires ConflictsCovered(g, descs, automatic)
    ensures Buildable(g, descs, automatic)
  {
    OrderedAndGained(g, h, descs, automatic, orders);
    forall x: nat, y: nat | g.Edge(x, y) ensures h.Reaches(x, y) { h.ReachesByEdge(x, y); }
    forall a: nat, b: nat | ConflictPair(h, descs, a, b) ensures h.Reaches(a, b) || h.Reaches(b, a) {
      assert ConflictPair(g, descs, a, b) && SamePhase(h, a, b);
      if k: nat :| g.ReachIn(k, a, b) {
        g.ReachesMonotone(h, k, a, b);
      } else if k: nat :| g.ReachIn(k, b, a) {
        g.ReachesMonotone(h, k, b, a);
      }
    }
    BuildableByChain(g, h, descs, automatic, orders);
  }

  /** Every written resource is automatic, and no two systems of a phase clash on a component type. */
  predicate OnlyAutomatic(g: Graph, descs: seq<SystemDesc>, automatic: set<nat>)
    requires g.WellFormed() && |descs| == |g.phase|
  {
    && (forall a :: 0 <= a < |descs| ==> descs[a].writeResources <= automatic)
    && (forall a, b :: 0 <= a < |descs| && 0 <= b < |descs| && SamePhase(g, a, b) ==>
          descs[a].write !! descs[b].write && descs[a].write !! descs[b].read)
  }

  /** With nothing else to clash on, every conflict is covered. */
  lemma OnlyAutomaticCovered(g: Graph, descs: seq<SystemDesc>, automatic: set<nat>)
    requires g.WellFormed() && |descs| == |g.phase| && OnlyAutomatic(g, descs, automatic)
    ensures ConflictsCovered(g, descs, automatic)
  {
    forall a: nat, b: nat | ConflictPair(g, descs, a, b) ensures Meet(descs[a], descs[b], automatic) {
      var x, y := descs[a], descs[b];
      assert SamePhase(g, a, b) && SamePhase(g, b, a);
      var r :| (r in x.writeResources && (r in y.writeResources || r in y.readResources)) || (r in y.writeResources && r in x.readResources);
      assert MeetAt(x, y, automatic, r);
    }
  }

  /** Each phase's order lists exactly its included systems, each once. */
  ghost predicate OrderLists(g: Graph, orders: seq<seq<nat>>)
    requires g.WellFormed()
  {
    && |orders| == PHASE_COUNT
    && (forall ph, s: nat {:trigger s in orders[ph]} :: 0 <= ph < PHASE_COUNT ==>
          (s in orders[ph] <==> s < |g.phase| && g.phase[s] == ph && g.included[s]))
    && (forall ph, i, j :: 0 <= ph < PHASE_COUNT && 0 <= i < j < |orders[ph]| ==> orders[ph][i] != orders[ph][j])
  }

  lemma KahnLists(g: Graph, orders: seq<seq<nat>>)
    requires g.WellFormed() && KahnOrders(g, orders)
    ensures OrderLists(g, orders)
  {
    forall ph | 0 <= ph < PHASE_COUNT ensures g.Linear(ph, orders[ph]) {
      KahnIsLinear(g, ph, orders[ph]);
    }
  }

  lemma BuildOutcome(g: Graph, h: Graph, descs: seq<SystemDesc>, automatic: set<nat>, orders: seq<seq<nat>>)
    requires g.WellFormed() && h.WellFormed() && |descs| == |g.phase| && KahnOrders(g, orders) && !g.Cyclic()
    requires Grown(g, h, descs, automatic, orders) && CoversAuto(h, descs, automatic, orders) && KahnOrders(h, orders)
    ensures OrderLists(h, orders)
    ensures ConflictsCovered(g, descs, automatic) || OnlyAutomatic(g, descs, automatic) ==> Buildable(g, descs, automatic)
  {
    hide *;
    KahnLists(h, orders);
    if OnlyAutomatic(g, descs, automatic) {
      OnlyAutomaticCovered(g, descs, automatic);
    }
    if ConflictsCovered(g, descs, automatic) {
      CoveredIsBuildable(g, h, descs, automatic, orders);
    }
  }

  lemma ConflictPlaced(g: Graph, descs: seq<SystemDesc>, orders: seq<seq<nat>>, a: nat, b: nat)
    requires g.WellFormed() && |descs| == |g.phase| && KahnOrders(g, orders) && ConflictPair(g, descs, a, b)
    ensures exists i, j :: 0 <= i < |orders[g.phase[a]]| && 0 <= j < |orders[g.phase[a]]| && i != j
              && orders[g.phase[a]][i] == a && orders[g.phase[a]][j] == b
  {
    assert a in orders[g.phase[a]] && b in orders[g.phase[a]];
  }

  /** The check of one pair of a phase: some path orders them, or their declarations do not clash. */
  ghost predicate PairChecked(reach: array2<bool>, descs: seq<SystemDesc>, a: nat, b: nat)
    requires reach.Length0 == reach.Length1 == |descs|
    reads reach
  {
    a < |descs| && b < |descs| && (Conflicts(descs[a], descs[b]) ==> reach[a, b] || reach[b, a])
  }

  ghost predicate Checked(reach: array2<bool>, descs: seq<SystemDesc>, order: seq<nat>, n: nat)
    requires reach.Length0 == reach.Length1 == |descs|
    reads reach
  {
    forall i, j :: 0 <= i < j < |order| && i < n ==> PairChecked(reach, descs, order[i], order[j])
  }

  /** One row of the check: the system at position i against every later one. */
  method CheckRow(reach: array2<bool>, descs: seq<SystemDesc>, order: seq<nat>, i: nat)
    returns (ok: bool, conflict: nat)
    requires reach.Length0 == reach.Length1 == |descs|
    requires forall k :: 0 <= k < |order| ==> order[k] < |descs|
    requires i < |order|
    ensures ok ==> forall j :: i < j < |order| ==> PairChecked(reach, descs, order[i], order[j])
    ensures !ok ==> i < conflict < |order| && !PairChecked(reach, descs, order[i], order[conflict])
  {
    for j := i + 1 to |order|
      invariant forall k :: i < k < j ==> PairChecked(reach, descs, order[i], order[k])
    {
      var a, b := order[i], order[j];
      if Conflicts(descs[a], descs[b]) && !reach[a, b] && !reach[b, a] {
        return false, j;
      }
    }
    return true, 0;
  }

  class Schedule {
    /** Phase, inclusion in the world and predecessors of every registered system. */
    var graph: Graph
    var descs: seq<SystemDesc>
    /** One list of system indices per phase. */
    var order: seq<seq<nat>>
    var orderIndex: seq<nat>
    /** reach[a, b]: there is a path of edges from a to b. */
    var reach: array2<bool>
    var built: bool
    var lastConflict: (nat, nat)

    ghost predicate Valid()
      reads this
    {
      && graph.WellFormed()
      && |graph.phase| == |descs| == |orderIndex|
      && |order| == PHASE_COUNT
      && forall s :: 0 <= s < |descs| ==> graph.phase[s] == descs[s].phase
    }

    constructor ()
      ensures Valid() && !built && descs == [] && fresh(reach)
      ensures forall ph :: 0 <= ph < PHASE_COUNT ==> order[ph] == []
    {
      graph, descs, orderIndex := Graph([], [], []), [], [];
      order := seq(PHASE_COUNT, _ => []);
      reach := new bool[0, 0];
      built, lastConflict := false, (0, 0);
    }

    /** Registers a system; `included` says whether the world's kind is among the system's. */
    method AddSystem(desc: SystemDesc, included: bool) returns (r: Result<nat>)
      requires Valid()
      modifies this`graph, this`descs, this`orderIndex
      ensures Valid()
      ensures old(built) ==> r == Fail(InvalidState)
      ensures !old(built) ==>
        (r.Ok? <==> desc.name != "" && desc.hasFunction && desc.phase < PHASE_COUNT)
      ensures !old(built) && r.Fail? ==> r.error == InvalidArgument
      ensures r.Fail? ==> graph == old(graph) && descs == old(descs) && orderIndex == old(orderIndex)
      ensures r.Ok? ==>
        && r.value == |old(descs)| && descs == old(descs) + [desc]
        && graph.phase == old(graph.phase) + [desc.phase]
        && graph.included == old(graph.included) + [included]
        && graph.preds == old(graph.preds) + [[]]
    {
      if built {
        return Fail(InvalidState);
      }
      if desc.name == "" || !desc.hasFunction {
        return Fail(InvalidArgument);
      }
      if desc.phase >= PHASE_COUNT {
        return Fail(InvalidArgument);
      }
      r := Ok(|descs|);
      descs := descs + [desc];
      orderIndex := orderIndex + [0];
      graph := Graph(graph.phase + [desc.phase], graph.included + [included], graph.preds + [[]]);
    }

    /** Adds the explicit edge, unless it is refused. */
    method AddOrder(before: nat, after: nat) returns (r: Result<()>)
      requires Valid()
      modifies this`graph
      ensures Valid()
      ensures old(built) ==> r == Fail(InvalidState)
      ensures !old(built) ==> (r.Ok? <==> old(graph).ValidEdge(before, after))
      ensures !old(built) && r.Fail? ==> r.error == InvalidArgument
      ensures graph == if r.Ok? then old(graph).AddEdge(before, after) else old(graph)
    {
      if built {
        return Fail(InvalidState);
      }
      if before >= |descs| || after >= |descs| || before == after {
        return Fail(InvalidArgument);
      }
      if descs[before].phase != descs[after].phase {
        return Fail(InvalidArgument);
      }
      ghost var explicit := graph;
      graph := graph.(preds := graph.preds[after := graph.preds[after] + [before]]);
      forall b, i | 0 <= b < |graph.preds| && 0 <= i < |graph.preds[b]|
        ensures graph.ValidEdge(graph.preds[b][i], b)
      {
        if b != after || i < |explicit.preds[b]| {
          assert graph.preds[b][i] == explicit.preds[b][i];
        }
      }
      r := Ok(());
    }

    /** One phase of Sort. */
    method SortStep(ph: nat, indegree: array<nat>) returns (ok: bool)
      requires Valid() && ph < PHASE_COUNT && indegree.Length == |descs|
      requires forall p :: 0 <= p < ph ==> graph.IsKahn(p, order[p])
      requires Indexed(ph, order, orderIndex)
      requires Untouched(graph, ph, indegree[..]) && ClosedBelow(graph, reach, ph)
      modifies this`order, this`orderIndex, reach, indegree
      ensures Valid()
      ensures ok ==> forall p :: 0 <= p < ph + 1 ==> graph.IsKahn(p, order[p])
      ensures ok ==> Indexed(ph + 1, order, orderIndex)
      ensures ok ==> Untouched(graph, ph + 1, indegree[..]) && ClosedBelow(graph, reach, ph + 1)
      ensures !ok ==> graph.Cyclic() && forall p :: 0 <= p < PHASE_COUNT ==> order[p] == []
    {
      var placed, index := SortPhase(graph, reach, ph, indegree, orderIndex);
      var inPhase := CountPhase(graph, ph);
      Complete(graph, ph, placed, inPhase);
      ok := |placed| == inPhase;
      if ok {
        PhaseClosed(graph, reach, ph, placed);
        IndexedStep(graph, ph, order, placed, orderIndex, index);
        order := order[ph := placed];
        orderIndex := index;
      } else {
        order := seq(PHASE_COUNT, _ => []);
        orderIndex := index;
      }
    }

    /** Derives the order of every phase and the closure of the edges; fails exactly on a cycle. */
    method Sort() returns (ok: bool)
      requires Valid() && Square(graph, reach)
      modifies this`order, this`orderIndex, reach
      ensures Valid()
      ensures ok <==> !graph.Cyclic()
      ensures ok ==> KahnOrders(graph, order) && Indexed(PHASE_COUNT, order, orderIndex) && Closed(graph, reach)
      ensures !ok ==> forall ph :: 0 <= ph < PHASE_COUNT ==> order[ph] == []
    {
      ClearReach(graph, reach);
      var indegree := CountIndegrees(graph);
      for ph := 0 to PHASE_COUNT
        invariant Valid() && Indexed(ph, order, orderIndex)
        invariant forall p :: 0 <= p < ph ==> graph.IsKahn(p, order[p])
        invariant Untouched(graph, ph, indegree[..]) && ClosedBelow(graph, reach, ph)
      {
        ok := SortStep(ph, indegree);
        if !ok {
          return;
        }
      }
      forall ph | 0 <= ph < PHASE_COUNT ensures graph.Linear(ph, order[ph]) {
        KahnIsLinear(graph, ph, order[ph]);
      }
      LinearAcyclic(graph, order);
      ok := true;
    }

    /** Looks at one pair of a phase, the later system at j, the earlier one at i. */
    method OrderPair(automatic: set<nat>, ph: nat, j: nat, i: nat, ghost explicit: Graph) returns (added: bool)
      requires Valid() && explicit.WellFormed() && KahnOrders(explicit, order) && Closed(graph, reach)
      requires Grown(explicit, graph, descs, automatic, order)
      requires ph < PHASE_COUNT && i < j < |order[ph]|
      requires PairsDone(graph, descs, automatic, order[ph], j, i + 1)
      modifies this`graph, reach
      ensures Valid() && Closed(graph, reach) && Grown(explicit, graph, descs, automatic, order)
      ensures PairsDone(graph, descs, automatic, order[ph], j, i)
      ensures ReachesMore(old(graph), graph)
      ensures !added ==> graph == old(graph)
    {
      var a, b := order[ph][i], order[ph][j];
      ForwardInPhase(explicit, order, ph, i, j);
      if reach[a, b] || reach[b, a] || !ConflictsAutomatically(descs[a], descs[b], automatic) {
        GrownKeepsOrders(explicit, graph, descs, automatic, order);
        LinearNotMutual(graph, ph, order[ph], i, j);
        return false;
      }
      JoinClosed(graph, reach, a, b);
      AddEdgeReachesMore(graph, a, b);
      GrownStep(explicit, graph, descs, automatic, order, ph, a, b);
      graph := graph.(preds := graph.preds[b := graph.preds[b] + [a]]);
      added := true;
    }

    /** Links the system at position j to the last one before it that it conflicts with and no path orders
        it after. */
    method OrderSystem(automatic: set<nat>, ph: nat, j: nat, ghost explicit: Graph) returns (added: bool)
      requires Valid() && explicit.WellFormed() && KahnOrders(explicit, order) && Closed(graph, reach)
      requires Grown(explicit, graph, descs, automatic, order)
      requires ph < PHASE_COUNT && 0 < j < |order[ph]|
      requires PairsDone(graph, descs, automatic, order[ph], j, j)
      modifies this`graph, reach
      ensures Valid() && Closed(graph, reach) && Grown(explicit, graph, descs, automatic, order)
      ensures PairsDone(graph, descs, automatic, order[ph], j, 0)
      ensures ReachesMore(old(graph), graph)
      ensures !added ==> graph == old(graph)
    {
      added := false;
      for i := j downto 0
        invariant Valid() && Closed(graph, reach) && Grown(explicit, graph, descs, automatic, order)
        invariant PairsDone(graph, descs, automatic, order[ph], j, i)
        invariant ReachesMore(old(graph), graph)
        invariant !added ==> graph == old(graph)
      {
        var one := OrderPair(automatic, ph, j, i, explicit);
        added := added || one;
      }
    }

    method OrderPhase(automatic: set<nat>, ph: nat, ghost explicit: Graph) returns (added: bool)
      requires Valid() && explicit.WellFormed() && KahnOrders(explicit, order) && Closed(graph, reach)
      requires Grown(explicit, graph, descs, automatic, order)
      requires ph < PHASE_COUNT && PhasesDone(graph, descs, automatic, order, ph)
      modifies this`graph, reach
      ensures Valid() && Closed(graph, reach) && Grown(explicit, graph, descs, automatic, order)
      ensures PhasesDone(graph, descs, automatic, order, ph + 1)
      ensures !added ==> graph == old(graph)
    {
      added := false;
      var j := 1;
      while j < |order[ph]|
        invariant 1 <= j
        invariant Valid() && Closed(graph, reach) && Grown(explicit, graph, descs, automatic, order)
        invariant PairsDone(graph, descs, automatic, order[ph], j, j)
        invariant ReachesMore(old(graph), graph)
        invariant !added ==> graph == old(graph)
      {
        var one := OrderSystem(automatic, ph, j, explicit);
        added := added || one;
        j := j + 1;
      }
    }

    /** Adds an edge for every automatically conflicting pair that is still unordered. */
    method OrderAutomatic(automatic: set<nat>) returns (added: bool)
      requires Valid() && KahnOrders(graph, order) && Closed(graph, reach)
      modifies this`graph, reach
      ensures Valid() && Closed(graph, reach)
      ensures Grown(old(graph), graph, descs, automatic, order)
      ensures CoversAuto(graph, descs, automatic, order)
      ensures MeetingsOrdered(graph, descs, automatic) && GainedMeetings(old(graph), graph, descs, automatic)
      ensures !added ==> graph == old(graph)
    {
      added := false;
      ghost var explicit := graph;
      GrownReflexive(graph, descs, automatic, order);
      for ph := 0 to PHASE_COUNT
        invariant Valid() && Closed(graph, reach) && Grown(explicit, graph, descs, automatic, order)
        invariant PhasesDone(graph, descs, automatic, order, ph)
        invariant !added ==> graph == old(graph)
      {
        var one := OrderPhase(automatic, ph, explicit);
        added := added || one;
      }
      PhasesDoneCover(graph, descs, automatic, order);
      OrderedAndGained(explicit, graph, descs, automatic, order);
    }

    /** Every conflicting pair must be ordered; otherwise the first one found is kept. */
    method CheckConflicts() returns (ok: bool)
      requires Valid() && KahnOrders(graph, order) && Closed(graph, reach)
      modifies this`lastConflict
      ensures ok <==> AllOrdered(graph, graph, descs)
      ensures !ok ==> Unordered(lastConflict)
    {
      for ph := 0 to PHASE_COUNT
        invariant forall p :: 0 <= p < ph ==> Checked(reach, descs, order[p], |order[p]|)
      {
        GreedyDistinct(graph, ph, order[ph]);
        for i := 0 to |order[ph]|
          invariant Checked(reach, descs, order[ph], i)
          invariant forall p :: 0 <= p < ph ==> Checked(reach, descs, order[p], |order[p]|)
        {
          var j;
          ok, j := CheckRow(reach, descs, order[ph], i);
          if !ok {
            lastConflict := (order[ph][i], order[ph][j]);
            return;
          }
        }
      }
      forall a: nat, b: nat | ConflictPair(graph, descs, a, b) ensures graph.Reaches(a, b) || graph.Reaches(b, a) {
        ConflictPlaced(graph, descs, order, a, b);
        assert Checked(reach, descs, order[graph.phase[a]], |order[graph.phase[a]]|);
        ConflictsSymmetric(descs[a], descs[b]);
      }
      ok := true;
    }

    /** A conflicting pair that no edges order. */
    ghost predicate Unordered(pair: (nat, nat))
      requires Valid()
      reads this
    {
      && ConflictPair(graph, descs, pair.0, pair.1)
      && !graph.Reaches(pair.0, pair.1) && !graph.Reaches(pair.1, pair.0)
    }

    /** Derives the order, adds the automatic edges and rejects unordered conflicts. */
    method Build(automatic: set<nat>) returns (r: Result<()>)
      requires Valid()
      modifies this
      ensures Valid() && descs == old(descs)
      ensures old(built) ==> r == Fail(InvalidState) && graph == old(graph) && order == old(order) && built
      ensures !old(built) ==> (r.Ok? <==> Buildable(old(graph), descs, automatic)) && built == r.Ok?
      ensures !old(built) && r.Ok? ==>
        && KahnOrders(old(graph), order) && KahnOrders(graph, order) && Indexed(PHASE_COUNT, order, orderIndex)
        && Closed(graph, reach)
        && Grown(old(graph), graph, descs, automatic, order) && CoversAuto(graph, descs, automatic, order)
        && AllOrdered(graph, graph, descs)
      ensures !old(built) && r.Ok? ==>
        && OrderLists(graph, order)
        && MeetingsOrdered(graph, descs, automatic) && GainedMeetings(old(graph), graph, descs, automatic)
      ensures !old(built) && !old(graph).Cyclic() && ConflictsCovered(old(graph), descs, automatic) ==> r.Ok?
      ensures !old(built) && OnlyAutomatic(old(graph), descs, automatic) ==> (r.Fail? <==> old(graph).Cyclic())
      ensures !old(built) && r.Fail? ==>
        && r.error == InvalidState && (forall ph :: 0 <= ph < PHASE_COUNT ==> order[ph] == [])
        && (old(graph).Cyclic() ==> graph == old(graph))
        && (!old(graph).Cyclic() ==> Unordered(lastConflict))
    {
      hide MeetingsOrdered, GainedMeetings, ConflictsCovered, OnlyAutomatic, OrderLists, Grown, CoversAuto, AllOrdered, KahnOrders,
        Closed, Indexed, Graph.Cyclic;
      if built {
        return Fail(InvalidState);
      }
      reach := new bool[|descs|, |descs|];
      var sorted := Sort();
      if !sorted {
        return Fail(InvalidState);
      }
      var added := OrderAutomatic(automatic);
      GrownKeepsOrders(old(graph), graph, descs, automatic, order);
      if added {
        ghost var before := order;
        var resorted := Sort();
        KahnOrdersUnique(graph, before, order);
      }
      BuildableByChain(old(graph), graph, descs, automatic, order);
      BuildOutcome(old(graph), graph, descs, automatic, order);
      var ok := CheckConflicts();
      if !ok {
        order := seq(PHASE_COUNT, _ => []);
        return Fail(InvalidState);
      }
      built := true;
      r := Ok(());
    }
  }
}
