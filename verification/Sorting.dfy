/** The loops of Sort: Kahn's algorithm over one phase, with the reachability matrix filled on the
    way. `reach[a, b]` means that a path of edges leads from a to b. */
module Sorting {
  import opened Graphs
  import opened Lists
  import opened Orders

  /** How many entries of a predecessor list are included and not yet placed. */
  ghost function Remaining(preds: seq<nat>, included: seq<bool>, done: seq<nat>): nat
    requires forall i :: 0 <= i < |preds| ==> preds[i] < |included|
  {
    if preds == [] then 0
    else Remaining(preds[1..], included, done) + (if included[preds[0]] && preds[0] !in done then 1 else 0)
  }

  lemma {:induction false} RemainingZero(preds: seq<nat>, included: seq<bool>, done: seq<nat>)
    requires forall i :: 0 <= i < |preds| ==> preds[i] < |included|
    ensures Remaining(preds, included, done) == 0 <==>
            forall i :: 0 <= i < |preds| && included[preds[i]] ==> preds[i] in done
  {
    if preds != [] {
      RemainingZero(preds[1..], included, done);
      assert preds == [preds[0]] + preds[1..];
    }
  }

  lemma {:induction false} RemainingSame(preds: seq<nat>, included: seq<bool>, done: seq<nat>, current: nat)
    requires forall i :: 0 <= i < |preds| ==> preds[i] < |included|
    requires current !in preds
    ensures Remaining(preds, included, done + [current]) == Remaining(preds, included, done)
  {
    if preds != [] {
      RemainingSame(preds[1..], included, done, current);
    }
  }

  /** What is left while the entries equal to `current` are struck off one after another. */
  ghost function Striking(preds: seq<nat>, included: seq<bool>, done: seq<nat>, current: nat, i: nat): nat
    requires forall k :: 0 <= k < |preds| ==> preds[k] < |included|
    requires i <= |preds|
    decreases |preds|
  {
    if i == 0 then Remaining(preds, included, done)
    else Striking(preds[1..], included, done, current, i - 1)
         + (if included[preds[0]] && preds[0] !in done + [current] then 1 else 0)
  }

  lemma {:induction false} StrikeOne(preds: seq<nat>, included: seq<bool>, done: seq<nat>, current: nat, i: nat)
    requires forall k :: 0 <= k < |preds| ==> preds[k] < |included|
    requires i < |preds| && current < |included| && included[current] && current !in done
    ensures Striking(preds, included, done, current, i) ==
            Striking(preds, included, done, current, i + 1) + (if preds[i] == current then 1 else 0)
    decreases |preds|
  {
    if i > 0 {
      StrikeOne(preds[1..], included, done, current, i - 1);
    }
  }

  lemma {:induction false} StrikeAll(preds: seq<nat>, included: seq<bool>, done: seq<nat>, current: nat)
    requires forall k :: 0 <= k < |preds| ==> preds[k] < |included|
    ensures Striking(preds, included, done, current, |preds|) == Remaining(preds, included, done + [current])
  {
    if preds != [] {
      StrikeAll(preds[1..], included, done, current);
    }
  }

  lemma PlaceOne(g: Graph, ph: nat, placed: seq<nat>, current: nat)
    requires g.WellFormed() && g.Greedy(ph, placed) && g.Lowest(ph, placed, current)
    requires forall s :: s in placed && s < |g.phase| ==>
      forall k :: 0 <= k < |g.preds[s]| && g.included[g.preds[s][k]] ==> g.preds[s][k] in placed
    ensures g.Greedy(ph, placed + [current])
    ensures forall s :: s in placed + [current] && s < |g.phase| ==>
      forall k :: 0 <= k < |g.preds[s]| && g.included[g.preds[s][k]] ==> g.preds[s][k] in placed + [current]
    ensures |placed| < |g.phase|
  {
    GreedyExtend(g, ph, placed, current);
    GreedyDistinct(g, ph, placed + [current]);
    DistinctBounded(placed + [current], Below(|g.phase|));
  }

  /** The included systems of a phase with an index under n. */
  ghost function Members(g: Graph, ph: nat, n: nat): (r: set<nat>)
    requires g.WellFormed() && n <= |g.phase|
    ensures forall s: nat :: s in r <==> s < n && g.InPhase(ph, s)
  {
    if n == 0 then {} else Members(g, ph, n - 1) + (if g.InPhase(ph, n - 1) then {n - 1} else {})
  }

  ghost function MemberCount(g: Graph, ph: nat, n: nat): nat
    requires g.WellFormed() && n <= |g.phase|
  {
    if n == 0 then 0 else MemberCount(g, ph, n - 1) + (if g.InPhase(ph, n - 1) then 1 else 0)
  }

  lemma {:induction false} MembersCounted(g: Graph, ph: nat, n: nat)
    requires g.WellFormed() && n <= |g.phase|
    ensures |Members(g, ph, n)| == MemberCount(g, ph, n)
  {
    if n > 0 {
      MembersCounted(g, ph, n - 1);
      assert n - 1 !in Members(g, ph, n - 1);
    }
  }

  lemma {:induction false} DistinctCovers(p: seq<nat>, r: set<nat>)
    requires forall i, j :: 0 <= i < j < |p| ==> p[i] != p[j]
    requires forall i :: 0 <= i < |p| ==> p[i] in r
    ensures |p| == |r| <==> forall s :: s in r ==> s in p
  {
    if p == [] {
    } else {
      var last := |p| - 1;
      var q, x := p[..last], p[last];
      assert p == q + [x];
      forall i | 0 <= i < last ensures q[i] in r - {x} {}
      DistinctCovers(q, r - {x});
      forall s | s in r && s != x ensures s in p <==> s in q {}
      assert x !in q;
    }
  }

  /** Some placed system c leads into u, and t is c or comes before it. */
  ghost predicate Through(g: Graph, done: seq<nat>, t: nat, u: nat)
    requires g.WellFormed()
  {
    exists c: nat :: c in done && g.Edge(c, u) && (t == c || g.Reaches(t, c))
  }

  /** Once every predecessor of u is placed, Through is the closure. */
  lemma ThroughAll(g: Graph, done: seq<nat>, t: nat, u: nat)
    requires g.WellFormed()
    requires forall c: nat :: g.Edge(c, u) ==> c in done
    ensures Through(g, done, t, u) <==> g.Reaches(t, u)
  {
    if g.Reaches(t, u) {
      var c := g.LastEdge(t, u);
    }
    if Through(g, done, t, u) {
      var c: nat :| c in done && g.Edge(c, u) && (t == c || g.Reaches(t, c));
      if t == c { g.ReachesByEdge(t, u); } else { g.ReachesStep(t, c, u); }
    }
  }

  /** Entry (t, u) of the matrix after `current` has been placed behind `done`. */
  lemma ThroughExtend(g: Graph, done: seq<nat>, current: nat, t: nat, u: nat)
    requires g.WellFormed()
    ensures Through(g, done + [current], t, u) <==>
            Through(g, done, t, u) || (g.Edge(current, u) && (t == current || g.Reaches(t, current)))
  {
    if g.Edge(current, u) && (t == current || g.Reaches(t, current)) {
      assert current in done + [current];
    }
    if Through(g, done, t, u) {
      var c: nat :| c in done && g.Edge(c, u) && (t == c || g.Reaches(t, c));
      assert c in done + [current];
    }
  }

  ghost predicate Square(g: Graph, reach: array2<bool>)
  {
    reach.Length0 == |g.phase| && reach.Length1 == |g.phase|
  }

  /** Column `current` is final: it holds everything that comes before `current`. */
  ghost predicate ColumnClosed(g: Graph, reach: array2<bool>, current: nat)
    requires g.WellFormed()
    reads reach
  {
    Square(g, reach) && current < |g.phase| && forall t: nat :: t < |g.phase| ==> (reach[t, current] <==> g.Reaches(t, current))
  }

  /** The column of s takes over the column of current, and current itself. */
  method MarkReach(g: Graph, reach: array2<bool>, current: nat, s: nat)
    requires Square(g, reach) && current < |g.phase| && s < |g.phase| && current != s
    modifies reach
    ensures forall t: nat, u: nat {:trigger reach[t, u]} :: t < |g.phase| && u < |g.phase| ==>
      (reach[t, u] <==> old(reach[t, u]) || (u == s && (t == current || old(reach[t, current]))))
  {
    reach[current, s] := true;
    for t := 0 to |g.phase|
      invariant forall x: nat, u: nat {:trigger reach[x, u]} :: x < |g.phase| && u < |g.phase| ==>
        (reach[x, u] <==> old(reach[x, u]) || (u == s && (x == current || (x < t && old(reach[x, current])))))
    {
      if reach[t, current] {
        reach[t, s] := true;
      }
    }
  }

  /** The inner loop of Sort: strikes every entry `current` off the list of s. */
  method Relax(g: Graph, reach: array2<bool>, ph: nat, ghost done: seq<nat>, current: nat, s: nat, indegree: array<nat>, ready: seq<nat>)
    returns (ready': seq<nat>)
    requires g.WellFormed() && Square(g, reach) && indegree.Length == |g.phase| && s < |g.phase|
    requires g.InPhase(ph, s) && g.InPhase(ph, current) && current !in done
    requires ColumnClosed(g, reach, current)
    requires indegree[s] == Remaining(g.preds[s], g.included, done)
    modifies reach, indegree
    ensures indegree[s] == Remaining(g.preds[s], g.included, done + [current])
    ensures forall r :: 0 <= r < |g.phase| && r != s ==> indegree[r] == old(indegree[r])
    ensures forall t: nat, u: nat {:trigger reach[t, u]} :: t < |g.phase| && u < |g.phase| ==>
      (reach[t, u] <==> (old(reach[t, u]) || (u == s && Follows(g, current, t, u))))
    ensures ready' == if g.Edge(current, s) && indegree[s] == 0 then ready + [s] else ready
  {
    ready' := ready;
    var preds := g.preds[s];
    assert forall k :: 0 <= k < |preds| ==> g.ValidEdge(g.preds[s][k], s);
    ghost var seen := false;
    for i := 0 to |preds|
      invariant seen <==> exists k :: 0 <= k < i && preds[k] == current
      invariant indegree[s] == Striking(preds, g.included, done, current, i)
      invariant forall r :: 0 <= r < |g.phase| && r != s ==> indegree[r] == old(indegree[r])
      invariant forall t: nat, u: nat {:trigger reach[t, u]} :: t < |g.phase| && u < |g.phase| ==>
        (reach[t, u] <==> (old(reach[t, u]) || (seen && u == s && (t == current || g.Reaches(t, current)))))
      invariant ready' == if seen && indegree[s] == 0 then ready + [s] else ready
    {
      StrikeOne(preds, g.included, done, current, i);
      if preds[i] == current {
        MarkReach(g, reach, current, s);
        indegree[s] := indegree[s] - 1;
        seen := true;
        if indegree[s] == 0 {
          ready' := ready' + [s];
        }
      }
    }
    StrikeAll(preds, g.included, done, current);
  }

  ghost predicate Counted(g: Graph, ph: nat, done: seq<nat>, indegree: seq<nat>)
    requires g.WellFormed()
  {
    && |indegree| == |g.phase|
    && forall s :: 0 <= s < |g.phase| && g.InPhase(ph, s) ==>
         indegree[s] == Remaining(g.preds[s], g.included, done)
  }

  /** The ready list holds each ready system once. */
  ghost predicate Listed(g: Graph, ph: nat, done: seq<nat>, ready: seq<nat>)
    requires g.WellFormed()
  {
    && (forall i, j :: 0 <= i < j < |ready| ==> ready[i] != ready[j])
    && (forall s: nat :: s in ready <==> g.Ready(ph, done, s))
  }

  lemma ReadyIffCounted(g: Graph, ph: nat, done: seq<nat>, s: nat)
    requires g.WellFormed() && g.InPhase(ph, s)
    ensures Remaining(g.preds[s], g.included, done) == 0 && s !in done <==> g.Ready(ph, done, s)
  {
    assert forall k :: 0 <= k < |g.preds[s]| ==> g.ValidEdge(g.preds[s][k], s);
    RemainingZero(g.preds[s], g.included, done);
  }

  /** After `current` the ready systems are the old ones but `current`, and those whose last
      open entry it was. */
  lemma ReadyAfter(g: Graph, ph: nat, done: seq<nat>, current: nat, s: nat)
    requires g.WellFormed() && g.Ready(ph, done, current) && s < |g.phase|
    requires s in done ==> forall k :: 0 <= k < |g.preds[s]| && g.included[g.preds[s][k]] ==> g.preds[s][k] in done
    ensures g.Ready(ph, done + [current], s) <==>
            (g.Ready(ph, done, s) && s != current) ||
            (g.InPhase(ph, s) && g.Edge(current, s) && Remaining(g.preds[s], g.included, done + [current]) == 0)
    ensures g.Ready(ph, done, s) ==> !g.Edge(current, s)
  {
    if g.InPhase(ph, s) {
      ReadyIffCounted(g, ph, done + [current], s);
      ReadyIffCounted(g, ph, done, s);
      if current !in g.preds[s] {
        RemainingSame(g.preds[s], g.included, done, current);
      }
    }
  }

  /** Every placed system has its predecessors placed. */
  ghost predicate Settled(g: Graph, done: seq<nat>)
    requires g.WellFormed()
  {
    forall s :: s in done && s < |g.phase| ==>
      forall k :: 0 <= k < |g.preds[s]| && g.included[g.preds[s][k]] ==> g.preds[s][k] in done
  }

  /** The ready list while the loop of Settle stands at system n. */
  ghost predicate Awaiting(g: Graph, ph: nat, done: seq<nat>, current: nat, n: nat, ready: seq<nat>)
    requires g.WellFormed()
  {
    && (forall i, j :: 0 <= i < j < |ready| ==> ready[i] != ready[j])
    && (forall s: nat :: s in ready ==> Awaited(g, ph, done, current, n, s))
    && (forall s: nat :: Awaited(g, ph, done, current, n, s) ==> s in ready)
  }

  ghost predicate Awaited(g: Graph, ph: nat, done: seq<nat>, current: nat, n: nat, s: nat)
    requires g.WellFormed()
  {
    || (s != current && g.Ready(ph, done, s))
    || (s < n && g.Edge(current, s) && Remaining(g.preds[s], g.included, done + [current]) == 0)
  }

  lemma AwaitingStep(g: Graph, ph: nat, done: seq<nat>, current: nat, n: nat, ready: seq<nat>)
    requires g.WellFormed() && Settled(g, done) && g.Ready(ph, done, current) && n < |g.phase|
    requires Awaiting(g, ph, done, current, n, ready)
    ensures Awaiting(g, ph, done, current, n + 1,
              if g.Edge(current, n) && Remaining(g.preds[n], g.included, done + [current]) == 0
              then ready + [n] else ready)
  {
    ReadyAfter(g, ph, done, current, n);
    if g.Edge(current, n) {
      assert !Awaited(g, ph, done, current, n, n);
    }
  }

  lemma AwaitingEnd(g: Graph, ph: nat, done: seq<nat>, current: nat, ready: seq<nat>)
    requires g.WellFormed() && Settled(g, done) && g.Ready(ph, done, current)
    requires Awaiting(g, ph, done, current, |g.phase|, ready)
    ensures Listed(g, ph, done + [current], ready)
  {
    forall s: nat ensures s in ready <==> g.Ready(ph, done + [current], s) {
      assert s in ready <==> Awaited(g, ph, done, current, |g.phase|, s);
      if s < |g.phase| {
        ReadyAfter(g, ph, done, current, s);
      }
    }
  }

  /** The open entries while the loop of Settle stands at system n. */
  ghost predicate CountedTo(g: Graph, ph: nat, done: seq<nat>, current: nat, n: nat, indegree: seq<nat>)
    requires g.WellFormed()
  {
    && |indegree| == |g.phase|
    && forall s :: 0 <= s < |g.phase| && g.InPhase(ph, s) ==>
         indegree[s] == Remaining(g.preds[s], g.included, if s < n then done + [current] else done)
  }

  lemma CountedStep(g: Graph, ph: nat, done: seq<nat>, current: nat, n: nat, before: seq<nat>, after: seq<nat>)
    requires g.WellFormed() && n < |g.phase|
    requires CountedTo(g, ph, done, current, n, before) && |after| == |before|
    requires forall r :: 0 <= r < |before| && r != n ==> after[r] == before[r]
    requires g.InPhase(ph, n) ==> after[n] == Remaining(g.preds[n], g.included, done + [current])
    ensures CountedTo(g, ph, done, current, n + 1, after)
  {}

  ghost predicate Follows(g: Graph, current: nat, t: nat, u: nat)
    requires g.WellFormed()
  {
    g.Edge(current, u) && (t == current || g.Reaches(t, current))
  }

  /** The systems that follow `current` lose an open entry and gain its column. */
  method Settle(g: Graph, reach: array2<bool>, ph: nat, ghost done: seq<nat>, current: nat, indegree: array<nat>, ready: seq<nat>)
    returns (ready': seq<nat>)
    requires g.WellFormed() && Square(g, reach) && indegree.Length == |g.phase|
    requires g.Ready(ph, done, current) && Settled(g, done)
    requires ColumnClosed(g, reach, current)
    requires Counted(g, ph, done, indegree[..])
    requires Awaiting(g, ph, done, current, 0, ready)
    modifies reach, indegree
    ensures Counted(g, ph, done + [current], indegree[..])
    ensures forall s :: 0 <= s < |g.phase| && g.phase[s] != ph ==> indegree[s] == old(indegree[s])
    ensures forall t: nat, u: nat {:trigger reach[t, u]} :: t < |g.phase| && u < |g.phase| ==>
      (reach[t, u] <==> (old(reach[t, u]) || Follows(g, current, t, u)))
    ensures Listed(g, ph, done + [current], ready')
  {
    ready' := ready;
    for s := 0 to |g.phase|
      invariant CountedTo(g, ph, done, current, s, indegree[..])
      invariant forall r :: 0 <= r < |g.phase| && g.phase[r] != ph ==> indegree[r] == old(indegree[r])
      invariant forall t: nat, u: nat {:trigger reach[t, u]} :: t < |g.phase| && u < |g.phase| ==>
        (reach[t, u] <==> (old(reach[t, u]) || (u < s && Follows(g, current, t, u))))
      invariant Awaiting(g, ph, done, current, s, ready')
    {
      assert forall t: nat :: Follows(g, current, t, s) ==> g.Edge(current, s);
      AwaitingStep(g, ph, done, current, s, ready');
      ghost var before := indegree[..];
      if g.phase[s] == ph && g.included[s] {
        ready' := Relax(g, reach, ph, done, current, s, indegree, ready');
      } else {
        assert !g.Edge(current, s) by {
          assert forall k :: 0 <= k < |g.preds[s]| ==> g.ValidEdge(g.preds[s][k], s);
        }
      }
      CountedStep(g, ph, done, current, s, before, indegree[..]);
    }
    AwaitingEnd(g, ph, done, current, ready');
  }

  /** Takes the lowest registration index out of the ready list; the last entry fills the hole. */
  method TakeLowest(ready: seq<nat>) returns (current: nat, rest: seq<nat>)
    requires ready != []
    requires forall i, j :: 0 <= i < j < |ready| ==> ready[i] != ready[j]
    ensures current in ready && forall s :: s in ready ==> current <= s
    ensures forall i, j :: 0 <= i < j < |rest| ==> rest[i] != rest[j]
    ensures forall s: nat :: s in rest <==> s in ready && s != current
  {
    var best := 0;
    for i := 1 to |ready|
      invariant best < |ready| && forall k :: 0 <= k < i ==> ready[best] <= ready[k]
    {
      if ready[i] < ready[best] {
        best := i;
      }
    }
    current := ready[best];
    var last := |ready| - 1;
    rest := ready[best := ready[last]][..last];
    forall s: nat | s in ready && s != current ensures s in rest {
      var k :| 0 <= k < |ready| && ready[k] == s;
      assert k < last ==> rest[k] == s;
      assert k == last ==> rest[best] == s;
    }
  }

  /** The systems of the phase without open entries. */
  method CollectReady(g: Graph, ph: nat, indegree: array<nat>) returns (ready: seq<nat>)
    requires g.WellFormed() && indegree.Length == |g.phase|
    requires Counted(g, ph, [], indegree[..])
    ensures Listed(g, ph, [], ready)
  {
    ready := [];
    for s := 0 to |g.phase|
      invariant forall i, j :: 0 <= i < j < |ready| ==> ready[i] != ready[j]
      invariant forall x: nat :: x in ready <==> x < s && g.Ready(ph, [], x)
    {
      if g.phase[s] == ph && g.included[s] {
        ReadyIffCounted(g, ph, [], s);
        if indegree[s] == 0 {
          ready := ready + [s];
        }
      }
    }
  }

  /** The columns of a phase hold what the placed systems have contributed so far. */
  ghost predicate ColumnsThrough(g: Graph, reach: array2<bool>, ph: nat, done: seq<nat>)
    requires g.WellFormed()
    reads reach
  {
    Square(g, reach) && forall t: nat, u: nat {:trigger reach[t, u]} :: t < |g.phase| && u < |g.phase| && g.phase[u] == ph ==>
      (reach[t, u] <==> Through(g, done, t, u))
  }

  lemma ColumnReady(g: Graph, reach: array2<bool>, ph: nat, done: seq<nat>, current: nat)
    requires g.WellFormed() && ColumnsThrough(g, reach, ph, done) && g.Ready(ph, done, current)
    ensures ColumnClosed(g, reach, current)
  {
    forall t: nat | t < |g.phase| ensures reach[t, current] <==> g.Reaches(t, current) {
      ThroughAll(g, done, t, current);
    }
  }

  lemma FollowsPhase(g: Graph, current: nat, t: nat, u: nat)
    requires g.WellFormed() && Follows(g, current, t, u)
    ensures g.phase[u] == g.phase[current]
  {
    var k :| 0 <= k < |g.preds[u]| && g.preds[u][k] == current;
    assert g.ValidEdge(g.preds[u][k], u);
  }

  /** One round of the loop: `current` joins the order. */
  method Place(g: Graph, reach: array2<bool>, ph: nat, placed: seq<nat>, current: nat, indegree: array<nat>, rest: seq<nat>)
    returns (placed': seq<nat>, ready: seq<nat>)
    requires g.WellFormed() && indegree.Length == |g.phase|
    requires g.Greedy(ph, placed) && Settled(g, placed) && g.Lowest(ph, placed, current)
    requires Counted(g, ph, placed, indegree[..])
    requires Awaiting(g, ph, placed, current, 0, rest)
    requires ColumnsThrough(g, reach, ph, placed)
    modifies reach, indegree
    ensures placed' == placed + [current] && |placed| < |g.phase| && current !in placed
    ensures g.Greedy(ph, placed') && Settled(g, placed')
    ensures Counted(g, ph, placed', indegree[..])
    ensures Listed(g, ph, placed', ready)
    ensures ColumnsThrough(g, reach, ph, placed')
    ensures forall s :: 0 <= s < |g.phase| && g.phase[s] != ph ==> indegree[s] == old(indegree[s])
    ensures forall t: nat, u: nat {:trigger reach[t, u]} :: t < |g.phase| && u < |g.phase| && g.phase[u] != ph ==>
      reach[t, u] == old(reach[t, u])
  {
    ColumnReady(g, reach, ph, placed, current);
    ready := Settle(g, reach, ph, placed, current, indegree, rest);
    placed' := placed + [current];
    PlaceOne(g, ph, placed, current);
    forall t: nat, u: nat | t < |g.phase| && u < |g.phase|
      ensures g.phase[u] == ph ==> (reach[t, u] <==> Through(g, placed', t, u))
      ensures g.phase[u] != ph ==> reach[t, u] == old(reach[t, u])
    {
      ThroughExtend(g, placed, current, t, u);
      if Follows(g, current, t, u) {
        FollowsPhase(g, current, t, u);
      }
    }
  }

  /** The while loop of Sort for one phase: it places every included system of the phase, or
      stops early because of a cycle. */
  method SortPhase(g: Graph, reach: array2<bool>, ph: nat, indegree: array<nat>, index0: seq<nat>)
    returns (placed: seq<nat>, index: seq<nat>)
    requires g.WellFormed() && indegree.Length == |g.phase| == |index0|
    requires Counted(g, ph, [], indegree[..])
    requires ColumnsThrough(g, reach, ph, [])
    modifies reach, indegree
    ensures g.Greedy(ph, placed)
    ensures forall s: nat :: !g.Ready(ph, placed, s)
    ensures ColumnsThrough(g, reach, ph, placed)
    ensures |index| == |index0|
    ensures forall i :: 0 <= i < |placed| ==> placed[i] < |g.phase| && index[placed[i]] == i
    ensures forall s :: 0 <= s < |g.phase| && g.phase[s] != ph ==>
      indegree[s] == old(indegree[s]) && index[s] == index0[s]
    ensures forall t: nat, u: nat {:trigger reach[t, u]} :: t < |g.phase| && u < |g.phase| && g.phase[u] != ph ==>
      reach[t, u] == old(reach[t, u])
  {
    placed, index := [], index0;
    var ready := CollectReady(g, ph, indegree);
    while ready != []
      invariant g.Greedy(ph, placed) && Settled(g, placed)
      invariant Counted(g, ph, placed, indegree[..])
      invariant Listed(g, ph, placed, ready)
      invariant ColumnsThrough(g, reach, ph, placed)
      invariant |index| == |index0|
      invariant forall i :: 0 <= i < |placed| ==> placed[i] < |g.phase| && index[placed[i]] == i
      invariant forall s :: 0 <= s < |g.phase| && g.phase[s] != ph ==>
        indegree[s] == old(indegree[s]) && index[s] == index0[s]
      invariant forall t: nat, u: nat {:trigger reach[t, u]} :: t < |g.phase| && u < |g.phase| && g.phase[u] != ph ==>
        reach[t, u] == old(reach[t, u])
      decreases |g.phase| - |placed|
    {
      var current, rest := TakeLowest(ready);
      index := index[current := |placed|];
      placed, ready := Place(g, reach, ph, placed, current, indegree, rest);
    }
  }

  method ClearReach(g: Graph, reach: array2<bool>)
    requires Square(g, reach)
    modifies reach
    ensures forall t: nat, u: nat {:trigger reach[t, u]} :: t < |g.phase| && u < |g.phase| ==> !reach[t, u]
  {
    forall t: nat, u: nat | t < |g.phase| && u < |g.phase| {
      reach[t, u] := false;
    }
  }

  /** No entry of the phases from ph on has been struck yet. */
  ghost predicate Untouched(g: Graph, ph: nat, indegree: seq<nat>)
    requires g.WellFormed()
  {
    && |indegree| == |g.phase|
    && forall s :: 0 <= s < |g.phase| && ph <= g.phase[s] && g.included[s] ==>
         indegree[s] == Remaining(g.preds[s], g.included, [])
  }

  /** How many edges each system has from included systems of its phase. */
  method CountIndegrees(g: Graph) returns (indegree: array<nat>)
    requires g.WellFormed()
    ensures fresh(indegree) && indegree.Length == |g.phase|
    ensures Untouched(g, 0, indegree[..])
  {
    indegree := new nat[|g.phase|];
    for s := 0 to |g.phase|
      invariant forall r :: 0 <= r < s ==> indegree[r] == Remaining(g.preds[r], g.included, [])
    {
      var preds := g.preds[s];
      assert forall k :: 0 <= k < |preds| ==> g.ValidEdge(g.preds[s][k], s);
      var edges := 0;
      for i := 0 to |preds|
        invariant edges + Remaining(preds[i..], g.included, []) == Remaining(preds, g.included, [])
      {
        assert preds[i..][1..] == preds[i + 1..];
        edges := edges + (if g.included[preds[i]] then 1 else 0);
      }
      indegree[s] := edges;
    }
  }

  method CountPhase(g: Graph, ph: nat) returns (inPhase: nat)
    requires g.WellFormed()
    ensures inPhase == MemberCount(g, ph, |g.phase|)
  {
    inPhase := 0;
    for s := 0 to |g.phase|
      invariant inPhase == MemberCount(g, ph, s)
    {
      inPhase := inPhase + (if g.phase[s] == ph && g.included[s] then 1 else 0);
    }
  }

  /** The matrix is the transitive closure of the edges. */
  ghost predicate Closed(g: Graph, reach: array2<bool>)
    requires g.WellFormed()
    reads reach
  {
    Square(g, reach) && forall t: nat, u: nat {:trigger reach[t, u]} :: t < |g.phase| && u < |g.phase| ==>
      (reach[t, u] <==> g.Reaches(t, u))
  }

  /** The columns of the phases under ph are final, the others still empty. */
  ghost predicate ClosedBelow(g: Graph, reach: array2<bool>, ph: nat)
    requires g.WellFormed()
    reads reach
  {
    Square(g, reach) && forall t: nat, u: nat {:trigger reach[t, u]} :: t < |g.phase| && u < |g.phase| ==>
      (reach[t, u] <==> g.phase[u] < ph && g.Reaches(t, u))
  }

  /** mOrderIndex is the position within the phase. */
  ghost predicate Indexed(n: nat, orders: seq<seq<nat>>, index: seq<nat>)
    requires n <= |orders|
  {
    forall ph, i :: 0 <= ph < n && 0 <= i < |orders[ph]| ==>
      orders[ph][i] < |index| && index[orders[ph][i]] == i
  }

  lemma PhaseClosed(g: Graph, reach: array2<bool>, ph: nat, placed: seq<nat>)
    requires g.WellFormed() && ColumnsThrough(g, reach, ph, placed) && g.IsKahn(ph, placed)
    ensures forall t: nat, u: nat {:trigger reach[t, u]} :: t < |g.phase| && u < |g.phase| && g.phase[u] == ph ==>
      (reach[t, u] <==> g.Reaches(t, u))
  {
    forall t: nat, u: nat | t < |g.phase| && u < |g.phase| && g.phase[u] == ph
      ensures reach[t, u] <==> g.Reaches(t, u)
    {
      forall c: nat | g.Edge(c, u) ensures c in placed {
        assert g.ReachIn(0, c, u);
        g.ReachesInPhase(0, c, u);
      }
      ThroughAll(g, placed, t, u);
    }
  }

  /** Every included system was placed, or the edges have a cycle. */
  lemma Complete(g: Graph, ph: nat, placed: seq<nat>, inPhase: nat)
    requires g.WellFormed() && g.Greedy(ph, placed) && (forall s: nat :: !g.Ready(ph, placed, s))
    requires inPhase == MemberCount(g, ph, |g.phase|)
    ensures |placed| == inPhase ==> g.IsKahn(ph, placed)
    ensures |placed| != inPhase ==> g.Cyclic()
  {
    GreedyDistinct(g, ph, placed);
    MembersCounted(g, ph, |g.phase|);
    DistinctCovers(placed, Members(g, ph, |g.phase|));
    if |placed| != inPhase {
      StuckIsCyclic(g, ph, placed);
    }
  }

  lemma IndexedStep(g: Graph, ph: nat, orders: seq<seq<nat>>, placed: seq<nat>, before: seq<nat>, after: seq<nat>)
    requires g.WellFormed() && |orders| == PHASE_COUNT && ph < PHASE_COUNT
    requires |before| == |after| == |g.phase|
    requires forall p :: 0 <= p < ph ==> g.Greedy(p, orders[p])
    requires Indexed(ph, orders, before)
    requires forall i :: 0 <= i < |placed| ==> placed[i] < |after| && after[placed[i]] == i
    requires forall s :: 0 <= s < |g.phase| && g.phase[s] != ph ==> after[s] == before[s]
    ensures Indexed(ph + 1, orders[ph := placed], after)
  {
    forall p, i | 0 <= p < ph && 0 <= i < |orders[p]|
      ensures orders[p][i] < |after| && after[orders[p][i]] == i
    {
      GreedyDistinct(g, p, orders[p]);
    }
  }

  // --- one more edge --------------------------------------------------------------------------------

  /** t reaches b, so it reaches everything b reaches. */
  method JoinRow(g: Graph, reach: array2<bool>, t: nat, b: nat)
    requires Square(g, reach) && t < |g.phase| && b < |g.phase| && t != b
    modifies reach
    ensures forall x: nat, u: nat {:trigger reach[x, u]} :: x < |g.phase| && u < |g.phase| ==>
      (reach[x, u] <==> (old(reach[x, u]) || (x == t && (u == b || old(reach[b, u])))))
  {
    for u := 0 to |g.phase|
      invariant forall x: nat, v: nat {:trigger reach[x, v]} :: x < |g.phase| && v < |g.phase| ==>
        (reach[x, v] <==> (old(reach[x, v]) || (x == t && v < u && (v == b || old(reach[b, v])))))
    {
      if u == b || reach[b, u] {
        reach[t, u] := true;
      }
    }
  }

  /** What a new edge from a to b adds to the matrix. */
  method Join(g: Graph, reach: array2<bool>, a: nat, b: nat)
    requires Square(g, reach) && a < |g.phase| && b < |g.phase| && a != b && !reach[a, b] && !reach[b, a]
    modifies reach
    ensures forall t: nat, u: nat {:trigger reach[t, u]} :: t < |g.phase| && u < |g.phase| ==>
      (reach[t, u] <==> (old(reach[t, u]) || ((t == a || old(reach[t, a])) && (u == b || old(reach[b, u])))))
  {
    for t := 0 to |g.phase|
      invariant forall x: nat, u: nat {:trigger reach[x, u]} :: x < |g.phase| && u < |g.phase| ==>
        (reach[x, u] <==> (old(reach[x, u]) ||
          (x < t && (x == a || old(reach[x, a])) && (u == b || old(reach[b, u])))))
    {
      if t != a && !reach[t, a] {
        continue;
      }
      JoinRow(g, reach, t, b);
    }
  }

  /** Keeps the closure current when the edge from a to b is added. */
  method JoinClosed(g: Graph, reach: array2<bool>, a: nat, b: nat)
    requires g.WellFormed() && Closed(g, reach) && g.ValidEdge(a, b) && g.included[a] && g.included[b]
    requires !reach[a, b] && !reach[b, a]
    modifies reach
    ensures g.AddEdge(a, b).WellFormed() && Closed(g.AddEdge(a, b), reach)
  {
    Join(g, reach, a, b);
    g.AddEdgeEdges(a, b);
    ghost var h := g.AddEdge(a, b);
    forall t: nat, u: nat | t < |h.phase| && u < |h.phase| ensures reach[t, u] <==> h.Reaches(t, u) {
      g.AddEdgeReaches(a, b, t, u);
    }
  }
}
